/** The optional value used wherever the system may find nothing (a `.first()` on an
    empty query, a missing dictionary entry, an unparsable number). */
module Options {

  datatype Option<+T> = None | Some(value: T)
}
