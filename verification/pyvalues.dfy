/** The request values modelled (JSON null, booleans, integers and strings) and the few Python operations the
    views apply to them: `dict.get`, `str(v)`, and comparison with `True` / `False`. */
module PyValues {
  import opened Decimal

  datatype Value = Null | Bool(b: bool) | Int(i: int) | Str(s: string)

  type Request = map<string, Value>

  /** `request.data.get(key)`: a missing key reads as None. */
  function Get(r: Request, key: string): Value {
    if key in r then r[key] else Null
  }

  /** Python's `str(v)`. */
  function PyStr(v: Value): string {
    match v
    case Null => "None"
    case Bool(b) => if b then "True" else "False"
    case Int(i) => IntToDecimal(i)
    case Str(s) => s
  }

  /** Python's `v == True`: booleans compare as integers, so `1 == True`. */
  predicate EqualsTrue(v: Value) {
    v == Bool(true) || v == Int(1)
  }

  /** Python's `v == False`, which also holds of `0`. */
  predicate EqualsFalse(v: Value) {
    v == Bool(false) || v == Int(0)
  }
}
