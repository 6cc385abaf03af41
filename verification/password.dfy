/** `RegisterUserView.generate_password`: `length - 2` random letters, then one
    character each from `letters.upper()`, the digits and the punctuation, then a
    random shuffle. The random draws are parameters: the indices `random.choices`
    and `random.choice` pick, and the swap positions CPython's `random.shuffle`
    draws (for i from n - 1 down to 1 it swaps position i with a position j <= i). */
module Password {
  /** `string.ascii_lowercase` (a to z), `string.ascii_uppercase` (A to Z),
      `string.ascii_letters`, `string.digits` and `string.punctuation`. */
  const Lowercase: string := Run('a', 26)
  const Uppercase: string := Run('A', 26)
  const AsciiLetters: string := Lowercase + Uppercase
  const Digits: string := "0123456789"
  const Punctuation: string := "!\"#$%&'()*+,-./:;<=>?@[\\]^_`{|}~"

  /** The `n` consecutive characters starting at `first`. */
  function Run(first: char, n: nat): (s: string)
    requires first as int + n <= 0xD800
    ensures |s| == n && forall i :: 0 <= i < n ==> s[i] as int == first as int + i
  {
    if n == 0 then [] else Run(first, n - 1) + [(first as int + n - 1) as char]
  }

  /** Every character `generate_password` can draw. */
  const Alphabet: string := AsciiLetters + Digits + Punctuation

  /** `str.upper()` on ASCII text. */
  function UpperChar(c: char): char {
    if 'a' <= c <= 'z' then (c as int - 'a' as int + 'A' as int) as char else c
  }

  function Upper(s: string): (u: string)
    ensures |u| == |s| && forall i :: 0 <= i < |s| ==> u[i] == UpperChar(s[i])
  {
    if s == [] then [] else [UpperChar(s[0])] + Upper(s[1..])
  }

  /** `ascii_letters.upper()` is the upper-case alphabet twice over. */
  lemma UpperLetters()
    ensures Upper(AsciiLetters) == Uppercase + Uppercase
  {
    var u := Upper(AsciiLetters);
    forall i | 0 <= i < |AsciiLetters|
      ensures u[i] == (Uppercase + Uppercase)[i]
    {
      if i < 26 {
        assert AsciiLetters[i] == Lowercase[i];
        assert UpperChar(Lowercase[i]) == Uppercase[i];
      } else {
        assert AsciiLetters[i] == Uppercase[i - 26];
        assert UpperChar(Uppercase[i - 26]) == Uppercase[i - 26];
      }
    }
  }

  /** The draws one call consumes. */
  datatype Draws = Draws(letters: seq<nat>, upper: nat, digit: nat, special: nat, swaps: seq<nat>)

  /** `random.choices(letters, k=length - 2)` draws nothing when `length - 2` is not positive. */
  function LetterCount(length: int): nat {
    if length >= 2 then length - 2 else 0
  }

  /** The draws are what the random module can return for a call with `length`:
      indices within their alphabets, and one swap position j <= i for each i from
      n - 1 down to 1, listed in that order. */
  predicate DrawsFit(length: int, d: Draws) {
    |d.letters| == LetterCount(length) &&
    (forall i :: 0 <= i < |d.letters| ==> d.letters[i] < |AsciiLetters|) &&
    d.upper < 2 * |Uppercase| && d.digit < |Digits| && d.special < |Punctuation| &&
    |d.swaps| == LetterCount(length) + 2 &&
    forall m :: 0 <= m < |d.swaps| ==> d.swaps[m] <= |d.swaps| - m
  }

  /** The text before the shuffle. */
  function Unshuffled(length: int, d: Draws): (s: string)
    requires DrawsFit(length, d)
    ensures |s| == LetterCount(length) + 3
  {
    UpperLetters();
    seq(|d.letters|, i requires 0 <= i < |d.letters| => AsciiLetters[d.letters[i]]) +
    [Upper(AsciiLetters)[d.upper], Digits[d.digit], Punctuation[d.special]]
  }

  function Swap(s: string, i: nat, j: nat): (r: string)
    requires i < |s| && j < |s|
    ensures |r| == |s| && r[i] == s[j] && r[j] == s[i]
    ensures forall n :: 0 <= n < |s| && n != i && n != j ==> r[n] == s[n]
  {
    s[i := s[j]][j := s[i]]
  }

  lemma SwapPermutes(s: string, i: nat, j: nat)
    requires i < |s| && j < |s|
    ensures multiset(Swap(s, i, j)) == multiset(s)
  {
    if i != j {
      var t := s[i := s[j]];
      assert multiset(t) == multiset(s) - multiset{s[i]} + multiset{s[j]};
      assert multiset(t[j := s[i]]) == multiset(t) - multiset{t[j]} + multiset{s[i]};
    }
  }

  /** The shuffle's remaining steps: positions `i` down to 1 each swapped with the
      next draw. */
  function ShuffleDown(s: string, i: nat, swaps: seq<nat>): (r: string)
    requires i < |s| && |swaps| == i
    requires forall m :: 0 <= m < |swaps| ==> swaps[m] <= i - m
    ensures |r| == |s| && multiset(r) == multiset(s)
    decreases i
  {
    if i == 0 then s
    else
      SwapPermutes(s, i, swaps[0]);
      ShuffleDown(Swap(s, i, swaps[0]), i - 1, swaps[1..])
  }

  /** `random.shuffle` of the whole list. */
  function Shuffle(s: string, swaps: seq<nat>): (r: string)
    requires |s| >= 1 && |swaps| == |s| - 1
    requires forall m :: 0 <= m < |swaps| ==> swaps[m] <= |swaps| - m
    ensures |r| == |s| && multiset(r) == multiset(s)
  {
    ShuffleDown(s, |s| - 1, swaps)
  }

  /** `generate_password(length)` */
  function GeneratePassword(length: int, d: Draws): (p: string)
    requires DrawsFit(length, d)
    ensures multiset(p) == multiset(Unshuffled(length, d))
    ensures |p| == if length >= 2 then length + 1 else 3
  {
    Shuffle(Unshuffled(length, d), d.swaps)
  }

  /** Before the shuffle: the upper-case letter, the digit and the punctuation
      character follow the letters, and every character is from the alphabet. */
  lemma UnshuffledComposition(length: int, d: Draws)
    requires DrawsFit(length, d)
    ensures var s := Unshuffled(length, d);
      var n := |d.letters|;
      s[n] in Uppercase && s[n + 1] in Digits && s[n + 2] in Punctuation &&
      forall k :: 0 <= k < |s| ==> s[k] in Alphabet
  {
    var s := Unshuffled(length, d);
    var n := |d.letters|;
    UpperLetters();
    assert s[n] == (Uppercase + Uppercase)[d.upper];
    forall k | 0 <= k < |s|
      ensures s[k] in Alphabet
    {
      if k < n {
        assert s[k] == AsciiLetters[d.letters[k]];
      }
    }
  }

  /** A character at position k of `s` occurs somewhere in a permutation of `s`. */
  lemma InMultiset(p: string, s: string, k: nat)
    requires multiset(p) == multiset(s) && k < |s|
    ensures exists i :: 0 <= i < |p| && p[i] == s[k]
  {
    assert s[k] in multiset(p);
  }

  /** A permutation of text drawn from the alphabet is drawn from the alphabet. */
  lemma PermutationInAlphabet(p: string, s: string)
    requires multiset(p) == multiset(s)
    requires forall k :: 0 <= k < |s| ==> s[k] in Alphabet
    ensures forall i :: 0 <= i < |p| ==> p[i] in Alphabet
  {
    forall i | 0 <= i < |p|
      ensures p[i] in Alphabet
    {
      assert p[i] in multiset(s);
      var k :| 0 <= k < |s| && s[k] == p[i];
    }
  }

  /** What every generated password holds: one upper-case letter, one digit and one
      punctuation character at least, and nothing from outside the alphabet. */
  lemma PasswordComposition(length: int, d: Draws)
    requires DrawsFit(length, d)
    ensures var p := GeneratePassword(length, d);
      (exists i :: 0 <= i < |p| && p[i] in Uppercase) &&
      (exists i :: 0 <= i < |p| && p[i] in Digits) &&
      (exists i :: 0 <= i < |p| && p[i] in Punctuation) &&
      forall i :: 0 <= i < |p| ==> p[i] in Alphabet
  {
    var p := GeneratePassword(length, d);
    var s := Unshuffled(length, d);
    var n := |d.letters|;
    UnshuffledComposition(length, d);
    InMultiset(p, s, n);
    InMultiset(p, s, n + 1);
    InMultiset(p, s, n + 2);
    PermutationInAlphabet(p, s);
  }

  /** The default call yields nine characters, not eight. */
  lemma DefaultLength(d: Draws)
    requires DrawsFit(8, d)
    ensures |GeneratePassword(8, d)| == 9
  {
  }
}
