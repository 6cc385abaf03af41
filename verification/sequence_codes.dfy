/** The human-readable numbers the backend hands out (category, sub-category and
    product codes, order, order-item and customer numbers). Each is a prefix setting
    followed by the decimal value of a counter setting, and the counter is written
    back incremented by one. All six sites follow the same steps, modelled once. */
module SequenceCodes {
  import opened Options
  import opened Decimal

  /** The active settings, by name. */
  type Settings = map<string, string>

  /** The names of a prefix setting and of the counter setting paired with it. */
  datatype CodeSetting = CodeSetting(text: string, sequence: string)

  const CategoryCode := CodeSetting("product_category_code", "product_category_sequence")
  const SubCategoryCode := CodeSetting("product_sub_category_code", "product_sub_category_sequence")
  const ProductCode := CodeSetting("product_code", "prod_code_sequence")
  const OrderNumber := CodeSetting("order_number_text", "order_number_sequence")
  const OrderItemNumber := CodeSetting("order_item_number_text", "order_item_number_sequence")
  const CustomerNumber := CodeSetting("customer_number_text", "customer_number_value")

  const AllCodeSettings: seq<CodeSetting> :=
    [CategoryCode, SubCategoryCode, ProductCode, OrderNumber, OrderItemNumber, CustomerNumber]

  /** Both settings exist and the counter is something `int()` accepts; otherwise
      the source fails on `None.value` or on `int()`. */
  predicate CanIssue(s: Settings, cs: CodeSetting) {
    cs.text in s && cs.sequence in s && ParseInt(s[cs.sequence]).Some?
  }

  /** The counter's current value. */
  function Counter(s: Settings, cs: CodeSetting): int
    requires CanIssue(s, cs)
  {
    ParseInt(s[cs.sequence]).value
  }

  datatype Issued = Issued(code: string, settings: Settings)

  /** Read the prefix and the counter, store the counter plus one, and return the
      prefix followed by the counter's old value. */
  function Issue(s: Settings, cs: CodeSetting): (r: Issued)
    requires CanIssue(s, cs)
    ensures r.settings.Keys == s.Keys && CanIssue(r.settings, cs)
    ensures Counter(r.settings, cs) == Counter(s, cs) + 1
    ensures forall key :: key in s && key != cs.sequence ==> r.settings[key] == s[key]
    ensures Canonical(r.settings[cs.sequence])
    ensures Canonical(s[cs.sequence]) ==> r.code == s[cs.text] + s[cs.sequence]
  {
    var n := Counter(s, cs);
    IntRoundTrip(n + 1);
    IntToDecimalCanonical(n + 1);
    StoredForm(s[cs.sequence]);
    Issued(s[cs.text] + IntToDecimal(n), s[cs.sequence := IntToDecimal(n + 1)])
  }

  /** A counter in the form `str()` writes is read back as the same text. */
  lemma StoredForm(v: string)
    ensures Canonical(v) ==> ParseInt(v).Some? && IntToDecimal(ParseInt(v).value) == v
  {
    if Canonical(v) {
      CanonicalRoundTrip(v);
    }
  }

  /** The code is the prefix followed by the decimal form of the counter's old value. */
  lemma IssueCode(s: Settings, cs: CodeSetting)
    requires CanIssue(s, cs)
    ensures var code := Issue(s, cs).code;
      |code| > |s[cs.text]| && code[..|s[cs.text]|] == s[cs.text] &&
      ParseInt(code[|s[cs.text]|..]) == Some(Counter(s, cs))
  {
    var code := Issue(s, cs).code;
    var prefix := s[cs.text];
    assert code == prefix + IntToDecimal(Counter(s, cs));
    assert code[|prefix|..] == IntToDecimal(Counter(s, cs));
    IntRoundTrip(Counter(s, cs));
  }

  datatype Run = Run(codes: seq<string>, settings: Settings)

  /** `m` issues in a row from the same pair of settings. */
  function IssueMany(s: Settings, cs: CodeSetting, m: nat): (r: Run)
    requires CanIssue(s, cs) && cs.text != cs.sequence
    ensures |r.codes| == m && r.settings.Keys == s.Keys && CanIssue(r.settings, cs)
    ensures Counter(r.settings, cs) == Counter(s, cs) + m
    ensures forall key :: key in s && key != cs.sequence ==> r.settings[key] == s[key]
    decreases m
  {
    if m == 0 then Run([], s)
    else
      var first := Issue(s, cs);
      var rest := IssueMany(first.settings, cs, m - 1);
      Run([first.code] + rest.codes, rest.settings)
  }

  /** The code of one issue, unfolded. */
  lemma IssuedCode(s: Settings, cs: CodeSetting)
    requires CanIssue(s, cs)
    ensures Issue(s, cs).code == s[cs.text] + IntToDecimal(Counter(s, cs))
  {
  }

  /** The i-th code of a run is the prefix followed by the counter's value plus i. */
  lemma {:induction false} IssueManyCode(s: Settings, cs: CodeSetting, m: nat, i: nat)
    requires CanIssue(s, cs) && cs.text != cs.sequence && i < m
    ensures IssueMany(s, cs, m).codes[i] == s[cs.text] + IntToDecimal(Counter(s, cs) + i)
    decreases m
  {
    var first := Issue(s, cs);
    var rest := IssueMany(first.settings, cs, m - 1);
    var code := IssueMany(s, cs, m).codes[i];
    if i == 0 {
      assert code == first.code;
      IssuedCode(s, cs);
      assert code == s[cs.text] + IntToDecimal(Counter(s, cs));
    } else {
      assert code == rest.codes[i - 1];
      IssueManyCode(first.settings, cs, m - 1, i - 1);
      assert first.settings[cs.text] == s[cs.text];
      assert Counter(first.settings, cs) + (i - 1) == Counter(s, cs) + i;
      assert code == s[cs.text] + IntToDecimal(Counter(s, cs) + i);
    }
  }

  lemma IssueManyCodes(s: Settings, cs: CodeSetting, m: nat)
    requires CanIssue(s, cs) && cs.text != cs.sequence
    ensures forall i :: 0 <= i < m ==> IssueMany(s, cs, m).codes[i] == s[cs.text] + IntToDecimal(Counter(s, cs) + i)
  {
    forall i | 0 <= i < m
      ensures IssueMany(s, cs, m).codes[i] == s[cs.text] + IntToDecimal(Counter(s, cs) + i)
    {
      IssueManyCode(s, cs, m, i);
    }
  }

  lemma PrefixCancel(prefix: string, x: string, y: string)
    requires prefix + x == prefix + y
    ensures x == y
  {
    assert x == (prefix + x)[|prefix|..];
    assert y == (prefix + y)[|prefix|..];
  }

  /** Codes issued in a row from one pair of settings never repeat. */
  lemma IssueManyDistinct(s: Settings, cs: CodeSetting, m: nat)
    requires CanIssue(s, cs) && cs.text != cs.sequence
    ensures forall i, j :: 0 <= i < j < m ==> IssueMany(s, cs, m).codes[i] != IssueMany(s, cs, m).codes[j]
  {
    var r := IssueMany(s, cs, m);
    var prefix, n := s[cs.text], Counter(s, cs);
    forall i, j | 0 <= i < j < m
      ensures r.codes[i] != r.codes[j]
    {
      IssueManyCode(s, cs, m, i);
      IssueManyCode(s, cs, m, j);
      if r.codes[i] == r.codes[j] {
        PrefixCancel(prefix, IntToDecimal(n + i), IntToDecimal(n + j));
        IntToDecimalInjective(n + i, n + j);
      }
    }
  }

  /** The six sites use twelve different settings. */
  lemma CodeSettingsDistinct()
    ensures forall i :: 0 <= i < |AllCodeSettings| ==> AllCodeSettings[i].text != AllCodeSettings[i].sequence
    ensures forall i, j :: 0 <= i < j < |AllCodeSettings| ==>
      AllCodeSettings[i].sequence != AllCodeSettings[j].sequence &&
      AllCodeSettings[i].sequence != AllCodeSettings[j].text &&
      AllCodeSettings[i].text != AllCodeSettings[j].sequence
  {
  }
}
