/**
  Value resolution: how one parameter record and one dataset descriptor
  become a display row (formatIdx, capitalizeFirstLetter, formatParamValue
  and processConfigData of the search component).
 */
module Resolve {
  import opened Wrappers
  import opened JsText
  import opened Records

  /** Array.prototype.join: the parts in order with `sep` between neighbours. */
  function Join(parts: seq<string>, sep: string): (r: string)
    ensures parts == [] ==> r == ""
    ensures |parts| == 1 ==> r == parts[0]
    decreases |parts|
  {
    if |parts| == 0 then ""
    else if |parts| == 1 then parts[0]
    else parts[0] + sep + Join(parts[1..], sep)
  }

  /** Joining a concatenation puts one separator between the two joined halves. */
  lemma {:induction false} JoinAppend(a: seq<string>, b: seq<string>, sep: string)
    requires a != [] && b != []
    ensures Join(a + b, sep) == Join(a, sep) + sep + Join(b, sep)
    decreases |a|
  {
    if |a| == 1 {
      assert (a + b)[1..] == b;
    } else {
      JoinAppend(a[1..], b, sep);
      assert (a + b)[1..] == a[1..] + b;
    }
  }

  /** The decimal renderings of an array's numbers, element by element. */
  function IntStrings(xs: seq<int>): (r: seq<string>)
    ensures |r| == |xs|
    ensures forall i :: 0 <= i < |xs| ==> r[i] == IntToString(xs[i])
  {
    seq(|xs|, i requires 0 <= i < |xs| => IntToString(xs[i]))
  }

  /** `idx.join(", ")` on an array of numbers. */
  function JoinInts(xs: seq<int>): string {
    Join(IntStrings(xs), ", ")
  }

  /** Joining two non-empty arrays of numbers: the two joins with one ", " between them. */
  lemma JoinIntsAppend(a: seq<int>, b: seq<int>)
    requires a != [] && b != []
    ensures JoinInts(a + b) == JoinInts(a) + ", " + JoinInts(b)
  {
    assert IntStrings(a + b) == IntStrings(a) + IntStrings(b);
    JoinAppend(IntStrings(a), IntStrings(b), ", ");
  }

  /** A display in square brackets. */
  function Bracket(s: string): string {
    "[" + s + "]"
  }

  /** formatIdx: the index in square brackets, an array's elements separated by ", ". */
  function FormatIdx(idx: Index): (r: string)
    ensures |r| >= 2 && r[0] == '[' && r[|r| - 1] == ']'
    ensures idx.Scalar? ==> r[1..|r| - 1] == IntToString(idx.n)
    ensures idx.List? ==> r[1..|r| - 1] == JoinInts(idx.items)
  {
    match idx
    case List(xs) => Bracket(JoinInts(xs))
    case Scalar(n) => Bracket(IntToString(n))
  }

  /** A scalar index displays exactly as the one-element array holding it. */
  lemma FormatIdxScalarIsSingleton(n: int)
    ensures FormatIdx(Scalar(n)) == FormatIdx(List([n]))
  {
  }

  /** Splitting an array index splits its display at one ", " separator, keeping element order. */
  lemma FormatIdxSplit(a: seq<int>, b: seq<int>)
    requires a != [] && b != []
    ensures FormatIdx(List(a + b)) == Bracket(JoinInts(a) + ", " + JoinInts(b))
  {
    JoinIntsAppend(a, b);
  }

  /** The displays of a scalar 5 and of an empty array. */
  lemma FormatIdxExamples()
    ensures FormatIdx(Scalar(5)) == "[5]"
    ensures FormatIdx(List([])) == "[]"
  {
    assert NatToString(5) == "5" && IntToString(5) == "5";
    assert IntStrings([]) == [];
    assert JoinInts([]) == "";
  }

  /** The display of the array [1, 2, 3]. */
  lemma FormatIdxListExample()
    ensures FormatIdx(List([1, 2, 3])) == "[1, 2, 3]"
  {
    assert NatToString(1) == "1" && NatToString(2) == "2" && NatToString(3) == "3";
    var parts := IntStrings([1, 2, 3]);
    assert parts == ["1", "2", "3"];
    assert parts[1..] == ["2", "3"] && parts[1..][1..] == ["3"];
    assert Join(parts[1..][1..], ", ") == "3";
    assert Join(parts[1..], ", ") == "2, 3";
    assert JoinInts([1, 2, 3]) == "1, 2, 3";
    assert Bracket("1, 2, 3") == "[1, 2, 3]";
  }

  /** capitalizeFirstLetter: `s.charAt(0).toUpperCase() + s.slice(1)`, on ASCII. */
  function CapitalizeFirstLetter(s: string): (r: string)
    ensures |r| == |s|
    ensures |s| > 0 ==> r[0] == UpperChar(s[0]) && r[1..] == s[1..]
    ensures s == "" ==> r == ""
  {
    if s == "" then "" else [UpperChar(s[0])] + s[1..]
  }

  /** Capitalising an already capitalised string changes nothing. */
  lemma CapitalizeIdempotent(s: string)
    ensures CapitalizeFirstLetter(CapitalizeFirstLetter(s)) == CapitalizeFirstLetter(s)
  {
  }

  /** Capitalising never changes how a string compares case-insensitively. */
  lemma CapitalizeKeepsLowerCase(s: string)
    ensures ToLower(CapitalizeFirstLetter(s)) == ToLower(s)
  {
  }

  /** `labels[key]`, which JavaScript turns into "undefined" when the key is absent. */
  function Label(labels: map<string, string>, key: string): string {
    if key in labels then labels[key] else "undefined"
  }

  /**
    formatParamValue: a literal `value` is shown as it is; a lookup `value`
    is shown as the label of the raw value followed by the raw value in
    parentheses.
   */
  function FormatParamValue(d: Descriptor, p: Param): (r: string)
    ensures d.value.Literal? ==> r == d.value.text
    ensures d.value.Lookup? ==>
      var key := ValText(p.val);
      && r == Label(d.value.labels, key) + " (" + key + ")"
      && r[|r| - |key| - 3..] == " (" + key + ")"
  {
    match d.value
    case Literal(text) => text
    case Lookup(labels) =>
      var key := ValText(p.val);
      var r := Label(labels, key) + " (" + key + ")";
      assert r[|r| - |key| - 3..] == " (" + key + ")";
      r
  }

  /** A literal value never consults the parameter's raw value. */
  lemma LiteralIgnoresRawValue(d: Descriptor, p: Param, q: Param)
    requires d.value.Literal?
    ensures FormatParamValue(d, p) == FormatParamValue(d, q)
  {
  }

  /** A raw number and its decimal string look up the same label and display alike. */
  lemma NumberAndStringKeysAgree(d: Descriptor, p: Param, n: int)
    ensures FormatParamValue(d, p.(val := IntVal(n))) == FormatParamValue(d, p.(val := StrVal(IntToString(n))))
  {
  }

  /** A raw value missing from the lookup shows as "undefined (v)". */
  lemma MissingKeyShowsUndefined(d: Descriptor, p: Param)
    requires d.value.Lookup? && ValText(p.val) !in d.value.labels
    ensures FormatParamValue(d, p) == "undefined (" + ValText(p.val) + ")"
  {
  }

  /** The row processConfigData builds once the identifiers match. */
  function MakeRow(c: Param, d: Descriptor): Row {
    Row(c.variable, d.name, FormatIdx(c.idx), CapitalizeFirstLetter(FormatParamValue(d, c)), c.attr)
  }

  /**
    processConfigData: a row exactly when the parameter's `var` equals the
    descriptor's `variable_id`, with `var` and `attr` from the parameter,
    `name` from the descriptor, the formatted index and the capitalised value.
   */
  function ProcessConfigData(c: Param, d: Descriptor): (r: Option<Row>)
    ensures r.Some? <==> c.variable == d.variableId
    ensures r.Some? ==>
      && r.value.variable == c.variable && r.value.variable == d.variableId
      && r.value.name == d.name && r.value.attr == c.attr
      && r.value.idx == FormatIdx(c.idx)
      && r.value.value == CapitalizeFirstLetter(FormatParamValue(d, c))
  {
    if c.variable == d.variableId then Some(MakeRow(c, d)) else None
  }

  /** After capitalisation, a missing lookup key shows as "Undefined (v)". */
  lemma MissingKeyRowValue(c: Param, d: Descriptor)
    requires c.variable == d.variableId
    requires d.value.Lookup? && ValText(c.val) !in d.value.labels
    ensures ProcessConfigData(c, d).value.value == "Undefined (" + ValText(c.val) + ")"
  {
    var key := ValText(c.val);
    MissingKeyShowsUndefined(d, c);
    var shown := "undefined (" + key + ")";
    assert shown[0] == 'u' && UpperChar('u') == 'U';
    assert shown[1..] == "ndefined (" + key + ")";
    assert "Undefined (" + key + ")" == ['U'] + shown[1..];
  }

  /** The resolver's two worked examples: a literal unit and a two-entry lookup. */
  lemma ResolveExamples(p: Param)
    ensures FormatParamValue(Descriptor(1, "Temperature", Literal("Celsius")), p) == "Celsius"
    ensures p.val == StrVal("1") ==>
      FormatParamValue(Descriptor(1, "Power", Lookup(map["0" := "Off", "1" := "On"])), p) == "On (1)"
  {
  }

  /** A fan-speed parameter set to "1" resolves to the row 7, "Fan Speed", "[0]", "High (1)", "rw". */
  lemma FanSpeedRow()
    ensures ProcessConfigData(Param(7, Scalar(0), StrVal("1"), "rw"),
                              Descriptor(7, "Fan Speed", Lookup(map["0" := "Low", "1" := "High"])))
         == Some(Row(7, "Fan Speed", "[0]", "High (1)", "rw"))
  {
    var c := Param(7, Scalar(0), StrVal("1"), "rw");
    var d := Descriptor(7, "Fan Speed", Lookup(map["0" := "Low", "1" := "High"]));
    assert DigitChar(0) == '0';
    assert IntToString(0) == "0";
    assert FormatIdx(c.idx) == "[0]";
    assert Label(d.value.labels, "1") == "High";
    assert FormatParamValue(d, c) == "High (1)";
    assert CapitalizeFirstLetter("High (1)") == "High (1)";
  }
}
