/**
  The two JavaScript number conversions the search applies to a query string:
  `isNaN(query)`, which converts the string with Number() (the StringToNumber
  grammar of ECMAScript: surrounding white space, the empty string, Infinity,
  decimal literals with fraction and exponent, and 0x/0o/0b literals), and
  `parseInt(query)`, which reads the longest integer prefix.
 */
module JsNumber {
  import opened Wrappers
  import opened JsText

  /** The characters StringToNumber and parseInt skip: white space and line terminators. */
  predicate IsJsWhiteSpace(c: char) {
    || c == '\t' || c == '\U{000B}' || c == '\U{000C}' || c == ' '
    || c == '\U{00A0}' || c == '\U{FEFF}' || c == '\n' || c == '\r'
    || c == '\U{2028}' || c == '\U{2029}' || c == '\U{1680}'
    || ('\U{2000}' <= c <= '\U{200A}') || c == '\U{202F}' || c == '\U{205F}' || c == '\U{3000}'
  }

  /** Drops the leading white space. */
  function TrimStart(s: string): (r: string)
    ensures |r| <= |s| && r == s[|s| - |r|..]
    ensures |r| > 0 ==> !IsJsWhiteSpace(r[0])
    ensures forall i :: 0 <= i < |s| - |r| ==> IsJsWhiteSpace(s[i])
    decreases |s|
  {
    if |s| > 0 && IsJsWhiteSpace(s[0]) then TrimStart(s[1..]) else s
  }

  /** Drops the trailing white space. */
  function TrimEnd(s: string): (r: string)
    ensures |r| <= |s| && r == s[..|r|]
    ensures |r| > 0 ==> !IsJsWhiteSpace(r[|r| - 1])
    ensures forall i :: |r| <= i < |s| ==> IsJsWhiteSpace(s[i])
    decreases |s|
  {
    if |s| > 0 && IsJsWhiteSpace(s[|s| - 1]) then TrimEnd(s[..|s| - 1]) else s
  }

  function Trim(s: string): string {
    TrimEnd(TrimStart(s))
  }

  /** The end of the longest run of radix digits in `s` that starts at `from`. */
  function DigitRunEnd(s: string, from: nat, radix: nat): (e: nat)
    requires from <= |s|
    ensures from <= e <= |s|
    ensures forall i :: from <= i < e ==> IsRadixDigit(s[i], radix)
    ensures e < |s| ==> !IsRadixDigit(s[e], radix)
    decreases |s| - from
  {
    if from < |s| && IsRadixDigit(s[from], radix) then DigitRunEnd(s, from + 1, radix) else from
  }

  /** The text at `from` is empty or an exponent part: e or E, an optional sign, digits. */
  predicate IsExponentOrEnd(s: string, from: nat)
    requires from <= |s|
  {
    || from == |s|
    || ((s[from] == 'e' || s[from] == 'E') &&
        var digits := if from + 1 < |s| && (s[from + 1] == '+' || s[from + 1] == '-') then from + 2 else from + 1;
        digits < |s| && DigitRunEnd(s, digits, 10) == |s|)
  }

  /**
    StrUnsignedDecimalLiteral: Infinity, or digits with an optional fraction,
    or a fraction alone, either followed by an optional exponent.
   */
  predicate IsUnsignedDecimalLiteral(s: string) {
    || s == "Infinity"
    || (var intEnd := DigitRunEnd(s, 0, 10);
        var dot := intEnd < |s| && s[intEnd] == '.';
        var fracEnd := if dot then DigitRunEnd(s, intEnd + 1, 10) else intEnd;
        (intEnd > 0 || fracEnd > intEnd + 1) && IsExponentOrEnd(s, fracEnd))
  }

  /** The radix a 0x, 0o or 0b prefix selects (either case); 0 for any other letter. */
  function PrefixRadix(c: char): nat {
    if c == 'x' || c == 'X' then 16
    else if c == 'o' || c == 'O' then 8
    else if c == 'b' || c == 'B' then 2
    else 0
  }

  /** NonDecimalIntegerLiteral: 0x, 0o or 0b (either case) followed by digits of that radix. */
  predicate IsNonDecimalLiteral(s: string) {
    && |s| >= 3 && s[0] == '0'
    && DigitRunEnd(s, 2, PrefixRadix(s[1])) == |s|
  }

  /** StringNumericLiteral once the surrounding white space is gone. */
  predicate IsStrNumericLiteral(t: string) {
    || t == ""
    || IsNonDecimalLiteral(t)
    || (if |t| > 0 && (t[0] == '+' || t[0] == '-') then IsUnsignedDecimalLiteral(t[1..])
        else IsUnsignedDecimalLiteral(t))
  }

  /** `!isNaN(q)`: Number(q) is not NaN. */
  predicate IsNumeric(q: string) {
    IsStrNumericLiteral(Trim(q))
  }

  /**
    `parseInt(q)` with no radix: skip leading white space, read an optional
    sign, switch to radix 16 after a 0x or 0X prefix, and read the longest run
    of digits. No digits at all is NaN, here None.
   */
  function ParseInt(q: string): Option<int> {
    var s := TrimStart(q);
    var sign := if |s| > 0 && s[0] == '-' then -1 else 1;
    var body := if |s| > 0 && (s[0] == '-' || s[0] == '+') then s[1..] else s;
    var hex := |body| >= 2 && body[0] == '0' && (body[1] == 'x' || body[1] == 'X');
    var radix := if hex then 16 else 10;
    var digits := if hex then body[2..] else body;
    var run := LeadingDigits(digits, radix);
    if |run| == 0 then None else Some(sign * RadixValue(run, radix))
  }

  /** The longest run of radix digits at the start of `s`. */
  function LeadingDigits(s: string, radix: nat): (r: string)
    ensures r == s[..DigitRunEnd(s, 0, radix)]
    ensures AllRadixDigits(r, radix)
  {
    var e := DigitRunEnd(s, 0, radix);
    assert forall i :: 0 <= i < e ==> s[..e][i] == s[i];
    s[..e]
  }

  /** A run of digits reaches the end of the string when every character from `from` on is a digit. */
  lemma {:induction false} DigitRunEndAll(s: string, from: nat, radix: nat)
    requires from <= |s|
    requires forall i :: from <= i < |s| ==> IsRadixDigit(s[i], radix)
    ensures DigitRunEnd(s, from, radix) == |s|
    decreases |s| - from
  {
    if from < |s| {
      DigitRunEndAll(s, from + 1, radix);
    }
  }

  /** A string that neither starts nor ends with white space is left alone by the trims. */
  lemma TrimUnpadded(s: string)
    requires |s| > 0 && !IsJsWhiteSpace(s[0]) && !IsJsWhiteSpace(s[|s| - 1])
    ensures TrimStart(s) == s && Trim(s) == s
  {
  }

  /** Digits only form a StrUnsignedDecimalLiteral. */
  lemma DigitsAreDecimalLiteral(d: string)
    requires |d| > 0 && AllRadixDigits(d, 10)
    ensures IsUnsignedDecimalLiteral(d)
  {
    DigitRunEndAll(d, 0, 10);
  }

  /** parseInt of a string that starts with a decimal digit reads the digit run as a decimal number. */
  lemma ParseIntOfDigits(d: string)
    requires |d| > 0 && AllRadixDigits(d, 10)
    ensures ParseInt(d) == Some(RadixValue(d, 10))
  {
    TrimUnpadded(d);
    assert TrimStart(d) == d;
    assert IsRadixDigit(d[0], 10);
    assert d[0] != '-' && d[0] != '+';
    if |d| >= 2 {
      assert IsRadixDigit(d[1], 10);
      assert d[1] != 'x' && d[1] != 'X';
    }
    DigitRunEndAll(d, 0, 10);
    assert d[..|d|] == d;
    assert LeadingDigits(d, 10) == d;
  }

  /** A string of decimal digits (leading zeros allowed) is numeric and parses to its value. */
  lemma DigitStringIsNumeric(d: string)
    requires |d| > 0 && AllRadixDigits(d, 10)
    ensures IsNumeric(d)
    ensures ParseInt(d) == Some(RadixValue(d, 10))
  {
    TrimUnpadded(d);
    DigitsAreDecimalLiteral(d);
    assert IsStrNumericLiteral(d);
    ParseIntOfDigits(d);
  }

  /** Typing a rendered integer as the query: it is numeric and parses back to that integer. */
  lemma IntToStringIsNumeric(n: int)
    ensures IsNumeric(IntToString(n))
    ensures ParseInt(IntToString(n)) == Some(n)
  {
    var s := IntToString(n);
    if n >= 0 {
      DigitStringIsNumeric(s);
    } else {
      var d := NatToString(-n);
      assert s == "-" + d && s[1..] == d;
      TrimUnpadded(s);
      DigitsAreDecimalLiteral(d);
      assert IsStrNumericLiteral(s);
      DigitRunEndAll(d, 0, 10);
      assert d[..|d|] == d;
    }
  }

  /** Trailing letters make a query non-numeric, although parseInt would read its digits. */
  lemma TrailingLettersAreNotNumeric()
    ensures !IsNumeric("12abc")
    ensures ParseInt("12abc") == Some(12)
  {
    var s := "12abc";
    TrimUnpadded(s);
    assert DigitRunEnd(s, 2, 10) == 2;
    assert DigitRunEnd(s, 1, 10) == 2;
    assert DigitRunEnd(s, 0, 10) == 2;
    assert s[..2] == "12" && "12"[..1] == "1" && "1"[..0] == "";
  }

  /** A decimal fraction is numeric and parseInt keeps its integer part. */
  lemma FractionIsNumeric()
    ensures IsNumeric("1.5")
    ensures ParseInt("1.5") == Some(1)
  {
    var s := "1.5";
    TrimUnpadded(s);
    assert DigitRunEnd(s, 1, 10) == 1;
    assert DigitRunEnd(s, 0, 10) == 1;
    assert DigitRunEnd(s, 3, 10) == 3;
    assert DigitRunEnd(s, 2, 10) == 3;
    assert IsUnsignedDecimalLiteral(s);
    assert s[..1] == "1" && "1"[..0] == "";
  }

  /** White space alone is numeric (Number(" ") is 0) but parseInt finds no digits. */
  lemma BlankIsNumericWithoutValue()
    ensures IsNumeric(" ")
    ensures ParseInt(" ") == None
  {
    assert " "[1..] == "";
    assert TrimStart(" ") == "";
  }

  /** A hexadecimal literal is numeric and parseInt reads it in radix 16. */
  lemma HexIsNumeric()
    ensures IsNumeric("0x1F")
    ensures ParseInt("0x1F") == Some(31)
  {
    var s := "0x1F";
    TrimUnpadded(s);
    assert DigitRunEnd(s, 4, 16) == 4;
    assert DigitRunEnd(s, 3, 16) == 4;
    assert DigitRunEnd(s, 2, 16) == 4;
    assert IsNonDecimalLiteral(s);
    var h := s[2..];
    assert h == "1F";
    assert DigitRunEnd(h, 2, 16) == 2;
    assert DigitRunEnd(h, 1, 16) == 2;
    assert DigitRunEnd(h, 0, 16) == 2;
    assert h[..2] == h && h[..1] == "1" && "1"[..0] == "";
    assert RadixValue("1", 16) == 1;
    assert RadixValue(h, 16) == 31;
  }
}
