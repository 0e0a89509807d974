/**
 * PHP 8's comparison of two strings with the loose `==` and `!=`: two
 * numeric strings are compared by the numbers they denote ("1" == "1.0",
 * "1e1" == "10", " 1" == "1"), any other pair byte by byte. Numeric strings
 * follow the grammar of `is_numeric`.
 */
module PhpCompare {
  import opened Text

  /** The whitespace PHP allows around a numeric string: space, \t, \n, \r, \v, \f. */
  predicate IsWs(ch: char)
  {
    ch == ' ' || ch == '\t' || ch == '\n' || ch == '\r' || ch as int == 11 || ch as int == 12
  }

  predicate IsDigit(ch: char)
  {
    '0' <= ch <= '9'
  }

  /** The end of the run of characters satisfying p that starts at i. */
  function Span(s: string, i: nat, p: char -> bool): (j: nat)
    requires i <= |s|
    ensures i <= j <= |s|
    ensures forall k :: i <= k < j ==> p(s[k])
    ensures j < |s| ==> !p(s[j])
    decreases |s| - i
  {
    if i < |s| && p(s[i]) then Span(s, i + 1, p) else i
  }

  /** Where a well-formed exponent `[eE][+-]?[0-9]+` starting at i ends, if there is one. */
  function ExponentEnd(s: string, i: nat): (r: Option<nat>)
    requires i <= |s|
    ensures r.Some? ==> i <= r.value <= |s|
  {
    if i < |s| && (s[i] == 'e' || s[i] == 'E') then
      var g := if i + 1 < |s| && (s[i + 1] == '+' || s[i + 1] == '-') then i + 2 else i + 1;
      var h := Span(s, g, IsDigit);
      if h > g then Some(h) else None
    else Some(i)
  }

  /**
   * `is_numeric` of a string: optional whitespace, an optional sign,
   * digits with at most one decimal point and at least one digit, an
   * optional exponent, optional whitespace, and nothing else.
   */
  predicate IsNumeric(s: string)
  {
    var a := Span(s, 0, IsWs);
    var b := if a < |s| && (s[a] == '+' || s[a] == '-') then a + 1 else a;
    var c := Span(s, b, IsDigit);
    var dot := c < |s| && s[c] == '.';
    var e := if dot then Span(s, c + 1, IsDigit) else c;
    var digits := (c - b) + (if dot then e - (c + 1) else 0);
    digits >= 1 &&
    match ExponentEnd(s, e)
    case None => false
    case Some(f) => Span(s, f, IsWs) == |s|
  }

  /** A run that reaches the end of the text. */
  lemma SpanAll(s: string, i: nat, p: char -> bool)
    requires i <= |s| && forall k :: i <= k < |s| ==> p(s[k])
    ensures Span(s, i, p) == |s|
  {
  }

  /** The value of one decimal digit, 0 for any other character. */
  function DigitVal(ch: char): nat
  {
    if IsDigit(ch) then ch as int - '0' as int else 0
  }

  /** The number the digits s[i..j] spell. */
  function DecVal(s: string, i: nat, j: nat): nat
    requires i <= j <= |s|
    decreases j
  {
    if i == j then 0 else DecVal(s, i, j - 1) * 10 + DigitVal(s[j - 1])
  }

  function Pow10(n: nat): (r: nat)
    ensures r >= 1
  {
    if n == 0 then 1 else 10 * Pow10(n - 1)
  }

  /** The signed exponent `[eE][+-]?[0-9]+` starting at i, 0 when there is none. */
  function ExpVal(s: string, i: nat): int
    requires i <= |s|
  {
    if i < |s| && (s[i] == 'e' || s[i] == 'E') then
      var g := if i + 1 < |s| && (s[i + 1] == '+' || s[i + 1] == '-') then i + 2 else i + 1;
      var v: int := DecVal(s, g, Span(s, g, IsDigit));
      if i + 1 < |s| && s[i + 1] == '-' then -v else v
    else 0
  }

  /** mant * 10^scale as an exact number. */
  function Scaled(mant: nat, scale: int): real
  {
    if scale >= 0 then (mant * Pow10(scale)) as real else mant as real / Pow10(-scale) as real
  }

  /** The digits before and after the point joined into one whole number. */
  function Mantissa(whole: nat, frac: nat, fracDigits: nat): nat
  {
    whole * Pow10(fracDigits) + frac
  }

  /** The unsigned value of the digits, point and exponent starting at b. */
  function Magnitude(s: string, b: nat): real
    requires b <= |s|
  {
    var c := Span(s, b, IsDigit);
    var dot := c < |s| && s[c] == '.';
    var e := if dot then Span(s, c + 1, IsDigit) else c;
    var frac := if dot then e - (c + 1) else 0;
    var mant := Mantissa(DecVal(s, b, c), if dot then DecVal(s, c + 1, e) else 0, frac);
    Scaled(mant, ExpVal(s, e) - frac)
  }

  /**
   * The number a numeric string denotes, exactly: its sign, its digits
   * before and after the point, and its exponent. (PHP rounds it to a
   * double unless it is an integer that fits in 64 bits.)
   */
  function NumValue(s: string): real
  {
    var a := Span(s, 0, IsWs);
    var signed := a < |s| && (s[a] == '+' || s[a] == '-');
    var mag := Magnitude(s, if signed then a + 1 else a);
    if signed && s[a] == '-' then -mag else mag
  }

  /** `a == b` on two PHP strings. */
  predicate LooseEq(a: string, b: string)
  {
    if IsNumeric(a) && IsNumeric(b) then NumValue(a) == NumValue(b) else a == b
  }

  /** Equal strings are loosely equal, the test is symmetric, and a non-numeric string is only equal to itself. */
  lemma LooseEqBasics(a: string, b: string)
    ensures a == b ==> LooseEq(a, b)
    ensures LooseEq(a, b) <==> LooseEq(b, a)
    ensures !IsNumeric(a) ==> (LooseEq(a, b) <==> a == b)
  {
  }

  lemma NumericOne()
    ensures IsNumeric("1") && NumValue("1") == 1.0
  {
    var s := "1";
    assert Span(s, 0, IsWs) == 0;
    assert Span(s, 0, IsDigit) == 1 by { SpanAll(s, 0, IsDigit); }
    assert DecVal(s, 0, 1) == 1;
    assert ExponentEnd(s, 1) == Some(1) && ExpVal(s, 1) == 0;
    SpanAll(s, 1, IsWs);
  }

  lemma NumericOnePointZero()
    ensures IsNumeric("1.0") && NumValue("1.0") == 1.0
  {
    var s := "1.0";
    assert Span(s, 0, IsWs) == 0;
    assert Span(s, 0, IsDigit) == 1 by { assert s[0] == '1' && s[1] == '.'; }
    assert Span(s, 2, IsDigit) == 3 by { SpanAll(s, 2, IsDigit); }
    assert DecVal(s, 0, 1) == 1 && DecVal(s, 2, 3) == 0;
    assert ExponentEnd(s, 3) == Some(3) && ExpVal(s, 3) == 0;
    assert Pow10(1) == 10;
    assert Scaled(10, -1) == 1.0;
    SpanAll(s, 3, IsWs);
  }

  lemma NumericOneE1()
    ensures IsNumeric("1e1") && NumValue("1e1") == 10.0
  {
    var s := "1e1";
    assert Span(s, 0, IsWs) == 0;
    assert Span(s, 0, IsDigit) == 1 by { assert s[0] == '1' && s[1] == 'e'; }
    assert Span(s, 2, IsDigit) == 3 by { SpanAll(s, 2, IsDigit); }
    assert DecVal(s, 0, 1) == 1 && DecVal(s, 2, 3) == 1;
    assert ExponentEnd(s, 1) == Some(3) && ExpVal(s, 1) == 1;
    assert Pow10(1) == 10;
    SpanAll(s, 3, IsWs);
  }

  lemma NumericTen()
    ensures IsNumeric("10") && NumValue("10") == 10.0
  {
    var s := "10";
    assert Span(s, 0, IsWs) == 0;
    assert Span(s, 0, IsDigit) == 2 by { SpanAll(s, 0, IsDigit); }
    assert DecVal(s, 0, 2) == 10 by { assert DecVal(s, 0, 1) == 1; }
    assert ExponentEnd(s, 2) == Some(2) && ExpVal(s, 2) == 0;
    SpanAll(s, 2, IsWs);
  }

  /**
   * Numeric strings are equal by value, white space around them does not
   * count, and other strings are compared exactly, case included.
   */
  lemma LooseEqExamples()
    ensures LooseEq("1", "1.0") && LooseEq("1e1", "10")
    ensures !LooseEq("1", "10")
    ensures !LooseEq("abc", "ABC")
  {
    NumericOne();
    NumericOnePointZero();
    NumericOneE1();
    NumericTen();
    AbcNotNumeric();
  }

  lemma AbcNotNumeric()
    ensures !IsNumeric("abc")
  {
    var s := "abc";
    assert Span(s, 0, IsWs) == 0 && Span(s, 0, IsDigit) == 0 by { assert s[0] == 'a'; }
    assert s[0] != '.';
  }
}
