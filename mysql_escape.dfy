/**
 * Escaping in the MySQL manager (src/MySQLMan/ManagerBase.php): names in
 * backticks with every backtick deleted, values as literals through the
 * connection's `quote`, and the builders that `value`, `name`, `names`,
 * `values` and `hex` return, as their token lists.
 */
module MySqlEscape {
  import opened Text
  import opened Data
  import opened MySqlBuilder
  import opened PhpCompare

  /** The connection's `quote`, and PHP's `(int)` cast of a numeric text, both left uninterpreted. */
  datatype Manager = Manager(quote: string -> string, toInt: string -> int)

  // ------------------------------------------------------------ is_numeric

  /** The text of every integer is numeric. */
  lemma NumericIntText(i: int)
    ensures IsNumeric(IntText(i))
  {
    var s := IntText(i);
    assert s[0] in s;
    assert Span(s, 0, IsWs) == 0;
    var b := if s[0] == '-' then 1 else 0;
    if i < 0 {
      assert s == "-" + Digits(-i);
      forall k | 1 <= k < |s| ensures IsDigit(s[k]) {
        assert s[k] == Digits(-i)[k - 1] && Digits(-i)[k - 1] in Digits(-i);
      }
    } else {
      assert s == Digits(i);
      forall k | 0 <= k < |s| ensures IsDigit(s[k]) { assert s[k] in Digits(i); }
    }
    SpanAll(s, b, IsDigit);
    SpanAll(s, |s|, IsWs);
  }

  /** A decimal with a sign, a fraction and an exponent is numeric. */
  lemma NumericDecimal()
    ensures IsNumeric("-1.5e3")
  {
    var s := "-1.5e3";
    assert Span(s, 0, IsWs) == 0;
    assert Span(s, 1, IsDigit) == 2 by { assert s[1] == '1' && s[2] == '.'; }
    assert Span(s, 3, IsDigit) == 4 by { assert s[3] == '5' && s[4] == 'e'; }
    assert ExponentEnd(s, 4) == Some(6) by { assert s[5] == '3'; SpanAll(s, 5, IsDigit); }
    SpanAll(s, 6, IsWs);
  }

  /** A hexadecimal literal is not numeric. */
  lemma NumericNotHex()
    ensures !IsNumeric("0x1A")
  {
    var h := "0x1A";
    assert Span(h, 0, IsWs) == 0 && Span(h, 0, IsDigit) == 1 by { assert h[0] == '0' && h[1] == 'x'; }
    assert ExponentEnd(h, 1) == Some(1);
    assert Span(h, 1, IsWs) == 1;
  }

  /** An exponent marker with no digits after it is not numeric. */
  lemma NumericDanglingExponent()
    ensures !IsNumeric("1e")
  {
    var d := "1e";
    assert Span(d, 0, IsWs) == 0 && Span(d, 0, IsDigit) == 1 by { assert d[0] == '1' && d[1] == 'e'; }
    assert Span(d, 2, IsDigit) == 2;
  }

  /** `is_numeric` of any value: ints and floats are, strings by their text, nothing else. */
  predicate IsNumericPhp(p: Php)
  {
    match p
    case Sc(Int(_)) => true
    case Sc(Float(_)) => true
    case Sc(Str(s)) => IsNumeric(s)
    case _ => false
  }

  /** `(int)` of a value that is_numeric accepted. */
  function IntCast(m: Manager, p: Php): int
  {
    if p.Sc? && p.v.Int? then p.v.i else m.toInt(Strval(p))
  }

  // ---------------------------------------------------------- escapeValue

  /** `is_finite`, on the text strval gives a float. */
  predicate IsFinite(t: string)
  {
    t != "INF" && t != "-INF" && t != "NAN"
  }

  /**
   * `escapeValue`: keywords for null and the booleans, the text of ints
   * and finite floats, a builder's own text, and the connection's quote for
   * the rest; a numeric string goes unquoted only when `numeric` is set,
   * and an empty array or object gives "".
   */
  function EscapeValue(m: Manager, x: Mixed, numeric: bool): string
  {
    match x
    case Plain(Sc(Null)) => "NULL"
    case Plain(Sc(Bool(b))) => if b then "TRUE" else "FALSE"
    case Plain(Sc(Int(i))) => IntText(i)
    case Plain(Sc(Float(t))) => if IsFinite(t) || numeric then t else m.quote(t)
    case Plain(Sc(Str(s))) => if numeric && IsNumeric(s) then s else m.quote(s)
    case Plain(Self(t)) => Rendered(t)
    case Plain(Obj(t)) => m.quote(t)
    case Plain(Arr(es)) => if |es| == 0 then "" else m.quote(Implode(",", EntryValues(es)))
    case Props(vs) => if |vs| == 0 then "" else m.quote(Implode(",", vs))
  }

  /** Only a numeric string with `numeric` set escapes unquoted; every other string is quoted. */
  lemma EscapeValueString(m: Manager, s: string, i: int)
    ensures EscapeValue(m, Plain(Sc(Str(s))), false) == m.quote(s)
    ensures IsNumeric(s) ==> EscapeValue(m, Plain(Sc(Str(s))), true) == s
    ensures !IsNumeric(s) ==> EscapeValue(m, Plain(Sc(Str(s))), true) == m.quote(s)
    ensures EscapeValue(m, Plain(Sc(Str(IntText(i)))), true) == IntText(i)
  {
    NumericIntText(i);
  }

  /**
   * The keywords, the integers, finite floats and builders are written as
   * they are, a non-finite float is quoted unless numeric mode is on, and
   * the empty containers give "".
   */
  lemma EscapeValueShapes(m: Manager, i: int, f: string, t: seq<string>, numeric: bool)
    ensures EscapeValue(m, Plain(Sc(Null)), numeric) == "NULL"
    ensures EscapeValue(m, Plain(Sc(Bool(true))), numeric) == "TRUE" && EscapeValue(m, Plain(Sc(Bool(false))), numeric) == "FALSE"
    ensures EscapeValue(m, Plain(Sc(Int(i))), numeric) == IntText(i)
    ensures IsFinite(f) ==> EscapeValue(m, Plain(Sc(Float(f))), numeric) == f
    ensures !IsFinite(f) ==> EscapeValue(m, Plain(Sc(Float(f))), false) == m.quote(f)
    ensures EscapeValue(m, Plain(Sc(Float("INF"))), false) == m.quote("INF")
    ensures EscapeValue(m, Plain(Self(t)), numeric) == Rendered(t)
    ensures EscapeValue(m, Plain(Arr([])), numeric) == "" && EscapeValue(m, Props([]), numeric) == ""
  {
  }

  // ----------------------------------------------------------- escapeName

  /** `explode(c, s)`: the pieces between the occurrences of c. */
  function Explode(s: string, c: char): (r: seq<string>)
    ensures |r| >= 1
  {
    if s == [] then [""]
    else if s[0] == c then [""] + Explode(s[1..], c)
    else var t := Explode(s[1..], c); [[s[0]] + t[0]] + t[1..]
  }

  /** Exploding and imploding with the same character gives the text back, and no piece holds the character. */
  lemma {:induction false} ExplodeJoin(s: string, c: char)
    ensures Join([c], Explode(s, c)) == s
    ensures forall i :: 0 <= i < |Explode(s, c)| ==> c !in Explode(s, c)[i]
  {
    if s != [] {
      ExplodeJoin(s[1..], c);
      ExplodeJoinStep(s, c);
    }
  }

  /** The two properties of ExplodeJoin carry over from the text after the first character to the whole text. */
  lemma {:induction false} ExplodeJoinStep(s: string, c: char)
    requires s != []
    requires Join([c], Explode(s[1..], c)) == s[1..]
    requires forall i :: 0 <= i < |Explode(s[1..], c)| ==> c !in Explode(s[1..], c)[i]
    ensures Join([c], Explode(s, c)) == s
    ensures forall i :: 0 <= i < |Explode(s, c)| ==> c !in Explode(s, c)[i]
  {
    var t := Explode(s[1..], c);
    assert s == [s[0]] + s[1..];
    if s[0] == c {
      assert Explode(s, c) == [""] + t && ([""] + t)[1..] == t;
      assert Join([c], [""] + t) == "" + [c] + Join([c], t);
    } else {
      var r := Explode(s, c);
      assert r == [[s[0]] + t[0]] + t[1..];
      if |t| == 1 {
        assert r == [[s[0]] + t[0]];
      } else {
        assert r[1..] == t[1..];
        assert Join([c], t) == t[0] + [c] + Join([c], t[1..]);
        assert Join([c], r) == [s[0]] + t[0] + [c] + Join([c], t[1..]);
      }
      forall i | 0 <= i < |r| ensures c !in r[i] {
        if i > 0 { assert r[i] == t[i]; }
      }
    }
  }

  /** Imploding pieces that do not hold the character and exploding again gives the pieces back. */
  lemma {:induction false} JoinExplode(xs: seq<string>, c: char)
    requires |xs| >= 1 && forall i :: 0 <= i < |xs| ==> c !in xs[i]
    ensures Explode(Join([c], xs), c) == xs
    decreases |Join([c], xs)|
  {
    var x := xs[0];
    if |xs| == 1 {
      ExplodeNoSep(x, c);
    } else if x == [] {
      EmptyHeadSplit(xs, c);
      JoinExplode(xs[1..], c);
      assert xs == [""] + xs[1..];
    } else {
      var ys := [x[1..]] + xs[1..];
      CharHeadSplit(xs, c);
      JoinExplode(ys, c);
      CharHeadBack(xs, c, Join([c], ys));
    }
  }

  /** An empty first piece leaves the separator at the front of the implode. */
  lemma {:induction false} EmptyHeadSplit(xs: seq<string>, c: char)
    requires |xs| >= 2 && xs[0] == []
    ensures Explode(Join([c], xs), c) == [""] + Explode(Join([c], xs[1..]), c)
    ensures |Join([c], xs[1..])| < |Join([c], xs)|
  {
    var j := Join([c], xs[1..]);
    assert Join([c], xs) == [c] + j;
    assert ([c] + j)[1..] == j;
  }

  /** A non-empty first piece gives up its first character, which is not the separator, to the implode. */
  lemma {:induction false} CharHeadSplit(xs: seq<string>, c: char)
    requires |xs| >= 2 && xs[0] != [] && forall i :: 0 <= i < |xs| ==> c !in xs[i]
    ensures var ys := [xs[0][1..]] + xs[1..];
      Join([c], xs) == [xs[0][0]] + Join([c], ys) && xs[0][0] != c &&
      |Join([c], ys)| < |Join([c], xs)| && |ys| >= 1 && forall i :: 0 <= i < |ys| ==> c !in ys[i]
  {
    var x := xs[0];
    var ys := [x[1..]] + xs[1..];
    assert ys[1..] == xs[1..];
    forall i | 0 <= i < |ys| ensures c !in ys[i] {
      if i == 0 { assert x == [x[0]] + x[1..]; } else { assert ys[i] == xs[i]; }
    }
    var j := Join([c], xs);
    assert j == x + [c] + Join([c], xs[1..]);
    assert Join([c], ys) == x[1..] + [c] + Join([c], xs[1..]);
    assert x == [x[0]] + x[1..];
    assert x[0] != c by { assert x[0] in xs[0]; }
  }

  /** Exploding after the first character puts it back at the front of the first piece. */
  lemma {:induction false} CharHeadBack(xs: seq<string>, c: char, rest: string)
    requires |xs| >= 2 && xs[0] != [] && xs[0][0] != c
    requires Join([c], xs) == [xs[0][0]] + rest
    requires Explode(rest, c) == [xs[0][1..]] + xs[1..]
    ensures Explode(Join([c], xs), c) == xs
  {
    var x := xs[0];
    var j := [x[0]] + rest;
    assert j[1..] == rest;
    assert Explode(j, c) == [[x[0]] + x[1..]] + xs[1..];
    assert x == [x[0]] + x[1..];
  }

  lemma {:induction false} ExplodeNoSep(s: string, c: char)
    requires c !in s
    ensures Explode(s, c) == [s]
  {
    if s != [] {
      assert s[0] in s;
      ExplodeNoSep(s[1..], c);
      assert s == [s[0]] + s[1..];
    }
  }

  /** One part of a dotted name: `*` stays, anything else goes in backticks with its backticks deleted. */
  function PartText(part: string): string
  {
    if part == "*" then "*" else "`" + Strip(part, '`') + "`"
  }

  function PartTexts(parts: seq<string>): (r: seq<string>)
    ensures |r| == |parts| && forall i :: 0 <= i < |parts| ==> r[i] == PartText(parts[i])
  {
    seq(|parts|, i requires 0 <= i < |parts| => PartText(parts[i]))
  }

  /** `escapeName` of a text: `*` as it is, anything else as `QuoteNameText` gives it. */
  function EscapeNameText(s: string): string
  {
    if s == "*" then "*" else QuoteNameText(s)
  }

  /** `escapeName` of a text past the `*` test: a dotted name part by part, anything else in backticks. */
  function QuoteNameText(s: string): string
  {
    if '.' in s then Join(".", PartTexts(Explode(s, '.')))
    else "`" + Strip(s, '`') + "`"
  }

  /** The text escapeName works on: an array's values joined by ".", anything else by strval. */
  function NameSource(p: Php): string
  {
    if p.Arr? then Implode(".", EntryValues(p.entries)) else Strval(p)
  }

  /** Whether the strict `=== '*'` test can hold: only for a string, or the text an array is imploded to. */
  predicate StarTested(p: Php)
  {
    (p.Sc? && p.v.Str?) || p.Arr?
  }

  /** The one token `escapeName` gives for a value that is not a builder. */
  function NameToken(p: Php): string
  {
    if StarTested(p) then EscapeNameText(NameSource(p)) else QuoteNameText(NameSource(p))
  }

  /** `escapeName`: a builder is returned as it is; anything else becomes one token. */
  function EscapeName(p: Php): seq<string>
  {
    if p.Self? then p.tokens else [NameToken(p)]
  }

  /** Deleting c commutes with concatenation. */
  lemma {:induction false} StripAppend(a: string, b: string, c: char)
    ensures Strip(a + b, c) == Strip(a, c) + Strip(b, c)
  {
    if a != [] {
      assert (a + b)[1..] == a[1..] + b;
      StripAppend(a[1..], b, c);
    } else {
      assert a + b == b;
    }
  }

  /** Deleting c from an implode deletes it from each piece, when the separator is free of c. */
  lemma {:induction false} StripJoin(sep: string, xs: seq<string>, c: char)
    requires c !in sep
    ensures Strip(Join(sep, xs), c) == Join(sep, seq(|xs|, i requires 0 <= i < |xs| => Strip(xs[i], c)))
  {
    var ys := seq(|xs|, i requires 0 <= i < |xs| => Strip(xs[i], c));
    if |xs| >= 2 {
      StripJoin(sep, xs[1..], c);
      StripAppend(xs[0] + sep, Join(sep, xs[1..]), c);
      StripAppend(xs[0], sep, c);
      StripSpec(sep, c);
      assert ys[1..] == seq(|xs[1..]|, i requires 0 <= i < |xs[1..]| => Strip(xs[1..][i], c));
    } else if |xs| == 0 {
      assert Strip("", c) == "";
    }
  }

  /** A part gains backticks around it at most; deleting all backticks gives the same as for the part. */
  lemma PartTextStrip(part: string)
    ensures Strip(PartText(part), '`') == Strip(part, '`')
  {
    if part != "*" {
      StripAppend("`" + Strip(part, '`'), "`", '`');
      StripAppend("`", Strip(part, '`'), '`');
      StripSpec(part, '`');
      StripSpec(Strip(part, '`'), '`');
    }
  }

  /**
   * Escaping a name only wraps parts in backticks and deletes the
   * backticks inside: deleting every backtick from the result gives the
   * name with its backticks deleted.
   */
  lemma EscapeNameStrip(s: string)
    ensures Strip(EscapeNameText(s), '`') == Strip(s, '`')
  {
    if s != "*" {
      if '.' in s {
        var parts := Explode(s, '.');
        ExplodeJoin(s, '.');
        StripJoin(".", PartTexts(parts), '`');
        StripJoin(".", parts, '`');
        var a := seq(|parts|, i requires 0 <= i < |parts| => Strip(PartTexts(parts)[i], '`'));
        var b := seq(|parts|, i requires 0 <= i < |parts| => Strip(parts[i], '`'));
        forall i | 0 <= i < |parts| ensures a[i] == b[i] { PartTextStrip(parts[i]); }
        assert a == b;
      } else {
        PartTextStrip(s);
      }
    }
  }

  /** A part's text is `*` or one backtick-quoted run with no backtick or dot inside. */
  predicate QuotedPart(t: string)
  {
    t == "*" || (|t| >= 2 && t[0] == '`' && t[|t| - 1] == '`' && '`' !in t[1..|t| - 1] && '.' !in t[1..|t| - 1])
  }

  lemma PartTextQuoted(part: string)
    requires '.' !in part
    ensures QuotedPart(PartText(part)) && '.' !in PartText(part)
  {
    if part != "*" {
      var q := Strip(part, '`');
      StripSpec(part, '`');
      var t := "`" + q + "`";
      assert t[1..|t| - 1] == q;
    }
  }

  /** The escaped name splits at its dots into parts that are each `*` or backtick-quoted with nothing to escape inside. */
  lemma EscapeNameParts(s: string)
    ensures forall i :: 0 <= i < |Explode(EscapeNameText(s), '.')| ==> QuotedPart(Explode(EscapeNameText(s), '.')[i])
  {
    var parts := if s != "*" && '.' in s then Explode(s, '.') else [s];
    if s == "*" {
      ExplodeNoSep("*", '.');
    } else if '.' in s {
      ExplodeJoin(s, '.');
      var ts := PartTexts(parts);
      forall i | 0 <= i < |ts| ensures QuotedPart(ts[i]) && '.' !in ts[i] { PartTextQuoted(parts[i]); }
      JoinExplode(ts, '.');
    } else {
      PartTextQuoted(s);
      ExplodeNoSep(PartText(s), '.');
    }
  }

  /** Backticks inside a name are deleted, not doubled. */
  lemma EscapeNameBacktick()
    ensures EscapeName(Sc(Str("a`b"))) == ["`ab`"]
    ensures EscapeName(Sc(Null)) == ["``"]
  {
    assert Strip("a`b", '`') == "ab";
    assert '.' !in "a`b";
    assert NameSource(Sc(Str("a`b"))) == "a`b";
    assert "a`b" != "*";
    assert EscapeNameText("a`b") == "`" + "ab" + "`";
    assert "`" + "ab" + "`" == "`ab`";
    assert NameSource(Sc(Null)) == "";
    assert QuoteNameText("") == "``";
  }

  /** A name with one dot is escaped part by part around that dot. */
  lemma EscapeNameTwoParts(a: string, b: string)
    requires '.' !in a && '.' !in b
    ensures EscapeNameText(a + "." + b) == PartText(a) + "." + PartText(b)
  {
    var parts := [a, b];
    assert parts[1..] == [b];
    assert Join(".", parts) == a + "." + b;
    assert '.' in a + "." + b by { assert (a + "." + b)[|a|] == '.'; }
    assert a + "." + b != "*";
    JoinExplode(parts, '.');
    assert Explode(a + "." + b, '.') == parts;
    var ts := PartTexts(parts);
    assert ts == [PartText(a), PartText(b)] && ts[1..] == [PartText(b)];
    assert Join(".", ts) == PartText(a) + "." + Join(".", [PartText(b)]);
  }

  /** `*` passes unquoted, alone and as the last part of a dotted name. */
  lemma EscapeNameStar(t: string)
    requires '.' !in t && '`' !in t && t != "*"
    ensures EscapeName(Sc(Str("*"))) == ["*"]
    ensures EscapeName(Sc(Str(t + ".*"))) == ["`" + t + "`.*"]
  {
    assert NameSource(Sc(Str("*"))) == "*";
    EscapeNameTwoParts(t, "*");
    StripSpec(t, '`');
    assert t + ".*" == t + "." + "*";
    assert NameSource(Sc(Str(t + ".*"))) == t + "." + "*";
    assert PartText(t) == "`" + t + "`" && PartText("*") == "*";
    assert "`" + t + "`" + "." + "*" == "`" + t + "`.*";
  }

  /**
   * The `*` test is strict: an object whose text is `*` is not identical
   * to the string `*`, so it is quoted like any other name and keeps its
   * alias, while the string `*` stays bare and drops it.
   */
  lemma ObjectStarQuoted(a: string)
    requires a != "" && '`' !in a
    ensures EscapeName(Obj("*")) == ["`*`"]
    ensures NameTokens(Obj("*"), Sc(Str(a))) == ["`*`", "AS", "`" + a + "`"]
    ensures NameTokens(Sc(Str("*")), Sc(Str(a))) == ["*"]
  {
    StarTokens();
    ObjectStarAliased(a);
    StringStarBare(a);
  }

  lemma ObjectStarAliased(a: string)
    requires a != "" && '`' !in a && NameToken(Obj("*")) == "`*`"
    ensures NameTokens(Obj("*"), Sc(Str(a))) == ["`*`", "AS", "`" + a + "`"]
  {
    StripSpec(a, '`');
    NameAlias(Obj("*"), a);
    assert !EndsWithStar("`*`");
    assert NameTokens(Obj("*"), Sc(Str(a))) == ["`*`"] + ["AS", "`" + a + "`"];
  }

  lemma StringStarBare(a: string)
    requires a != "" && NameToken(Sc(Str("*"))) == "*"
    ensures NameTokens(Sc(Str("*")), Sc(Str(a))) == ["*"]
  {
    NameAlias(Sc(Str("*")), a);
    assert EndsWithStar("*");
  }

  /** The token of the object `*` and of the string `*`. */
  lemma StarTokens()
    ensures NameToken(Obj("*")) == "`*`" && NameToken(Sc(Str("*"))) == "*"
  {
    assert !StarTested(Obj("*")) && NameSource(Obj("*")) == "*";
    assert '.' !in "*";
    assert Strip("*", '`') == "*";
    assert QuoteNameText("*") == "`*`";
    assert StarTested(Sc(Str("*"))) && NameSource(Sc(Str("*"))) == "*";
  }


  /** An array is first joined with "." and then escaped as that text. */
  lemma EscapeNameArray(a: Php, b: Php)
    ensures EscapeName(Arr([(IntKey(0), a), (IntKey(1), b)])) == EscapeName(Sc(Str(Strval(a) + "." + Strval(b))))
  {
    var ps := EntryValues([(IntKey(0), a), (IntKey(1), b)]);
    assert ps == [a, b];
    var texts := seq(|ps|, i requires 0 <= i < |ps| => Strval(ps[i]));
    assert texts == [Strval(a), Strval(b)] && texts[1..] == [Strval(b)];
    JoinSmall(".", Strval(b));
    assert Implode(".", ps) == Strval(a) + "." + Strval(b);
  }

  // --------------------------------------------------- value, name, alias

  /** `escapeAlias`: a builder as it is, anything else in backticks with its backticks deleted. */
  function EscapeAlias(p: Php): seq<string>
  {
    if p.Self? then p.tokens else ["`" + Strip(Strval(p), '`') + "`"]
  }

  /**
   * The `AS` part of value and name: a non-empty string alias is escaped
   * (when `allowed`), a builder alias is used as it is, and anything else,
   * an integer key included, gives none.
   */
  function AliasPart(alias: Php, allowed: bool): seq<string>
  {
    if alias.Sc? && alias.v.Str? && |alias.v.s| > 0 && allowed then ["AS"] + Piece(Plain(Self(EscapeAlias(alias))))
    else if alias.Self? then ["AS"] + Piece(Plain(alias))
    else []
  }

  /** What `value` returns: the escaped value as one token, then the alias part. */
  function ValueTokens(m: Manager, x: Mixed, alias: Php, numeric: bool): seq<string>
  {
    NonEmpty(EscapeValue(m, x, numeric)) + AliasPart(alias, true)
  }

  /** `value_notnull`: null is escaped as the empty string, so it is quoted instead of written as NULL. */
  function ValueNotNull(m: Manager, x: Mixed, alias: Php, numeric: bool): (r: seq<string>)
    ensures x == Plain(Sc(Null)) ==> r == NonEmpty(m.quote("")) + AliasPart(alias, true)
    ensures x != Plain(Sc(Null)) ==> r == ValueTokens(m, x, alias, numeric)
  {
    assert !IsNumeric("");
    ValueTokens(m, if x == Plain(Sc(Null)) then Plain(Sc(Str(""))) else x, alias, numeric)
  }

  /**
   * `value_numeric`: anything `is_numeric` rejects becomes 0, and what it
   * accepts is written unquoted, so the value token is never quoted.
   */
  function ValueNumeric(m: Manager, x: Mixed, alias: Php): (r: seq<string>)
    ensures !(x.Plain? && IsNumericPhp(x.p)) ==> r == ["0"] + AliasPart(alias, true)
    ensures x.Plain? && x.p.Sc? && x.p.v.Str? && IsNumeric(x.p.v.s) ==> r == NonEmpty(x.p.v.s) + AliasPart(alias, true)
    ensures x.Plain? && x.p.Sc? && x.p.v.Float? ==> r == NonEmpty(x.p.v.text) + AliasPart(alias, true)
    ensures x.Plain? && x.p.Sc? && x.p.v.Int? ==> r == [IntText(x.p.v.i)] + AliasPart(alias, true)
  {
    assert IntText(0) == "0";
    ValueTokens(m, if x.Plain? && IsNumericPhp(x.p) then x else Plain(Sc(Int(0))), alias, true)
  }

  predicate EndsWithStar(t: string)
  {
    |t| > 0 && t[|t| - 1] == '*'
  }

  /** What `name` returns: the escaped name as one token, then a string alias unless the name ends in `*`. */
  function NameTokens(x: Php, alias: Php): seq<string>
  {
    var n := Rendered(EscapeName(x));
    NonEmpty(n) + AliasPart(alias, !EndsWithStar(n))
  }

  /** A non-empty string alias is written as `AS` and the alias in backticks, exactly when the name does not end in `*`. */
  lemma NameAlias(x: Php, a: string)
    requires a != "" && !x.Self?
    ensures NameTokens(x, Sc(Str(a))) ==
      [NameToken(x)] + (if EndsWithStar(NameToken(x)) then [] else ["AS", "`" + Strip(a, '`') + "`"])
  {
    var n := NameToken(x);
    assert EscapeName(x) == [n];
    EscapeNameTextNonEmpty(NameSource(x));
    QuoteNameTextNonEmpty(NameSource(x));
    var e := "`" + Strip(a, '`') + "`";
    assert Rendered([n]) == n;
    assert Rendered([e]) == e;
    assert EscapeAlias(Sc(Str(a))) == [e];
    assert Piece(Plain(Self([e]))) == [e];
    assert ["AS"] + [e] == ["AS", e];
  }

  /** The escaped name is never empty: a lone part is quoted, and a dotted name keeps its quoted first part. */
  lemma EscapeNameTextNonEmpty(s: string)
    ensures EscapeNameText(s) != ""
  {
    if s != "*" {
      QuoteNameTextNonEmpty(s);
    }
  }

  lemma QuoteNameTextNonEmpty(s: string)
    ensures QuoteNameText(s) != ""
  {
    if '.' in s {
      var ts := PartTexts(Explode(s, '.'));
      assert ts[0] != "";
      JoinFirst(".", ts);
    }
  }

  lemma {:induction false} JoinFirst(sep: string, xs: seq<string>)
    requires |xs| >= 1
    ensures |Join(sep, xs)| >= |xs[0]|
  {
  }

  /** With no alias, or an integer key, value and name give one token each. */
  lemma NoAlias(m: Manager, x: Mixed, n: Php, i: int, numeric: bool)
    ensures ValueTokens(m, x, Sc(Null), numeric) == NonEmpty(EscapeValue(m, x, numeric))
    ensures ValueTokens(m, x, Sc(Int(i)), numeric) == NonEmpty(EscapeValue(m, x, numeric))
    ensures NameTokens(n, Sc(Null)) == NonEmpty(Rendered(EscapeName(n)))
  {
  }

  /** A value with a string alias is written `<value> AS `<alias>``. */
  lemma ValueAlias(m: Manager, i: int, a: string)
    requires a != ""
    ensures Rendered(ValueTokens(m, Plain(Sc(Int(i))), Sc(Str(a)), false)) == IntText(i) + " AS `" + Strip(a, '`') + "`"
  {
    var e := "`" + Strip(a, '`') + "`";
    assert Rendered([e]) == e;
    assert EscapeAlias(Sc(Str(a))) == [e];
    assert Piece(Plain(Self([e]))) == [e];
    assert ValueTokens(m, Plain(Sc(Int(i))), Sc(Str(a)), false) == [IntText(i), "AS", e];
    RenderedAs(IntText(i), e);
    AsBacktick(IntText(i), Strip(a, '`'));
  }

  lemma AsBacktick(v: string, s: string)
    ensures v + " AS " + ("`" + s + "`") == v + " AS `" + s + "`"
  {
    assert " AS " + "`" == " AS `";
    SeqAssoc(v + " AS ", "`" + s, "`");
    SeqAssoc(v + " AS ", "`", s);
    SeqAssoc(v, " AS ", "`");
  }

  /** Three tokens joined by spaces, the middle one `AS`. */
  lemma RenderedAs(v: string, e: string)
    ensures Rendered([v, "AS", e]) == v + " AS " + e
  {
    var t := [v, "AS", e];
    assert t[1..] == ["AS", e] && t[1..][1..] == [e];
    assert Join(" ", t[1..]) == "AS" + " " + e;
    assert v + " " + ("AS" + " " + e) == v + " AS " + e;
  }

  // --------------------------------------------------------- names, values

  /** A PHP array key used as an alias: a string key is a string, an integer key an int. */
  function KeyPhp(k: Key): Php
  {
    match k
    case IntKey(i) => Sc(Int(i))
    case StrKey(s) => Sc(Str(s))
  }

  /** One listed name: the entry's value, aliased by its key. */
  function NameText(e: (Key, Php)): string
  {
    Rendered(NameTokens(e.1, KeyPhp(e.0)))
  }

  function NameTexts(entries: seq<(Key, Php)>): (r: seq<string>)
    ensures |r| == |entries| && forall i :: 0 <= i < |entries| ==> r[i] == NameText(entries[i])
  {
    seq(|entries|, i requires 0 <= i < |entries| => NameText(entries[i]))
  }

  /** What `names` returns: a non-array as one name; an array's names, each aliased by its string key, joined by ",". */
  function NamesSpec(vars: Php): seq<string>
  {
    if !vars.Arr? then NameTokens(vars, Sc(Null)) else NonEmpty(Join(",", NameTexts(vars.entries)))
  }

  /** `names`: the loop pushing one name builder per entry, then one builder from the array. */
  method Names(vars: Php) returns (r: seq<string>)
    ensures r == NamesSpec(vars)
  {
    if !vars.Arr? {
      return NameTokens(vars, Sc(Null));
    }
    var es := vars.entries;
    var res: seq<string> := [];
    var i := 0;
    while i < |es|
      invariant 0 <= i <= |es|
      invariant res == NameTexts(es[..i])
    {
      assert es[..i + 1] == es[..i] + [es[i]];
      res := res + [NameText(es[i])];
      i := i + 1;
    }
    assert es[..i] == es;
    r := NonEmpty(Join(",", res));
  }

  /** One listed value: the entry's value, aliased by its key. */
  function ValueText(m: Manager, e: (Key, Php), numeric: bool): string
  {
    Rendered(ValueTokens(m, Plain(e.1), KeyPhp(e.0), numeric))
  }

  function ValueTexts(m: Manager, entries: seq<(Key, Php)>, numeric: bool): (r: seq<string>)
    ensures |r| == |entries| && forall i :: 0 <= i < |entries| ==> r[i] == ValueText(m, entries[i], numeric)
  {
    seq(|entries|, i requires 0 <= i < |entries| => ValueText(m, entries[i], numeric))
  }

  /** What `values` returns: a non-array as one value; an array's values, each aliased by its string key, joined by ",". */
  function ValuesSpec(m: Manager, vars: Mixed, numeric: bool): seq<string>
  {
    if vars.Plain? && vars.p.Arr? then NonEmpty(Join(",", ValueTexts(m, vars.p.entries, numeric)))
    else ValueTokens(m, vars, Sc(Null), numeric)
  }

  /** `values`: the loop replacing each entry by its value builder, then one builder from the array. */
  method Values(m: Manager, vars: Mixed, numeric: bool) returns (r: seq<string>)
    ensures r == ValuesSpec(m, vars, numeric)
  {
    if !(vars.Plain? && vars.p.Arr?) {
      return ValueTokens(m, vars, Sc(Null), numeric);
    }
    var es := vars.p.entries;
    var res: seq<string> := [];
    var i := 0;
    while i < |es|
      invariant 0 <= i <= |es|
      invariant res == ValueTexts(m, es[..i], numeric)
    {
      ValueTextsStep(m, es, i, numeric);
      res := res + [ValueText(m, es[i], numeric)];
      i := i + 1;
    }
    assert es[..i] == es;
    r := NonEmpty(Join(",", res));
  }

  lemma ValueTextsStep(m: Manager, es: seq<(Key, Php)>, i: nat, numeric: bool)
    requires i < |es|
    ensures ValueTexts(m, es[..i + 1], numeric) == ValueTexts(m, es[..i], numeric) + [ValueText(m, es[i], numeric)]
  {
    assert es[..i + 1] == es[..i] + [es[i]];
  }

  /** Two listed values are one token, joined by "," with no space; an empty list gives no token. */
  lemma ValuesShape(m: Manager, a: int, b: int)
    ensures ValuesSpec(m, Plain(Arr([])), false) == []
    ensures ValuesSpec(m, Plain(Arr([(IntKey(0), Sc(Int(a))), (IntKey(1), Sc(Int(b)))])), false) == [IntText(a) + "," + IntText(b)]
  {
    var es := [(IntKey(0), Sc(Int(a))), (IntKey(1), Sc(Int(b)))];
    var ts := ValueTexts(m, es, false);
    assert ValueTokens(m, Plain(Sc(Int(a))), Sc(Int(0)), false) == [IntText(a)];
    assert ValueTokens(m, Plain(Sc(Int(b))), Sc(Int(1)), false) == [IntText(b)];
    assert Rendered([IntText(a)]) == IntText(a) && Rendered([IntText(b)]) == IntText(b);
    assert ts == [IntText(a), IntText(b)] && ts[1..] == [IntText(b)];
    assert Join(",", ts) == IntText(a) + "," + IntText(b);
  }

  // ------------------------------------------------------------------ hex

  /** `/^[0-9a-fA-F]+$/`: hex digits only, where `$` also matches before one final "\n". */
  predicate HexMatch(s: string)
  {
    |HexBody(s)| > 0 && forall k :: 0 <= k < |HexBody(s)| ==> IsHexDigit(HexBody(s)[k])
  }

  /** The text `$` leaves to match: all of it, or all but one final "\n". */
  function HexBody(s: string): (r: string)
    ensures |r| <= |s|
  {
    if |s| > 0 && s[|s| - 1] == '\n' then s[..|s| - 1] else s
  }

  /** `hex`: `0x` and the text when it is hex digits, otherwise null. */
  function Hex(p: Php): (r: Option<seq<string>>)
    ensures r.Some? <==> HexMatch(Strval(p))
    ensures r.Some? ==> r.value == ["0x" + Strval(p)]
  {
    if HexMatch(Strval(p)) then Some(["0x" + Strval(p)]) else None
  }

  /** Hex digits of either case pass, with one trailing newline too. */
  lemma HexAccepts()
    ensures Hex(Sc(Str("1aF"))) == Some(["0x1aF"])
    ensures Hex(Sc(Str("ab\n"))) == Some(["0xab\n"])
  {
    assert HexMatch("1aF") by {
      var b := HexBody("1aF");
      assert "1aF"[2] == 'F' && b == "1aF";
      forall k | 0 <= k < 3 ensures IsHexDigit(b[k]) { if k == 0 { } else if k == 1 { } else { } }
    }
    assert HexMatch("ab\n") by {
      var b := HexBody("ab\n");
      assert b == "ab";
      forall k | 0 <= k < 2 ensures IsHexDigit(b[k]) { if k == 0 { } else { } }
    }
    assert "0x" + "1aF" == "0x1aF" && "0x" + "ab\n" == "0xab\n";
  }

  /** The empty text, null and a `0x` literal give null. */
  lemma HexRejects()
    ensures Hex(Sc(Str(""))) == None && Hex(Sc(Null)) == None
    ensures Hex(Sc(Str("0x1"))) == None
  {
    var h := "0x1";
    assert h[2] == '1' && h[1] == 'x';
    assert HexBody(h) == h;
    assert !IsHexDigit(HexBody(h)[1]);
  }
}
