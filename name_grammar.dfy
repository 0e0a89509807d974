/**
 * The pieces shared by every name-part grammar of the quoters: a quoted part
 * `q(?:[^q]|qq)+q`, a bracketed part `\[(?:[^\]])+\]`, a bare part, and the
 * tail `(?:\.(.*))?$` that follows the first part. They are written as the
 * PCRE matcher reads them: `.` does not match "\n", and `$` also matches just
 * before one final "\n".
 */
module NameGrammar {
  import opened Text

  /** Wraps s in q after doubling every q inside it. */
  function QuoteWith(s: string, q: char): (r: string)
    ensures |r| >= 2 && r[0] == q && r[|r| - 1] == q
    ensures Undouble(r[1..|r| - 1], q) == s
  {
    var r := [q] + Double(s, q) + [q];
    assert r[1..|r| - 1] == Double(s, q);
    UndoubleDouble(s, q);
    r
  }

  /**
   * Where the interior of a q-quoted part, started at i, stops: it runs over
   * characters other than q and over doubled qq pairs, and ends at the first
   * lone q (or at the end of the text).
   */
  function ScanInterior(s: string, q: char, i: nat): (j: nat)
    requires i <= |s|
    ensures i <= j <= |s|
    ensures j < |s| ==> s[j] == q && (j + 1 == |s| || s[j + 1] != q)
    decreases |s| - i
  {
    if i == |s| then i
    else if s[i] != q then ScanInterior(s, q, i + 1)
    else if i + 1 < |s| && s[i + 1] == q then ScanInterior(s, q, i + 2)
    else i
  }

  /** What `(?:\.(.*))?$` makes of the text after the first part. */
  datatype Tail = NoRest | Rest(rest: string) | NoMatch

  function MatchTail(t: string): (r: Tail)
    ensures r.Rest? ==> |r.rest| < |t| && '\n' !in r.rest
    ensures r.NoRest? <==> t == "" || t == "\n"
    ensures (t != "" && t[0] == '.' && '\n' !in t) ==> r == Rest(t[1..])
  {
    if t == "" || t == "\n" then NoRest
    else if t[0] != '.' then NoMatch
    else if '\n' !in t[1..] then Rest(t[1..])
    else if t[|t| - 1] == '\n' && '\n' !in t[1..|t| - 1] then Rest(t[1..|t| - 1])
    else NoMatch
  }

  /** The match of a name: the first part (group 1) and, when it took part, group 2. */
  type Match = Option<(string, Option<string>)>

  /** Combines a first part with the tail that follows it. */
  function WithTail(part: string, t: string): (r: Match)
    ensures r.Some? ==> r.value.0 == part
    ensures r.Some? && r.value.1.Some? ==> |r.value.1.value| < |t|
  {
    match MatchTail(t)
    case NoRest => Some((part, None))
    case Rest(x) => Some((part, Some(x)))
    case NoMatch => None
  }

  /** `^(q(?:[^q]|qq)+q)(?:\.(.*))?$` on a text that starts with q. */
  function SplitQuoted(s: string, q: char): (r: Match)
    requires |s| > 0 && s[0] == q
    ensures r.Some? ==> IsPrefix(r.value.0, s) && |r.value.0| >= 3
    ensures r.Some? && r.value.1.Some? ==> |r.value.1.value| < |s|
  {
    var j := ScanInterior(s, q, 1);
    if j == |s| || j == 1 then None else WithTail(s[..j + 1], s[j + 1..])
  }

  /** Index of the first c at or after i, or |s|. */
  function Find(s: string, c: char, i: nat): (j: nat)
    requires i <= |s|
    ensures i <= j <= |s|
    ensures j < |s| ==> s[j] == c
    ensures forall k :: i <= k < j ==> s[k] != c
    decreases |s| - i
  {
    if i == |s| || s[i] == c then i else Find(s, c, i + 1)
  }

  /** `^(\[(?:[^\]])+\])(?:\.(.*))?$` on a text that starts with `[`. */
  function SplitBracket(s: string): (r: Match)
    requires |s| > 0 && s[0] == '['
    ensures r.Some? ==> IsPrefix(r.value.0, s) && |r.value.0| >= 3
    ensures r.Some? && r.value.1.Some? ==> |r.value.1.value| < |s|
  {
    var j := Find(s, ']', 1);
    if j == |s| || j == 1 then None else WithTail(s[..j + 1], s[j + 1..])
  }

  /**
   * `^([^X][^\.]*)(?:\.(.*))?$` where X is the set of excluded first
   * characters: the part runs to the first dot.
   */
  function SplitBare(s: string, excluded: set<char>): (r: Match)
    requires |s| > 0
    ensures r.Some? ==> IsPrefix(r.value.0, s) && |r.value.0| >= 1 && '.' !in r.value.0[1..]
    ensures r.Some? && r.value.1.Some? ==> |r.value.1.value| < |s|
    ensures r.Some? <==> s[0] !in excluded && (Find(s, '.', 1) == |s| || MatchTail(s[Find(s, '.', 1)..]).Rest?)
  {
    if s[0] in excluded then None
    else
      var j := Find(s, '.', 1);
      assert '.' !in s[..j][1..] by {
        forall k | 0 <= k < |s[..j][1..]| ensures s[..j][1..][k] != '.' { assert s[..j][1..][k] == s[k + 1]; }
      }
      WithTail(s[..j], s[j..])
  }

  /**
   * A canonical quoted path: q-quoted parts with doubled q inside, separated
   * by single dots, where `*` may stand for the last part.
   */
  predicate QuotedPath(r: string, q: char)
    decreases |r|
  {
    r == "*" ||
    (|r| >= 2 && r[0] == q &&
     var j := ScanInterior(r, q, 1);
     j < |r| && (j + 1 == |r| || (r[j + 1] == '.' && QuotedPath(r[j + 2..], q))))
  }

  /** A dot after the first part of a text without line feeds leaves the rest as group 2. */
  lemma DotRest(r: string, j: nat)
    requires '\n' !in r && j + 1 < |r| && r[j + 1] == '.'
    ensures '\n' !in r[j + 2..] && MatchTail(r[j + 1..]) == Rest(r[j + 2..])
    ensures r == r[..j + 1] + "." + r[j + 2..]
  {
    var rest := r[j + 2..];
    assert r[j + 1..] == "." + rest;
    assert '\n' !in rest by {
      forall k | 0 <= k < |rest| ensures rest[k] != '\n' { assert rest[k] == r[j + 2 + k]; }
    }
  }

  /** Scanning a doubled interior stops at the quote that closes it, whatever follows. */
  lemma {:induction false} ScanDoubled(pre: string, s: string, q: char, tail: string)
    requires tail == [] || tail[0] != q
    ensures ScanInterior(pre + Double(s, q) + [q] + tail, q, |pre|) == |pre| + |Double(s, q)|
    decreases |s|
  {
    if s == [] {
      ScanClose(pre, q, tail);
    } else {
      var h := if s[0] == q then [q, q] else [s[0]];
      DoubleHead(pre, s, q, tail);
      ScanDoubled(pre + h, s[1..], q, tail);
    }
  }

  /** With nothing left to double, the scan stops at the closing q. */
  lemma {:induction false} ScanClose(pre: string, q: char, tail: string)
    requires tail == [] || tail[0] != q
    ensures ScanInterior(pre + Double([], q) + [q] + tail, q, |pre|) == |pre| + |Double([], q)|
  {
    assert Double([], q) == [];
    var x := pre + [q] + tail;
    assert pre + Double([], q) + [q] + tail == x;
    assert x[|pre|] == q;
    assert |pre| + 1 < |x| ==> x[|pre| + 1] == tail[0];
    ScanStops(x, q, |pre|);
  }

  /** A lone q ends the scan where it stands. */
  lemma ScanStops(x: string, q: char, i: nat)
    requires i < |x| && x[i] == q && (i + 1 == |x| || x[i + 1] != q)
    ensures ScanInterior(x, q, i) == i
  {
  }

  /** The first character of s, doubled when it is q, moves from the doubled text onto the prefix. */
  lemma {:induction false} DoubleHead(pre: string, s: string, q: char, tail: string)
    requires s != []
    ensures var h := if s[0] == q then [q, q] else [s[0]];
      ScanInterior(pre + Double(s, q) + [q] + tail, q, |pre|) ==
        ScanInterior((pre + h) + Double(s[1..], q) + [q] + tail, q, |pre + h|) &&
      |pre + h| + |Double(s[1..], q)| == |pre| + |Double(s, q)|
  {
    var h := if s[0] == q then [q, q] else [s[0]];
    var d := Double(s[1..], q);
    assert Double(s, q) == h + d;
    var x := pre + Double(s, q) + [q] + tail;
    assert x == (pre + h) + d + [q] + tail;
    assert x[|pre|] == h[0];
    assert |h| == 2 ==> x[|pre| + 1] == q;
  }

  /** A scan that stops at the last character is not changed by text that does not start with q. */
  lemma {:induction false} ScanExtend(p: string, q: char, i: nat, t: string)
    requires i <= |p| && ScanInterior(p, q, i) == |p| - 1
    requires t == [] || t[0] != q
    ensures ScanInterior(p + t, q, i) == |p| - 1
    decreases |p| - i
  {
    var x := p + t;
    assert x[..|p|] == p;
    if p[i] != q {
      ScanExtend(p, q, i + 1, t);
    } else if i + 1 < |p| && p[i + 1] == q {
      ScanExtend(p, q, i + 2, t);
    } else {
      assert i == |p| - 1;
      assert |x| > i + 1 ==> x[i + 1] == t[0];
    }
  }

  /** Scanning the prefix that ends at the closing quote gives the same stop. */
  lemma {:induction false} ScanPrefix(s: string, q: char, i: nat)
    requires i <= |s| && ScanInterior(s, q, i) < |s|
    ensures ScanInterior(s[..ScanInterior(s, q, i) + 1], q, i) == ScanInterior(s, q, i)
    decreases |s| - i
  {
    var j := ScanInterior(s, q, i);
    var p := s[..j + 1];
    if s[i] != q {
      ScanPrefix(s, q, i + 1);
      assert p[i] == s[i];
    } else if i + 1 < |s| && s[i + 1] == q {
      ScanPrefix(s, q, i + 2);
      assert p[i] == s[i];
      assert i + 1 < |p| && p[i + 1] == q;
    } else {
      assert j == i;
      assert p[i] == q;
    }
  }

  /** Every QuoteWith result is a one-part quoted path. */
  lemma QuoteWithPath(s: string, q: char)
    ensures QuotedPath(QuoteWith(s, q), q)
    ensures ScanInterior(QuoteWith(s, q), q, 1) == |QuoteWith(s, q)| - 1
  {
    ScanDoubled([q], s, q, []);
    assert [q] + Double(s, q) + [q] + [] == QuoteWith(s, q);
  }

  /** A one-part quoted path followed by a dot and a quoted path is a quoted path. */
  lemma QuotedPathCons(p: string, q: char, rest: string)
    requires |p| >= 2 && p[0] == q && ScanInterior(p, q, 1) == |p| - 1
    requires QuotedPath(rest, q)
    requires q != '.'
    ensures QuotedPath(p + "." + rest, q)
  {
    var r := p + "." + rest;
    assert r == p + ("." + rest);
    ScanExtend(p, q, 1, "." + rest);
    assert r[|p|] == '.';
    assert r[|p| + 1..] == rest;
  }

  /** The first part found by SplitQuoted is itself a one-part quoted path. */
  lemma SplitQuotedPart(s: string, q: char)
    requires |s| > 0 && s[0] == q && SplitQuoted(s, q).Some?
    ensures var p := SplitQuoted(s, q).value.0;
      |p| >= 2 && p[0] == q && ScanInterior(p, q, 1) == |p| - 1
  {
    ScanPrefix(s, q, 1);
  }
}
