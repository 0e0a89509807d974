/**
 * Identifier quoting with backticks, as the later managers do it
 * (`quoteName` and `name_` of the SQLite manager base, and `quoteName` and
 * `name` of the PDO manager): a part already in backticks is kept as it is,
 * a bare part is quoted, and the text after the first dot is handled the
 * same way. The two grammars differ only in the characters a bare part may
 * not start with, which the callers pass in.
 */
module BacktickQuote {
  import opened Text
  import opened NameGrammar

  /** `` '`'.str_replace('`', '``', $name).'`' `` */
  function QuoteName(name: string): (r: string)
    ensures |r| >= 2 && r[0] == '`' && r[|r| - 1] == '`'
    ensures Undouble(r[1..|r| - 1], '`') == name
    ensures QuotedPath(r, '`') && ScanInterior(r, '`', 1) == |r| - 1
  {
    QuoteWithPath(name, '`');
    QuoteWith(name, '`')
  }

  /** A backtick part `` `(?:[^`]|``)+` ``, or a bare part up to the first dot, then optionally a dot and the rest. */
  function SplitPart(name: string, excluded: set<char>): (r: Match)
    requires '`' in excluded
    ensures r.Some? ==> |r.value.0| >= 1 && IsPrefix(r.value.0, name)
    ensures r.Some? && r.value.0[0] == '`' ==> |r.value.0| >= 3
    ensures r.Some? && r.value.1.Some? ==> |r.value.1.value| < |name|
  {
    if name == "" then None
    else if name[0] == '`' then SplitQuoted(name, '`')
    else SplitBare(name, excluded)
  }

  /**
   * The recursive name quoter. Whatever the input, the output is `*` or a
   * dot-separated path of backtick-quoted parts, so a name can never leave
   * its quotes.
   */
  function NameParts(name: string, excluded: set<char>): (r: string)
    requires '`' in excluded
    ensures QuotedPath(r, '`')
    decreases |name|
  {
    if name == "*" then name
    else match SplitPart(name, excluded)
      case None => QuoteName(name)
      case Some((part, rest)) =>
        var head := if part[0] == '`' then part else QuoteName(part);
        assert |head| >= 2 && head[0] == '`' && ScanInterior(head, '`', 1) == |head| - 1 by {
          if part[0] == '`' { SplitQuotedPart(name, '`'); }
        }
        if rest.None? then head
        else
          var tailText := NameParts(rest.value, excluded);
          QuotedPathCons(head, '`', tailText);
          head + "." + tailText
  }

  /** `*` passes through and the empty name is quoted whole. */
  lemma NamePartsFallbacks(excluded: set<char>)
    requires '`' in excluded
    ensures NameParts("*", excluded) == "*"
    ensures NameParts("", excluded) == "``"
  {
  }

  /** A name whose first character is excluded and is not a backtick is quoted whole. */
  lemma NamePartsExcludedStart(name: string, excluded: set<char>)
    requires '`' in excluded && name != "" && name != "*" && name[0] in excluded && name[0] != '`'
    ensures NameParts(name, excluded) == QuoteName(name)
  {
  }

  /** Backtick paths whose parts are all non-empty: the texts the quoter leaves unchanged. */
  predicate CanonicalPath(r: string)
    decreases |r|
  {
    r == "*" ||
    (|r| >= 2 && r[0] == '`' &&
     var j := ScanInterior(r, '`', 1);
     1 < j < |r| && (j + 1 == |r| || (r[j + 1] == '.' && CanonicalPath(r[j + 2..]))))
  }

  /** Already quoted names are not quoted twice: a canonical path without line feeds is a fixed point. */
  lemma {:induction false} NamePartsFixesCanonical(r: string, excluded: set<char>)
    requires '`' in excluded
    requires CanonicalPath(r) && '\n' !in r
    ensures NameParts(r, excluded) == r
    decreases |r|
  {
    if r != "*" {
      var j := ScanInterior(r, '`', 1);
      var head, t := r[..j + 1], r[j + 1..];
      assert SplitPart(r, excluded) == WithTail(head, t);
      if j + 1 < |r| {
        DotRest(r, j);
        NamePartsFixesCanonical(r[j + 2..], excluded);
      } else {
        assert head == r;
        assert t == "";
      }
    }
  }

  /** So quoting a quoted non-empty name changes nothing. */
  lemma NamePartsQuoted(s: string, excluded: set<char>)
    requires '`' in excluded && s != ""
    ensures NameParts(QuoteName(s), excluded) == QuoteName(s)
  {
    var r := QuoteName(s);
    assert |Double(s, '`')| >= 1;
    assert r[..|r|] == r;
    assert SplitPart(r, excluded) == Some((r, None));
  }

  /** A bare first part is quoted and the text after its dot is handled the same way. */
  lemma NamePartsDotted(a: string, b: string, excluded: set<char>)
    requires '`' in excluded && a != "" && a[0] !in excluded && '.' !in a
    requires '\n' !in b
    ensures NameParts(a + "." + b, excluded) == QuoteName(a) + "." + NameParts(b, excluded)
  {
    var s := a + "." + b;
    var j := Find(s, '.', 1);
    assert s[|a|] == '.';
    assert j == |a|;
    assert s[..j] == a;
    assert s[j..] == "." + b;
    assert '\n' !in "." + b;
    assert SplitPart(s, excluded) == Some((a, Some(b)));
  }

  /** A quoted first part is copied verbatim, with its own doubling, before the rest. */
  lemma NamePartsQuotedDotted(a: string, b: string, excluded: set<char>)
    requires '`' in excluded && a != "" && '\n' !in b
    ensures NameParts(QuoteName(a) + "." + b, excluded) == QuoteName(a) + "." + NameParts(b, excluded)
  {
    var q := QuoteName(a);
    var s := q + "." + b;
    assert s == [('`')] + Double(a, '`') + ['`'] + ("." + b);
    ScanDoubled(['`'], a, '`', "." + b);
    assert |Double(a, '`')| >= 1;
    assert ScanInterior(s, '`', 1) == |q| - 1;
    assert s[..|q|] == q;
    assert s[|q|..] == "." + b;
    assert '\n' !in "." + b;
    assert SplitPart(s, excluded) == Some((q, Some(b)));
  }
}
