/**
 * Identifier quoting with the canonical SQLite quote `"`:
 * `quoteName` and `quoteNameParts` of the abstract manager class
 * (the trait copy in the second generation has the same text).
 */
module SqliteQuote {
  import opened Text
  import opened NameGrammar

  /** `"` + name with every `"` doubled + `"`. */
  function QuoteName(name: string): (r: string)
    ensures |r| >= 2 && r[0] == '"' && r[|r| - 1] == '"'
    ensures Undouble(r[1..|r| - 1], '"') == name
    ensures QuotedPath(r, '"') && ScanInterior(r, '"', 1) == |r| - 1
  {
    QuoteWithPath(name, '"');
    QuoteWith(name, '"')
  }

  /** The first characters a bare part may not start with. */
  const BareExcluded: set<char> := {'"', '`', '\'', '[', '.'}

  /**
   * The name-part pattern: a `"…"`, `` `…` ``, `'…'` or `[…]` part, or a bare
   * part up to the first dot, then optionally a dot and the rest.
   */
  function SplitPart(name: string): (r: Match)
    ensures r.Some? ==> |r.value.0| >= 1 && IsPrefix(r.value.0, name)
    ensures r.Some? && r.value.0[0] in {'"', '`', '\'', '['} ==> |r.value.0| >= 3
    ensures r.Some? && r.value.1.Some? ==> |r.value.1.value| < |name|
  {
    if name == "" then None
    else if name[0] in {'"', '`', '\''} then SplitQuoted(name, name[0])
    else if name[0] == '[' then SplitBracket(name)
    else SplitBare(name, BareExcluded)
  }

  /** How the first matched part is written out. */
  function EmitPart(part: string): (r: string)
    requires |part| >= 1
    requires part[0] in {'"', '`', '\'', '['} ==> |part| >= 2
  {
    if part[0] == '"' then part
    else if part[0] == '[' then QuoteName(part[1..|part| - 1])
    else if part[0] == '`' then QuoteName(Undouble(part[1..|part| - 1], '`'))
    else if part[0] == '\'' then QuoteName(Undouble(part[1..|part| - 1], '\''))
    else QuoteName(part)
  }

  /**
   * Quotes a possibly dotted, possibly already quoted name. Whatever the
   * input, the output is `*` or a dot-separated path of `"`-quoted parts in
   * canonical form, so a name can never break out of its quotes.
   */
  function QuoteNameParts(name: string): (r: string)
    ensures QuotedPath(r, '"')
    decreases |name|
  {
    if name == "*" then name
    else match SplitPart(name)
      case None => QuoteName(name)
      case Some((part, rest)) =>
        var head := EmitPart(part);
        assert |head| >= 2 && head[0] == '"' && ScanInterior(head, '"', 1) == |head| - 1 by {
          if part[0] == '"' { SplitQuotedPart(name, '"'); }
        }
        if rest.None? then head
        else
          var tailText := QuoteNameParts(rest.value);
          QuotedPathCons(head, '"', tailText);
          head + "." + tailText
  }

  /** `*` passes through; the empty name and a name starting with a dot are quoted whole. */
  lemma QuoteNamePartsFallbacks(name: string)
    ensures QuoteNameParts("*") == "*"
    ensures QuoteNameParts("") == "\"\""
    ensures name != "" && name[0] == '.' ==> QuoteNameParts(name) == QuoteName(name)
  {
  }

  /**
   * A path of canonically quoted, non-empty parts (with no line feed) is a
   * fixed point: already quoted names are not quoted twice.
   */
  lemma {:induction false} QuoteNamePartsFixesCanonical(r: string)
    requires CanonicalPath(r) && '\n' !in r
    ensures QuoteNameParts(r) == r
    decreases |r|
  {
    if r != "*" {
      var j := ScanInterior(r, '"', 1);
      var head, t := r[..j + 1], r[j + 1..];
      assert SplitPart(r) == WithTail(head, t);
      assert EmitPart(head) == head;
      if j + 1 < |r| {
        DotRest(r, j);
        QuoteNamePartsFixesCanonical(r[j + 2..]);
      } else {
        assert head == r;
        assert t == "";
      }
    }
  }

  /** Quoted paths whose parts are all non-empty: the inputs that quoteNameParts leaves unchanged. */
  predicate CanonicalPath(r: string)
    decreases |r|
  {
    r == "*" ||
    (|r| >= 2 && r[0] == '"' &&
     var j := ScanInterior(r, '"', 1);
     1 < j < |r| && (j + 1 == |r| || (r[j + 1] == '.' && CanonicalPath(r[j + 2..]))))
  }

  /** So quoting an already quoted non-empty name changes nothing; the empty name is the exception. */
  lemma QuoteNamePartsIdempotentOnQuoted(s: string)
    requires s != ""
    ensures QuoteNameParts(QuoteName(s)) == QuoteName(s)
    ensures QuoteNameParts(QuoteName("")) == QuoteName(QuoteName(""))
  {
    var r := QuoteName(s);
    assert |Double(s, '"')| >= 1;
    assert ScanInterior(r, '"', 1) == |r| - 1;
    assert r[..|r|] == r;
    assert SplitPart(r) == Some((r, None));
    assert ScanInterior("\"\"", '"', 1) == 1;
  }

  /** A backtick- or single-quoted part is re-quoted with `"` after its own doubling is undone. */
  lemma QuoteNamePartsConverts(s: string, q: char)
    requires s != "" && q in {'`', '\''}
    ensures QuoteNameParts(QuoteWith(s, q)) == QuoteName(s)
  {
    var r := QuoteWith(s, q);
    QuotedWholePart(s, q);
    assert EmitPart(r) == QuoteName(s);
  }

  /** A non-empty name quoted with q is one whole part with nothing after it. */
  lemma QuotedWholePart(s: string, q: char)
    requires s != "" && q in {'`', '\''}
    ensures SplitPart(QuoteWith(s, q)) == Some((QuoteWith(s, q), None))
  {
    var r := QuoteWith(s, q);
    ScanDoubled([q], s, q, []);
    assert [q] + Double(s, q) + [q] + [] == r;
    assert |Double(s, q)| >= 1;
    assert r[..|r|] == r;
    assert SplitQuoted(r, q) == WithTail(r, []);
  }

  /** A bracketed part is re-quoted with `"`; its interior is taken as it is. */
  lemma QuoteNamePartsBracket(s: string)
    requires s != "" && ']' !in s
    ensures QuoteNameParts("[" + s + "]") == QuoteName(s)
  {
    var r := "[" + s + "]";
    var j := Find(r, ']', 1);
    assert r[|r| - 1] == ']';
    assert j == |r| - 1;
    assert r[..|r|] == r;
    assert r[1..|r| - 1] == s;
    assert SplitPart(r) == Some((r, None));
  }

  /** A bare first part is quoted and the text after its dot is handled the same way. */
  lemma QuoteNamePartsDotted(a: string, b: string)
    requires a != "" && a[0] !in BareExcluded && '.' !in a
    requires '\n' !in b
    ensures QuoteNameParts(a + "." + b) == QuoteName(a) + "." + QuoteNameParts(b)
  {
    var s := a + "." + b;
    var j := Find(s, '.', 1);
    assert s[|a|] == '.';
    assert j == |a|;
    assert s[..j] == a;
    assert s[j..] == "." + b;
    assert '\n' !in "." + b;
    assert SplitPart(s) == Some((a, Some(b)));
  }
}
