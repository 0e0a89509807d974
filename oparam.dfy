/**
 * Named statement parameters (`OParam`): a `:name` text that escapes itself,
 * so it is written into SQL verbatim. The only way to build one is `make`,
 * which checks the text against `^\:\w+$`.
 */
module OParam {
  import opened Text

  /** The stored parameter text; the constructor is private, so it has passed `make`. */
  datatype OParam = OParam(n: string)

  /**
   * Runs `\w+$` from index i as PCRE does without the D modifier: word
   * characters to the end, where `$` also accepts one final line feed.
   */
  function WordsToEnd(p: string, i: nat): (ok: bool)
    requires i <= |p|
    decreases |p| - i
  {
    if i == |p| then true
    else if IsWordChar(p[i]) then WordsToEnd(p, i + 1)
    else p[i] == '\n' && i + 1 == |p|
  }

  /** `preg_match('/^\:\w+$/', p)` */
  predicate ParamSyntax(p: string)
  {
    |p| >= 2 && p[0] == ':' && IsWordChar(p[1]) && WordsToEnd(p, 2)
  }

  /** The scan accepts exactly word characters, with at most one line feed and only at the very end. */
  lemma {:induction false} WordsToEndSpec(p: string, i: nat)
    requires i <= |p|
    ensures WordsToEnd(p, i) <==>
      forall k :: i <= k < |p| ==> IsWordChar(p[k]) || (k == |p| - 1 && p[k] == '\n')
    decreases |p| - i
  {
    if i < |p| {
      WordsToEndSpec(p, i + 1);
    }
  }

  /** `OParam::make`: the parameter, or null when the text is not a `:word` name. */
  function Make(p: string): (r: Option<OParam>)
    ensures r.Some? ==> r.value.n == p
  {
    if ParamSyntax(p) then Some(OParam(p)) else None
  }

  /**
   * make accepts exactly a colon followed by one or more word characters;
   * because `$` also matches before a final line feed, one trailing "\n"
   * is accepted and kept in the stored text.
   */
  lemma MakeAccepts(p: string)
    ensures Make(p).Some? <==>
      |p| >= 2 && p[0] == ':' && IsWordChar(p[1]) &&
      forall k :: 2 <= k < |p| ==> IsWordChar(p[k]) || (k == |p| - 1 && p[k] == '\n')
  {
    if |p| >= 2 { WordsToEndSpec(p, 2); }
  }

  /** Word characters are never quote, bracket, dot or space characters. */
  lemma AcceptedShape(p: string)
    requires Make(p).Some?
    ensures p[0] == ':' && IsWordChar(p[1])
    ensures forall k :: 1 <= k < |p| ==> p[k] !in {'"', '`', '\'', '[', ']', '.', ' ', ','}
  {
    WordsToEndSpec(p, 2);
  }

  /** `toSQLite`: the text put into SQL is the parameter itself, unescaped. */
  function ToSql(o: OParam): (r: string)
    ensures Make(o.n).Some? ==> Make(r) == Some(o)
  {
    o.n
  }

  /** `__toString` gives back exactly what make was given. */
  function ToString(o: OParam): string
  {
    o.n
  }

  lemma MakeRoundTrip(p: string)
    requires Make(p).Some?
    ensures ToString(Make(p).value) == p && ToSql(Make(p).value) == p
  {
  }
}
