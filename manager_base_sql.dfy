/**
 * The clause and statement builders of the SQLite manager base
 * (src/SQLiteMan/ManagerBase.php): WHERE and SET lists, ORDER BY terms with
 * their direction grammar, SELECT, the upsert clause, CREATE TABLE with a
 * composite primary key, and the column differ with this manager's `value`.
 */
module ManagerBaseSql {
  import opened Text
  import opened BacktickQuote
  import opened ManagerBase
  import St = Statements
  import PA = PhpArray
  import CD = ColumnDiff
  import opened PhpCompare
  import OP = OParam
  import Data

  // ---------------------------------------------------------------- WHERE

  /** `whereAND_clause` joins by " AND\n", `whereOR_clause` by " OR\n". */
  datatype Conj = And | Or

  function ConjSep(c: Conj): string
  {
    if c == And then " AND\n" else " OR\n"
  }

  /** One condition: `nameVar(col)` and the operator for a string key, then the escaped value. */
  function Condition(m: Manager, op: string, k: Key, v: Arg): string
  {
    (if k.StrKey? then NameVar(m, S(k.s)) + op else "") + Value(m, v)
  }

  function Conditions(m: Manager, op: string, list: seq<(Key, Arg)>): (r: seq<string>)
    ensures |r| == |list|
  {
    seq(|list|, i requires 0 <= i < |list| => Condition(m, op, list[i].0, list[i].1))
  }

  function WhereSpec(m: Manager, c: Conj, op: string, list: seq<(Key, Arg)>): string
  {
    Join(ConjSep(c), Conditions(m, op, list))
  }

  /** The loop of whereAND_clause / whereOR_clause, with a first-entry flag. */
  method Where(m: Manager, c: Conj, op: string, list: seq<(Key, Arg)>) returns (r: string)
    ensures r == WhereSpec(m, c, op, list)
  {
    ghost var parts := Conditions(m, op, list);
    var sep := if c == And then " AND\n" else " OR\n";
    r := "";
    var first := true;
    var i := 0;
    while i < |list|
      invariant 0 <= i <= |list|
      invariant first <==> i == 0
      invariant r == Join(sep, parts[..i])
    {
      JoinStep(sep, parts, i, r);
      if first {
        first := false;
      } else {
        r := r + sep;
      }
      var col, v := list[i].0, list[i].1;
      var lhs := if col.StrKey? then NameVar(m, S(col.s)) + op else "";
      r := r + (lhs + Value(m, v));
      i := i + 1;
    }
    assert parts[..i] == parts;
  }

  /**
   * A string key compares with the operator even against null (there is
   * no IS NULL case here), and an integer key splices the value alone.
   */
  lemma WhereSingle(m: Manager, c: Conj, col: string, n: int, v: Arg)
    ensures WhereSpec(m, c, "=", [(StrKey(col), Lit(Data.Null))]) == NameVar(m, S(col)) + "=NULL"
    ensures WhereSpec(m, c, "=", [(IntKey(n), v)]) == Value(m, v)
    ensures WhereSpec(m, c, "=", []) == ""
  {
    var q := NameVar(m, S(col));
    EqualsNull(q);
    assert Conditions(m, "=", [(StrKey(col), Lit(Data.Null))]) == [q + "=" + "NULL"];
    assert "" + Value(m, v) == Value(m, v);
    assert Conditions(m, "=", [(IntKey(n), v)]) == [Value(m, v)];
    JoinSmall(ConjSep(c), q + "=NULL");
    JoinSmall(ConjSep(c), Value(m, v));
  }

  lemma EqualsNull(q: string)
    ensures q + "=" + "NULL" == q + "=NULL"
  {
    assert "=" + "NULL" == "=NULL";
    SeqAssoc(q, "=", "NULL");
  }

  /** Each further condition adds the separator and that condition. */
  lemma WhereAppend(m: Manager, c: Conj, op: string, list: seq<(Key, Arg)>, k: Key, v: Arg)
    requires list != []
    ensures WhereSpec(m, c, op, list + [(k, v)]) == WhereSpec(m, c, op, list) + ConjSep(c) + Condition(m, op, k, v)
  {
    assert Conditions(m, op, list + [(k, v)]) == Conditions(m, op, list) + [Condition(m, op, k, v)];
    JoinSnoc(ConjSep(c), Conditions(m, op, list), Condition(m, op, k, v));
  }

  // ------------------------------------------------------------------ SET

  /** An integer key with a datum splices the datum; any other entry is `nameVar(key)=value`. */
  function SetEntry(m: Manager, k: Key, v: Arg): string
  {
    if k.IntKey? && v.Dat? then Esc(m, v.d) else NameVar(m, S(KeyText(k))) + "=" + Value(m, v)
  }

  function SetEntries(m: Manager, list: seq<(Key, Arg)>): (r: seq<string>)
    ensures |r| == |list|
  {
    seq(|list|, i requires 0 <= i < |list| => SetEntry(m, list[i].0, list[i].1))
  }

  function SetSpec(m: Manager, list: seq<(Key, Arg)>): string
  {
    Join(",\n", SetEntries(m, list))
  }

  /** `set_clause` */
  method Set(m: Manager, list: seq<(Key, Arg)>) returns (r: string)
    ensures r == SetSpec(m, list)
  {
    ghost var parts := SetEntries(m, list);
    r := "";
    var first := true;
    var i := 0;
    while i < |list|
      invariant 0 <= i <= |list|
      invariant first <==> i == 0
      invariant r == Join(",\n", parts[..i])
    {
      JoinStep(",\n", parts, i, r);
      if first {
        first := false;
      } else {
        r := r + ",\n";
      }
      var name, v := list[i].0, list[i].1;
      if name.IntKey? && v.Dat? {
        r := r + Esc(m, v.d);
      } else {
        r := r + (NameVar(m, S(KeyText(name))) + "=" + Value(m, v));
      }
      i := i + 1;
    }
    assert parts[..i] == parts;
  }

  /**
   * Set and where differ: an integer-keyed datum is spliced as it is, an
   * integer key with a plain value names the column by the key's digits,
   * and a string key assigns with `=` and no spaces.
   */
  lemma SetSingle(m: Manager, n: int, d: Data.Data, v: Data.Scalar, col: string, w: Arg)
    ensures SetSpec(m, [(IntKey(n), Dat(d))]) == Esc(m, d)
    ensures SetSpec(m, [(IntKey(n), Lit(v))]) == Name_(IntText(n)) + "=" + Value(m, Lit(v))
    ensures SetSpec(m, [(StrKey(col), w)]) == NameVar(m, S(col)) + "=" + Value(m, w)
  {
    assert SetEntries(m, [(IntKey(n), Dat(d))]) == [Esc(m, d)];
    assert SetEntries(m, [(IntKey(n), Lit(v))]) == [Name_(IntText(n)) + "=" + Value(m, Lit(v))] by {
      OrdinalNotParam(n);
    }
    assert SetEntries(m, [(StrKey(col), w)]) == [NameVar(m, S(col)) + "=" + Value(m, w)];
  }

  /** The digits of an integer never form a `:param`. */
  lemma OrdinalNotParam(n: int)
    ensures !OP.ParamSyntax(IntText(n))
  {
    var t := IntText(n);
    assert t[0] in t;
  }

  // ------------------------------------------------------------- ORDER BY

  /** PCRE `\s`: space, tab, line feed, vertical tab, form feed, carriage return. */
  predicate IsSpace(ch: char)
  {
    ch == ' ' || ch == '\t' || ch == '\n' || ch as int == 11 || ch as int == 12 || ch == '\r'
  }

  /** The end of the run of white space at i. */
  function SkipSpace(s: string, i: nat): (j: nat)
    requires i <= |s|
    ensures i <= j <= |s| && (j == |s| || !IsSpace(s[j]))
    ensures forall k :: i <= k < j ==> IsSpace(s[k])
    decreases |s| - i
  {
    if i < |s| && IsSpace(s[i]) then SkipSpace(s, i + 1) else i
  }

  /** The literal word w at position i. */
  predicate WordAt(s: string, i: nat, w: string)
  {
    i + |w| <= |s| && s[i..i + |w|] == w
  }

  /** `NULLS\s+(?:FIRST|LAST)` from position i to the end. */
  predicate NullsAt(s: string, i: nat)
  {
    WordAt(s, i, "NULLS") && i + 5 < |s| && IsSpace(s[i + 5]) &&
    var k := SkipSpace(s, i + 5);
    s[k..] == "FIRST" || s[k..] == "LAST"
  }

  /** `(?:ASC|DESC)|(?:ASC\s+|DESC\s+)?NULLS\s+(?:FIRST|LAST)`, the ordering-term grammar of SQLite. */
  predicate DirCore(s: string)
  {
    s == "ASC" || s == "DESC" || NullsAt(s, 0) ||
    (WordAt(s, 0, "ASC") && 3 < |s| && IsSpace(s[3]) && NullsAt(s, SkipSpace(s, 3))) ||
    (WordAt(s, 0, "DESC") && 4 < |s| && IsSpace(s[4]) && NullsAt(s, SkipSpace(s, 4)))
  }

  /**
   * The three direction patterns: REGEXP_ORDER_SIMPLE, REGEXP_ORDER as it
   * is evidently meant, and REGEXP_ORDER as written, whose `(:?` where
   * `(?:` was meant makes a leading colon optional before ASC or DESC.
   */
  datatype Grammar = Simple | Full | FullAsWritten

  predicate Core(g: Grammar, s: string)
  {
    match g
    case Simple => s == "ASC" || s == "DESC"
    case Full => DirCore(s)
    case FullAsWritten => DirCore(s) || s == ":ASC" || s == ":DESC"
  }

  /** `^…$`: PCRE's `$` also matches before one final line feed. */
  predicate Matches(g: Grammar, s: string)
  {
    Core(g, s) || (|s| > 0 && s[|s| - 1] == '\n' && Core(g, s[..|s| - 1]))
  }

  /** A direction passes: only upper-case letters and white space end up in the SQL. */
  predicate SafeChar(ch: char)
  {
    'A' <= ch <= 'Z' || IsSpace(ch)
  }

  /** The characters of a matched literal word are the word's own. */
  lemma WordAtChars(s: string, i: nat, w: string, k: nat)
    requires WordAt(s, i, w) && i <= k < i + |w|
    ensures s[k] == w[k - i] && s[k] in w
  {
    assert s[k] == s[i..i + |w|][k - i];
  }

  lemma NullsAtSafe(s: string, i: nat)
    requires NullsAt(s, i)
    ensures forall k :: i <= k < |s| ==> SafeChar(s[k])
  {
    var j := SkipSpace(s, i + 5);
    var t := s[j..];
    forall p | i <= p < |s|
      ensures SafeChar(s[p])
    {
      if p < i + 5 {
        WordAtChars(s, i, "NULLS", p);
      } else if p >= j {
        assert s[p] == t[p - j];
        assert s[p] in t;
      }
    }
  }

  /** The prefix `ASC` or `DESC` before the white space. */
  lemma PrefixSafe(s: string, w: string)
    requires WordAt(s, 0, w) && (w == "ASC" || w == "DESC")
    ensures forall k :: 0 <= k < |w| ==> SafeChar(s[k])
  {
    forall k | 0 <= k < |w|
      ensures SafeChar(s[k])
    {
      WordAtChars(s, 0, w, k);
    }
  }

  lemma DirCoreSafe(t: string)
    requires DirCore(t)
    ensures forall k :: 0 <= k < |t| ==> SafeChar(t[k])
  {
    if t == "ASC" || t == "DESC" {
      forall k | 0 <= k < |t| ensures SafeChar(t[k]) { assert t[k] in t; }
    } else if NullsAt(t, 0) {
      NullsAtSafe(t, 0);
    } else if WordAt(t, 0, "ASC") && 3 < |t| && IsSpace(t[3]) && NullsAt(t, SkipSpace(t, 3)) {
      DirWordSafe(t, "ASC");
    } else {
      DirWordSafe(t, "DESC");
    }
  }

  /** A direction word, white space and a NULLS clause: every character is safe. */
  lemma DirWordSafe(t: string, w: string)
    requires w == "ASC" || w == "DESC"
    requires WordAt(t, 0, w) && |w| < |t| && IsSpace(t[|w|]) && NullsAt(t, SkipSpace(t, |w|))
    ensures forall k :: 0 <= k < |t| ==> SafeChar(t[k])
  {
    var j := SkipSpace(t, |w|);
    PrefixSafe(t, w);
    NullsAtSafe(t, j);
    forall k | 0 <= k < |t| ensures SafeChar(t[k]) {
      if k >= j { } else if k >= |w| { assert IsSpace(t[k]); }
    }
  }

  /**
   * The corrected grammar (and with it the simple one) lets through only
   * upper-case letters and white space, so the direction can never carry
   * a colon, a quote or anything else into the statement.
   */
  lemma MatchesSafe(g: Grammar, s: string)
    requires g != FullAsWritten && Matches(g, s)
    ensures forall k :: 0 <= k < |s| ==> SafeChar(s[k])
  {
    if Core(g, s) {
      CoreIsDir(g, s);
      DirCoreSafe(s);
    } else {
      var t := s[..|s| - 1];
      CoreIsDir(g, t);
      DirCoreSafe(t);
      forall k | 0 <= k < |s|
        ensures SafeChar(s[k])
      {
        if k < |t| { assert s[k] == t[k]; }
      }
    }
  }

  lemma CoreIsDir(g: Grammar, t: string)
    requires g != FullAsWritten && Core(g, t)
    ensures DirCore(t)
  {
  }

  /** Simple mode accepts a subset of the full grammar, and the as-written grammar adds only the colon forms. */
  lemma GrammarsCompared(s: string)
    ensures Matches(Simple, s) ==> Matches(Full, s)
    ensures Matches(FullAsWritten, s) <==> Matches(Full, s) || s in [":ASC", ":DESC", ":ASC\n", ":DESC\n"]
  {
    if |s| > 0 && s[|s| - 1] == '\n' {
      var t := s[..|s| - 1];
      assert t == ":ASC" ==> s == ":ASC\n";
      assert t == ":DESC" ==> s == ":DESC\n";
      assert s == ":ASC\n" ==> t == ":ASC";
      assert s == ":DESC\n" ==> t == ":DESC";
    }
  }

  /** An ORDER BY entry: a string key with a direction, or an integer key whose value is the expression. */
  datatype OrderEntry = Term(name: string, dir: string) | Expr(e: Text_)

  /** The upper-cased direction after a space when grammar g accepts it, otherwise nothing. */
  function DirText(g: Grammar, dir: string): (r: string)
    ensures r == "" || (r == " " + Upper(dir) && Matches(g, Upper(dir)))
    ensures g != FullAsWritten ==> forall k :: 0 <= k < |r| ==> SafeChar(r[k])
  {
    var d := Upper(dir);
    if Matches(g, d) then
      assert g != FullAsWritten ==> forall k :: 0 <= k < |d| ==> SafeChar(d[k]) by {
        if g != FullAsWritten { MatchesSafe(g, d); }
      }
      assert forall k :: 1 <= k < |d| + 1 ==> (" " + d)[k] == d[k - 1];
      " " + d
    else ""
  }

  function OrderTermWith(m: Manager, g: Grammar, e: OrderEntry): string
  {
    match e
    case Term(name, dir) => Name_(name) + DirText(g, dir)
    case Expr(t) => Name(m, t)
  }

  /** One term as orderBy_clause writes it, with REGEXP_ORDER exactly as written. */
  function OrderTermAsWritten(m: Manager, simple: bool, e: OrderEntry): string
  {
    OrderTermWith(m, if simple then Simple else FullAsWritten, e)
  }

  /** One term with the corrected pattern: the form the rest of this model uses. */
  function OrderTerm(m: Manager, simple: bool, e: OrderEntry): (r: string)
    ensures e.Term? ==> (IsPrefix(Name_(e.name), r) &&
      forall k :: |Name_(e.name)| <= k < |r| ==> SafeChar(r[k]))
  {
    var g := if simple then Simple else Full;
    OrderTermWithSafe(m, g, e);
    OrderTermWith(m, g, e)
  }

  lemma OrderTermWithSafe(m: Manager, g: Grammar, e: OrderEntry)
    requires g != FullAsWritten
    ensures var r := OrderTermWith(m, g, e);
      e.Term? ==> (IsPrefix(Name_(e.name), r) && forall k :: |Name_(e.name)| <= k < |r| ==> SafeChar(r[k]))
  {
    if e.Term? {
      AppendSafe(Name_(e.name), DirText(g, e.dir));
    }
  }

  /** Text whose characters are all safe, appended after q. */
  lemma AppendSafe(q: string, d: string)
    requires forall k :: 0 <= k < |d| ==> SafeChar(d[k])
    ensures IsPrefix(q, q + d) && forall k :: |q| <= k < |q + d| ==> SafeChar((q + d)[k])
  {
    assert (q + d)[..|q|] == q;
    forall k | |q| <= k < |q + d|
      ensures SafeChar((q + d)[k])
    {
      assert (q + d)[k] == d[k - |q|];
    }
  }

  /** As written, a colon direction is upper-cased and written out, giving `… :ASC`; the corrected term drops it. */
  lemma OrderColonAsWritten(m: Manager, name: string)
    ensures OrderTermAsWritten(m, false, Term(name, ":asc")) == Name_(name) + " :ASC"
    ensures OrderTerm(m, false, Term(name, ":asc")) == Name_(name)
  {
    assert Upper(":asc") == ":ASC";
    assert !Matches(Full, ":ASC") by {
      assert !WordAt(":ASC", 0, "ASC") && !WordAt(":ASC", 0, "DESC") && !WordAt(":ASC", 0, "NULLS");
    }
  }

  /** Directions are matched after upper-casing, in whatever case the caller writes them. */
  lemma OrderLowerCase(m: Manager, name: string)
    ensures OrderTerm(m, false, Term(name, "desc")) == Name_(name) + " DESC"
    ensures OrderTerm(m, true, Term(name, "asc")) == Name_(name) + " ASC"
  {
    LowerDirections();
  }

  lemma LowerDirections()
    ensures DirText(Full, "desc") == " DESC" && DirText(Simple, "asc") == " ASC"
  {
    assert Upper("desc") == "DESC";
    assert Upper("asc") == "ASC";
  }

  /** The NULLS forms pass the full grammar, white space and all, and never the simple one. */
  lemma NullsFormAccepted()
    ensures Matches(Full, "DESC  NULLS\tLAST") && !Matches(Simple, "DESC  NULLS\tLAST")
  {
    var u := "DESC  NULLS\tLAST";
    DescNullsLast();
    assert u[|u| - 1] != '\n';
  }

  /** One final line feed is allowed by `$`. */
  lemma NullsFinalLineFeed()
    ensures Matches(Full, "NULLS FIRST\n")
  {
    var v := "NULLS FIRST\n";
    var v' := v[..|v| - 1];
    assert v' == "NULLS FIRST";
    assert v'[..5] == "NULLS" && IsSpace(v'[5]);
    assert SkipSpace(v', 6) == 6 && SkipSpace(v', 5) == 6 && v'[6..] == "FIRST";
    assert NullsAt(v', 0);
  }

  /** NULLS needs FIRST or LAST after it, and white space must separate the words. */
  lemma NullsFormRejected()
    ensures !Matches(Full, "NULLS  ") && !Matches(Full, "ASCNULLS LAST")
  {
    var w := "NULLS  ";
    assert SkipSpace(w, 7) == 7 && SkipSpace(w, 6) == 7 && SkipSpace(w, 5) == 7 && w[7..] == "";
    var x := "ASCNULLS LAST";
    assert !IsSpace(x[3]) && x[..4] != "DESC" && x[..5] != "NULLS";
  }

  lemma DescNullsLast()
    ensures DirCore("DESC  NULLS\tLAST")
  {
    var u := "DESC  NULLS\tLAST";
    assert u[..4] == "DESC" && IsSpace(u[4]);
    assert SkipSpace(u, 6) == 6;
    assert SkipSpace(u, 4) == 6;
    assert u[6..11] == "NULLS" && IsSpace(u[11]);
    assert SkipSpace(u, 12) == 12;
    assert SkipSpace(u, 11) == 12;
    assert u[12..] == "LAST";
    assert NullsAt(u, 6);
  }

  /** Anything else, a misspelt direction included, is dropped without a trace. */
  lemma OrderUnknown(m: Manager, name: string)
    ensures OrderTerm(m, false, Term(name, "down")) == Name_(name)
  {
    var w := "DOWN";
    assert Upper("down") == w;
    assert !WordAt(w, 0, "ASC") && !WordAt(w, 0, "DESC") && !WordAt(w, 0, "NULLS");
    assert w[..3] != "\n";
  }

  function OrderTerms(m: Manager, simple: bool, list: seq<OrderEntry>): (r: seq<string>)
    ensures |r| == |list|
  {
    seq(|list|, i requires 0 <= i < |list| => OrderTerm(m, simple, list[i]))
  }

  function OrderBySpec(m: Manager, simple: bool, list: seq<OrderEntry>): string
  {
    Join(",\n", OrderTerms(m, simple, list))
  }

  /** `orderBy_clause` (with the corrected direction pattern) */
  method OrderBy(m: Manager, simple: bool, list: seq<OrderEntry>) returns (r: string)
    ensures r == OrderBySpec(m, simple, list)
  {
    ghost var parts := OrderTerms(m, simple, list);
    r := "";
    var first := true;
    var i := 0;
    while i < |list|
      invariant 0 <= i <= |list|
      invariant first <==> i == 0
      invariant r == Join(",\n", parts[..i])
    {
      JoinStep(",\n", parts, i, r);
      if first {
        first := false;
      } else {
        r := r + ",\n";
      }
      r := r + OrderTerm(m, simple, list[i]);
      i := i + 1;
    }
    assert parts[..i] == parts;
  }

  // --------------------------------------------------------------- SELECT

  /** `$from`: absent, a list for nameVarList, or one name for nameVar. */
  datatype From = NoFrom | FromList(list: seq<(Key, Text_)>) | FromOne(n: Text_)

  function FromPart(m: Manager, from: From): string
  {
    match from
    case NoFrom => ""
    case FromList(l) => "\nFROM " + NameListSpec(m, ByNameVar, l, true)
    case FromOne(n) => "\nFROM " + NameVar(m, n)
  }

  /** Everything select_sql writes before LIMIT. */
  function SelectHead(m: Manager, columns: seq<(Key, Text_)>, from: From, where: Option<seq<(Key, Arg)>>,
                      groupBy: Option<seq<(Key, Text_)>>, having: Option<seq<(Key, Arg)>>,
                      window: Option<string>, orderBy: Option<seq<OrderEntry>>): string
  {
    "SELECT " + NameListSpec(m, ByNameVar, columns, true) + FromPart(m, from)
      + (if where.Some? then "\nWHERE " + WhereSpec(m, And, "=", where.value) else "")
      + (if groupBy.Some? then "\nGROUP BY " + NameListSpec(m, ByNameVar, groupBy.value, false) else "")
      + (if having.Some? then "\nHAVING " + WhereSpec(m, And, "=", having.value) else "")
      + (if window.Some? then "\nWINDOW " + window.value else "")
      + (if orderBy.Some? then "\nORDER BY " + OrderBySpec(m, false, orderBy.value) else "")
  }

  function LimitPart(m: Manager, limit: Arg): string
  {
    if limit != Lit(Data.Null) then "\nLIMIT " + Value(m, limit) else ""
  }

  function OffsetPart(m: Manager, offset: Arg): string
  {
    if offset != Lit(Data.Null) then "\nOFFSET " + Value(m, offset) else ""
  }

  /**
   * select_sql with its OFFSET test as written: OFFSET is tested on its own,
   * so it can appear without LIMIT. Only that placement is as written: the
   * ORDER BY terms use the corrected direction pattern of OrderTerm.
   */
  function SelectAsWritten(m: Manager, columns: seq<(Key, Text_)>, from: From, where: Option<seq<(Key, Arg)>>,
                           groupBy: Option<seq<(Key, Text_)>>, having: Option<seq<(Key, Arg)>>,
                           window: Option<string>, orderBy: Option<seq<OrderEntry>>, limit: Arg, offset: Arg): string
  {
    SelectHead(m, columns, from, where, groupBy, having, window, orderBy) + (LimitPart(m, limit) + OffsetPart(m, offset))
  }

  /** select_sql as intended: OFFSET only inside the LIMIT branch, the only place SQLite's grammar allows it. */
  function Select(m: Manager, columns: seq<(Key, Text_)>, from: From, where: Option<seq<(Key, Arg)>>,
                  groupBy: Option<seq<(Key, Text_)>>, having: Option<seq<(Key, Arg)>>,
                  window: Option<string>, orderBy: Option<seq<OrderEntry>>, limit: Arg, offset: Arg): (r: string)
    ensures IsPrefix("SELECT " + NameListSpec(m, ByNameVar, columns, true), r)
  {
    var head := SelectHead(m, columns, from, where, groupBy, having, window, orderBy);
    var tail := if limit != Lit(Data.Null) then LimitPart(m, limit) + OffsetPart(m, offset) else "";
    var p := "SELECT " + NameListSpec(m, ByNameVar, columns, true);
    assert head[..|p|] == p;
    assert (head + tail)[..|p|] == p;
    head + tail
  }

  /** Given only an offset, select_sql as written ends in an OFFSET clause with no LIMIT before it. */
  lemma SelectOffsetWithoutLimit(m: Manager, columns: seq<(Key, Text_)>)
    ensures SelectAsWritten(m, columns, NoFrom, None, None, None, None, None, Lit(Data.Null), Lit(Data.Int(5)))
      == "SELECT " + NameListSpec(m, ByNameVar, columns, true) + "\nOFFSET 5"
  {
    assert IntText(5) == "5";
  }

  /**
   * The corrected select ignores an offset without a limit and agrees with
   * the source whenever a limit is given or no offset is.
   */
  lemma SelectOffsetNeedsLimit(m: Manager, columns: seq<(Key, Text_)>, from: From, where: Option<seq<(Key, Arg)>>,
                               groupBy: Option<seq<(Key, Text_)>>, having: Option<seq<(Key, Arg)>>,
                               window: Option<string>, orderBy: Option<seq<OrderEntry>>, limit: Arg, offset: Arg)
    ensures limit == Lit(Data.Null) ==>
      Select(m, columns, from, where, groupBy, having, window, orderBy, limit, offset)
      == SelectHead(m, columns, from, where, groupBy, having, window, orderBy)
    ensures limit != Lit(Data.Null) || offset == Lit(Data.Null) ==>
      Select(m, columns, from, where, groupBy, having, window, orderBy, limit, offset)
      == SelectAsWritten(m, columns, from, where, groupBy, having, window, orderBy, limit, offset)
  {
    var head := SelectHead(m, columns, from, where, groupBy, having, window, orderBy);
    assert head + "" == head;
    assert LimitPart(m, Lit(Data.Null)) + OffsetPart(m, Lit(Data.Null)) == "";
  }

  // --------------------------------------------------------------- UPSERT

  /**
   * `upsert_clause`. The conflict target and its WHERE appear only for a
   * non-empty column list, the update WHERE only with a non-empty SET
   * list, and an empty SET list gives DO NOTHING.
   */
  function Upsert(m: Manager, conflictColumns: seq<OrderEntry>, conflictWhere: Option<seq<(Key, Arg)>>,
                  updateSet: seq<(Key, Arg)>, updateWhere: Option<seq<(Key, Arg)>>): (r: string)
    ensures IsPrefix("ON CONFLICT", r)
    ensures updateSet == [] ==> IsSuffix(" DO NOTHING", r)
  {
    var target := if conflictColumns != [] then
        " (\n" + OrderBySpec(m, true, conflictColumns) + "\n)"
        + (if conflictWhere.Some? then "\nWHERE " + WhereSpec(m, And, "=", conflictWhere.value) else "")
      else "";
    var action := if updateSet != [] then
        " UPDATE SET " + SetSpec(m, updateSet)
        + (if updateWhere.Some? then "\nWHERE " + WhereSpec(m, And, "=", updateWhere.value) else "")
      else " NOTHING";
    var r := "ON CONFLICT" + target + " DO" + action;
    assert r[..11] == "ON CONFLICT";
    assert updateSet == [] ==> IsSuffix(" DO NOTHING", r) by {
      if updateSet == [] {
        assert r == ("ON CONFLICT" + target) + " DO NOTHING";
        AppendSuffix("ON CONFLICT" + target, " DO NOTHING");
      }
    }
    r
  }

  /** A WHERE without its column list or its SET list is dropped, and the bare clause is `ON CONFLICT DO NOTHING`. */
  lemma UpsertIgnoresOrphanWhere(m: Manager, cw: Option<seq<(Key, Arg)>>, us: seq<(Key, Arg)>, uw: Option<seq<(Key, Arg)>>)
    ensures Upsert(m, [], cw, us, uw) == Upsert(m, [], None, us, uw)
    ensures Upsert(m, [], cw, [], uw) == "ON CONFLICT DO NOTHING"
  {
  }

  // --------------------------------------------------------- CREATE TABLE

  /** The ksorted `$pk` array as the list handed to `nameList($pk, false)`. */
  function PkEntries(pk: seq<(int, string)>): (r: seq<(Key, Text_)>)
    ensures |r| == |pk|
  {
    seq(|pk|, i requires 0 <= i < |pk| => (IntKey(pk[i].0), S(pk[i].1)))
  }

  function PkPart(m: Manager, pk: seq<(int, string)>): string
  {
    if |pk| > 0 then ",\nPRIMARY KEY(" + NameListSpec(m, ByName, PkEntries(PA.KSort(pk)), false) + ")" else ""
  }

  function SqlAll(m: Manager, cs: seq<Text_>): (r: seq<string>)
    ensures |r| == |cs|
  {
    seq(|cs|, i requires 0 <= i < |cs| => SqlText(m, cs[i]))
  }

  function ConstraintsPart(m: Manager, constraints: Option<seq<Text_>>): string
  {
    if constraints.Some? && |constraints.value| > 0 then ",\n" + Join(",\n", SqlAll(m, constraints.value)) else ""
  }

  function ColumnDefs(m: Manager, columns: seq<(string, ColDef)>): (r: seq<string>)
    ensures |r| == |columns|
  {
    seq(|columns|, i requires 0 <= i < |columns| => ColumnDef(m, columns[i].0, columns[i].1))
  }

  function CreateHead(table: string, temp: bool, ifNotExists: bool): string
  {
    "CREATE " + (if temp then "TEMP " else "") + "TABLE " + (if ifNotExists then "IF NOT EXISTS " else "")
      + (Name_(table) + "(\n")
  }

  function CreateTableSpec(m: Manager, table: string, columns: seq<(string, ColDef)>, constraints: Option<seq<Text_>>,
                           temp: bool, ifNotExists: bool, withoutRowid: bool): string
  {
    CreateHead(table, temp, ifNotExists) + Join(",\n", ColumnDefs(m, columns)) + PkPart(m, St.PkArray(columns))
      + ConstraintsPart(m, constraints) + "\n)" + (if withoutRowid then "\nWITHOUT ROWID" else "")
  }

  /**
   * `sql_createTable`: the definitions one per line while the key columns
   * are collected by ordinal, then the ksorted PRIMARY KEY, the
   * constraints, the closing parenthesis and WITHOUT ROWID.
   */
  method CreateTable(m: Manager, table: string, columns: seq<(string, ColDef)>, constraints: Option<seq<Text_>>,
                     temp: bool, ifNotExists: bool, withoutRowid: bool) returns (r: string)
    ensures r == CreateTableSpec(m, table, columns, constraints, temp, ifNotExists, withoutRowid)
  {
    r := "CREATE " + (if temp then "TEMP " else "") + "TABLE ";
    if ifNotExists { r := r + "IF NOT EXISTS "; } else { r := r + ""; }
    r := r + (Name_(table) + "(\n");
    var pk;
    r, pk := AppendColumns(m, r, columns);
    if |pk| > 0 {
      var names := NameList(m, ByName, PkEntries(PA.KSort(pk)), false);
      r := r + (",\nPRIMARY KEY(" + names + ")");
    } else {
      r := r + "";
    }
    if constraints.Some? && |constraints.value| > 0 {
      r := r + (",\n" + Join(",\n", SqlAll(m, constraints.value)));
    } else {
      r := r + "";
    }
    r := r + "\n)";
    if withoutRowid { r := r + "\nWITHOUT ROWID"; } else { r := r + ""; }
  }

  /** The column loop of `sql_createTable`: appends the definitions to `head` and collects the key columns. */
  method AppendColumns(m: Manager, head: string, columns: seq<(string, ColDef)>)
    returns (r: string, pk: seq<(int, string)>)
    ensures r == head + Join(",\n", ColumnDefs(m, columns))
    ensures pk == St.PkArray(columns)
  {
    r := head;
    ghost var defs := ColumnDefs(m, columns);
    pk := [];
    var first := true;
    var i := 0;
    while i < |columns|
      invariant 0 <= i <= |columns|
      invariant first <==> i == 0
      invariant r == head + Join(",\n", defs[..i])
      invariant pk == St.PkArray(columns[..i])
    {
      var def := ColumnDef(m, columns[i].0, columns[i].1);
      assert def == defs[i];
      JoinExtend(head, ",\n", defs, i, r);
      if first {
        first := false;
        r := r + def;
      } else {
        r := r + ",\n" + def;
      }
      if columns[i].1.pk != 0 && !columns[i].1.ai {
        pk := PA.Put(pk, columns[i].1.pk, columns[i].0);
      }
      assert columns[..i + 1][..i] == columns[..i];
      i := i + 1;
    }
    assert defs[..i] == defs;
    assert columns[..i] == columns;
  }

  /**
   * An autoincrement key column declares its key in its own definition
   * only: the definition ends with PRIMARY KEY AUTOINCREMENT and no entry
   * of the `$pk` array names the column.
   */
  lemma AutoincrementKeyOnce(m: Manager, columns: seq<(string, ColDef)>, i: nat)
    requires PA.DistinctKeys(columns) && i < |columns| && columns[i].1.pk != 0 && columns[i].1.ai
    ensures IsSuffix(" PRIMARY KEY AUTOINCREMENT", ColumnDef(m, columns[i].0, columns[i].1))
    ensures forall k :: PA.Lookup(St.PkArray(columns), k) != Some(columns[i].0)
  {
    var n, d := columns[i].0, columns[i].1;
    AppendSuffix(Name_(n) + ColumnClauses(m, Escape.Unkeyed(d)), " PRIMARY KEY AUTOINCREMENT");
    St.PkArraySpec(columns);
    forall k ensures PA.Lookup(St.PkArray(columns), k) != Some(n)
    {
      if St.LastWithOrdinal(columns, k).Some? {
        St.KeyColumnsAreKeyed(columns, k);
        var j :| 0 <= j < |columns| && columns[j].0 == St.LastWithOrdinal(columns, k).value &&
          columns[j].1.pk == k && columns[j].1.pk != 0 && !columns[j].1.ai;
        assert j != i;
      }
    }
  }

  /** The PRIMARY KEY clause is written exactly when some column has a non-zero ordinal and no autoincrement. */
  lemma {:induction false} PkPartPresent(m: Manager, columns: seq<(string, ColDef)>)
    ensures PkPart(m, St.PkArray(columns)) != "" <==> exists i :: 0 <= i < |columns| && St.InKey(columns[i].1)
  {
    if columns != [] {
      var p, c := columns[..|columns| - 1], columns[|columns| - 1];
      PkPartPresent(m, p);
      if St.InKey(c.1) {
        PA.PutLookup(St.PkArray(p), c.1.pk, c.0, c.1.pk);
      } else {
        if exists i :: 0 <= i < |columns| && St.InKey(columns[i].1) {
          var i :| 0 <= i < |columns| && St.InKey(columns[i].1);
          assert i < |p| && p[i] == columns[i];
        }
        if exists i :: 0 <= i < |p| && St.InKey(p[i].1) {
          var i :| 0 <= i < |p| && St.InKey(p[i].1);
          assert columns[i] == p[i];
        }
      }
    }
  }

  // ---------------------------------------------------------- COLUMN DIFF

  /** This manager's `value`, as the differ's default escaper. */
  function ValueOf(m: Manager): Arg -> string
  {
    a => Value(m, a)
  }

  /** `detectColumnDiff`: the shared loop with defaults escaped by this manager's `value` (a missing default is null). */
  method DetectColumnDiff(m: Manager, defs: Option<seq<CD.Row>>, columns: seq<(string, CD.Desired<Arg>)>)
    returns (r: Option<CD.Diff<Arg>>)
    ensures r == CD.DiffSpec(defs, columns, ValueOf(m), Lit(Data.Null))
  {
    r := CD.DetectColumnDiff(defs, columns, ValueOf(m), Lit(Data.Null));
  }
  /**
   * A column whose default is the float 1 (strval "1") matches a live column
   * whose stored default is "1.0": the loose `!=` compares numeric strings
   * by value, so the column is in none of the three arrays.
   */
  lemma FloatDefaultUnchanged(m: Manager, n: string)
    ensures var d := Escape.ColDef(None, false, false, Lit(Data.Float("1")), None, None, None, 0, false);
      CD.DiffSpec(Some([CD.Row(n, None, 0, 0, Some("1.0"))]), [(n, CD.Def(d))], ValueOf(m), Lit(Data.Null))
        == Some(CD.Diff([], [], []))
  {
    var d := Escape.ColDef(None, false, false, Lit(Data.Float("1")), None, None, None, 0, false);
    var row := CD.Row(n, None, 0, 0, Some("1.0"));
    CD.NumericDefaultMatches(d, row, ValueOf(m));
    CD.OneMatchingColumn(CD.Def(d), row, ValueOf(m), Lit(Data.Null));
  }

  /**
   * A bare string entry (a type written without its array) is read through
   * the `??` fallbacks: against a live BLOB column with no flags and no
   * default it finds nothing to change.
   */
  lemma BareEntryUnchanged(m: Manager, n: string)
    ensures CD.DiffSpec(Some([CD.Row(n, Some("BLOB"), 0, 0, None)]), [(n, CD.Bare)], ValueOf(m), Lit(Data.Null))
        == Some(CD.Diff([], [], []))
  {
    var row := CD.Row(n, Some("BLOB"), 0, 0, None);
    assert ValueOf(m)(Lit(Data.Null)) == "NULL";
    LooseEqBasics("NULL", "NULL");
    CD.BareEntryDefaults(row, ValueOf(m), Lit(Data.Null));
    CD.OneMatchingColumn(CD.Bare, row, ValueOf(m), Lit(Data.Null));
  }

  /** A null entry is not set: its live column is dropped, whatever its type, flags and default. */
  lemma NullEntryDrops(m: Manager, row: CD.Row)
    ensures CD.DiffSpec(Some([row]), [(row.name, CD.NullEntry)], ValueOf(m), Lit(Data.Null))
      == Some(CD.Diff([], [(row.name, row)], []))
  {
    var n := row.name;
    assert CD.Fold([(n, CD.NullEntry)], [row][..0], ValueOf(m), Lit(Data.Null)) == CD.Diff([(n, CD.NullEntry)], [], []);
  }
}
