/**
 * The SQL-function and condition helpers of the SQLite manager base
 * (src/SQLiteMan/Functions.php). Each helper chains `add`, which puts one
 * space before every added token, so each result is its tokens joined by
 * single spaces. The chain starts from the object `name` or `value` gives:
 * a fresh SQL object for a string or a scalar, but the caller's own object
 * when the argument is a `Data::sql` object, which is then extended in
 * place (the `OnSql` methods at the end).
 */
module Functions {
  import opened Text
  import opened ManagerBase
  import Data
  import SqlObject

  /** The text `sql(a)->add(b)` holds. */
  function Add(a: string, b: string): string
  {
    a + " " + b
  }

  /** A chain of adds is the tokens joined by single spaces. */
  lemma AddIsJoin(a: string, b: string, c: string)
    ensures Add(a, b) == Join(" ", [a, b])
    ensures Add(Add(a, b), c) == Join(" ", [a, b, c])
  {
    JoinSnoc(" ", [a], b);
    assert [a, b] == [a] + [b];
    assert [a, b, c] == [a, b] + [c];
    JoinSnoc(" ", [a, b], c);
  }

  /** `sql($fn)->add($args->parentheses())`: the name, a space and the arguments in parentheses. */
  function Call(fn: string, args: string): (r: string)
    ensures |r| == |fn| + |args| + 3
    ensures IsPrefix(fn + " (", r) && IsSuffix(")", r) && r[|fn| + 2..|r| - 1] == args
  {
    var p := fn + " (";
    var r := p + args + ")";
    assert Add(fn, "(" + args + ")") == r;
    assert r[..|p|] == p;
    AppendSuffix(p + args, ")");
    assert r[|p|..|r| - 1] == args;
    Add(fn, "(" + args + ")")
  }

  /** A call as one text: the name, " (", the arguments and ")". */
  lemma CallText(fn: string, args: string)
    ensures Call(fn, args) == fn + " (" + args + ")"
    ensures Call(fn, "") == fn + " ()"
  {
    assert " " + "(" == " (" && " (" + ")" == " ()";
    SeqAssoc(fn, " ", "(" + args + ")");
    SeqAssoc(" ", "(" + args, ")");
    SeqAssoc(" ", "(", args);
    SeqAssoc(fn, " (" + args, ")");
    SeqAssoc(fn, " (", args);
    assert fn + " (" + "" == fn + " (";
    SeqAssoc(fn, " (", ")");
  }

  /** `fn_values`: the escaped values, comma-joined, as the arguments of fn. */
  function FnValues(m: Manager, fn: string, params: seq<Arg>): (r: string)
    ensures |r| == |fn| + |Values(m, false, params)| + 3
    ensures IsPrefix(fn + " (", r) && IsSuffix(")", r) && r[|fn| + 2..|r| - 1] == Values(m, false, params)
  {
    Call(fn, Values(m, false, params))
  }

  /** The positional parameters of a variadic call, as a PHP list. */
  function Positional<T>(ps: seq<T>): (r: seq<(Key, T)>)
    ensures |r| == |ps|
  {
    seq(|ps|, i requires 0 <= i < |ps| => (IntKey(i), ps[i]))
  }

  /** `fn_names`: the names joined by ", ", without aliases, as the arguments of fn. */
  function FnNames(m: Manager, fn: string, params: seq<Text_>): (r: string)
    ensures |r| == |fn| + |NameListSpec(m, ByName, Positional(params), false)| + 3
    ensures IsPrefix(fn + " (", r) && IsSuffix(")", r)
    ensures r[|fn| + 2..|r| - 1] == NameListSpec(m, ByName, Positional(params), false)
  {
    Call(fn, NameListSpec(m, ByName, Positional(params), false))
  }

  /** With no parameters the call has empty parentheses; names never get an alias. */
  lemma FnShapes(m: Manager, fn: string, p: Text_)
    ensures FnValues(m, fn, []) == fn + " ()" && FnNames(m, fn, []) == fn + " ()"
    ensures FnNames(m, fn, [p]) == fn + " (" + Name(m, p) + ")"
  {
    ValuesShape(m, false, [], Lit(Data.Null), [], Data.Sql(""));
    NameListShape(m, ByName, IntKey(0), p, false);
    assert Positional([p]) == [(IntKey(0), p)];
    assert Positional<Text_>([]) == [];
    CallText(fn, Name(m, p));
  }

  /** The binary operators: each adds exactly one operator token. */
  datatype Op = Diff | Is | IsNot | Greater | NotGreater | Less | NotLess | LessEqual | GreaterEqual | Like | NotLike

  function OpText(op: Op): (r: string)
    ensures r != "" && ' ' !in r[..1]
  {
    match op
    case Diff => "<>"
    case Is => "IS"
    case IsNot => "IS NOT"
    case Greater => ">"
    case NotGreater => "!>"
    case Less => "<"
    case NotLess => "!<"
    case LessEqual => "<="
    case GreaterEqual => ">="
    case Like => "LIKE"
    case NotLike => "NOT LIKE"
  }

  /** `cond_is`, `cond_is_not`, `cond_greater` … `cond_not_like`: name, operator, escaped operand. */
  function Cond(m: Manager, name: Text_, op: Op, v: Arg): (r: string)
    ensures r == Join(" ", [Name(m, name), OpText(op), Value(m, v)])
    ensures r == Name(m, name) + (" " + OpText(op) + " ") + Value(m, v)
  {
    AddIsJoin(Name(m, name), OpText(op), Value(m, v));
    AddAround(Name(m, name), OpText(op), " " + OpText(op) + " ", Value(m, v));
    Add(Add(Name(m, name), OpText(op)), Value(m, v))
  }

  /** `cond_diff`: IS NOT NULL for null, `<>` otherwise. */
  function CondDiff(m: Manager, name: Text_, v: Arg): (r: string)
    ensures v == Lit(Data.Null) ==> r == Name(m, name) + " IS NOT NULL"
    ensures v != Lit(Data.Null) ==> r == Name(m, name) + " <> " + Value(m, v)
  {
    OpWords();
    if v == Lit(Data.Null) then
      NullWord(m, Name(m, name), " IS NOT ");
      Cond(m, name, IsNot, v)
    else Cond(m, name, Diff, v)
  }

  /** The comparison words with their spaces. */
  lemma OpWords()
    ensures " " + "IS" + " " == " IS " && " " + "IS NOT" + " " == " IS NOT "
    ensures " " + "=" + " " == " = " && " " + "<>" + " " == " <> "
    ensures " IS " + "NULL" == " IS NULL" && " IS NOT " + "NULL" == " IS NOT NULL"
  {
  }

  /** A comparison with null: its escaped value is NULL. */
  lemma NullWord(m: Manager, n: string, spaced: string)
    requires spaced == " IS " || spaced == " IS NOT "
    ensures n + spaced + Value(m, Lit(Data.Null)) == n + (spaced + "NULL")
  {
    SeqAssoc(n, spaced, "NULL");
  }

  /** `cond_equal` as written: IS NULL for null, but `<>` for everything else. */
  function CondEqualAsWritten(m: Manager, name: Text_, v: Arg): string
  {
    if v == Lit(Data.Null) then Cond(m, name, Is, v) else Cond(m, name, Diff, v)
  }

  /** As written, equality on a non-null value is the inequality cond_diff writes. */
  lemma CondEqualIsDiff(m: Manager, name: Text_, v: Arg)
    requires v != Lit(Data.Null)
    ensures CondEqualAsWritten(m, name, v) == CondDiff(m, name, v)
    ensures CondEqualAsWritten(m, name, Lit(Data.Int(1))) == Name(m, name) + " <> 1"
  {
    assert IntText(1) == "1";
  }

  /** `cond_equal` as intended: IS NULL for null, `=` otherwise, so it is cond_diff with the opposite operator. */
  function CondEqual(m: Manager, name: Text_, v: Arg): (r: string)
    ensures v == Lit(Data.Null) ==> r == Name(m, name) + " IS NULL"
    ensures v != Lit(Data.Null) ==> r == Name(m, name) + " = " + Value(m, v)
  {
    OpWords();
    if v == Lit(Data.Null) then
      NullWord(m, Name(m, name), " IS ");
      Cond(m, name, Is, v)
    else
      AddAround(Name(m, name), "=", " = ", Value(m, v));
      Add(Add(Name(m, name), "="), Value(m, v))
  }

  /** `cond_between` / `cond_not_between`: the two bounds in argument order. */
  function Between(m: Manager, name: Text_, negate: bool, lo: Arg, hi: Arg): (r: string)
    ensures r == Name(m, name) + (if negate then " NOT BETWEEN " else " BETWEEN ") + Value(m, lo) + " AND " + Value(m, hi)
  {
    var n, a, b := Name(m, name), Value(m, lo), Value(m, hi);
    BetweenText(n, negate, a, b);
    Add(Add(Add(Add(n, if negate then "NOT BETWEEN" else "BETWEEN"), a), "AND"), b)
  }

  lemma BetweenText(n: string, negate: bool, a: string, b: string)
    ensures Add(Add(Add(Add(n, if negate then "NOT BETWEEN" else "BETWEEN"), a), "AND"), b) ==
      n + (if negate then " NOT BETWEEN " else " BETWEEN ") + a + " AND " + b
  {
  }

  /** `cond_inlist` / `cond_not_inlist`: the escaped values in parentheses after one space. */
  function InList(m: Manager, name: Text_, negate: bool, values: seq<Arg>): (r: string)
    ensures r == Name(m, name) + (if negate then " NOT IN (" else " IN (") + Values(m, false, values) + ")"
  {
    InListText(Name(m, name), negate, Values(m, false, values));
    Add(Add(Name(m, name), if negate then "NOT IN" else "IN"), "(" + Values(m, false, values) + ")")
  }

  lemma InListText(n: string, negate: bool, vs: string)
    ensures Add(Add(n, if negate then "NOT IN" else "IN"), "(" + vs + ")") ==
      n + (if negate then " NOT IN (" else " IN (") + vs + ")"
  {
    var op := if negate then "NOT IN" else "IN";
    var spaced := if negate then " NOT IN " else " IN ";
    assert " " + "NOT IN" + " " == " NOT IN " && " NOT IN " + "(" == " NOT IN (";
    assert " " + "IN" + " " == " IN " && " IN " + "(" == " IN (";
    AddAround(n, op, spaced, "(" + vs + ")");
    SeqAssoc(n + spaced, "(" + vs, ")");
    SeqAssoc(n + spaced, "(", vs);
    SeqAssoc(n, spaced, "(");
  }

  /** What `_CONCAT` writes: each argument escaped as a value, joined by `||`. */
  function ConcatSpec(m: Manager, vals: seq<Arg>): string
  {
    Join("||", ValueAll(m, false, vals))
  }

  /** `_CONCAT`: the loop pushing each escaped value, then `implode('||', …)`. */
  method Concat(m: Manager, val: Arg, values: seq<Arg>) returns (r: string)
    ensures r == ConcatSpec(m, [val] + values)
  {
    var parts := [Value(m, val)];
    var i := 0;
    while i < |values|
      invariant 0 <= i <= |values|
      invariant parts == ValueAll(m, false, [val] + values[..i])
    {
      assert [val] + values[..i + 1] == ([val] + values[..i]) + [values[i]];
      parts := parts + [Value(m, values[i])];
      i := i + 1;
    }
    assert values[..i] == values;
    r := Join("||", parts);
  }

  /** Where the wildcards go: after the operand, before it, or on both sides. */
  datatype Pattern = Begins | Ends | Contains

  function PatternParts(p: Pattern, v: Arg): seq<Arg>
  {
    var pct := Lit(Data.Str("%"));
    match p
    case Begins => [v, pct]
    case Ends => [pct, v]
    case Contains => [pct, v, pct]
  }

  /**
   * `cond_begins`, `cond_ends`, `cond_contains` and their NOT forms: a LIKE
   * against the `_CONCAT` of the operand and the quoted '%', which is spliced
   * as SQL.
   */
  function PatternCond(m: Manager, name: Text_, p: Pattern, negate: bool, v: Arg): string
  {
    Cond(m, name, if negate then NotLike else Like, Dat(Data.Sql(ConcatSpec(m, PatternParts(p, v)))))
  }

  /** `_CONCAT` of two and of three arguments. */
  lemma ConcatSmall(m: Manager, a: Arg, b: Arg, c: Arg)
    ensures ConcatSpec(m, [a, b]) == Value(m, a) + "||" + Value(m, b)
    ensures ConcatSpec(m, [a, b, c]) == Value(m, a) + "||" + Value(m, b) + "||" + Value(m, c)
  {
    var x, y, z := Value(m, a), Value(m, b), Value(m, c);
    assert ValueAll(m, false, [a, b]) == [x, y];
    assert ValueAll(m, false, [a, b, c]) == [x, y, z];
    JoinSmall("||", x);
    assert [x, y] == [x] + [y] && [x, y, z] == [x, y] + [z];
    JoinSnoc("||", [x], y);
    JoinSnoc("||", [x, y], z);
  }

  /** The quoted wildcard: '%' holds no NUL. */
  lemma PercentValue(m: Manager)
    ensures Value(m, Lit(Data.Str("%"))) == m.quoteVal("%")
  {
    ValueDropsNul(m, "%");
  }

  /** The operator words of the LIKE conditions, with their spaces. */
  lemma LikeLiterals()
    ensures " " + "LIKE" + " " == " LIKE "
    ensures " " + "NOT LIKE" + " " == " NOT LIKE "
  {
  }

  /** Two adds around an operator word: the word between single spaces. */
  lemma AddAround(n: string, op: string, spaced: string, c: string)
    requires spaced == " " + op + " "
    ensures Add(Add(n, op), c) == n + spaced + c
  {
    SeqAssoc(n, " ", op);
    SeqAssoc(n, " " + op, " ");
  }

  /** A LIKE condition whose operand is the SQL `c`. */
  lemma LikeSql(m: Manager, name: Text_, negate: bool, c: string)
    ensures Cond(m, name, if negate then NotLike else Like, Dat(Data.Sql(c))) ==
      Name(m, name) + (if negate then " NOT LIKE " else " LIKE ") + c
  {
    LikeLiterals();
    assert Value(m, Dat(Data.Sql(c))) == c;
    AddAround(Name(m, name), if negate then "NOT LIKE" else "LIKE", if negate then " NOT LIKE " else " LIKE ", c);
  }

  /** Appending a `_CONCAT` text of two or three parts after a head. */
  lemma HeadConcat(h: string, x: string, y: string, z: string)
    ensures h + (x + "||" + y) == h + x + "||" + y
    ensures h + (x + "||" + y + "||" + z) == h + x + "||" + y + "||" + z
  {
    SeqAssoc(h, x + "||", y);
    SeqAssoc(h, x, "||");
    SeqAssoc(h, x + "||" + y, "||");
    SeqAssoc(h, x + "||" + y + "||", z);
  }

  /** cond_begins: the operand then the wildcard. */
  lemma PatternBegins(m: Manager, name: Text_, v: Arg)
    ensures PatternCond(m, name, Begins, false, v) == Name(m, name) + " LIKE " + Value(m, v) + "||" + m.quoteVal("%")
  {
    var pct := Lit(Data.Str("%"));
    PercentValue(m);
    ConcatSmall(m, v, pct, v);
    assert PatternParts(Begins, v) == [v, pct];
    LikeSql(m, name, false, ConcatSpec(m, [v, pct]));
    HeadConcat(Name(m, name) + " LIKE ", Value(m, v), m.quoteVal("%"), "");
  }

  /** cond_not_ends: NOT LIKE, the wildcard then the operand. */
  lemma PatternNotEnds(m: Manager, name: Text_, v: Arg)
    ensures PatternCond(m, name, Ends, true, v) == Name(m, name) + " NOT LIKE " + m.quoteVal("%") + "||" + Value(m, v)
  {
    var pct := Lit(Data.Str("%"));
    PercentValue(m);
    ConcatSmall(m, pct, v, v);
    assert PatternParts(Ends, v) == [pct, v];
    LikeSql(m, name, true, ConcatSpec(m, [pct, v]));
    HeadConcat(Name(m, name) + " NOT LIKE ", m.quoteVal("%"), Value(m, v), "");
  }

  /** cond_contains: the wildcard on both sides. */
  lemma PatternContains(m: Manager, name: Text_, v: Arg)
    ensures PatternCond(m, name, Contains, false, v) ==
      Name(m, name) + " LIKE " + m.quoteVal("%") + "||" + Value(m, v) + "||" + m.quoteVal("%")
  {
    var pct := Lit(Data.Str("%"));
    PercentValue(m);
    ConcatSmall(m, pct, v, pct);
    assert PatternParts(Contains, v) == [pct, v, pct];
    LikeSql(m, name, false, ConcatSpec(m, [pct, v, pct]));
    HeadConcat(Name(m, name) + " LIKE ", m.quoteVal("%"), Value(m, v), m.quoteVal("%"));
  }

  /** `_CAST`: the value, the word AS and the type, as the one name of `fn_names('CAST', …)`. */
  function Cast(m: Manager, v: Arg, typ: string): (r: string)
    ensures r == "CAST (" + Value(m, v) + " AS " + typ + ")"
  {
    var x := Value(m, v);
    var inner := Add(Add(x, "AS"), typ);
    NameListShape(m, ByName, IntKey(0), D(Data.Sql(inner)), false);
    assert Positional([D(Data.Sql(inner))]) == [(IntKey(0), D(Data.Sql(inner)))];
    assert Name(m, D(Data.Sql(inner))) == inner;
    CastText(x, typ);
    FnNames(m, "CAST", [D(Data.Sql(inner))])
  }

  lemma CastText(x: string, typ: string)
    ensures Call("CAST", Add(Add(x, "AS"), typ)) == "CAST (" + x + " AS " + typ + ")"
  {
    assert " " + "AS" + " " == " AS " && "CAST" + " (" == "CAST (";
    AddAround(x, "AS", " AS ", typ);
    CallText("CAST", x + " AS " + typ);
    SeqAssoc("CAST (", x + " AS ", typ);
    SeqAssoc("CAST (", x, " AS ");
  }

  /** A WHEN argument: a PHP array of entries, or anything else. */
  datatype WhenArg = Entries(list: seq<(Key, Arg)>) | NotArray

  /** A PHP array key used as a value. */
  function KeyArg(k: Key): Arg
  {
    match k
    case IntKey(i) => Lit(Data.Int(i))
    case StrKey(s) => Lit(Data.Str(s))
  }

  /**
   * `when_clause`: an array of at most one entry uses its key and its value
   * (NULL for a missing one), a longer array its first two values, and
   * anything else gives a bare WHEN.
   */
  function When(m: Manager, w: WhenArg): string
  {
    match w
    case NotArray => "WHEN"
    case Entries(l) =>
      if |l| <= 1 then
        var c := if l == [] then Lit(Data.Null) else KeyArg(l[0].0);
        var t := if l == [] then Lit(Data.Null) else l[0].1;
        Add(Add(Add("WHEN", Value(m, c)), "THEN"), Value(m, t))
      else
        Add(Add(Add("WHEN", Value(m, l[0].1)), "THEN"), Value(m, l[1].1))
  }

  /** The three shapes of a WHEN term. */
  lemma WhenShapes(m: Manager, w: WhenArg)
    ensures w.NotArray? ==> When(m, w) == "WHEN"
    ensures w.Entries? && w.list == [] ==> When(m, w) == "WHEN NULL THEN NULL"
    ensures w.Entries? && |w.list| == 1 ==>
      When(m, w) == "WHEN " + Value(m, KeyArg(w.list[0].0)) + " THEN " + Value(m, w.list[0].1)
    ensures w.Entries? && |w.list| >= 2 ==>
      When(m, w) == "WHEN " + Value(m, w.list[0].1) + " THEN " + Value(m, w.list[1].1)
  {
  }

  /** A string key is a condition written as a quoted value, not as SQL. */
  lemma WhenKeyIsQuoted(m: Manager, cond: string, v: Arg)
    requires '\0' !in cond
    ensures When(m, Entries([(StrKey(cond), v)])) == "WHEN " + m.quoteVal(cond) + " THEN " + Value(m, v)
  {
    ValueDropsNul(m, cond);
  }

  function Whens(m: Manager, list: seq<WhenArg>): (r: seq<string>)
    ensures |r| == |list|
  {
    seq(|list|, i requires 0 <= i < |list| => " " + When(m, list[i]))
  }

  /** `CASE`, then the subject escaped as a name unless it is None, which stands for `$case_name === true`. */
  function CaseHead(m: Manager, subject: Option<Text_>): string
  {
    "CASE" + (if subject.Some? then " " + Name(m, subject.value) else "")
  }

  function ElsePart(m: Manager, elseValue: Arg): string
  {
    if elseValue != Lit(Data.Null) then " ELSE " + Value(m, elseValue) else ""
  }

  /** What case_clause writes. */
  function CaseSpec(m: Manager, subject: Option<Text_>, whens: seq<WhenArg>, elseValue: Arg): string
  {
    CaseHead(m, subject) + Join("", Whens(m, whens)) + ElsePart(m, elseValue) + " END"
  }

  /** `case_clause`: one space and WHEN per entry in order, then ELSE for a non-null value, then END. */
  method CaseClause(m: Manager, subject: Option<Text_>, whens: seq<WhenArg>, elseValue: Arg) returns (r: string)
    ensures r == CaseSpec(m, subject, whens, elseValue)
  {
    r := CaseHead(m, subject);
    ghost var head := r;
    ghost var parts := Whens(m, whens);
    var i := 0;
    while i < |whens|
      invariant 0 <= i <= |whens|
      invariant r == head + Join("", parts[..i])
    {
      var w := " " + When(m, whens[i]);
      assert parts[i] == w;
      ConcatExtend(head, parts, i, r);
      r := r + w;
      i := i + 1;
    }
    assert parts[..i] == parts;
    r := r + ElsePart(m, elseValue) + " END";
  }

  /** A CASE with no subject, no WHEN and no ELSE is `CASE END`. */
  lemma CaseEmpty(m: Manager)
    ensures CaseSpec(m, None, [], Lit(Data.Null)) == "CASE END"
  {
    assert Whens(m, []) == [];
    JoinSmall("", "");
  }

  /** The subject, each WHEN and the ELSE are each preceded by one space. */
  lemma CaseShape(m: Manager, n: Text_, w: WhenArg, e: Arg)
    requires e != Lit(Data.Null)
    ensures CaseSpec(m, Some(n), [w], e) == "CASE " + Name(m, n) + " " + When(m, w) + " ELSE " + Value(m, e) + " END"
  {
    var x := " " + When(m, w);
    assert Whens(m, [w]) == [x];
    JoinSmall("", x);
    assert Join("", Whens(m, [w])) == x;
    var h, el := CaseHead(m, Some(n)), ElsePart(m, e);
    assert h == "CASE " + Name(m, n);
    assert el == " ELSE " + Value(m, e);
  }

  /*
   * The caller's own SQL object as the name. `name` hands a `Data::sql`
   * object back through `escSQL` itself, so the `add` calls of these
   * helpers extend that object in place and the helper returns it. The
   * functions above give its new text; the methods below state that the
   * object is changed to that text and that it is the object returned.
   */

  /** A condition helper on an SQL object: the operator and the operand are added to the object itself. */
  method CondOnSql(m: Manager, s: SqlObject.Sql, op: Op, v: Arg) returns (r: SqlObject.Sql)
    modifies s
    ensures r == s && s.d == Cond(m, D(Data.Sql(old(s.d))), op, v)
  {
    var x := Value(m, v);
    r := s.Add(OpText(op));
    r := r.Add(x);
  }

  /** `cond_diff` on an SQL object. */
  method CondDiffOnSql(m: Manager, s: SqlObject.Sql, v: Arg) returns (r: SqlObject.Sql)
    modifies s
    ensures r == s && s.d == CondDiff(m, D(Data.Sql(old(s.d))), v)
  {
    r := CondOnSql(m, s, if v == Lit(Data.Null) then IsNot else Diff, v);
  }

  /** `cond_equal` (as intended) on an SQL object. */
  method CondEqualOnSql(m: Manager, s: SqlObject.Sql, v: Arg) returns (r: SqlObject.Sql)
    modifies s
    ensures r == s && s.d == CondEqual(m, D(Data.Sql(old(s.d))), v)
  {
    if v == Lit(Data.Null) {
      r := CondOnSql(m, s, Is, v);
    } else {
      var x := Value(m, v);
      r := s.Add("=");
      r := r.Add(x);
    }
  }

  /** `cond_between` / `cond_not_between` on an SQL object. */
  method BetweenOnSql(m: Manager, s: SqlObject.Sql, negate: bool, lo: Arg, hi: Arg) returns (r: SqlObject.Sql)
    modifies s
    ensures r == s && s.d == Between(m, D(Data.Sql(old(s.d))), negate, lo, hi)
  {
    var a, b := Value(m, lo), Value(m, hi);
    r := s.Add(if negate then "NOT BETWEEN" else "BETWEEN");
    r := r.Add(a);
    r := r.Add("AND");
    r := r.Add(b);
  }

  /** `cond_inlist` / `cond_not_inlist` on an SQL object: the values list is a fresh object, the name is not. */
  method InListOnSql(m: Manager, s: SqlObject.Sql, negate: bool, values: seq<Arg>) returns (r: SqlObject.Sql)
    modifies s
    ensures r == s && s.d == InList(m, D(Data.Sql(old(s.d))), negate, values)
  {
    var vs := new SqlObject.Sql(Values(m, false, values));
    vs := vs.Parentheses();
    r := s.Add(if negate then "NOT IN" else "IN");
    r := r.Add(vs.d);
  }

  /** `cond_begins`, `cond_ends`, `cond_contains` and their NOT forms on an SQL object: the LIKE goes onto the object itself. */
  method PatternOnSql(m: Manager, s: SqlObject.Sql, p: Pattern, negate: bool, v: Arg) returns (r: SqlObject.Sql)
    modifies s
    ensures r == s && s.d == PatternCond(m, D(Data.Sql(old(s.d))), p, negate, v)
  {
    r := CondOnSql(m, s, if negate then NotLike else Like, Dat(Data.Sql(ConcatSpec(m, PatternParts(p, v)))));
  }

  /**
   * `_CAST` of an SQL object: the object itself gains " AS " and the type,
   * and the CAST call around it is a fresh object.
   */
  method CastOnSql(m: Manager, s: SqlObject.Sql, typ: string) returns (r: string)
    modifies s
    ensures s.d == old(s.d) + " AS " + typ
    ensures r == Cast(m, Dat(Data.Sql(old(s.d))), typ)
  {
    var t := s.Add("AS");
    t := t.Add(typ);
    r := FnNames(m, "CAST", [D(Data.Sql(s.d))]);
  }

  /**
   * Because the object is shared, two conditions on the same SQL object
   * do not give two conditions: the second is written after the first, in
   * the one object.
   */
  method SharedNameChains(m: Manager, s: SqlObject.Sql, a: Arg, b: Arg) returns (first: SqlObject.Sql, second: SqlObject.Sql)
    modifies s
    ensures first == s && second == s
    ensures s.d == old(s.d) + " > " + Value(m, a) + " < " + Value(m, b)
  {
    ghost var t := s.d;
    first := CondOnSql(m, s, Greater, a);
    assert s.d == t + " > " + Value(m, a) by { assert " " + ">" + " " == " > "; }
    ghost var u := s.d;
    second := CondOnSql(m, s, Less, b);
    assert s.d == u + " < " + Value(m, b) by { assert " " + "<" + " " == " < "; }
  }
}
