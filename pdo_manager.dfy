/**
 * Escaping and clause building by the PDO manager (SQLiteMan/Manager.php):
 * backtick names, `:param` pass-through, values quoted by the connection,
 * the `SQVar` dispatch, comma lists, the WHERE and SET lists, VALUES rows
 * and function calls. The connection's `quote` is left uninterpreted.
 */
module PdoManager {
  import opened Text
  import opened NameGrammar
  import opened BacktickQuote
  import opened Data
  import opened SqVar
  import OP = OParam

  datatype Manager = Manager(quote: string -> string)

  /** A bare part may start with anything but a backtick, a dot included. */
  const NameExcluded: set<char> := {'`'}

  /** `name` of a string: `*`, or a path of backtick parts. */
  function NamePath(s: string): (r: string)
    ensures QuotedPath(r, '`')
  {
    NameParts(s, NameExcluded)
  }

  /** `name`: an SQVar by its tag, an array part by part joined with dots, anything else by its text. */
  function Name(m: Manager, p: Php): string
    decreases p, 1
  {
    match p
    case Var(x) => Dispatch(m, x)
    case Arr(items) => Join(".", seq(|items|, i requires 0 <= i < |items| => Name(m, items[i])))
    case Sc(v) => NamePath(ScalarText(v))
    case Obj(t) => NamePath(t)
  }

  /** `value`: NULL, 1/0, a number's text, or the connection's quote of the text (NUL bytes included). */
  function Value(m: Manager, p: Php): string
    decreases p, 1
  {
    match p
    case Var(x) => Dispatch(m, x)
    case Sc(Null) => "NULL"
    case Sc(Bool(b)) => if b then "1" else "0"
    case Sc(Int(i)) => IntText(i)
    case Sc(Float(t)) => t
    case Sc(Str(s)) => m.quote(s)
    case Arr(_) => m.quote("Array")
    case Obj(t) => m.quote(t)
  }

  /** The text of an SQL datum; a factory-built one always holds a string. */
  function SqlData(d: Php): string
  {
    match Strval(d)
    case Some(s) => s
    case None => ""
  }

  /** `SQVar()`: SQL verbatim, VALUE through value, NAME through name, any other tag "". */
  function Dispatch(m: Manager, x: SQVar): string
    decreases x, 0
  {
    if GetType(x) == TYPE_SQL then SqlData(GetData(x))
    else if GetType(x) == TYPE_VALUE then Value(m, GetData(x))
    else if GetType(x) == TYPE_NAME then Name(m, GetData(x))
    else ""
  }

  /** `nameVar` of a text: `:word` as it is, anything else through name. */
  function NameVarText(s: string): (r: string)
    ensures OP.ParamSyntax(s) ==> r == s
    ensures !OP.ParamSyntax(s) ==> r == NamePath(s)
  {
    if OP.ParamSyntax(s) then s else NamePath(s)
  }

  /** `nameVar`: an SQVar by its tag, an array through name, anything else by nameVar of its text. */
  function NameVar(m: Manager, p: Php): (r: string)
    ensures p.Var? || p.Arr? ==> r == Name(m, p)
    ensures p.Sc? ==> r == NameVarText(ScalarText(p.v))
    ensures p.Obj? ==> r == NameVarText(p.text)
  {
    match p
    case Var(x) => Dispatch(m, x)
    case Arr(_) => Name(m, p)
    case Sc(v) => NameVarText(ScalarText(v))
    case Obj(t) => NameVarText(t)
  }

  /** Only `:word` leaves nameVar unquoted: the text of a parameter comes back as it is, and it equals name otherwise. */
  lemma NameVarExceptParams(m: Manager, s: string)
    ensures OP.ParamSyntax(s) ==> NameVar(m, Sc(Str(s))) == s
    ensures !OP.ParamSyntax(s) ==> NameVar(m, Sc(Str(s))) == Name(m, Sc(Str(s))) && QuotedPath(NameVar(m, Sc(Str(s))), '`')
    ensures OP.Make(s).Some? ==> NameVar(m, Sc(Str(s))) == OP.ToSql(OP.Make(s).value)
  {
  }

  /** `*` passes, and null is the empty name in backticks. */
  lemma NameFallbacks(m: Manager)
    ensures Name(m, Sc(Str("*"))) == "*"
    ensures Name(m, Sc(Null)) == "``"
  {
    NamePartsFallbacks(NameExcluded);
  }

  /** An array is its parts, each escaped as a name, joined by dots. */
  lemma NameArray(m: Manager, a: Php, b: Php)
    ensures Name(m, Arr([a, b])) == Name(m, a) + "." + Name(m, b)
  {
    var parts := seq(2, i requires 0 <= i < 2 => Name(m, [a, b][i]));
    assert parts == [Name(m, a), Name(m, b)];
    JoinSmall(".", Name(m, a));
    JoinSnoc(".", [Name(m, a)], Name(m, b));
    assert [Name(m, a)] + [Name(m, b)] == parts;
  }

  /**
   * Unlike the manager base, a bare part may start with a dot, so a name
   * that starts with a dot is still split at its next dot.
   */
  lemma NameDotStart(a: string, b: string)
    requires '.' !in a && '\n' !in b
    ensures NamePath("." + a + "." + b) == QuoteName("." + a) + "." + NamePath(b)
  {
    var s := "." + a + "." + b;
    var j := Find(s, '.', 1);
    assert s[|a| + 1] == '.';
    assert forall k :: 1 <= k < |a| + 1 ==> s[k] == a[k - 1];
    assert j == |a| + 1;
    assert s[..j] == "." + a;
    assert s[j..] == "." + b;
    assert '\n' !in "." + b;
    assert SplitPart(s, NameExcluded) == Some(("." + a, Some(b)));
  }

  /** A name with no dot, backtick or line feed (and not `*`) is one bare part: it is simply quoted. */
  lemma PlainNameQuoted(s: string)
    requires s != "" && s != "*" && '.' !in s && '`' !in s && '\n' !in s
    ensures NamePath(s) == QuoteName(s)
  {
    assert Find(s, '.', 1) == |s|;
    assert s[..|s|] == s && s[|s|..] == "";
    assert SplitPart(s, NameExcluded) == Some((s, None));
  }

  /** PHP values with no SQVar anywhere inside. */
  predicate NoVar(p: Php)
  {
    match p
    case Var(_) => false
    case Arr(items) => forall i :: 0 <= i < |items| ==> NoVar(items[i])
    case _ => true
  }

  /** Names never reach the connection: without SQVars inside, name does not depend on it. */
  lemma {:induction false} NameIgnoresConnection(m: Manager, m': Manager, p: Php)
    requires NoVar(p)
    ensures Name(m, p) == Name(m', p)
  {
    match p
    case Arr(items) =>
      forall i | 0 <= i < |items| ensures Name(m, items[i]) == Name(m', items[i]) {
        NameIgnoresConnection(m, m', items[i]);
      }
      assert seq(|items|, i requires 0 <= i < |items| => Name(m, items[i])) ==
             seq(|items|, i requires 0 <= i < |items| => Name(m', items[i]));
    case Sc(_) =>
    case Obj(_) =>
  }

  /** The same for nameVar. */
  lemma NameVarIgnoresConnection(m: Manager, m': Manager, p: Php)
    requires NoVar(p)
    ensures NameVar(m, p) == NameVar(m', p)
  {
    if p.Arr? { NameIgnoresConnection(m, m', p); }
  }

  /** The literals are fixed; only text reaches the connection, and it gets there unchanged. */
  lemma ValueShapes(m: Manager, i: int, s: string)
    ensures Value(m, Sc(Null)) == "NULL" && Value(m, Sc(Bool(true))) == "1" && Value(m, Sc(Bool(false))) == "0"
    ensures Value(m, Sc(Int(i))) == IntText(i)
    ensures Value(m, Sc(Str(s))) == m.quote(s)
  {
  }

  /**
   * Tagging through a factory changes nothing: v and n dispatch exactly as
   * value and name treat their argument, and s is written verbatim.
   */
  lemma FactoriesTransparent(m: Manager, p: Php, sql: string)
    ensures V(p).Some? ==> Dispatch(m, V(p).value) == Value(m, p)
    ensures N(p).Some? ==> Dispatch(m, N(p).value) == Name(m, p)
    ensures Dispatch(m, S(sql)) == sql
    ensures Value(m, Var(S(sql))) == Name(m, Var(S(sql))) == NameVar(m, Var(S(sql))) == sql
  {
  }

  /** A tag other than the three constants dispatches to the empty text; no factory builds one. */
  lemma UnknownTag(m: Manager, x: SQVar)
    requires x.t !in {TYPE_VALUE, TYPE_NAME, TYPE_SQL}
    ensures Dispatch(m, x) == "" && !Built(x)
  {
  }

  // ------------------------------------------------------------ lists

  /** `values`: the escaped items joined by commas. */
  function ValueAll(m: Manager, vs: seq<Php>): (r: seq<string>)
    ensures |r| == |vs| && forall i :: 0 <= i < |vs| ==> r[i] == Value(m, vs[i])
  {
    seq(|vs|, i requires 0 <= i < |vs| => Value(m, vs[i]))
  }

  function Values(m: Manager, vs: seq<Php>): string
  {
    Join(",", ValueAll(m, vs))
  }

  /** No items give "", one item its value, and each further item a comma and its value. */
  lemma ValuesShape(m: Manager, vs: seq<Php>, x: Php)
    ensures Values(m, []) == ""
    ensures Values(m, [x]) == Value(m, x)
    ensures vs != [] ==> Values(m, vs + [x]) == Values(m, vs) + "," + Value(m, x)
  {
    assert ValueAll(m, [x]) == [Value(m, x)];
    assert ValueAll(m, vs + [x]) == ValueAll(m, vs) + [Value(m, x)];
    JoinSnoc(",", ValueAll(m, vs), Value(m, x));
  }

  /** `SQVars`: the dispatched data joined by commas. */
  function SQVars(m: Manager, xs: seq<SQVar>): (r: string)
  {
    Join(",", seq(|xs|, i requires 0 <= i < |xs| => Dispatch(m, xs[i])))
  }

  /** The escaper of nameList and of nameVarList. */
  datatype Escaper = ByName | ByNameVar

  function EscapeName(m: Manager, e: Escaper, p: Php): string
  {
    if e == ByName then Name(m, p) else NameVar(m, p)
  }

  /** One entry: the escaped name and, for a string key, ` AS ` and the key in backticks. */
  function NameEntry(m: Manager, e: Escaper, k: Key, p: Php): string
  {
    EscapeName(m, e, p) + (if k.StrKey? then " AS " + QuoteName(k.s) else "")
  }

  function NameEntries(m: Manager, e: Escaper, list: seq<(Key, Php)>): (r: seq<string>)
    ensures |r| == |list|
  {
    seq(|list|, i requires 0 <= i < |list| => NameEntry(m, e, list[i].0, list[i].1))
  }

  /** `nameList` / `nameVarList`: every entry pushed onto a local array, then imploded with ",". */
  method NameList(m: Manager, e: Escaper, list: seq<(Key, Php)>) returns (r: string)
    ensures r == Join(",", NameEntries(m, e, list))
  {
    var sql: seq<string> := [];
    var i := 0;
    while i < |list|
      invariant 0 <= i <= |list|
      invariant sql == NameEntries(m, e, list[..i])
    {
      var as_ := if list[i].0.StrKey? then " AS " + QuoteName(list[i].0.s) else "";
      NameEntriesStep(m, e, list, i);
      sql := sql + [EscapeName(m, e, list[i].1) + as_];
      i := i + 1;
    }
    assert list[..i] == list;
    r := Join(",", sql);
  }

  lemma NameEntriesStep(m: Manager, e: Escaper, list: seq<(Key, Php)>, i: nat)
    requires i < |list|
    ensures NameEntries(m, e, list[..i + 1]) == NameEntries(m, e, list[..i]) + [NameEntry(m, e, list[i].0, list[i].1)]
  {
    assert list[..i + 1] == list[..i] + [list[i]];
  }

  /** Only a string key adds an alias, and each later entry adds "," and no space. */
  lemma NameListShape(m: Manager, e: Escaper, list: seq<(Key, Php)>, k: Key, p: Php)
    ensures Join(",", NameEntries(m, e, [])) == ""
    ensures Join(",", NameEntries(m, e, [(k, p)])) ==
      if k.StrKey? then EscapeName(m, e, p) + " AS " + QuoteName(k.s) else EscapeName(m, e, p)
    ensures list != [] ==>
      Join(",", NameEntries(m, e, list + [(k, p)])) == Join(",", NameEntries(m, e, list)) + "," + NameEntry(m, e, k, p)
  {
    assert NameEntries(m, e, [(k, p)]) == [NameEntry(m, e, k, p)];
    var x := EscapeName(m, e, p);
    assert x + "" == x;
    assert NameEntries(m, e, list + [(k, p)]) == NameEntries(m, e, list) + [NameEntry(m, e, k, p)];
    JoinSnoc(",", NameEntries(m, e, list), NameEntry(m, e, k, p));
  }

  /** A variadic argument list: positions 0, 1, … as integer keys. */
  function Positional(ps: seq<Php>): (r: seq<(Key, Php)>)
    ensures |r| == |ps|
  {
    seq(|ps|, i requires 0 <= i < |ps| => (IntKey(i), ps[i]))
  }

  /** `fn`: the name, then the nameVar'd arguments in parentheses, with no alias. */
  function Fn(m: Manager, name: string, ps: seq<Php>): (r: string)
    ensures r == name + "(" + Join(",", seq(|ps|, i requires 0 <= i < |ps| => NameVar(m, ps[i]))) + ")"
  {
    var es := NameEntries(m, ByNameVar, Positional(ps));
    assert es == seq(|ps|, i requires 0 <= i < |ps| => NameVar(m, ps[i])) by {
      forall i | 0 <= i < |ps| ensures es[i] == NameVar(m, ps[i]) {
        assert NameEntry(m, ByNameVar, IntKey(i), ps[i]) == NameVar(m, ps[i]) + "";
      }
    }
    name + "(" + Join(",", es) + ")"
  }

  /** `fn_val`: the name, then the escaped values in parentheses. */
  function FnVal(m: Manager, name: string, ps: seq<Php>): (r: string)
    ensures |r| == |name| + |Values(m, ps)| + 2
    ensures IsPrefix(name + "(", r) && IsSuffix(")", r)
    ensures r[|name| + 1..|r| - 1] == Values(m, ps)
  {
    var r := name + "(" + Values(m, ps) + ")";
    assert r[..|name| + 1] == name + "(";
    assert r[|r| - 1..] == ")";
    r
  }

  // -------------------------------------------------------- WHERE / SET

  /** `whereAND` joins by " AND ", `whereOR` by " OR ". */
  datatype Conj = And | Or

  function ConjSep(c: Conj): string
  {
    if c == And then " AND " else " OR "
  }

  /** One condition: a string key gives `nameVar(key)` and the operator; the right-hand side goes through nameVar. */
  function Condition(m: Manager, op: string, k: Key, v: Php): string
  {
    (if k.StrKey? then NameVar(m, Sc(Str(k.s))) + op else "") + NameVar(m, v)
  }

  function Conditions(m: Manager, op: string, list: seq<(Key, Php)>): (r: seq<string>)
    ensures |r| == |list|
  {
    seq(|list|, i requires 0 <= i < |list| => Condition(m, op, list[i].0, list[i].1))
  }

  /** `whereAND` / `whereOR`: every condition pushed onto a local array, then imploded. */
  method Where(m: Manager, c: Conj, list: seq<(Key, Php)>, op: string) returns (r: string)
    ensures r == Join(ConjSep(c), Conditions(m, op, list))
  {
    var sql: seq<string> := [];
    var i := 0;
    while i < |list|
      invariant 0 <= i <= |list|
      invariant sql == Conditions(m, op, list[..i])
    {
      var col, v := list[i].0, list[i].1;
      ConditionsStep(m, op, list, i);
      sql := sql + [(if col.StrKey? then NameVar(m, Sc(Str(col.s))) + op else "") + NameVar(m, v)];
      i := i + 1;
    }
    assert list[..i] == list;
    r := Join(if c == And then " AND " else " OR ", sql);
  }

  lemma ConditionsStep(m: Manager, op: string, list: seq<(Key, Php)>, i: nat)
    requires i < |list|
    ensures Conditions(m, op, list[..i + 1]) == Conditions(m, op, list[..i]) + [Condition(m, op, list[i].0, list[i].1)]
  {
    assert list[..i + 1] == list[..i] + [list[i]];
  }

  /**
   * The right-hand side is an identifier, not a literal: a text value is
   * quoted in backticks, and null becomes the empty name, not NULL.
   */
  lemma WhereSingle(m: Manager, c: Conj, col: string, v: string, n: int)
    requires !OP.ParamSyntax(v)
    ensures Join(ConjSep(c), Conditions(m, "=", [(StrKey(col), Sc(Str(v)))])) == NameVar(m, Sc(Str(col))) + "=" + NamePath(v)
    ensures Join(ConjSep(c), Conditions(m, "=", [(StrKey(col), Sc(Null))])) == NameVar(m, Sc(Str(col))) + "=``"
    ensures Join(ConjSep(c), Conditions(m, "=", [(IntKey(n), Sc(Str(v)))])) == NamePath(v)
  {
    NamePartsFallbacks(NameExcluded);
    assert !OP.ParamSyntax("");
    assert Conditions(m, "=", [(StrKey(col), Sc(Str(v)))]) == [NameVar(m, Sc(Str(col))) + "=" + NamePath(v)];
    assert Conditions(m, "=", [(StrKey(col), Sc(Null))]) == [NameVar(m, Sc(Str(col))) + "=" + "``"];
    assert Conditions(m, "=", [(IntKey(n), Sc(Str(v)))]) == ["" + NamePath(v)];
  }

  /** So without SQVars the connection never quotes anything in a WHERE list. */
  lemma WhereIgnoresConnection(m: Manager, m': Manager, op: string, list: seq<(Key, Php)>)
    requires forall i :: 0 <= i < |list| ==> NoVar(list[i].1)
    ensures Conditions(m, op, list) == Conditions(m', op, list)
  {
    forall i | 0 <= i < |list| ensures Conditions(m, op, list)[i] == Conditions(m', op, list)[i] {
      NameVarIgnoresConnection(m, m', list[i].1);
    }
  }

  /** Each further condition adds the separator and that condition. */
  lemma WhereAppend(m: Manager, c: Conj, op: string, list: seq<(Key, Php)>, k: Key, v: Php)
    requires list != []
    ensures Join(ConjSep(c), Conditions(m, op, list + [(k, v)])) ==
      Join(ConjSep(c), Conditions(m, op, list)) + ConjSep(c) + Condition(m, op, k, v)
  {
    assert Conditions(m, op, list + [(k, v)]) == Conditions(m, op, list) + [Condition(m, op, k, v)];
    JoinSnoc(ConjSep(c), Conditions(m, op, list), Condition(m, op, k, v));
  }

  /** The key of an entry as the PHP value nameVar receives. */
  function KeyValue(k: Key): Php
  {
    match k
    case IntKey(i) => Sc(Int(i))
    case StrKey(s) => Sc(Str(s))
  }

  /** One assignment: both sides through nameVar. */
  function SetEntry(m: Manager, k: Key, v: Php): string
  {
    NameVar(m, KeyValue(k)) + "=" + NameVar(m, v)
  }

  function SetEntries(m: Manager, list: seq<(Key, Php)>): (r: seq<string>)
    ensures |r| == |list|
  {
    seq(|list|, i requires 0 <= i < |list| => SetEntry(m, list[i].0, list[i].1))
  }

  /** `setList`: every assignment pushed onto a local array, then imploded with ",". */
  method SetList(m: Manager, list: seq<(Key, Php)>) returns (r: string)
    ensures r == Join(",", SetEntries(m, list))
  {
    var sql: seq<string> := [];
    var i := 0;
    while i < |list|
      invariant 0 <= i <= |list|
      invariant sql == SetEntries(m, list[..i])
    {
      SetEntriesStep(m, list, i);
      sql := sql + [NameVar(m, KeyValue(list[i].0)) + "=" + NameVar(m, list[i].1)];
      i := i + 1;
    }
    assert list[..i] == list;
    r := Join(",", sql);
  }

  lemma SetEntriesStep(m: Manager, list: seq<(Key, Php)>, i: nat)
    requires i < |list|
    ensures SetEntries(m, list[..i + 1]) == SetEntries(m, list[..i]) + [SetEntry(m, list[i].0, list[i].1)]
  {
    assert list[..i + 1] == list[..i] + [list[i]];
  }

  /** An integer key is quoted as a name too, and a `:param` on the right is kept. */
  lemma SetSingle(m: Manager, n: int, p: string)
    requires OP.ParamSyntax(p)
    ensures Join(",", SetEntries(m, [(IntKey(n), Sc(Str(p)))])) == QuoteName(IntText(n)) + "=" + p
  {
    NameVarInt(m, n);
    NameVarExceptParams(m, p);
    var e := SetEntry(m, IntKey(n), Sc(Str(p)));
    assert SetEntries(m, [(IntKey(n), Sc(Str(p)))]) == [e];
    JoinSmall(",", e);
  }

  /** An integer key is not a parameter, so nameVar quotes its digits as one name. */
  lemma NameVarInt(m: Manager, n: int)
    ensures NameVar(m, KeyValue(IntKey(n))) == QuoteName(IntText(n))
  {
    var s := IntText(n);
    assert s[0] in s;
    assert !OP.ParamSyntax(s);
    assert ScalarText(Int(n)) == s;
    PlainNameQuoted(s);
  }

  /** Without SQVars the connection never quotes anything in a SET list. */
  lemma SetIgnoresConnection(m: Manager, m': Manager, list: seq<(Key, Php)>)
    requires forall i :: 0 <= i < |list| ==> NoVar(list[i].1)
    ensures SetEntries(m, list) == SetEntries(m', list)
  {
    forall i | 0 <= i < |list| ensures SetEntries(m, list)[i] == SetEntries(m', list)[i] {
      NameVarIgnoresConnection(m, m', list[i].1);
    }
  }

  // ------------------------------------------------------------ VALUES

  /** One row of selectValues: its values in parentheses. */
  function Row(m: Manager, row: seq<Php>): string
  {
    "(" + Values(m, row) + ")"
  }

  function Rows(m: Manager, rows: seq<seq<Php>>): (r: seq<string>)
    ensures |r| == |rows|
  {
    seq(|rows|, i requires 0 <= i < |rows| => Row(m, rows[i]))
  }

  /** `selectValues`: each row pushed onto a local array, then "VALUES", a line feed and a tab, and the rows one per line. */
  method SelectValues(m: Manager, rows: seq<seq<Php>>) returns (r: string)
    ensures r == "VALUES\n\t" + Join(",\n\t", Rows(m, rows))
  {
    var sql: seq<string> := [];
    var i := 0;
    while i < |rows|
      invariant 0 <= i <= |rows|
      invariant sql == Rows(m, rows[..i])
    {
      sql := sql + ["(" + Values(m, rows[i]) + ")"];
      assert rows[..i + 1] == rows[..i] + [rows[i]];
      i := i + 1;
    }
    assert rows[..i] == rows;
    r := "VALUES\n\t" + Join(",\n\t", sql);
  }

  /** No rows leave a bare "VALUES"; one row is written in parentheses; each later row adds ",\n\t" and itself. */
  lemma SelectValuesShape(m: Manager, rows: seq<seq<Php>>, row: seq<Php>)
    ensures "VALUES\n\t" + Join(",\n\t", Rows(m, [])) == "VALUES\n\t"
    ensures Join(",\n\t", Rows(m, [row])) == "(" + Values(m, row) + ")"
    ensures rows != [] ==> Join(",\n\t", Rows(m, rows + [row])) == Join(",\n\t", Rows(m, rows)) + ",\n\t" + Row(m, row)
  {
    assert Rows(m, [row]) == [Row(m, row)];
    assert Rows(m, rows + [row]) == Rows(m, rows) + [Row(m, row)];
    JoinSnoc(",\n\t", Rows(m, rows), Row(m, row));
  }
}
