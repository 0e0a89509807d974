/**
 * The clause builders of the SQLite manager's `Manager_adds` trait: WHERE,
 * ON and SET lists, ORDER BY terms, indexed columns, the upsert clause, CASE
 * and WHEN, RETURNING and `||` concatenation. Each builder returns the text
 * of the SQL fragment it builds.
 */
module Clauses {
  import opened Text
  import opened SqliteQuote
  import opened Escape

  /** A PHP array key used as a value: an int key is an int, a string key a string. */
  function KeyArg(k: Key): Arg
  {
    match k
    case IntKey(i) => Int(i)
    case StrKey(s) => Str(s)
  }

  /** What `cond_equal($v)` appends: ` IS NULL` for null, otherwise ` = <value>`. */
  function EqualTail(m: Manager, v: Arg): (r: string)
    ensures v.Null? ==> r == " IS NULL"
    ensures !v.Null? ==> IsPrefix(" = ", r) && r[3..] == Value(m, v)
  {
    if v.Null? then " IS " + Value(m, v) else " = " + Value(m, v)
  }

  /** `concat_($val, ...$values)`: every argument escaped as a value, joined by `||`. */
  function ConcatSpec(m: Manager, vals: seq<Arg>): string
  {
    Join("||", Escaped(m, Plain, vals))
  }

  method Concat(m: Manager, val: Arg, values: seq<Arg>) returns (r: string)
    ensures r == ConcatSpec(m, [val] + values)
  {
    ghost var parts := Escaped(m, Plain, [val] + values);
    r := Value(m, val);
    JoinStep("||", parts, 0, "");
    var i := 0;
    while i < |values|
      invariant 0 <= i <= |values|
      invariant r == Join("||", parts[..i + 1])
    {
      var x := Value(m, values[i]);
      assert x == parts[i + 1];
      JoinStep("||", parts, i + 1, r);
      r := r + "||" + x;
      i := i + 1;
    }
    assert parts[..i + 1] == parts;
  }

  /** The two connectives of whereAND_ and whereOR_. */
  datatype Conj = And | Or

  function ConjText(c: Conj): string
  {
    match c
    case And => " AND "
    case Or => " OR "
  }

  /**
   * One entry of a WHERE list: a string key is a column compared with its
   * value (IS NULL for null); an integer key splices the value alone, so a
   * prebuilt SQL fragment stands as a condition of its own.
   */
  function Condition(m: Manager, k: Key, v: Arg): string
  {
    if k.StrKey? then NameText(m, Name(k.s)) + EqualTail(m, v) else Value(m, v)
  }

  function Conditions(m: Manager, list: seq<(Key, Arg)>): (r: seq<string>)
    ensures |r| == |list|
  {
    seq(|list|, i requires 0 <= i < |list| => Condition(m, list[i].0, list[i].1))
  }

  /** What `whereAND_` / `whereOR_` write: the conditions joined by the connective. */
  function WhereSpec(m: Manager, c: Conj, list: seq<(Key, Arg)>): string
  {
    Join(ConjText(c), Conditions(m, list))
  }

  /** `whereAND_` and `whereOR_`: one loop, the connective as a parameter. */
  method Where(m: Manager, c: Conj, list: seq<(Key, Arg)>) returns (r: string)
    ensures r == WhereSpec(m, c, list)
  {
    r := "";
    var i := 0;
    while i < |list|
      invariant 0 <= i <= |list|
      invariant r == Join(ConjText(c), Conditions(m, list)[..i])
    {
      var cond := Condition(m, list[i].0, list[i].1);
      JoinStep(ConjText(c), Conditions(m, list), i, r);
      if i == 0 { r := cond; } else { r := r + ConjText(c) + cond; }
      i := i + 1;
    }
    assert Conditions(m, list)[..i] == Conditions(m, list);
  }

  /** A column compared with null reads IS NULL, with anything else `= <value>`. */
  lemma WhereColumn(m: Manager, c: Conj, col: string, v: Arg)
    ensures WhereSpec(m, c, [(StrKey(col), v)]) ==
      QuoteNameParts(col) + (if v.Null? then " IS NULL" else " = " + Value(m, v))
  {
    assert Conditions(m, [(StrKey(col), v)]) == [Condition(m, StrKey(col), v)];
  }

  /** An integer key splices the value alone; no entries give "". */
  lemma WhereSplice(m: Manager, c: Conj, n: int, w: Arg)
    ensures WhereSpec(m, c, [(IntKey(n), w)]) == Value(m, w)
    ensures WhereSpec(m, c, []) == ""
  {
    assert Conditions(m, [(IntKey(n), w)]) == [Condition(m, IntKey(n), w)];
  }

  /** Each further entry adds the connective and its condition, in list order. */
  lemma WhereAppend(m: Manager, c: Conj, list: seq<(Key, Arg)>, k: Key, v: Arg)
    requires list != []
    ensures WhereSpec(m, c, list + [(k, v)]) == WhereSpec(m, c, list) + ConjText(c) + Condition(m, k, v)
  {
    assert Conditions(m, list + [(k, v)]) == Conditions(m, list) + [Condition(m, k, v)];
    JoinSnoc(ConjText(c), Conditions(m, list), Condition(m, k, v));
  }

  /** One entry of an ON list: a string key equates two names, an integer key is the name alone. */
  function OnEntry(m: Manager, k: Key, n: Nm): string
  {
    if k.StrKey? then NameText(m, Name(k.s)) + EqualTail(m, Sql(NameText(m, n))) else NameText(m, n)
  }

  function OnEntries(m: Manager, list: seq<(Key, Nm)>): (r: seq<string>)
    ensures |r| == |list|
  {
    seq(|list|, i requires 0 <= i < |list| => OnEntry(m, list[i].0, list[i].1))
  }

  /** What `on_` writes: the entries joined by ` AND `. */
  function OnSpec(m: Manager, list: seq<(Key, Nm)>): string
  {
    Join(" AND ", OnEntries(m, list))
  }

  method On(m: Manager, list: seq<(Key, Nm)>) returns (r: string)
    ensures r == OnSpec(m, list)
  {
    r := "";
    var i := 0;
    while i < |list|
      invariant 0 <= i <= |list|
      invariant r == Join(" AND ", OnEntries(m, list)[..i])
    {
      var e := OnEntry(m, list[i].0, list[i].1);
      JoinStep(" AND ", OnEntries(m, list), i, r);
      if i == 0 { r := e; } else { r := r + " AND " + e; }
      i := i + 1;
    }
    assert OnEntries(m, list)[..i] == OnEntries(m, list);
  }

  /** Both sides of an ON equation are names: the right side is never quoted as a value. */
  lemma OnEquatesNames(m: Manager, a: string, b: string)
    ensures OnSpec(m, [(StrKey(a), Name(b))]) == QuoteNameParts(a) + " = " + QuoteNameParts(b)
    ensures OnSpec(m, [(IntKey(0), Name(b))]) == QuoteNameParts(b)
  {
    var qa, qb := QuoteNameParts(a), QuoteNameParts(b);
    assert OnEntries(m, [(StrKey(a), Name(b))]) == [OnEntry(m, StrKey(a), Name(b))];
    assert OnEntries(m, [(IntKey(0), Name(b))]) == [OnEntry(m, IntKey(0), Name(b))];
    EqualTailSql(m, qb);
    SeqAssoc(qa, " = ", qb);
    JoinSmall(" AND ", qa + " = " + qb);
    JoinSmall(" AND ", qb);
  }

  /** An SQL operand is written as it is after " = ". */
  lemma EqualTailSql(m: Manager, x: string)
    ensures EqualTail(m, Sql(x)) == " = " + x
  {
    assert Value(m, Sql(x)) == x;
  }

  /** One entry of a SET list: `<name> =<value>`, the key used as a name. */
  function SetEntry(m: Manager, k: Key, v: Arg): string
  {
    NameText(m, Name(KeyText(k))) + " =" + Value(m, v)
  }

  function SetEntries(m: Manager, list: seq<(Key, Arg)>): (r: seq<string>)
    ensures |r| == |list|
  {
    seq(|list|, i requires 0 <= i < |list| => SetEntry(m, list[i].0, list[i].1))
  }

  /** What `set_` writes: the entries joined by a comma with no space. */
  function SetSpec(m: Manager, list: seq<(Key, Arg)>): string
  {
    Join(",", SetEntries(m, list))
  }

  method Set(m: Manager, list: seq<(Key, Arg)>) returns (r: string)
    ensures r == SetSpec(m, list)
  {
    r := "";
    var i := 0;
    while i < |list|
      invariant 0 <= i <= |list|
      invariant r == Join(",", SetEntries(m, list)[..i])
    {
      var e := SetEntry(m, list[i].0, list[i].1);
      JoinStep(",", SetEntries(m, list), i, r);
      if i == 0 { r := e; } else { r := r + "," + e; }
      i := i + 1;
    }
    assert SetEntries(m, list)[..i] == SetEntries(m, list);
  }

  /** Every SET entry is a quoted column path, then ` =` and the value; "" for no entries. */
  lemma SetShape(m: Manager, list: seq<(Key, Arg)>, k: Key, v: Arg)
    ensures SetSpec(m, []) == ""
    ensures SetSpec(m, [(k, v)]) == QuoteNameParts(KeyText(k)) + " =" + Value(m, v)
    ensures list != [] ==> SetSpec(m, list + [(k, v)]) == SetSpec(m, list) + "," + SetEntry(m, k, v)
  {
    assert SetEntries(m, [(k, v)]) == [SetEntry(m, k, v)];
    assert SetEntries(m, list + [(k, v)]) == SetEntries(m, list) + [SetEntry(m, k, v)];
    JoinSnoc(",", SetEntries(m, list), SetEntry(m, k, v));
  }

  /** `in_array(strtoupper($x), $words)` */
  predicate UpperIn(x: string, words: seq<string>)
  {
    Upper(x) in words
  }

  /** COLLATE and the collation escaped as a value, when one is given. */
  function CollatePart(m: Manager, collation: Option<string>): string
  {
    if collation.Some? then " COLLATE " + Value(m, Str(collation.value)) else ""
  }

  /** The direction as given, when it upper-cases to ASC or DESC. */
  function DirPart(ord: Option<string>): string
  {
    if ord.Some? && UpperIn(ord.value, ["ASC", "DESC"]) then " " + ord.value else ""
  }

  /** NULLS and the position as given, when it upper-cases to FIRST or LAST. */
  function NullsPart(nulls: Option<string>): string
  {
    if nulls.Some? && UpperIn(nulls.value, ["FIRST", "LAST"]) then " NULLS " + nulls.value else ""
  }

  /** `orderBy_`'s names: a name, or an array of further names and arrays. */
  datatype OrderArg = OrderName(n: Nm) | OrderList(items: seq<OrderArg>)

  /** What `orderBy_` writes: a term gets the options; an array is its items' terms joined by a comma. */
  function OrderBySpec(m: Manager, a: OrderArg, ord: Option<string>, nulls: Option<string>, collation: Option<string>): string
    decreases a, 1
  {
    match a
    case OrderName(n) => NameText(m, n) + CollatePart(m, collation) + DirPart(ord) + NullsPart(nulls)
    case OrderList(items) => Join(",", OrderTerms(m, a, ord, nulls, collation))
  }

  /** The ordering terms of an array's items, in array order. */
  function OrderTerms(m: Manager, a: OrderArg, ord: Option<string>, nulls: Option<string>, collation: Option<string>): (r: seq<string>)
    requires a.OrderList?
    ensures |r| == |a.items|
    decreases a, 0
  {
    seq(|a.items|, k requires 0 <= k < |a.items| => OrderBySpec(m, a.items[k], ord, nulls, collation))
  }

  /** `orderBy_`: the array case loops over the items and calls itself on each. */
  method OrderBy(m: Manager, a: OrderArg, ord: Option<string>, nulls: Option<string>, collation: Option<string>) returns (r: string)
    ensures r == OrderBySpec(m, a, ord, nulls, collation)
    decreases a
  {
    if a.OrderName? {
      r := NameText(m, a.n);
      if collation.Some? { r := r + (" COLLATE " + Value(m, Str(collation.value))); } else { r := r + ""; }
      if ord.Some? && UpperIn(ord.value, ["ASC", "DESC"]) { r := r + (" " + ord.value); } else { r := r + ""; }
      if nulls.Some? && UpperIn(nulls.value, ["FIRST", "LAST"]) { r := r + (" NULLS " + nulls.value); } else { r := r + ""; }
      return;
    }
    var items := a.items;
    ghost var terms := OrderTerms(m, a, ord, nulls, collation);
    r := "";
    var i := 0;
    while i < |items|
      invariant 0 <= i <= |items|
      invariant r == Join(",", terms[..i])
    {
      var t := OrderBy(m, items[i], ord, nulls, collation);
      JoinStep(",", terms, i, r);
      if i == 0 { r := t; } else { r := r + "," + t; }
      i := i + 1;
    }
    assert terms[..i] == terms;
  }

  /**
   * The direction is written only when it upper-cases to ASC or DESC, the
   * nulls position only for FIRST or LAST, and COLLATE comes before both.
   */
  lemma OrderOptionsFilter(m: Manager, n: Nm, ord: string, nulls: string, c: string)
    ensures Upper(ord) !in ["ASC", "DESC"] ==> DirPart(Some(ord)) == ""
    ensures Upper(nulls) !in ["FIRST", "LAST"] ==> NullsPart(Some(nulls)) == ""
    ensures Upper(ord) in ["ASC", "DESC"] && Upper(nulls) in ["FIRST", "LAST"] ==>
      OrderBySpec(m, OrderName(n), Some(ord), Some(nulls), Some(c)) ==
        NameText(m, n) + " COLLATE " + Value(m, Str(c)) + " " + ord + " NULLS " + nulls
    ensures OrderBySpec(m, OrderName(n), None, None, None) == NameText(m, n)
  {
    var q := NameText(m, n);
    assert q + "" + "" + "" == q;
    var v := Value(m, Str(c));
    assert q + (" COLLATE " + v) + (" " + ord) + (" NULLS " + nulls) ==
      q + " COLLATE " + v + " " + ord + " NULLS " + nulls;
  }

  /** An array applies the same options to every item. */
  lemma OrderByList(m: Manager, x: Nm, y: Nm, ord: Option<string>, nulls: Option<string>, c: Option<string>)
    ensures OrderBySpec(m, OrderList([OrderName(x), OrderName(y)]), ord, nulls, c) ==
      OrderBySpec(m, OrderName(x), ord, nulls, c) + "," + OrderBySpec(m, OrderName(y), ord, nulls, c)
    ensures OrderBySpec(m, OrderList([]), ord, nulls, c) == ""
  {
    var a := OrderList([OrderName(x), OrderName(y)]);
    var tx, ty := OrderBySpec(m, OrderName(x), ord, nulls, c), OrderBySpec(m, OrderName(y), ord, nulls, c);
    assert OrderTerms(m, a, ord, nulls, c) == [tx, ty];
    assert [tx, ty][1..] == [ty];
    assert Join(",", [tx, ty]) == tx + "," + ty;
  }

  /** `indexedColumn_`: the name, an optional COLLATE, then ASC or DESC when it is one of them. */
  function IndexedColumn(m: Manager, n: Nm, ord: Option<string>, collate: Option<string>): (r: string)
    ensures r == OrderBySpec(m, OrderName(n), ord, None, collate)
  {
    var r := NameText(m, n) + CollatePart(m, collate) + DirPart(ord);
    assert r + "" == r;
    r
  }

  /** The conflict target: the column list and its WHERE, written only with columns. */
  function ConflictTarget(m: Manager, columns: Option<NameArg>, where: seq<(Key, Arg)>): string
  {
    if columns.None? then ""
    else " (" + NamesSpec(m, columns.value, false) + ")" + WhereClause(m, where)
  }

  /** A newline and WHERE with the conditions, when there are any. */
  function WhereClause(m: Manager, where: seq<(Key, Arg)>): string
  {
    if where != [] then "\nWHERE " + WhereSpec(m, And, where) else ""
  }

  /** The upsert action: UPDATE SET with its WHERE, or NOTHING. */
  function UpsertAction(m: Manager, updateSet: Option<seq<(Key, Arg)>>, where: seq<(Key, Arg)>): string
  {
    if updateSet.None? then " NOTHING"
    else " UPDATE SET " + SetSpec(m, updateSet.value) + WhereClause(m, where)
  }

  /**
   * `upsert_`: ON CONFLICT, the conflict target with its WHERE, then DO
   * UPDATE SET with its WHERE or DO NOTHING. A WHERE list is written only
   * when it is non-empty.
   */
  function Upsert(m: Manager, conflictColumns: Option<NameArg>, conflictWhere: seq<(Key, Arg)>,
                  updateSet: Option<seq<(Key, Arg)>>, updateWhere: seq<(Key, Arg)>): (r: string)
    ensures IsPrefix("ON CONFLICT", r)
    ensures IsSuffix(" DO" + UpsertAction(m, updateSet, updateWhere), r)
    ensures updateSet.None? ==> IsSuffix(" DO NOTHING", r)
    ensures conflictColumns.None? ==> r == "ON CONFLICT DO" + UpsertAction(m, updateSet, updateWhere)
  {
    var t := ConflictTarget(m, conflictColumns, conflictWhere);
    var act := UpsertAction(m, updateSet, updateWhere);
    var a := " DO" + act;
    var r := "ON CONFLICT" + (t + a);
    SeqAssoc("ON CONFLICT", t, a);
    AppendSuffix("ON CONFLICT" + t, a);
    assert r[..11] == "ON CONFLICT";
    UpsertLiterals();
    SeqAssoc("ON CONFLICT", " DO", act);
    UpsertNoTarget(conflictColumns.None?, t, a, r);
    r
  }

  /** The keyword joins the upsert clause is written with. */
  lemma UpsertLiterals()
    ensures " DO" + " NOTHING" == " DO NOTHING"
    ensures "ON CONFLICT" + " DO" == "ON CONFLICT DO"
  {
  }

  lemma UpsertNoTarget(none: bool, t: string, a: string, r: string)
    requires none ==> t == ""
    requires r == "ON CONFLICT" + (t + a)
    ensures none ==> r == "ON CONFLICT" + a
  {
    if none {
      assert t + a == a;
    }
  }

  /** Without columns the conflict WHERE is ignored; without an update set the update WHERE is ignored and DO NOTHING is written. */
  lemma UpsertParts(m: Manager, cols: Option<NameArg>, cw: seq<(Key, Arg)>, us: Option<seq<(Key, Arg)>>, uw: seq<(Key, Arg)>)
    ensures Upsert(m, None, cw, us, uw) == Upsert(m, None, [], us, uw)
    ensures Upsert(m, cols, cw, None, uw) == Upsert(m, cols, cw, None, [])
    ensures UpsertAction(m, None, uw) == " NOTHING"
    ensures us.Some? ==> IsPrefix(" UPDATE SET ", UpsertAction(m, us, uw))
  {
    if us.Some? {
      var x := " UPDATE SET " + SetSpec(m, us.value);
      assert (x + WhereClause(m, uw))[..12] == x[..12];
    }
  }

  /** `when_`: WHEN <value> THEN <value>. */
  function When(m: Manager, w: Arg, t: Arg): string
  {
    "WHEN " + Value(m, w) + " THEN " + Value(m, t)
  }

  function Whens(m: Manager, list: seq<(Key, Arg)>): (r: seq<string>)
    ensures |r| == |list|
  {
    seq(|list|, i requires 0 <= i < |list| => When(m, KeyArg(list[i].0), list[i].1))
  }

  /** What `whenList_` writes: one WHEN per entry, key then value, separated by a space. */
  function WhenListSpec(m: Manager, list: seq<(Key, Arg)>): string
  {
    Join(" ", Whens(m, list))
  }

  method WhenList(m: Manager, list: seq<(Key, Arg)>) returns (r: string)
    ensures r == WhenListSpec(m, list)
  {
    r := "";
    var i := 0;
    while i < |list|
      invariant 0 <= i <= |list|
      invariant r == Join(" ", Whens(m, list)[..i])
    {
      var w := When(m, KeyArg(list[i].0), list[i].1);
      JoinStep(" ", Whens(m, list), i, r);
      if i == 0 { r := w; } else { r := r + " " + w; }
      i := i + 1;
    }
    assert Whens(m, list)[..i] == Whens(m, list);
  }

  /** An integer key is written as a number and a string key as a quoted string. */
  lemma WhenListKeys(m: Manager, n: int, s: string, v: Arg)
    ensures WhenListSpec(m, [(IntKey(n), v)]) == "WHEN " + IntText(n) + " THEN " + Value(m, v)
    ensures WhenListSpec(m, [(StrKey(s), v)]) == "WHEN " + m.quoteVal(s) + " THEN " + Value(m, v)
    ensures WhenListSpec(m, []) == ""
  {
    assert Whens(m, [(IntKey(n), v)]) == [When(m, Int(n), v)];
    assert Whens(m, [(StrKey(s), v)]) == [When(m, Str(s), v)];
  }

  /** `case_`: CASE, the subject as a name, the WHEN list, ELSE only for a non-null value, END. */
  function Case(m: Manager, subject: Option<Nm>, whenList: string, elseValue: Arg): (r: string)
    ensures IsPrefix("CASE", r) && IsSuffix(" END", r)
    ensures !elseValue.Null? ==> IsSuffix(" ELSE " + Value(m, elseValue) + " END", r)
    ensures IsPrefix("CASE" + (if subject.Some? then " " + NameText(m, subject.value) else "") + " " + whenList, r)
  {
    var h := "CASE" + (if subject.Some? then " " + NameText(m, subject.value) else "") + " " + whenList;
    var e := if !elseValue.Null? then " ELSE " + Value(m, elseValue) else "";
    var r := h + (e + " END");
    AppendSuffix(h, e + " END");
    AppendSuffix(h + e, " END");
    SeqAssoc(h, e, " END");
    assert r[..|h|] == h;
    assert r[..4] == "CASE";
    r
  }

  lemma CaseShape(m: Manager, n: Nm, w: string, e: Arg)
    ensures Case(m, None, w, Null) == "CASE " + w + " END"
    ensures !e.Null? ==> Case(m, Some(n), w, e) == "CASE " + NameText(m, n) + " " + w + " ELSE " + Value(m, e) + " END"
  {
  }

  /** `returning_`: RETURNING and the names with their aliases. */
  function Returning(m: Manager, names: NameArg): (r: string)
    ensures IsPrefix("RETURNING ", r)
  {
    var r := "RETURNING " + NamesSpec(m, names, true);
    assert r[..10] == "RETURNING ";
    r
  }

  /** RETURNING keeps the aliases: a string key is written as ` AS "<key>"` after its column. */
  lemma ReturningAlias(m: Manager, key: string, column: string)
    ensures Returning(m, NameList([(StrKey(key), Name(column))])) ==
      "RETURNING " + QuoteNameParts(column) + " AS " + QuoteName(key)
  {
    var es := NameEntries(m, [(StrKey(key), Name(column))], true);
    assert es == [QuoteNameParts(column) + AsClause(key)];
    JoinSmall(",", es[0]);
  }

  /** `sql_tableInfo`: the PRAGMA that lists a table's columns. */
  function TableInfo(table: string, schema: Option<string>): string
  {
    "pragma " + (if schema.Some? then QuoteName(schema.value) + "." else "") + "table_info(" + QuoteName(table) + ")"
  }
}
