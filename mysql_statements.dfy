/**
 * The statement builders of the MySQL manager (src/MySQLMan/ManagerBase.php):
 * `sql_insert`, `sql_insert_multi`, `sql_insert_select`, `sql_update`,
 * `sql_delete` and `sql_select`. Each starts a builder with its keyword and
 * adds the clauses in a fixed order, each clause only when its argument is
 * given; each is a method on the builder, proved equal to a function that
 * lists the tokens it ends with.
 */
module MySqlStatements {
  import opened Text
  import opened Data
  import opened MySqlBuilder
  import opened MySqlEscape
  import opened MySqlClauses

  // ------------------------------------------------------------- clauses

  /** What adding a builder pushes: its text as one token, or nothing. */
  function Sub(t: seq<string>): seq<string>
  {
    Piece(Plain(Self(t)))
  }

  /** A keyword and the builder after it, or nothing when the argument is not given. */
  function Opt(present: bool, kw: string, t: seq<string>): seq<string>
  {
    if present then [kw] + Sub(t) else []
  }

  /** `add_parenthesis`: the text of the builder in parentheses, as one token. */
  function Paren(t: seq<string>): seq<string>
  {
    ["(" + Rendered(t) + ")"]
  }

  /** An array argument with no entries counts as not given, like null. */
  predicate Given(p: Php)
  {
    p != Sc(Null) && p != Arr([])
  }

  predicate MixedGiven(x: Mixed)
  {
    x != Plain(Sc(Null)) && x != Plain(Arr([]))
  }

  /** LIMIT only for a numeric limit: `offset,limit` when the offset is numeric too, otherwise the limit alone. */
  function LimitPart(m: Manager, limit: Php, offset: Php): seq<string>
  {
    if !IsNumericPhp(limit) then []
    else if IsNumericPhp(offset) then ["LIMIT", IntText(IntCast(m, offset)) + "," + IntText(IntCast(m, limit))]
    else ["LIMIT", IntText(IntCast(m, limit))]
  }

  /** ON DUPLICATE KEY UPDATE and the assignments, only for an array with entries. */
  function DupPart(m: Manager, odku: Php): seq<string>
  {
    if odku.Arr? && |odku.entries| > 0 then ["ON DUPLICATE KEY UPDATE"] + Sub(SetsSpec(m, odku.entries)) else []
  }

  /** A clause keyword and its builder. */
  method AddClause(res: Builder, kw: string, t: seq<string>)
    requires kw != ""
    modifies res
    ensures res.tokens == old(res.tokens) + Opt(true, kw, t)
  {
    ghost var t0 := res.tokens;
    AddWord(res, kw);
    res.Add(Plain(Self(t)));
    SeqAssoc(t0, [kw], Sub(t));
  }

  /** `add_parenthesis`, through a second builder which `parenthesis` folds into one token. */
  method AddParenthesis(res: Builder, t: seq<string>)
    modifies res
    ensures res.tokens == old(res.tokens) + Paren(t)
  {
    var s := Parenthesised(t);
    PieceSelf([s]);
    RenderedOne(s);
    res.Add(Plain(Self([s])));
  }

  /** `sql(t)->parenthesis()` as a text. */
  method Parenthesised(t: seq<string>) returns (s: string)
    ensures s == "(" + Rendered(t) + ")"
  {
    var b := new Builder();
    b.Add(Plain(Self(t)));
    PieceSelf(t);
    RenderedNonEmpty(Rendered(t));
    b.Parenthesis();
    s := b.tokens[0];
  }

  /** The LIMIT part on the builder. */
  method AddLimit(res: Builder, m: Manager, limit: Php, offset: Php)
    modifies res
    ensures res.tokens == old(res.tokens) + LimitPart(m, limit, offset)
  {
    if IsNumericPhp(limit) {
      var l := IntCast(m, limit);
      AddWord(res, "LIMIT");
      if IsNumericPhp(offset) {
        var o := IntCast(m, offset);
        var s := IntText(o) + "," + IntText(l);
        PieceShapes([], s, l);
        res.Add(Plain(Sc(Str(s))));
      } else {
        PieceShapes([], "", l);
        res.Add(Plain(Sc(Int(l))));
      }
    }
  }

  /** The ON DUPLICATE KEY UPDATE part on the builder. */
  method AddDuplicate(res: Builder, m: Manager, odku: Php)
    modifies res
    ensures res.tokens == old(res.tokens) + DupPart(m, odku)
  {
    if odku.Arr? && |odku.entries| > 0 {
      var sets := Sets(m, odku.entries);
      AddClause(res, "ON DUPLICATE KEY UPDATE", sets);
    }
  }

  // -------------------------------------------------------------- select

  /** The arguments of `sql_select`; null stands for an argument left out. */
  datatype Query = Query(columns: Php, from: Php, where: Mixed, groupby: Php, having: Mixed, orderby: Php, limit: Php, offset: Php)

  /** What `sql_select` returns. */
  function SelectSpec(m: Manager, q: Query): seq<string>
  {
    ["SELECT"] + Sub(NamesSpec(q.columns))
    + Opt(q.from != Sc(Null), "FROM", NamesSpec(q.from))
    + Opt(q.where != Plain(Sc(Null)), "WHERE", WhereSpec(m, q.where, And))
    + Opt(Given(q.groupby), "GROUP BY", NamesSpec(q.groupby))
    + Opt(MixedGiven(q.having), "HAVING", WhereSpec(m, q.having, And))
    + Opt(Given(q.orderby), "ORDER BY", OrderBy(q.orderby, Sc(Null)))
    + LimitPart(m, q.limit, q.offset)
  }

  /** `sql_select` */
  method Select(m: Manager, q: Query) returns (r: seq<string>)
    ensures r == SelectSpec(m, q)
  {
    var res := new Builder();
    AddWord(res, "SELECT");
    assert res.tokens == ["SELECT"];
    var cols := Names(q.columns);
    res.Add(Plain(Self(cols)));
    ghost var t1 := res.tokens;
    assert t1 == ["SELECT"] + Sub(NamesSpec(q.columns));
    AddNames(res, q.from != Sc(Null), "FROM", q.from);
    ghost var t2 := res.tokens;
    assert t2 == t1 + Opt(q.from != Sc(Null), "FROM", NamesSpec(q.from));
    AddWhere(res, m, q.where != Plain(Sc(Null)), "WHERE", q.where);
    ghost var t3 := res.tokens;
    assert t3 == t2 + Opt(q.where != Plain(Sc(Null)), "WHERE", WhereSpec(m, q.where, And));
    AddNames(res, Given(q.groupby), "GROUP BY", q.groupby);
    ghost var t4 := res.tokens;
    assert t4 == t3 + Opt(Given(q.groupby), "GROUP BY", NamesSpec(q.groupby));
    AddWhere(res, m, MixedGiven(q.having), "HAVING", q.having);
    ghost var t5 := res.tokens;
    assert t5 == t4 + Opt(MixedGiven(q.having), "HAVING", WhereSpec(m, q.having, And));
    AddOrder(res, Given(q.orderby), q.orderby);
    ghost var t6 := res.tokens;
    assert t6 == t5 + Opt(Given(q.orderby), "ORDER BY", OrderBy(q.orderby, Sc(Null)));
    AddLimit(res, m, q.limit, q.offset);
    r := res.tokens;
  }

  /** A keyword and `names(p)`, when the argument is given. */
  method AddNames(res: Builder, present: bool, kw: string, p: Php)
    requires kw != ""
    modifies res
    ensures res.tokens == old(res.tokens) + Opt(present, kw, NamesSpec(p))
  {
    if present {
      var t := Names(p);
      AddClause(res, kw, t);
    } else {
      assert res.tokens == old(res.tokens) + [];
    }
  }

  /** A keyword and `where_AND(x)`, when the argument is given. */
  method AddWhere(res: Builder, m: Manager, present: bool, kw: string, x: Mixed)
    requires kw != ""
    modifies res
    ensures res.tokens == old(res.tokens) + Opt(present, kw, WhereSpec(m, x, And))
  {
    if present {
      var t := Where(m, x, And);
      AddClause(res, kw, t);
    } else {
      assert res.tokens == old(res.tokens) + [];
    }
  }

  /** ORDER BY and `orderby(p)`, when the argument is given. */
  method AddOrder(res: Builder, present: bool, p: Php)
    modifies res
    ensures res.tokens == old(res.tokens) + Opt(present, "ORDER BY", OrderBy(p, Sc(Null)))
  {
    if present {
      AddClause(res, "ORDER BY", OrderBy(p, Sc(Null)));
    } else {
      assert res.tokens == old(res.tokens) + [];
    }
  }

  // -------------------------------------------------------------- update

  /** What `sql_update` returns. */
  function UpdateSpec(m: Manager, table: Php, sets: seq<(Key, Php)>, where: Mixed, orderby: Php, limit: Php, offset: Php): seq<string>
  {
    ["UPDATE"] + Sub(NamesSpec(table))
    + Opt(true, "SET", SetsSpec(m, sets))
    + Opt(where != Plain(Sc(Null)), "WHERE", WhereSpec(m, where, And))
    + Opt(Given(orderby), "ORDER BY", OrderBy(orderby, Sc(Null)))
    + LimitPart(m, limit, offset)
  }

  /** `sql_update` */
  method Update(m: Manager, table: Php, sets: seq<(Key, Php)>, where: Mixed, orderby: Php, limit: Php, offset: Php) returns (r: seq<string>)
    ensures r == UpdateSpec(m, table, sets, where, orderby, limit, offset)
  {
    var res := new Builder();
    AddWord(res, "UPDATE");
    assert res.tokens == ["UPDATE"];
    var names := Names(table);
    res.Add(Plain(Self(names)));
    ghost var t1 := res.tokens;
    assert t1 == ["UPDATE"] + Sub(NamesSpec(table));
    var s := Sets(m, sets);
    AddClause(res, "SET", s);
    ghost var t2 := res.tokens;
    assert t2 == t1 + Opt(true, "SET", SetsSpec(m, sets));
    AddWhere(res, m, where != Plain(Sc(Null)), "WHERE", where);
    ghost var t3 := res.tokens;
    assert t3 == t2 + Opt(where != Plain(Sc(Null)), "WHERE", WhereSpec(m, where, And));
    AddOrder(res, Given(orderby), orderby);
    ghost var t4 := res.tokens;
    assert t4 == t3 + Opt(Given(orderby), "ORDER BY", OrderBy(orderby, Sc(Null)));
    AddLimit(res, m, limit, offset);
    r := res.tokens;
  }

  // -------------------------------------------------------------- delete

  /** What `sql_delete` returns: the limit alone, since there is no offset. */
  function DeleteSpec(m: Manager, table: Php, where: Mixed, orderby: Php, limit: Php): seq<string>
  {
    ["DELETE FROM"] + Sub(NamesSpec(table))
    + Opt(where != Plain(Sc(Null)), "WHERE", WhereSpec(m, where, And))
    + Opt(Given(orderby), "ORDER BY", OrderBy(orderby, Sc(Null)))
    + LimitPart(m, limit, Sc(Null))
  }

  /** `sql_delete` */
  method Delete(m: Manager, table: Php, where: Mixed, orderby: Php, limit: Php) returns (r: seq<string>)
    ensures r == DeleteSpec(m, table, where, orderby, limit)
  {
    var res := new Builder();
    AddWord(res, "DELETE FROM");
    assert res.tokens == ["DELETE FROM"];
    var names := Names(table);
    res.Add(Plain(Self(names)));
    ghost var t1 := res.tokens;
    assert t1 == ["DELETE FROM"] + Sub(NamesSpec(table));
    AddWhere(res, m, where != Plain(Sc(Null)), "WHERE", where);
    ghost var t2 := res.tokens;
    assert t2 == t1 + Opt(where != Plain(Sc(Null)), "WHERE", WhereSpec(m, where, And));
    AddOrder(res, Given(orderby), orderby);
    ghost var t3 := res.tokens;
    assert t3 == t2 + Opt(Given(orderby), "ORDER BY", OrderBy(orderby, Sc(Null)));
    AddLimit(res, m, limit, Sc(Null));
    r := res.tokens;
  }

  // -------------------------------------------------------------- insert

  /** The array key `$row[$col]` looks a column up by; other column values find nothing. */
  function ToKey(col: Php): Option<Key>
  {
    match col
    case Sc(Int(i)) => Some(IntKey(i))
    case Sc(Str(s)) => Some(StrKey(s))
    case Sc(Bool(b)) => Some(IntKey(if b then 1 else 0))
    case Sc(Null) => Some(StrKey(""))
    case _ => None
  }

  /** The value stored under a key, or null when the array has none. */
  function Find(row: seq<(Key, Php)>, k: Key): Php
  {
    if row == [] then Sc(Null) else if row[0].0 == k then row[0].1 else Find(row[1..], k)
  }

  /** `$row[$col]` */
  function Lookup(row: seq<(Key, Php)>, col: Php): Php
  {
    match ToKey(col)
    case Some(k) => Find(row, k)
    case None => Sc(Null)
  }

  /** `array_keys`: the keys, as a list. */
  function KeysOf(row: seq<(Key, Php)>): (r: seq<(Key, Php)>)
    ensures |r| == |row| && forall i :: 0 <= i < |row| ==> r[i] == (IntKey(i), KeyPhp(row[i].0))
  {
    seq(|row|, i requires 0 <= i < |row| => (IntKey(i), KeyPhp(row[i].0)))
  }

  /** The column list: the one given if it is an array, otherwise the row's keys. */
  function ColumnsOf(row: seq<(Key, Php)>, columns: Php): seq<(Key, Php)>
  {
    if columns.Arr? then columns.entries else KeysOf(row)
  }

  /** The foreach over the columns: the row's value for each, as a list. */
  function RowValues(row: seq<(Key, Php)>, cols: seq<(Key, Php)>): (r: seq<(Key, Php)>)
    ensures |r| == |cols| && forall i :: 0 <= i < |cols| ==> r[i] == (IntKey(i), Lookup(row, cols[i].1))
  {
    seq(|cols|, i requires 0 <= i < |cols| => (IntKey(i), Lookup(row, cols[i].1)))
  }

  /** One row as `values(...)`, in parentheses. */
  function RowText(m: Manager, row: seq<(Key, Php)>, cols: seq<(Key, Php)>): string
  {
    "(" + Rendered(ValuesSpec(m, Plain(Arr(RowValues(row, cols))), false)) + ")"
  }

  /** INSERT INTO, the table and the parenthesised column names. */
  function InsertHead(table: Php, cols: seq<(Key, Php)>): seq<string>
  {
    ["INSERT INTO"] + Sub(NameTokens(table, Sc(Null))) + Paren(NamesSpec(Arr(cols)))
  }

  /** What `sql_insert` returns. */
  function InsertSpec(m: Manager, table: Php, row: seq<(Key, Php)>, columns: Php, odku: Php): seq<string>
  {
    var cols := ColumnsOf(row, columns);
    InsertHead(table, cols) + ["\nVALUES"] + Paren(ValuesSpec(m, Plain(Arr(RowValues(row, cols))), false)) + DupPart(m, odku)
  }

  /** The foreach collecting one row's values. */
  method PickValues(row: seq<(Key, Php)>, cols: seq<(Key, Php)>) returns (vals: seq<(Key, Php)>)
    ensures vals == RowValues(row, cols)
  {
    vals := [];
    var i := 0;
    while i < |cols|
      invariant 0 <= i <= |cols|
      invariant vals == RowValues(row, cols[..i])
    {
      vals := vals + [(IntKey(i), Lookup(row, cols[i].1))];
      i := i + 1;
    }
    assert cols[..i] == cols;
  }

  /** INSERT INTO, the table and the column names, on a new builder. */
  method StartInsert(table: Php, cols: seq<(Key, Php)>) returns (res: Builder)
    ensures fresh(res) && res.tokens == InsertHead(table, cols)
  {
    res := new Builder();
    AddWord(res, "INSERT INTO");
    res.Add(Plain(Self(NameTokens(table, Sc(Null)))));
    var names := Names(Arr(cols));
    AddParenthesis(res, names);
  }

  /** `sql_insert` */
  method Insert(m: Manager, table: Php, row: seq<(Key, Php)>, columns: Php, odku: Php) returns (r: seq<string>)
    ensures r == InsertSpec(m, table, row, columns, odku)
  {
    var cols := if columns.Arr? then columns.entries else KeysOf(row);
    var res := StartInsert(table, cols);
    AddWord(res, "\nVALUES");
    var vals := PickValues(row, cols);
    var vs := Values(m, Plain(Arr(vals)), false);
    AddParenthesis(res, vs);
    AddDuplicate(res, m, odku);
    r := res.tokens;
  }

  /** The column list of `sql_insert_multi`: the one given, or the keys of the row under key 0. */
  function MultiColumns(data: seq<(Key, Php)>, columns: Php): seq<(Key, Php)>
    requires columns.Arr? || Find(data, IntKey(0)).Arr?
  {
    if columns.Arr? then columns.entries else KeysOf(Find(data, IntKey(0)).entries)
  }

  /** Each row of `sql_insert_multi` is an array. */
  predicate AllRows(data: seq<(Key, Php)>)
  {
    forall i :: 0 <= i < |data| ==> data[i].1.Arr?
  }

  function RowTexts(m: Manager, data: seq<(Key, Php)>, cols: seq<(Key, Php)>): (r: seq<string>)
    requires AllRows(data)
    ensures |r| == |data| && forall i :: 0 <= i < |data| ==> r[i] == RowText(m, data[i].1.entries, cols)
  {
    seq(|data|, i requires 0 <= i < |data| => RowText(m, data[i].1.entries, cols))
  }

  /** What `sql_insert_multi` returns: every row's tuple in one token, joined by ",". */
  function InsertMultiSpec(m: Manager, table: Php, data: seq<(Key, Php)>, columns: Php, odku: Php): seq<string>
    requires AllRows(data) && (columns.Arr? || Find(data, IntKey(0)).Arr?)
  {
    var cols := MultiColumns(data, columns);
    InsertHead(table, cols) + ["\nVALUES"] + NonEmpty(Join(",", RowTexts(m, data, cols))) + DupPart(m, odku)
  }

  /** The tuples as the array of builders `sql_insert_multi` adds. */
  function Tuples(ts: seq<string>): (r: seq<(Key, Php)>)
    ensures |r| == |ts| && forall i :: 0 <= i < |ts| ==> r[i] == (IntKey(i), Self([ts[i]]))
  {
    seq(|ts|, i requires 0 <= i < |ts| => (IntKey(i), Self([ts[i]])))
  }

  /** Adding an array of one-token builders adds their texts joined by ",". */
  lemma TuplesPiece(ts: seq<string>)
    ensures Piece(Plain(Arr(Tuples(ts)))) == NonEmpty(Join(",", ts))
  {
    var ps := EntryValues(Tuples(ts));
    var texts := seq(|ps|, i requires 0 <= i < |ps| => Strval(ps[i]));
    assert texts == ts by {
      forall i | 0 <= i < |ts| ensures texts[i] == ts[i] { RenderedOne(ts[i]); }
    }
  }

  /**
   * `sql_insert_multi`. A row that is not an array, or no column list and
   * no array under key 0, stops PHP with an error; these are the
   * preconditions.
   */
  method InsertMulti(m: Manager, table: Php, data: seq<(Key, Php)>, columns: Php, odku: Php) returns (r: seq<string>)
    requires AllRows(data) && (columns.Arr? || Find(data, IntKey(0)).Arr?)
    ensures r == InsertMultiSpec(m, table, data, columns, odku)
  {
    var cols := if columns.Arr? then columns.entries else KeysOf(Find(data, IntKey(0)).entries);
    var res := StartInsert(table, cols);
    ghost var t0 := res.tokens;
    AddWord(res, "\nVALUES");
    ghost var t1 := res.tokens;
    assert t1 == t0 + ["\nVALUES"];
    var rows := RowsOf(m, data, cols);
    TuplesPiece(rows);
    res.Add(Plain(Arr(Tuples(rows))));
    ghost var t2 := res.tokens;
    assert t2 == t1 + NonEmpty(Join(",", RowTexts(m, data, cols)));
    AddDuplicate(res, m, odku);
    r := res.tokens;
  }

  /** The foreach over the rows: each row's values in parentheses. */
  method RowsOf(m: Manager, data: seq<(Key, Php)>, cols: seq<(Key, Php)>) returns (rows: seq<string>)
    requires AllRows(data)
    ensures rows == RowTexts(m, data, cols)
  {
    rows := [];
    var i := 0;
    while i < |data|
      invariant 0 <= i <= |data|
      invariant |rows| == i && forall j :: 0 <= j < i ==> rows[j] == RowText(m, data[j].1.entries, cols)
    {
      var vals := PickValues(data[i].1.entries, cols);
      var vs := Values(m, Plain(Arr(vals)), false);
      var s := Parenthesised(vs);
      rows := rows + [s];
      i := i + 1;
    }
  }

  /** What `sql_insert_select` returns: the query follows the column names. */
  function InsertSelectSpec(m: Manager, table: Php, columns: seq<(Key, Php)>, select: Mixed, odku: Php): seq<string>
  {
    InsertHead(table, columns) + Piece(select) + DupPart(m, odku)
  }

  /** `sql_insert_select` */
  method InsertSelect(m: Manager, table: Php, columns: seq<(Key, Php)>, select: Mixed, odku: Php) returns (r: seq<string>)
    ensures r == InsertSelectSpec(m, table, columns, select, odku)
  {
    var res := StartInsert(table, columns);
    res.Add(select);
    AddDuplicate(res, m, odku);
    r := res.tokens;
  }

  // ------------------------------------------------------------ properties

  lemma RenderedPair(a: string, b: string)
    ensures Rendered([a, b]) == a + " " + b
  {
    RenderedCons(a, [b]);
    assert [a] + [b] == [a, b];
  }

  /** A clause argument left out adds nothing, and an empty array counts as left out. */
  lemma ClauseSkipped(p: Php, x: Mixed)
    ensures !Given(Sc(Null)) && !Given(Arr([])) && !MixedGiven(Plain(Sc(Null))) && !MixedGiven(Plain(Arr([])))
    ensures Given(p) ==> p != Arr([]) && p != Sc(Null)
  {
  }

  /** Only a numeric limit writes LIMIT; without it the offset is ignored, and a numeric offset comes first, before a comma. */
  lemma LimitShapes(m: Manager, limit: Php, offset: Php)
    ensures LimitPart(m, limit, offset) == [] <==> !IsNumericPhp(limit)
    ensures !IsNumericPhp(limit) ==> LimitPart(m, limit, offset) == LimitPart(m, limit, Sc(Null))
    ensures IsNumericPhp(limit) ==> LimitPart(m, limit, offset)[0] == "LIMIT" && |LimitPart(m, limit, offset)| == 2
    ensures IsNumericPhp(limit) && IsNumericPhp(offset) ==>
      LimitPart(m, limit, offset)[1] == IntText(IntCast(m, offset)) + "," + IntText(IntCast(m, limit))
    ensures IsNumericPhp(limit) && !IsNumericPhp(offset) ==> LimitPart(m, limit, offset)[1] == IntText(IntCast(m, limit))
  {
  }

  /** An empty GROUP BY, HAVING or ORDER BY array is dropped like null. */
  lemma SelectEmptyArrays(m: Manager, q: Query)
    ensures SelectSpec(m, q.(groupby := Arr([]), having := Plain(Arr([])), orderby := Arr([]))) ==
      SelectSpec(m, q.(groupby := Sc(Null), having := Plain(Sc(Null)), orderby := Sc(Null)))
  {
  }

  /** With no WHERE, GROUP BY, HAVING or ORDER BY, a select is its columns, its table if any, and its limit. */
  lemma SelectBare(m: Manager, q: Query)
    requires q.where == Plain(Sc(Null)) && q.groupby == Sc(Null) && q.having == Plain(Sc(Null)) && q.orderby == Sc(Null)
    ensures SelectSpec(m, q) == ["SELECT"] + Sub(NamesSpec(q.columns)) + Opt(q.from != Sc(Null), "FROM", NamesSpec(q.from)) + LimitPart(m, q.limit, q.offset)
  {
    var a := ["SELECT"] + Sub(NamesSpec(q.columns)) + Opt(q.from != Sc(Null), "FROM", NamesSpec(q.from));
    assert SelectSpec(m, q) == a + [] + [] + [] + [] + LimitPart(m, q.limit, q.offset);
    assert a + [] + [] + [] + [] == a;
  }

  /** A column and a table with limit and offset: the tokens of `SELECT c FROM t LIMIT o,l`. */
  lemma SelectText(m: Manager, c: string, t: string, l: int, o: int)
    ensures SelectSpec(m, Query(Sc(Str(c)), Sc(Str(t)), Plain(Sc(Null)), Sc(Null), Plain(Sc(Null)), Sc(Null), Sc(Int(l)), Sc(Int(o)))) ==
      ["SELECT", EscapeNameText(c), "FROM", EscapeNameText(t), "LIMIT", IntText(o) + "," + IntText(l)]
  {
    var n := EscapeNameText(c);
    var f := EscapeNameText(t);
    NameOne(c);
    NameOne(t);
    var q := Query(Sc(Str(c)), Sc(Str(t)), Plain(Sc(Null)), Sc(Null), Plain(Sc(Null)), Sc(Null), Sc(Int(l)), Sc(Int(o)));
    SelectBare(m, q);
    KeywordName("SELECT", c);
    KeywordName("FROM", t);
    LimitBoth(m, l, o);
    SixTokens(["SELECT"] + Sub(NamesSpec(q.columns)), Opt(true, "FROM", NamesSpec(q.from)), LimitPart(m, q.limit, q.offset));
  }

  /** A keyword followed by one escaped name. */
  lemma KeywordName(kw: string, c: string)
    ensures [kw] + Sub(NamesSpec(Sc(Str(c)))) == [kw, EscapeNameText(c)]
    ensures Opt(true, kw, NamesSpec(Sc(Str(c)))) == [kw, EscapeNameText(c)]
  {
    NameOne(c);
  }

  /** An integer limit and offset: LIMIT offset,limit. */
  lemma LimitBoth(m: Manager, l: int, o: int)
    ensures LimitPart(m, Sc(Int(l)), Sc(Int(o))) == ["LIMIT", IntText(o) + "," + IntText(l)]
  {
  }

  lemma SixTokens(a: seq<string>, b: seq<string>, c: seq<string>)
    requires |a| == 2 && |b| == 2 && |c| == 2
    ensures a + b + c == [a[0], a[1], b[0], b[1], c[0], c[1]]
  {
  }

  /** A single `column => null` condition is one token, `column IS NULL`. */
  lemma WhereNullOne(m: Manager, k: string)
    ensures Sub(WhereSpec(m, Plain(Arr([(StrKey(k), Sc(Null))])), And)) == [EscapeNameText(k) + " IS NULL"]
  {
    var es := [(StrKey(k), Sc(Null))];
    NameOne(k);
    RenderedCons(EscapeNameText(k), ["IS NULL"]);
    SeqAssoc(EscapeNameText(k), " ", "IS NULL");
    assert " " + "IS NULL" == " IS NULL";
    assert WhereItem(m, es[0]) == [EscapeNameText(k)] + ["IS NULL"];
    assert WhereItems(m, es) == [WhereItem(m, es[0])];
    PieceSelf(WhereItem(m, es[0]));
  }

  /** Without ORDER BY, a delete is its table, its condition if any, and its limit. */
  lemma DeleteBare(m: Manager, table: Php, where: Mixed, limit: Php)
    ensures DeleteSpec(m, table, where, Sc(Null), limit) ==
      ["DELETE FROM"] + Sub(NamesSpec(table)) + Opt(where != Plain(Sc(Null)), "WHERE", WhereSpec(m, where, And)) + LimitPart(m, limit, Sc(Null))
  {
    var a := ["DELETE FROM"] + Sub(NamesSpec(table)) + Opt(where != Plain(Sc(Null)), "WHERE", WhereSpec(m, where, And));
    assert a + [] == a;
  }

  /** A one-entry condition array and a limit: the tokens of `DELETE FROM t WHERE k IS NULL LIMIT l`. */
  lemma DeleteText(m: Manager, t: string, k: string, l: int)
    ensures DeleteSpec(m, Sc(Str(t)), Plain(Arr([(StrKey(k), Sc(Null))])), Sc(Null), Sc(Int(l))) ==
      ["DELETE FROM", EscapeNameText(t), "WHERE", EscapeNameText(k) + " IS NULL", "LIMIT", IntText(l)]
  {
    var w := Plain(Arr([(StrKey(k), Sc(Null))]));
    NameOne(t);
    WhereNullOne(m, k);
    DeleteBare(m, Sc(Str(t)), w, Sc(Int(l)));
    KeywordName("DELETE FROM", t);
    WhereNullOpt(m, k);
    LimitOnly(m, l);
    SixTokens(["DELETE FROM"] + Sub(NamesSpec(Sc(Str(t)))), Opt(true, "WHERE", WhereSpec(m, w, And)), LimitPart(m, Sc(Int(l)), Sc(Null)));
  }

  /** WHERE and one `column IS NULL` condition. */
  lemma WhereNullOpt(m: Manager, k: string)
    ensures Opt(true, "WHERE", WhereSpec(m, Plain(Arr([(StrKey(k), Sc(Null))])), And)) == ["WHERE", EscapeNameText(k) + " IS NULL"]
  {
    WhereNullOne(m, k);
  }

  /** An integer limit without an offset: LIMIT and the number. */
  lemma LimitOnly(m: Manager, l: int)
    ensures LimitPart(m, Sc(Int(l)), Sc(Null)) == ["LIMIT", IntText(l)]
  {
  }

  /** One assignment and nothing else: the tokens of `UPDATE t SET a = v`. */
  lemma UpdateText(m: Manager, t: string, a: string, v: int)
    ensures UpdateSpec(m, Sc(Str(t)), [(StrKey(a), Sc(Int(v)))], Plain(Sc(Null)), Sc(Null), Sc(Null), Sc(Null)) ==
      ["UPDATE", EscapeNameText(t), "SET", EscapeNameText(a) + " = " + IntText(v)]
  {
    var e := (StrKey(a), Sc(Int(v)));
    var h := ["UPDATE"] + Sub(NamesSpec(Sc(Str(t))));
    var s := Opt(true, "SET", SetsSpec(m, [e]));
    KeywordName("UPDATE", t);
    SetOneOpt(m, a, v);
    assert UpdateSpec(m, Sc(Str(t)), [e], Plain(Sc(Null)), Sc(Null), Sc(Null), Sc(Null)) == h + s + [] + [] + [];
    FourTokens(h, s);
  }

  /** SET and one `name = value` assignment. */
  lemma SetOneOpt(m: Manager, a: string, v: int)
    ensures Opt(true, "SET", SetsSpec(m, [(StrKey(a), Sc(Int(v)))])) == ["SET", EscapeNameText(a) + " = " + IntText(v)]
  {
    var e := (StrKey(a), Sc(Int(v)));
    SetOne(m, a, Sc(Int(v)));
    PieceSelf(SetItem(m, e));
  }

  lemma FourTokens(a: seq<string>, b: seq<string>)
    requires |a| == 2 && |b| == 2
    ensures a + b + [] + [] + [] == [a[0], a[1], b[0], b[1]]
  {
  }

  /** The value stored under the first entry with the key. */
  lemma {:induction false} FindFirst(row: seq<(Key, Php)>, k: Key, i: nat)
    requires i < |row| && row[i].0 == k && forall j :: 0 <= j < i ==> row[j].0 != k
    ensures Find(row, k) == row[i].1
  {
    if i > 0 {
      FindFirst(row[1..], k, i - 1);
    }
  }

  /** A key with no entry reads as null. */
  lemma {:induction false} FindMissing(row: seq<(Key, Php)>, k: Key)
    requires forall j :: 0 <= j < |row| ==> row[j].0 != k
    ensures Find(row, k) == Sc(Null)
  {
    if row != [] {
      FindMissing(row[1..], k);
    }
  }

  /** The keys of a PHP array are distinct. */
  predicate UniqueKeys(row: seq<(Key, Php)>)
  {
    forall i, j :: 0 <= i < j < |row| ==> row[i].0 != row[j].0
  }

  /** Without a column list, the VALUES are the row's own values, in the row's order. */
  lemma DefaultColumns(row: seq<(Key, Php)>)
    requires UniqueKeys(row)
    ensures var vs := RowValues(row, KeysOf(row));
      |vs| == |row| && forall i :: 0 <= i < |row| ==> vs[i] == (IntKey(i), row[i].1)
  {
    forall i | 0 <= i < |row|
      ensures Lookup(row, KeysOf(row)[i].1) == row[i].1
    {
      assert ToKey(KeyPhp(row[i].0)) == Some(row[i].0);
      FindFirst(row, row[i].0, i);
    }
  }

  /** A listed column the row lacks is inserted as NULL. */
  lemma MissingColumn(row: seq<(Key, Php)>, c: string)
    requires forall j :: 0 <= j < |row| ==> row[j].0 != StrKey(c)
    ensures Lookup(row, Sc(Str(c))) == Sc(Null)
  {
    FindMissing(row, StrKey(c));
  }

  /** A single column name with its list index as key: the escaped name, with no alias. */
  lemma NamesOne(a: string)
    ensures NamesSpec(Arr([(IntKey(0), Sc(Str(a)))])) == [EscapeNameText(a)]
  {
    var n := EscapeNameText(a);
    NameOne(a);
    EscapeNameTextNonEmpty(a);
    assert NameTokens(Sc(Str(a)), Sc(Int(0))) == [n];
    RenderedOne(n);
    assert NameTexts([(IntKey(0), Sc(Str(a)))]) == [n];
  }

  /** One integer value in a list: its digits, with no alias. */
  lemma ValuesOne(m: Manager, x: int)
    ensures ValuesSpec(m, Plain(Arr([(IntKey(0), Sc(Int(x)))])), false) == [IntText(x)]
  {
    var v := IntText(x);
    assert ValueTokens(m, Plain(Sc(Int(x))), Sc(Int(0)), false) == [v];
    RenderedOne(v);
    assert ValueTexts(m, [(IntKey(0), Sc(Int(x)))], false) == [v];
  }

  /** A one-column row with the default columns: the tokens of `INSERT INTO t (a) VALUES (x)`, VALUES on a new line. */
  lemma InsertText(m: Manager, t: string, a: string, x: int)
    ensures InsertSpec(m, Sc(Str(t)), [(StrKey(a), Sc(Int(x)))], Sc(Null), Sc(Null)) ==
      ["INSERT INTO", EscapeNameText(t), "(" + EscapeNameText(a) + ")", "\nVALUES", "(" + IntText(x) + ")"]
  {
    var row := [(StrKey(a), Sc(Int(x)))];
    var cols := [(IntKey(0), Sc(Str(a)))];
    assert KeysOf(row) == cols;
    InsertHeadOne(t, a);
    RowOne(m, a, x);
    InsertSpecNoDup(m, Sc(Str(t)), row, cols);
  }

  /** Without ON DUPLICATE KEY UPDATE and with the row's own keys: the head, VALUES and the row. */
  lemma InsertSpecNoDup(m: Manager, table: Php, row: seq<(Key, Php)>, cols: seq<(Key, Php)>)
    requires KeysOf(row) == cols
    requires |InsertHead(table, cols)| == 3
    requires |Paren(ValuesSpec(m, Plain(Arr(RowValues(row, cols))), false))| == 1
    ensures var h := InsertHead(table, cols);
      InsertSpec(m, table, row, Sc(Null), Sc(Null)) ==
        [h[0], h[1], h[2], "\nVALUES", Paren(ValuesSpec(m, Plain(Arr(RowValues(row, cols))), false))[0]]
  {
    var h := InsertHead(table, cols);
    var v := Paren(ValuesSpec(m, Plain(Arr(RowValues(row, cols))), false));
    assert ColumnsOf(row, Sc(Null)) == cols;
    assert DupPart(m, Sc(Null)) == [];
    assert InsertSpec(m, table, row, Sc(Null), Sc(Null)) == h + ["\nVALUES"] + v + [];
    ThreeThenTwo(h, "\nVALUES", v);
  }

  lemma ThreeThenTwo(h: seq<string>, d: string, v: seq<string>)
    requires |h| == 3 && |v| == 1
    ensures h + [d] + v + [] == [h[0], h[1], h[2], d, v[0]]
  {
  }

  lemma InsertHeadOne(t: string, a: string)
    ensures InsertHead(Sc(Str(t)), [(IntKey(0), Sc(Str(a)))]) ==
      ["INSERT INTO", EscapeNameText(t), "(" + EscapeNameText(a) + ")"]
  {
    NameOne(t);
    NamesOne(a);
    RenderedOne(EscapeNameText(a));
  }

  lemma RowOne(m: Manager, a: string, x: int)
    ensures Paren(ValuesSpec(m, Plain(Arr(RowValues([(StrKey(a), Sc(Int(x)))], [(IntKey(0), Sc(Str(a)))]))), false)) ==
      ["(" + IntText(x) + ")"]
  {
    var row := [(StrKey(a), Sc(Int(x)))];
    assert Lookup(row, Sc(Str(a))) == Sc(Int(x));
    assert RowValues(row, [(IntKey(0), Sc(Str(a)))]) == [(IntKey(0), Sc(Int(x)))];
    ValuesOne(m, x);
    RenderedOne(IntText(x));
  }

  /** Each further row of `sql_insert_multi` is appended after one ",". */
  lemma InsertMultiAppend(m: Manager, data: seq<(Key, Php)>, row: (Key, Php), cols: seq<(Key, Php)>)
    requires AllRows(data) && |data| >= 1 && row.1.Arr?
    ensures AllRows(data + [row])
    ensures Join(",", RowTexts(m, data + [row], cols)) == Join(",", RowTexts(m, data, cols)) + "," + RowText(m, row.1.entries, cols)
  {
    assert AllRows(data + [row]) by {
      forall i | 0 <= i < |data + [row]| ensures (data + [row])[i].1.Arr? {
        if i < |data| { assert (data + [row])[i] == data[i]; }
      }
    }
    assert RowTexts(m, data + [row], cols) == RowTexts(m, data, cols) + [RowText(m, row.1.entries, cols)];
    JoinSnoc(",", RowTexts(m, data, cols), RowText(m, row.1.entries, cols));
  }

  /** ON DUPLICATE KEY UPDATE appears only for an array of assignments with entries, and then ends the statement. */
  lemma DuplicateShapes(m: Manager, odku: Php, k: string)
    ensures !(odku.Arr? && |odku.entries| > 0) ==> DupPart(m, odku) == []
    ensures Rendered(DupPart(m, Arr([(StrKey(k), Sc(Null))]))) == "ON DUPLICATE KEY UPDATE " + EscapeNameText(k) + " = NULL"
  {
    var e := [(StrKey(k), Sc(Null))];
    var x := EscapeNameText(k) + " = NULL";
    SetsNull(m, k);
    PieceSelf(SetsSpec(m, e));
    assert |x| > 0;
    assert DupPart(m, Arr(e)) == ["ON DUPLICATE KEY UPDATE", x];
    RenderedPair("ON DUPLICATE KEY UPDATE", x);
    DupLiteral(EscapeNameText(k));
  }

  lemma DupLiteral(n: string)
    ensures "ON DUPLICATE KEY UPDATE" + " " + (n + " = NULL") == "ON DUPLICATE KEY UPDATE " + n + " = NULL"
  {
    assert "ON DUPLICATE KEY UPDATE" + " " == "ON DUPLICATE KEY UPDATE ";
    SeqAssoc("ON DUPLICATE KEY UPDATE ", n, " = NULL");
  }
}
