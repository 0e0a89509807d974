/**
 * The statement generators of the SQLite manager's `Manager_adds` trait:
 * CREATE TABLE with a composite primary key, the other DDL statements,
 * VALUES rows, SELECT, INSERT, UPDATE, DELETE and function calls. Each
 * generator returns the statement text.
 */
module Statements {
  import opened Text
  import opened NameGrammar
  import opened SqliteQuote
  import opened Escape
  import opened Clauses
  import opened PhpArray

  /** `($colDef['pk'] ?? false) && !($colDef['ai'] ?? false)`: the column goes into PRIMARY KEY(…). */
  predicate InKey<A>(d: ColDef<A>)
  {
    d.pk != 0 && !d.ai
  }

  /** The `$pk` array after the loop over `columns`: ordinal => column name, in assignment order. */
  function PkArray<A>(columns: seq<(string, ColDef<A>)>): seq<(int, string)>
  {
    if columns == [] then []
    else
      var p, c := PkArray(columns[..|columns| - 1]), columns[|columns| - 1];
      if InKey(c.1) then Put(p, c.1.pk, c.0) else p
  }

  /** Reference definition: the last key column declared with ordinal k, if any. */
  function LastWithOrdinal<A>(columns: seq<(string, ColDef<A>)>, k: int): Option<string>
  {
    if columns == [] then None
    else
      var c := columns[|columns| - 1];
      if InKey(c.1) && c.1.pk == k then Some(c.0) else LastWithOrdinal(columns[..|columns| - 1], k)
  }

  /** The array is a PHP array, and each ordinal maps to the last key column declared with it. */
  lemma {:induction false} PkArraySpec<A>(columns: seq<(string, ColDef<A>)>)
    ensures DistinctKeys(PkArray(columns))
    ensures forall k :: Lookup(PkArray(columns), k) == LastWithOrdinal(columns, k)
  {
    if columns != [] {
      var p, c := columns[..|columns| - 1], columns[|columns| - 1];
      PkArraySpec(p);
      if InKey(c.1) {
        PutDistinct(PkArray(p), c.1.pk, c.0);
        forall k
          ensures Lookup(PkArray(columns), k) == LastWithOrdinal(columns, k)
        {
          PutLookup(PkArray(p), c.1.pk, c.0, k);
        }
      }
    }
  }

  /** What the ksorted pk array holds: ordinals ascending, each with the last column declared with it. */
  lemma PrimaryKeyColumns<A>(columns: seq<(string, ColDef<A>)>)
    ensures Sorted(KSort(PkArray(columns)))
    ensures forall k :: Lookup(KSort(PkArray(columns)), k) == LastWithOrdinal(columns, k)
  {
    PkArraySpec(columns);
    KSortSpec(PkArray(columns));
  }

  /** An autoincrement column never enters the composite key, and neither does a column with pk 0. */
  lemma {:induction false} KeyColumnsAreKeyed<A>(columns: seq<(string, ColDef<A>)>, k: int)
    requires LastWithOrdinal(columns, k).Some?
    ensures exists i :: (0 <= i < |columns| && columns[i].0 == LastWithOrdinal(columns, k).value &&
                         columns[i].1.pk == k && columns[i].1.pk != 0 && !columns[i].1.ai)
  {
    var p, c := columns[..|columns| - 1], columns[|columns| - 1];
    if !(InKey(c.1) && c.1.pk == k) {
      KeyColumnsAreKeyed(p, k);
      var i :| 0 <= i < |p| && p[i].0 == LastWithOrdinal(p, k).value && p[i].1.pk == k && p[i].1.pk != 0 && !p[i].1.ai;
      assert columns[i] == p[i];
    } else {
      assert columns[|columns| - 1] == c;
    }
  }

  /**
   * An autoincrement key column declares its key in its own definition
   * only: the definition ends with PRIMARY KEY AUTOINCREMENT and no entry
   * of the `$pk` array names the column.
   */
  lemma AutoincrementKeyOnce(m: Manager, columns: seq<(string, ColDef<Arg>)>, i: nat)
    requires DistinctKeys(columns) && i < |columns| && columns[i].1.pk != 0 && columns[i].1.ai
    ensures IsSuffix(" PRIMARY KEY AUTOINCREMENT", ColumnDef(m, columns[i].0, columns[i].1))
    ensures forall k :: Lookup(PkArray(columns), k) != Some(columns[i].0)
  {
    var n, d := columns[i].0, columns[i].1;
    AppendSuffix(QuoteName(n) + ColumnClauses(m, Unkeyed(d)), " PRIMARY KEY AUTOINCREMENT");
    PkArraySpec(columns);
    forall k ensures Lookup(PkArray(columns), k) != Some(n)
    {
      if LastWithOrdinal(columns, k).Some? {
        KeyColumnsAreKeyed(columns, k);
        var j :| 0 <= j < |columns| && columns[j].0 == LastWithOrdinal(columns, k).value &&
          columns[j].1.pk == k && columns[j].1.pk != 0 && !columns[j].1.ai;
        assert j != i;
      }
    }
  }

  /** The last column with ordinal k, found in the later part first. */
  lemma {:induction false} LastWithOrdinalAppend<A>(a: seq<(string, ColDef<A>)>, b: seq<(string, ColDef<A>)>, k: int)
    ensures LastWithOrdinal(a + b, k) ==
      if LastWithOrdinal(b, k).Some? then LastWithOrdinal(b, k) else LastWithOrdinal(a, k)
    decreases |b|
  {
    if b == [] {
      assert a + b == a;
    } else {
      var p := b[..|b| - 1];
      assert (a + b)[..|a + b| - 1] == a + p;
      assert (a + b)[|a + b| - 1] == b[|b| - 1];
      LastWithOrdinalAppend(a, p, k);
    }
  }

  /**
   * Declaration order does not matter: swapping two neighbouring columns
   * that do not claim the same ordinal leaves the ksorted key unchanged.
   */
  lemma PrimaryKeyOrderIndependent<A>(pre: seq<(string, ColDef<A>)>, x: (string, ColDef<A>), y: (string, ColDef<A>), post: seq<(string, ColDef<A>)>)
    requires !(InKey(x.1) && InKey(y.1) && x.1.pk == y.1.pk)
    ensures KSort(PkArray(pre + [x, y] + post)) == KSort(PkArray(pre + [y, x] + post))
  {
    var a, b := pre + [x, y] + post, pre + [y, x] + post;
    PrimaryKeyColumns(a);
    PrimaryKeyColumns(b);
    forall k
      ensures LastWithOrdinal(a, k) == LastWithOrdinal(b, k)
    {
      LastWithOrdinalAppend(pre + [x, y], post, k);
      LastWithOrdinalAppend(pre + [y, x], post, k);
      LastWithOrdinalAppend(pre, [x, y], k);
      LastWithOrdinalAppend(pre, [y, x], k);
      assert [x, y][..1] == [x] && [y, x][..1] == [y];
      assert [x][..0] == [] && [y][..0] == [];
    }
    SortedUnique(KSort(PkArray(a)), KSort(PkArray(b)));
  }

  /** A later column with an ordinal already used replaces the earlier one. */
  lemma LaterOrdinalWins<A>(columns: seq<(string, ColDef<A>)>, c: (string, ColDef<A>))
    requires InKey(c.1)
    ensures Lookup(KSort(PkArray(columns + [c])), c.1.pk) == Some(c.0)
  {
    PrimaryKeyColumns(columns + [c]);
    assert (columns + [c])[|columns + [c]| - 1] == c;
  }

  /** The key's names, handed to `names($pk, false)` (the ordinal keys give no alias). */
  function PkNames(pk: seq<(int, string)>): (r: NameArg)
    ensures r.NameList? && |r.entries| == |pk|
  {
    NameList(seq(|pk|, i requires 0 <= i < |pk| => (IntKey(pk[i].0), Name(pk[i].1))))
  }

  /** `CREATE [TEMP ]TABLE [IF NOT EXISTS ]<name>(` and a line feed. */
  function CreateHead(table: string, temp: bool, ifNotExists: bool): string
  {
    "CREATE " + (if temp then "TEMP " else "") + "TABLE " + (if ifNotExists then "IF NOT EXISTS " else "")
      + (QuoteNameParts(table) + "(\n")
  }

  function ColumnDefs(m: Manager, columns: seq<(string, ColDef<Arg>)>): (r: seq<string>)
    ensures |r| == |columns|
  {
    seq(|columns|, i requires 0 <= i < |columns| => ColumnDef(m, columns[i].0, columns[i].1))
  }

  /** `,\nPRIMARY KEY(<names>)` with the names in ksorted order, for a non-empty array; nothing for an empty one. */
  function PkClause(m: Manager, pk: seq<(int, string)>): string
  {
    if |pk| > 0 then ",\nPRIMARY KEY(" + NamesSpec(m, PkNames(KSort(pk)), false) + ")" else ""
  }

  /** The table constraints, each on its own line, when there are any. */
  function ConstraintsPart(constraints: Option<seq<string>>): string
  {
    if constraints.Some? && |constraints.value| > 0 then ",\n" + Join(",\n", constraints.value) else ""
  }

  /** The table options after the closing parenthesis; a given SQL object is always truthy. */
  function OptionsPart(options: Option<string>): string
  {
    if options.Some? then "\n" + options.value else ""
  }

  function CreateTableSpec(m: Manager, table: string, columns: seq<(string, ColDef<Arg>)>, constraints: Option<seq<string>>,
                           options: Option<string>, temp: bool, ifNotExists: bool): string
  {
    CreateHead(table, temp, ifNotExists) + Join(",\n", ColumnDefs(m, columns)) + PkClause(m, PkArray(columns))
      + ConstraintsPart(constraints) + "\n)" + OptionsPart(options)
  }

  /**
   * `sql_createTable`: one definition per column, separated by ",\n", while
   * the key columns are collected by ordinal; then the ksorted PRIMARY KEY,
   * the constraints, the closing parenthesis and the options.
   */
  method CreateTable(m: Manager, table: string, columns: seq<(string, ColDef<Arg>)>, constraints: Option<seq<string>>,
                     options: Option<string>, temp: bool, ifNotExists: bool) returns (r: string)
    ensures r == CreateTableSpec(m, table, columns, constraints, options, temp, ifNotExists)
  {
    r := "CREATE " + (if temp then "TEMP " else "") + "TABLE ";
    if ifNotExists { r := r + "IF NOT EXISTS "; } else { r := r + ""; }
    r := r + (QuoteNameParts(table) + "(\n");
    var pk;
    r, pk := AppendColumns(m, r, columns);
    if |pk| > 0 {
      var sorted := KSort(pk);
      var names := Names(m, PkNames(sorted), false);
      r := r + (",\nPRIMARY KEY(" + names + ")");
    } else {
      r := r + "";
    }
    if constraints.Some? && |constraints.value| > 0 {
      r := r + (",\n" + Join(",\n", constraints.value));
    } else {
      r := r + "";
    }
    r := r + "\n)";
    if options.Some? { r := r + ("\n" + options.value); } else { r := r + ""; }
  }

  /** The column loop of `sql_createTable`: appends the definitions to `head` and collects the key columns. */
  method AppendColumns(m: Manager, head: string, columns: seq<(string, ColDef<Arg>)>)
    returns (r: string, pk: seq<(int, string)>)
    ensures r == head + Join(",\n", ColumnDefs(m, columns))
    ensures pk == PkArray(columns)
  {
    r := head;
    pk := [];
    var i := 0;
    while i < |columns|
      invariant 0 <= i <= |columns|
      invariant r == head + Join(",\n", ColumnDefs(m, columns)[..i])
      invariant pk == PkArray(columns[..i])
    {
      var def := ColumnDef(m, columns[i].0, columns[i].1);
      ghost var r0 := r;
      if i > 0 {
        r := r + ",\n" + def;
      } else {
        r := r + def;
      }
      ColumnDefsStep(m, head, columns, i, r0, r);
      PkArrayStep(columns, i);
      if columns[i].1.pk != 0 && !columns[i].1.ai {
        pk := Put(pk, columns[i].1.pk, columns[i].0);
      }
      i := i + 1;
    }
    ColumnsWhole(m, head, columns, r, pk);
  }

  /** One more column definition behind the ones already written. */
  lemma ColumnDefsStep(m: Manager, head: string, columns: seq<(string, ColDef<Arg>)>, i: nat, r0: string, r: string)
    requires i < |columns| && r0 == head + Join(",\n", ColumnDefs(m, columns)[..i])
    requires r == if i == 0 then r0 + ColumnDef(m, columns[i].0, columns[i].1)
                  else r0 + ",\n" + ColumnDef(m, columns[i].0, columns[i].1)
    ensures r == head + Join(",\n", ColumnDefs(m, columns)[..i + 1])
  {
    var defs := ColumnDefs(m, columns);
    assert defs[i] == ColumnDef(m, columns[i].0, columns[i].1);
    JoinExtended(head, ",\n", defs, i, r0, r);
  }

  /** After the last column, the prefixes are the whole lists. */
  lemma ColumnsWhole(m: Manager, head: string, columns: seq<(string, ColDef<Arg>)>, r: string, pk: seq<(int, string)>)
    requires r == head + Join(",\n", ColumnDefs(m, columns)[..|columns|])
    requires pk == PkArray(columns[..|columns|])
    ensures r == head + Join(",\n", ColumnDefs(m, columns))
    ensures pk == PkArray(columns)
  {
    var defs := ColumnDefs(m, columns);
    WholeSlice(defs);
    WholeSlice(columns);
  }

  lemma WholeSlice<T>(s: seq<T>)
    ensures s[..|s|] == s
  {
  }

  /** One more column adds itself to the key array exactly when it is in the key. */
  lemma PkArrayStep<A>(columns: seq<(string, ColDef<A>)>, i: nat)
    requires i < |columns|
    ensures PkArray(columns[..i + 1]) ==
      if InKey(columns[i].1) then Put(PkArray(columns[..i]), columns[i].1.pk, columns[i].0) else PkArray(columns[..i])
  {
    assert columns[..i + 1][..i] == columns[..i];
  }

  /** Two key columns declared in descending ordinal order come out ascending. */
  lemma SortTwo<A>(a: (string, ColDef<A>), b: (string, ColDef<A>))
    requires InKey(a.1) && InKey(b.1) && a.1.pk > b.1.pk
    ensures KSort(PkArray([a, b])) == [(b.1.pk, b.0), (a.1.pk, a.0)]
  {
    var cs := [a, b];
    var ea, eb := (a.1.pk, a.0), (b.1.pk, b.0);
    assert cs[..1] == [a] && [a][..0] == [];
    assert PkArray([a]) == [ea];
    assert [ea][1..] == [];
    assert Put([ea], b.1.pk, b.0) == [ea, eb];
    assert PkArray(cs) == [ea, eb];
    assert [ea, eb][..1] == [ea] && [ea][..0] == [];
    assert KSort([ea]) == [ea];
  }

  /** The names of a two-entry key, comma-joined. */
  lemma NamesOfTwo(m: Manager, x: (int, string), y: (int, string))
    ensures NamesSpec(m, PkNames([x, y]), false) == QuoteNameParts(x.1) + "," + QuoteNameParts(y.1)
  {
    var n := PkNames([x, y]);
    assert n.entries == [(IntKey(x.0), Name(x.1)), (IntKey(y.0), Name(y.1))];
    var es := NameEntries(m, n.entries, false);
    var qx, qy := QuoteNameParts(x.1), QuoteNameParts(y.1);
    assert es[0] == qx && es[1] == qy;
    assert es == [qx, qy];
    assert es[1..] == [qy];
    assert Join(",", es) == qx + "," + qy;
  }

  /** Without key columns there is no PRIMARY KEY clause; with two, the clause names them in ordinal order. */
  lemma CreateTableKey(m: Manager, a: (string, ColDef<Arg>), b: (string, ColDef<Arg>))
    requires InKey(a.1) && InKey(b.1) && a.1.pk > b.1.pk
    ensures PkClause(m, PkArray<Arg>([])) == ""
    ensures PkClause(m, PkArray([a, b])) ==
      ",\nPRIMARY KEY(" + QuoteNameParts(b.0) + "," + QuoteNameParts(a.0) + ")"
  {
    assert PkArray<Arg>([]) == [];
    var pk := PkArray([a, b]);
    SortTwo(a, b);
    var sorted := [(b.1.pk, b.0), (a.1.pk, a.0)];
    NamesOfTwo(m, (b.1.pk, b.0), (a.1.pk, a.0));
    PkClauseOf(m, pk, sorted);
    Wrapped(",\nPRIMARY KEY(", QuoteNameParts(b.0), QuoteNameParts(a.0), ")");
  }

  /** A non-empty key list gives the clause with the sorted names. */
  lemma PkClauseOf(m: Manager, pk: seq<(int, string)>, sorted: seq<(int, string)>)
    requires KSort(pk) == sorted && |sorted| > 0
    ensures PkClause(m, pk) == ",\nPRIMARY KEY(" + NamesSpec(m, PkNames(sorted), false) + ")"
  {
  }

  /** Two comma-separated names inside a head and a tail. */
  lemma Wrapped(h: string, x: string, y: string, t: string)
    ensures h + (x + "," + y) + t == h + x + "," + y + t
  {
    SeqAssoc(h, x + ",", y);
    SeqAssoc(h, x, ",");
  }

  /** `sql_createTableSelect` */
  function CreateTableSelect(table: string, select: string, temp: bool, ifNotExists: bool): (r: string)
    ensures IsPrefix("CREATE ", r) && IsSuffix(" AS " + select, r)
    ensures temp <==> IsPrefix("CREATE TEMP ", r)
  {
    var rest := (if ifNotExists then "IF NOT EXISTS " else "") + QuoteNameParts(table);
    var tp := if temp then "TEMP " else "";
    var mid := tp + ("TABLE " + rest);
    var tail := " AS " + select;
    var r := "CREATE " + (mid + tail);
    SeqAssoc("CREATE ", mid, tail);
    AppendSuffix("CREATE " + mid, tail);
    SeqAssoc(tp, "TABLE " + rest, tail);
    var x := "TABLE " + rest + tail;
    assert x[..6] == "TABLE ";
    TempPrefix(temp, x, r);
    r
  }

  /** The statement starts with CREATE TEMP exactly when TEMP is written before TABLE. */
  lemma TempPrefix(temp: bool, x: string, r: string)
    requires IsPrefix("TABLE ", x) && r == "CREATE " + ((if temp then "TEMP " else "") + x)
    ensures IsPrefix("CREATE ", r)
    ensures temp <==> IsPrefix("CREATE TEMP ", r)
  {
    assert r[..7] == "CREATE ";
    if temp {
      assert "CREATE " + "TEMP " == "CREATE TEMP ";
      SeqAssoc("CREATE ", "TEMP ", x);
      assert r[..12] == "CREATE TEMP ";
    } else {
      assert r == "CREATE " + x;
      assert r[8] == x[1] == 'A';
      assert "CREATE TEMP "[8] == 'E';
    }
  }

  /** `sql_dropTable`: IF EXISTS unless switched off, then the quoted table path. */
  function DropTable(table: string, ifExists: bool): (r: string)
    ensures var p := if ifExists then "DROP TABLE IF EXISTS " else "DROP TABLE ";
      IsPrefix(p, r) && QuotedPath(r[|p|..], '"')
  {
    var p := if ifExists then "DROP TABLE IF EXISTS " else "DROP TABLE ";
    var q := QuoteNameParts(table);
    assert (p + q)[..|p|] == p && (p + q)[|p|..] == q;
    p + q
  }

  /** `sql_renameTable`: the new name is quoted whole, so a dot in it stays inside the quotes. */
  function RenameTable(table: string, newTable: string): (r: string)
    ensures IsPrefix("ALTER TABLE ", r)
    ensures IsSuffix(QuoteName(newTable), r)
  {
    var a := "ALTER TABLE " + QuoteNameParts(table) + " RENAME TO ";
    var q := QuoteName(newTable);
    assert (a + q)[..12] == "ALTER TABLE ";
    AppendSuffix(a, q);
    a + q
  }

  /** `sql_renameColumn` */
  function RenameColumn(table: string, column: string, newColumn: string): (r: string)
    ensures IsPrefix("ALTER TABLE ", r)
    ensures IsSuffix(QuoteName(newColumn), r)
  {
    var a := "ALTER TABLE " + QuoteNameParts(table) + " RENAME COLUMN " + QuoteName(column) + " TO ";
    var q := QuoteName(newColumn);
    assert (a + q)[..12] == "ALTER TABLE ";
    AppendSuffix(a, q);
    a + q
  }

  /** `sql_addColumn`: the column definition closes the statement. */
  function AddColumn(m: Manager, table: string, column: string, d: ColDef<Arg>): (r: string)
    ensures IsPrefix("ALTER TABLE ", r)
    ensures IsSuffix(ColumnDef(m, column, d), r)
  {
    var a := "ALTER TABLE " + QuoteNameParts(table) + " ADD COLUMN ";
    var q := ColumnDef(m, column, d);
    assert (a + q)[..12] == "ALTER TABLE ";
    AppendSuffix(a, q);
    a + q
  }

  /** `sql_dropColumn` */
  function DropColumn(table: string, column: string): (r: string)
    ensures IsPrefix("ALTER TABLE ", r)
    ensures IsSuffix(QuoteName(column), r)
  {
    var a := "ALTER TABLE " + QuoteNameParts(table) + " DROP COLUMN ";
    var q := QuoteName(column);
    assert (a + q)[..12] == "ALTER TABLE ";
    AppendSuffix(a, q);
    a + q
  }

  /** One parenthesised row of `sql_selectValues`. */
  function Row(m: Manager, row: seq<Arg>): string
  {
    "(" + ValuesSpec(m, Plain, ValueList(row)) + ")"
  }

  function Rows(m: Manager, rows: seq<seq<Arg>>): (r: seq<string>)
    ensures |r| == |rows|
  {
    seq(|rows|, i requires 0 <= i < |rows| => Row(m, rows[i]))
  }

  /** `sql_selectValues`: VALUES and one parenthesised row per argument, separated by ",\n". */
  method SelectValues(m: Manager, val: seq<Arg>, values: seq<seq<Arg>>) returns (r: string)
    ensures r == "VALUES " + Join(",\n", Rows(m, [val] + values))
  {
    ghost var rows := Rows(m, [val] + values);
    var first := Values(m, Plain, ValueList(val));
    r := "VALUES (" + first + ")";
    ghost var body := "(" + first + ")";
    ValuesRowStart(first);
    JoinStep(",\n", rows, 0, "");
    var i := 0;
    while i < |values|
      invariant 0 <= i <= |values|
      invariant body == Join(",\n", rows[..i + 1]) && r == "VALUES " + body
    {
      var t := Values(m, Plain, ValueList(values[i]));
      RowsAt(m, val, values, i);
      assert "(" + t + ")" == rows[i + 1];
      JoinStep(",\n", rows, i + 1, body);
      ValuesRowAppend(r, body, t);
      r := r + ",\n(" + t + ")";
      body := body + ",\n" + ("(" + t + ")");
      i := i + 1;
    }
    assert rows[..i + 1] == rows;
  }

  lemma ValuesRowStart(first: string)
    ensures "VALUES (" + first + ")" == "VALUES " + ("(" + first + ")")
  {
    assert "VALUES " + "(" == "VALUES (";
    SeqAssoc("VALUES ", "(", first);
    SeqAssoc("VALUES ", "(" + first, ")");
  }

  lemma ValuesRowAppend(r: string, body: string, t: string)
    requires r == "VALUES " + body
    ensures r + ",\n(" + t + ")" == "VALUES " + (body + ",\n" + ("(" + t + ")"))
  {
    assert ",\n" + "(" == ",\n(";
    SeqAssoc(",\n", "(", t);
    SeqAssoc(",\n", "(" + t, ")");
    SeqAssoc(body, ",\n", "(" + t + ")");
    SeqAssoc("VALUES ", body, ",\n" + ("(" + t + ")"));
    SeqAssoc(r, ",\n(" + t, ")");
    SeqAssoc(r, ",\n(", t);
  }

  lemma RowsAt(m: Manager, val: seq<Arg>, values: seq<seq<Arg>>, i: nat)
    requires i < |values|
    ensures Rows(m, [val] + values)[i + 1] == Row(m, values[i])
  {
    assert ([val] + values)[i + 1] == values[i];
  }

  /** `in_array(strtoupper($or), $INSERT_UPDATE_OR_LIST)` */
  const OrList: seq<string> := ["ABORT", "FAIL", "IGNORE", "REPLACE", "ROLLBACK"]

  /** ` OR <conflict resolution>` as given, when it upper-cases to one of the five; nothing otherwise. */
  function OrPart(or: Option<string>): string
  {
    if or.Some? && Upper(or.value) in OrList then " OR " + or.value else ""
  }

  /** The part after the keyword when the argument is present (WHERE, HAVING, FROM…). */
  function WherePart(m: Manager, keyword: string, where: seq<(Key, Arg)>): string
  {
    if where != [] then "\n" + keyword + " " + WhereSpec(m, And, where) else ""
  }

  function FromPart(m: Manager, from: Option<NameArg>): string
  {
    if from.Some? then "\nFROM " + NamesSpec(m, from.value, true) else ""
  }

  function GroupPart(m: Manager, groupBy: seq<(Key, Nm)>): string
  {
    if groupBy != [] then "\nGROUP BY " + NamesSpec(m, NameList(groupBy), false) else ""
  }

  function WindowPart(window: Option<string>): string
  {
    if window.Some? then "\nWINDOW " + window.value else ""
  }

  function OrderPart(m: Manager, orderBy: Option<OrderArg>): string
  {
    if orderBy.Some? then "\nORDER BY " + OrderBySpec(m, orderBy.value, None, None, None) else ""
  }

  /** LIMIT, and OFFSET only inside it. */
  function LimitPart(m: Manager, limit: Option<Arg>, offset: Option<Arg>): string
  {
    if limit.Some? then
      "\nLIMIT " + Value(m, limit.value) + (if offset.Some? then "\nOFFSET " + Value(m, offset.value) else "")
    else ""
  }

  /**
   * `sql_select`: the result columns, then each clause only when its argument
   * is given (WHERE, GROUP BY and HAVING only when non-empty), in the fixed
   * order FROM, WHERE, GROUP BY, HAVING, WINDOW, ORDER BY, LIMIT, OFFSET.
   * An absent and an empty array are the same here.
   */
  function Select(m: Manager, select: NameArg, from: Option<NameArg>, where: seq<(Key, Arg)>, groupBy: seq<(Key, Nm)>,
                  having: seq<(Key, Arg)>, window: Option<string>, orderBy: Option<OrderArg>,
                  limit: Option<Arg>, offset: Option<Arg>): (r: string)
    ensures IsPrefix("SELECT " + NamesSpec(m, select, true), r)
  {
    var s := "SELECT " + NamesSpec(m, select, true);
    var rest := FromPart(m, from) + WherePart(m, "WHERE", where) + GroupPart(m, groupBy) + WherePart(m, "HAVING", having)
      + WindowPart(window) + OrderPart(m, orderBy) + LimitPart(m, limit, offset);
    assert (s + rest)[..|s|] == s;
    s + rest
  }

  /** OFFSET needs LIMIT: without a limit the offset is dropped. */
  lemma SelectOffsetNeedsLimit(m: Manager, select: NameArg, from: Option<NameArg>, where: seq<(Key, Arg)>,
                               groupBy: seq<(Key, Nm)>, having: seq<(Key, Arg)>, window: Option<string>,
                               orderBy: Option<OrderArg>, offset: Option<Arg>)
    ensures Select(m, select, from, where, groupBy, having, window, orderBy, None, offset) ==
      Select(m, select, from, where, groupBy, having, window, orderBy, None, None)
  {
  }

  /** LIMIT and OFFSET close the statement, in that order, after every other clause. */
  lemma SelectLimitLast(m: Manager, select: NameArg, from: Option<NameArg>, where: seq<(Key, Arg)>,
                        groupBy: seq<(Key, Nm)>, having: seq<(Key, Arg)>, window: Option<string>,
                        orderBy: Option<OrderArg>, limit: Arg, offset: Option<Arg>)
    ensures Select(m, select, from, where, groupBy, having, window, orderBy, Some(limit), offset) ==
      Select(m, select, from, where, groupBy, having, window, orderBy, None, None) + LimitPart(m, Some(limit), offset)
    ensures LimitPart(m, Some(limit), offset) ==
      "\nLIMIT " + Value(m, limit) + (if offset.Some? then "\nOFFSET " + Value(m, offset.value) else "")
  {
    var s := "SELECT " + NamesSpec(m, select, true);
    var mid := FromPart(m, from) + WherePart(m, "WHERE", where) + GroupPart(m, groupBy) + WherePart(m, "HAVING", having)
      + WindowPart(window) + OrderPart(m, orderBy);
    var l := LimitPart(m, Some(limit), offset);
    assert mid + "" == mid;
    Assoc(s, mid, l);
  }

  /** With only result columns the statement is SELECT and the aliased names. */
  lemma SelectBare(m: Manager, select: NameArg)
    ensures Select(m, select, None, [], [], [], None, None, None, None) == "SELECT " + NamesSpec(m, select, true)
  {
    var s := "SELECT " + NamesSpec(m, select, true);
    assert s + ("" + "" + "" + "" + "" + "" + "") == s;
  }

  /** `sql_insert_default` */
  function InsertDefault(m: Manager, table: Nm, or: Option<string>): (r: string)
    ensures IsPrefix("INSERT", r) && IsSuffix(" INTO " + NameText(m, table) + "\nDEFAULT VALUES", r)
  {
    var t := " INTO " + NameText(m, table) + "\nDEFAULT VALUES";
    var r := ("INSERT" + OrPart(or)) + t;
    AppendSuffix("INSERT" + OrPart(or), t);
    assert r[..6] == "INSERT";
    r
  }

  /** `array_keys($data)`: the keys as a list of names, each key taken as a column name. */
  function KeyNames(data: seq<(Key, Arg)>): (r: seq<(Key, Nm)>)
    ensures |r| == |data|
  {
    seq(|data|, i requires 0 <= i < |data| => (IntKey(i), Name(KeyText(data[i].0))))
  }

  /** The values of `$data`, in the same order. */
  function DataValues(data: seq<(Key, Arg)>): (r: seq<Arg>)
    ensures |r| == |data|
  {
    seq(|data|, i requires 0 <= i < |data| => data[i].1)
  }

  function UpsertPart(upsert: Option<string>): string
  {
    if upsert.Some? then "\n" + upsert.value else ""
  }

  /** `sql_insert`: the column list from the keys and the VALUES list from the values of the same array. */
  function Insert(m: Manager, table: Nm, data: seq<(Key, Arg)>, or: Option<string>, upsert: Option<string>): (r: string)
    ensures IsPrefix("INSERT", r)
    ensures IsSuffix(" VALUES(" + ValuesSpec(m, Plain, ValueList(DataValues(data))) + ")" + UpsertPart(upsert), r)
  {
    var h := OrPart(or) + " INTO " + NameText(m, table) + "(" + NamesSpec(m, NameList(KeyNames(data)), false) + ")";
    var t := " VALUES(" + ValuesSpec(m, Plain, ValueList(DataValues(data))) + ")" + UpsertPart(upsert);
    var r := "INSERT" + (h + t);
    SeqAssoc("INSERT", h, t);
    AppendSuffix("INSERT" + h, t);
    assert r[..6] == "INSERT";
    r
  }

  /**
   * Column i of the insert is the i-th key of the data and value i its
   * value: the two lists have the same length and correspond by position.
   */
  lemma InsertColumnsMatchValues(m: Manager, table: Nm, data: seq<(Key, Arg)>, or: Option<string>, upsert: Option<string>)
    ensures var cols := NameEntries(m, KeyNames(data), false);
            var vals := Escaped(m, Plain, DataValues(data));
      |cols| == |vals| == |data| &&
      (forall i :: 0 <= i < |data| ==> cols[i] == QuoteNameParts(KeyText(data[i].0)) && vals[i] == Value(m, data[i].1)) &&
      Insert(m, table, data, or, upsert) ==
        "INSERT" + ((OrPart(or) + " INTO " + NameText(m, table) + "(" + Join(",", cols) + ")")
          + (" VALUES(" + Join(",", vals) + ")" + UpsertPart(upsert)))
  {
    var cols := NameEntries(m, KeyNames(data), false);
    var vals := Escaped(m, Plain, DataValues(data));
    assert NamesSpec(m, NameList(KeyNames(data)), false) == Join(",", cols);
    assert ValuesSpec(m, Plain, ValueList(DataValues(data))) == Join(",", vals);
    forall i | 0 <= i < |data|
      ensures cols[i] == QuoteNameParts(KeyText(data[i].0)) && vals[i] == Value(m, data[i].1)
    {
      assert KeyNames(data)[i] == (IntKey(i), Name(KeyText(data[i].0)));
      assert DataValues(data)[i] == data[i].1;
    }
  }

  /** `sql_insert_select`: an optional column list, then the select on its own line. */
  function InsertSelect(m: Manager, table: Nm, columns: Option<seq<(Key, Nm)>>, select: string, or: Option<string>,
                        upsert: Option<string>): (r: string)
    ensures IsPrefix("INSERT", r) && IsSuffix("\n" + select + UpsertPart(upsert), r)
    ensures columns.None? ==> IsPrefix("INSERT" + OrPart(or) + " INTO " + NameText(m, table) + "\n" + select, r)
  {
    var cols := if columns.Some? then " (" + NamesSpec(m, NameList(columns.value), false) + ")" else "";
    var h0 := "INSERT" + OrPart(or) + " INTO " + NameText(m, table);
    var h := h0 + cols;
    var a, u := "\n" + select, UpsertPart(upsert);
    var r := (h + a) + u;
    SeqAssoc(h, a, u);
    AppendSuffix(h, a + u);
    assert r[..|h + a|] == h + a;
    assert r[..6] == "INSERT";
    assert columns.None? ==> h == h0;
    SeqAssoc(h0, "\n", select);
    r
  }

  /** `sql_update`: the SET list, then FROM when given and WHERE when non-empty. */
  function Update(m: Manager, table: Nm, data: seq<(Key, Arg)>, from: Option<NameArg>, where: seq<(Key, Arg)>,
                  or: Option<string>): (r: string)
    ensures IsPrefix("UPDATE", r) && IsSuffix(" SET " + SetSpec(m, data) + FromPart(m, from) + WherePart(m, "WHERE", where), r)
  {
    var h := OrPart(or) + " " + NameText(m, table);
    var t := " SET " + SetSpec(m, data) + FromPart(m, from) + WherePart(m, "WHERE", where);
    var r := "UPDATE" + (h + t);
    SeqAssoc("UPDATE", h, t);
    AppendSuffix("UPDATE" + h, t);
    assert r[..6] == "UPDATE";
    r
  }

  /** `sql_delete` */
  function Delete(m: Manager, table: Nm, where: seq<(Key, Arg)>): (r: string)
    ensures IsPrefix("DELETE FROM " + NameText(m, table), r) && IsSuffix(WherePart(m, "WHERE", where), r)
  {
    var h := "DELETE FROM " + NameText(m, table);
    var r := "DELETE FROM " + (NameText(m, table) + WherePart(m, "WHERE", where));
    SeqAssoc("DELETE FROM ", NameText(m, table), WherePart(m, "WHERE", where));
    AppendSuffix(h, WherePart(m, "WHERE", where));
    assert r[..|h|] == h;
    r
  }

  /**
   * An empty condition list writes no WHERE at all, so DELETE then applies
   * to every row; a non-empty one is joined with AND.
   */
  lemma DeleteWhere(m: Manager, table: Nm, where: seq<(Key, Arg)>)
    ensures where == [] ==> Delete(m, table, where) == "DELETE FROM " + NameText(m, table)
    ensures where != [] ==> Delete(m, table, where) == "DELETE FROM " + NameText(m, table) + WherePart(m, "WHERE", where)
    ensures where != [] ==> WherePart(m, "WHERE", where) == "\nWHERE " + WhereSpec(m, And, where)
  {
    var t := NameText(m, table);
    Assoc("DELETE FROM ", t, WherePart(m, "WHERE", where));
    if where == [] {
      assert t + "" == t;
    } else {
      WhereKeyword(WhereSpec(m, And, where));
    }
  }

  /** The WHERE keyword on its own line, one space before the conditions. */
  lemma WhereKeyword(w: string)
    ensures "\n" + "WHERE" + " " + w == "\nWHERE " + w
  {
    assert "\n" + "WHERE" + " " == "\nWHERE ";
  }

  /** The same for UPDATE: without conditions every row gets the SET list. */
  lemma UpdateWhere(m: Manager, table: Nm, data: seq<(Key, Arg)>, from: Option<NameArg>, or: Option<string>)
    ensures Update(m, table, data, from, [], or) ==
      "UPDATE" + OrPart(or) + " " + NameText(m, table) + " SET " + SetSpec(m, data) + FromPart(m, from)
  {
    var o, n, d, f := OrPart(or), NameText(m, table), SetSpec(m, data), FromPart(m, from);
    var h := o + " " + n;
    var t := " SET " + d + f;
    assert " SET " + d + f + WherePart(m, "WHERE", []) == t;
    SeqAssoc("UPDATE", h, t);
    SeqAssoc("UPDATE", o + " ", n);
    SeqAssoc("UPDATE", o, " ");
    var u := "UPDATE" + o + " " + n;
    SeqAssoc(u, " SET " + d, f);
    SeqAssoc(u, " SET ", d);
  }

  /** The conflict clause is written as given for the five listed words in any case, and dropped otherwise. */
  lemma OrPartChecked(or: string)
    ensures OrPart(Some(or)) != "" <==> Upper(or) in OrList
    ensures OrPart(Some(or)) != "" ==> OrPart(Some(or)) == " OR " + or
    ensures OrPart(None) == ""
  {
  }

  /** `fn_values`: the function name directly followed by the parenthesised value list. */
  function FnValues(m: Manager, fn: string, params: seq<Arg>): (r: string)
    ensures r == fn + "(" + Join(",", Escaped(m, Plain, params)) + ")"
  {
    fn + "(" + ValuesSpec(m, Plain, ValueList(params)) + ")"
  }

  /** The variadic names of fn_names, under their positional keys. */
  function Positional(ps: seq<Nm>): (r: seq<(Key, Nm)>)
    ensures |r| == |ps|
  {
    seq(|ps|, i requires 0 <= i < |ps| => (IntKey(i), ps[i]))
  }

  /** `fn_names`: the function name directly followed by the parenthesised name list, without aliases. */
  function FnNames(m: Manager, fn: string, params: seq<Nm>): (r: string)
    ensures IsPrefix(fn + "(", r) && r[|r| - 1] == ')'
  {
    var r := fn + "(" + NamesSpec(m, NameList(Positional(params)), false) + ")";
    assert r[..|fn + "("|] == fn + "(";
    r
  }

  /** Positional keys never produce an alias: fn_names writes each name alone. */
  lemma FnNamesPlain(m: Manager, fn: string, params: seq<Nm>)
    ensures forall i :: 0 <= i < |params| ==> NameEntries(m, Positional(params), false)[i] == NameText(m, params[i])
    ensures NamesSpec(m, NameList(Positional(params)), false) == NamesSpec(m, NameList(Positional(params)), true)
  {
    assert NameEntries(m, Positional(params), false) == NameEntries(m, Positional(params), true);
  }

  /** `_CAST`: CAST(<value> AS <type as a value>). */
  function Cast(m: Manager, val: Arg, typ: Arg): (r: string)
    ensures IsPrefix("CAST(" + Value(m, val) + " AS ", r)
    ensures IsSuffix(" AS " + Value(m, typ) + ")", r)
  {
    var r := "CAST" + ("(" + (Value(m, val) + " AS" + " " + Value(m, typ)) + ")");
    var h, t := "CAST(" + Value(m, val), " AS " + Value(m, typ) + ")";
    assert r == h + t;
    AppendSuffix(h, t);
    assert r[..|h + " AS "|] == h + " AS ";
    r
  }
}
