/**
 * Table definitions by the PDO manager (SQLiteMan/Manager.php): the column
 * definition, `createTable_sql` with its composite primary key, and the
 * column differ with this manager's `value`.
 */
module PdoManagerDdl {
  import opened Text
  import opened SqVar
  import opened PdoManager
  import Data
  import Escape
  import PA = PhpArray
  import CD = ColumnDiff

  /** The column properties read by columnDef; `default` is `Sc(Null)` when unset, as isset() sees it. */
  type ColDef = Escape.ColDef<Php>

  /** A column given by its type alone: `columnDef` turns a string into `['type' => …]`. */
  function TypeOnly(typ: string): (d: ColDef)
    ensures d.typ == Some(typ) && !d.notnull && !d.unique && d.default == Sc(Data.Null) && d.pk == 0 && !d.ai
  {
    Escape.ColDef(Some(typ), false, false, Sc(Data.Null), None, None, None, 0, false)
  }

  function Opt(c: bool, s: string): string { if c then s else "" }

  /** The clauses after the column name, in columnDef's fixed order; the type is quoted as a value. */
  function ColumnClauses(m: Manager, d: ColDef): string
  {
    var typ := if d.typ.Some? then " " + Value(m, Sc(Data.Str(d.typ.value))) else "";
    var dflt := if d.default != Sc(Data.Null) then " DEFAULT " + Value(m, d.default)
      else if d.defaultExpr.Some? then " DEFAULT (" + d.defaultExpr.value + ")" else "";
    var gen := if d.stored.Some? then " AS (" + d.stored.value + ") STORED"
      else if d.virtual.Some? then " AS (" + d.virtual.value + ") VIRTUAL" else "";
    typ + Opt(d.notnull, " NOT NULL") + Opt(d.unique, " UNIQUE") + dflt + gen
  }

  /** `columnDef`: the column's name, its clauses, and PRIMARY KEY AUTOINCREMENT for a pk ai column. */
  function ColumnDef(m: Manager, colName: string, d: ColDef): string
  {
    NamePath(colName) + ColumnClauses(m, Escape.Unkeyed(d)) + Opt(d.pk != 0 && d.ai, " PRIMARY KEY AUTOINCREMENT")
  }


  /** A default value hides a default expression, and a stored expression hides a virtual one. */
  lemma ColumnDefPrecedence(m: Manager, colName: string, d: ColDef)
    ensures d.default != Sc(Data.Null) ==> ColumnDef(m, colName, d) == ColumnDef(m, colName, d.(defaultExpr := None))
    ensures d.stored.Some? ==> ColumnDef(m, colName, d) == ColumnDef(m, colName, d.(virtual := None))
  {
    var u := Escape.Unkeyed(d);
    if d.default != Sc(Data.Null) {
      assert Escape.Unkeyed(d.(defaultExpr := None)) == u.(defaultExpr := None);
      ClausesSkipExpr(m, u);
    }
    if d.stored.Some? {
      assert Escape.Unkeyed(d.(virtual := None)) == u.(virtual := None);
      ClausesSkipVirtual(m, u);
    }
  }

  lemma ClausesSkipExpr(m: Manager, u: ColDef)
    requires u.default != Sc(Data.Null)
    ensures ColumnClauses(m, u) == ColumnClauses(m, u.(defaultExpr := None))
  {
  }

  lemma ClausesSkipVirtual(m: Manager, u: ColDef)
    requires u.stored.Some?
    ensures ColumnClauses(m, u) == ColumnClauses(m, u.(virtual := None))
  {
  }

  /** A type given as a string is quoted by the connection, as a string literal. */
  lemma ColumnDefType(m: Manager, colName: string, typ: string)
    ensures ColumnDef(m, colName, TypeOnly(typ)) == NamePath(colName) + " " + m.quote(typ)
  {
  }

  // --------------------------------------------------------- CREATE TABLE

  /**
   * Which columns enter the composite key. As written, `pk ?? false && !ai`
   * parses as `pk ?? (false && !ai)`, so a non-zero ordinal is enough; the
   * intended rule also leaves out autoincrement columns.
   */
  datatype KeyRule = AsWritten | Intended

  predicate Keyed(rule: KeyRule, d: ColDef)
  {
    if rule == AsWritten then d.pk != 0 else d.pk != 0 && !d.ai
  }

  /**
   * The `$pk` array after the loop: ordinal => column name, each key new
   * when it is assigned (so it goes last); None once an ordinal repeats,
   * where the loop returns false.
   */
  function PkCollect(rule: KeyRule, columns: seq<(string, ColDef)>): Option<seq<(int, string)>>
  {
    if columns == [] then Some([])
    else
      var p, c := PkCollect(rule, columns[..|columns| - 1]), columns[|columns| - 1];
      if p.None? then None
      else if !Keyed(rule, c.1) then p
      else if PA.Lookup(p.value, c.1.pk).Some? then None
      else Some(p.value + [(c.1.pk, c.0)])
  }

  /** Reference definition: the keyed columns in declaration order, with their ordinals. */
  function KeyedColumns(rule: KeyRule, columns: seq<(string, ColDef)>): seq<(int, string)>
  {
    if columns == [] then []
    else
      var p, c := KeyedColumns(rule, columns[..|columns| - 1]), columns[|columns| - 1];
      if Keyed(rule, c.1) then p + [(c.1.pk, c.0)] else p
  }

  /** Two keyed columns share an ordinal. */
  predicate SharedOrdinal(rule: KeyRule, columns: seq<(string, ColDef)>)
  {
    exists i, j :: 0 <= i < j < |columns| && Keyed(rule, columns[i].1) && Keyed(rule, columns[j].1) &&
      columns[i].1.pk == columns[j].1.pk
  }

  /** Each keyed entry comes from a keyed column, and each keyed column has an entry. */
  lemma {:induction false} KeyedColumnsSpec(rule: KeyRule, columns: seq<(string, ColDef)>, k: int)
    ensures (exists e :: e in KeyedColumns(rule, columns) && e.0 == k) <==>
            (exists i :: 0 <= i < |columns| && Keyed(rule, columns[i].1) && columns[i].1.pk == k)
  {
    if columns != [] {
      var p, c := columns[..|columns| - 1], columns[|columns| - 1];
      KeyedColumnsSpec(rule, p, k);
      if exists i :: 0 <= i < |columns| && Keyed(rule, columns[i].1) && columns[i].1.pk == k {
        var i :| 0 <= i < |columns| && Keyed(rule, columns[i].1) && columns[i].1.pk == k;
        if i < |p| {
          assert p[i] == columns[i];
          var e :| e in KeyedColumns(rule, p) && e.0 == k;
          assert e in KeyedColumns(rule, columns);
        } else {
          assert (c.1.pk, c.0) in KeyedColumns(rule, columns);
        }
      }
      if exists e :: e in KeyedColumns(rule, columns) && e.0 == k {
        var e :| e in KeyedColumns(rule, columns) && e.0 == k;
        if e in KeyedColumns(rule, p) {
          var i :| 0 <= i < |p| && Keyed(rule, p[i].1) && p[i].1.pk == k;
          assert columns[i] == p[i];
        } else {
          assert columns[|columns| - 1] == c;
        }
      }
    }
  }

  lemma LookupIn(a: seq<(int, string)>, k: int)
    ensures PA.Lookup(a, k).Some? <==> exists e :: e in a && e.0 == k
  {
    PA.LookupSome(a, k);
    if exists e :: e in a && e.0 == k {
      var e :| e in a && e.0 == k;
      var i :| 0 <= i < |a| && a[i] == e;
    }
  }

  /**
   * The loop fails exactly when two keyed columns share an ordinal, and
   * otherwise collects every keyed column, each ordinal once.
   */
  lemma {:induction false} PkCollectSpec(rule: KeyRule, columns: seq<(string, ColDef)>)
    ensures PkCollect(rule, columns).None? <==> SharedOrdinal(rule, columns)
    ensures PkCollect(rule, columns).Some? ==>
      PkCollect(rule, columns).value == KeyedColumns(rule, columns) && PA.DistinctKeys(KeyedColumns(rule, columns))
  {
    if columns != [] {
      var p, c := columns[..|columns| - 1], columns[|columns| - 1];
      PkCollectSpec(rule, p);
      var q := PkCollect(rule, p);
      assert forall i :: 0 <= i < |p| ==> p[i] == columns[i];
      if SharedOrdinal(rule, p) {
        var i, j :| 0 <= i < j < |p| && Keyed(rule, p[i].1) && Keyed(rule, p[j].1) && p[i].1.pk == p[j].1.pk;
        assert columns[i] == p[i] && columns[j] == p[j];
      } else if Keyed(rule, c.1) {
        LookupIn(q.value, c.1.pk);
        KeyedColumnsSpec(rule, p, c.1.pk);
        if PA.Lookup(q.value, c.1.pk).Some? {
          var i :| 0 <= i < |p| && Keyed(rule, p[i].1) && p[i].1.pk == c.1.pk;
          assert columns[i] == p[i] && columns[|columns| - 1] == c;
        } else {
          var a := KeyedColumns(rule, p);
          assert !(exists e :: e in a && e.0 == c.1.pk);
          assert forall i :: 0 <= i < |a| ==> a[i] in a;
          forall i, j | 0 <= i < j < |columns| && Keyed(rule, columns[i].1) && Keyed(rule, columns[j].1)
            ensures columns[i].1.pk != columns[j].1.pk
          {
            if j == |columns| - 1 {
              assert columns[i] == p[i];
            } else {
              assert columns[i] == p[i] && columns[j] == p[j];
            }
          }
        }
      } else {
        forall i, j | 0 <= i < j < |columns| && Keyed(rule, columns[i].1) && Keyed(rule, columns[j].1)
          ensures columns[i].1.pk != columns[j].1.pk
        {
          assert j < |p|;
          assert columns[i] == p[i] && columns[j] == p[j];
        }
      }
    }
  }

  /** Once an ordinal has repeated, the whole loop fails. */
  lemma {:induction false} PkCollectFails(rule: KeyRule, columns: seq<(string, ColDef)>, i: nat)
    requires i <= |columns| && PkCollect(rule, columns[..i]).None?
    ensures PkCollect(rule, columns).None?
    decreases |columns| - i
  {
    if i < |columns| {
      assert columns[..i + 1][..i] == columns[..i];
      PkCollectFails(rule, columns, i + 1);
    } else {
      assert columns[..i] == columns;
    }
  }

  /** The ksorted key as nameList receives it from `array_values`: integer keys, so no alias. */
  function PkNames(pk: seq<(int, string)>): (r: seq<(Key, Php)>)
    ensures |r| == |pk|
  {
    seq(|pk|, i requires 0 <= i < |pk| => (IntKey(i), Sc(Data.Str(pk[i].1))))
  }

  /** The PRIMARY KEY definition, present exactly when some column is keyed. */
  function PkDef(m: Manager, pk: seq<(int, string)>): (r: seq<string>)
    ensures |r| <= 1 && (|r| == 1 <==> |pk| > 0)
    ensures |pk| > 0 ==> IsPrefix("PRIMARY KEY(", r[0]) && IsSuffix(")", r[0])
  {
    if |pk| > 0 then
      var p := "PRIMARY KEY(" + Join(",", NameEntries(m, ByName, PkNames(PA.KSort(pk))));
      AppendSuffix(p, ")");
      assert (p + ")")[..12] == p[..12];
      [p + ")"]
    else []
  }

  function ColumnDefs(m: Manager, columns: seq<(string, ColDef)>): (r: seq<string>)
    ensures |r| == |columns|
  {
    seq(|columns|, i requires 0 <= i < |columns| => ColumnDef(m, columns[i].0, columns[i].1))
  }

  function CreateHead(m: Manager, table: Php, temp: bool, ifNotExists: bool): string
  {
    "CREATE " + (if temp then "TEMP " else "") + "TABLE " + (if ifNotExists then "IF NOT EXISTS " else "") + Name(m, table)
  }

  /**
   * What `createTable_sql` returns: false (None) when two keyed columns
   * share an ordinal; otherwise the head, then the column definitions, the
   * PRIMARY KEY and the constraints, one per line and tab-indented, the
   * closing parenthesis and WITHOUT ROWID.
   */
  function CreateTableSpec(m: Manager, rule: KeyRule, table: Php, columns: seq<(string, ColDef)>,
                           constraints: Option<seq<string>>, temp: bool, ifNotExists: bool, withoutRowid: bool): Option<string>
  {
    match PkCollect(rule, columns)
    case None => None
    case Some(pk) =>
      var cs := if constraints.Some? then constraints.value else [];
      Some(CreateHead(m, table, temp, ifNotExists) + "(\n\t" + Join(",\n\t", ColumnDefs(m, columns) + PkDef(m, pk) + cs) + "\n)"
        + (if withoutRowid then " WITHOUT ROWID" else ""))
  }

  /** `createTable_sql`: the definitions and the `$pk` array filled in one loop, with the early return. */
  method CreateTable(m: Manager, rule: KeyRule, table: Php, columns: seq<(string, ColDef)>,
                     constraints: Option<seq<string>>, temp: bool, ifNotExists: bool, withoutRowid: bool)
    returns (r: Option<string>)
    ensures r == CreateTableSpec(m, rule, table, columns, constraints, temp, ifNotExists, withoutRowid)
  {
    var ok, defs, pk := DefineColumns(m, rule, columns);
    if !ok {
      return None;
    }
    ghost var cs := if constraints.Some? then constraints.value else [];
    if |pk| > 0 {
      var names := NameList(m, ByName, PkNames(PA.KSort(pk)));
      defs := defs + ["PRIMARY KEY(" + names + ")"];
    } else {
      defs := defs + [];
    }
    assert defs == ColumnDefs(m, columns) + PkDef(m, pk);
    if constraints.Some? {
      defs := defs + constraints.value;
    } else {
      defs := defs + [];
    }
    assert defs == ColumnDefs(m, columns) + PkDef(m, pk) + cs;
    var sql := "CREATE " + (if temp then "TEMP " else "") + "TABLE ";
    if ifNotExists { sql := sql + "IF NOT EXISTS "; } else { sql := sql + ""; }
    sql := sql + Name(m, table);
    assert sql == CreateHead(m, table, temp, ifNotExists);
    sql := sql + "(\n\t" + Join(",\n\t", defs) + "\n)";
    if withoutRowid { sql := sql + " WITHOUT ROWID"; } else { sql := sql + ""; }
    return Some(sql);
  }

  /** The column loop of `createTable_sql`: it stops, failing, at the first repeated ordinal. */
  method DefineColumns(m: Manager, rule: KeyRule, columns: seq<(string, ColDef)>)
    returns (ok: bool, defs: seq<string>, pk: seq<(int, string)>)
    ensures ok <==> PkCollect(rule, columns).Some?
    ensures ok ==> defs == ColumnDefs(m, columns) && PkCollect(rule, columns) == Some(pk)
  {
    pk := [];
    defs := [];
    var i := 0;
    while i < |columns|
      invariant 0 <= i <= |columns|
      invariant defs == ColumnDefs(m, columns[..i])
      invariant PkCollect(rule, columns[..i]) == Some(pk)
    {
      var colName, colDef := columns[i].0, columns[i].1;
      assert columns[..i + 1][..i] == columns[..i] && columns[..i + 1][i] == columns[i];
      defs := defs + [ColumnDef(m, colName, colDef)];
      assert defs == ColumnDefs(m, columns[..i + 1]);
      if Keyed(rule, colDef) {
        if PA.Lookup(pk, colDef.pk).Some? {
          assert PkCollect(rule, columns[..i + 1]).None?;
          PkCollectFails(rule, columns, i + 1);
          return false, defs, pk;
        }
        pk := pk + [(colDef.pk, colName)];
      }
      i := i + 1;
    }
    assert columns[..i] == columns;
    return true, defs, pk;
  }

  /**
   * The key clause: absent when no column is keyed, otherwise the keyed
   * columns in ascending ordinal order, whatever the declaration order.
   */
  lemma PrimaryKeyOrder(rule: KeyRule, columns: seq<(string, ColDef)>)
    requires PkCollect(rule, columns).Some?
    ensures PA.Sorted(PA.KSort(PkCollect(rule, columns).value))
    ensures forall k :: PA.Lookup(PA.KSort(PkCollect(rule, columns).value), k).Some? <==>
      exists i :: 0 <= i < |columns| && Keyed(rule, columns[i].1) && columns[i].1.pk == k
  {
    PkCollectSpec(rule, columns);
    var pk := PkCollect(rule, columns).value;
    PA.KSortSpec(pk);
    forall k ensures PA.Lookup(PA.KSort(pk), k).Some? <==>
      exists i :: 0 <= i < |columns| && Keyed(rule, columns[i].1) && columns[i].1.pk == k
    {
      LookupIn(pk, k);
      KeyedColumnsSpec(rule, columns, k);
    }
  }

  /** A one-column table with nothing else: its definition, then the key clause if any. */
  lemma CreateTableOne(m: Manager, rule: KeyRule, table: Php, name: string, d: ColDef, pk: seq<(int, string)>)
    requires PkCollect(rule, [(name, d)]) == Some(pk)
    ensures CreateTableSpec(m, rule, table, [(name, d)], None, false, false, false) ==
      Some(CreateHead(m, table, false, false) + "(\n\t" + Join(",\n\t", [ColumnDef(m, name, d)] + PkDef(m, pk)) + "\n)")
  {
    var cols := [(name, d)];
    assert ColumnDefs(m, cols) == [ColumnDef(m, name, d)];
    assert ColumnDefs(m, cols) + PkDef(m, pk) + [] == [ColumnDef(m, name, d)] + PkDef(m, pk);
    var x := CreateHead(m, table, false, false) + "(\n\t" + Join(",\n\t", [ColumnDef(m, name, d)] + PkDef(m, pk)) + "\n)";
    assert x + "" == x;
  }

  /**
   * As written, an autoincrement key column is collected for the PRIMARY
   * KEY clause as well as closing its own definition with PRIMARY KEY
   * AUTOINCREMENT; the intended rule does not collect it.
   */
  lemma AutoincrementKeyed(m: Manager, name: string, d: ColDef)
    requires d.pk != 0 && d.ai
    ensures PkCollect(AsWritten, [(name, d)]) == Some([(d.pk, name)])
    ensures PkCollect(Intended, [(name, d)]) == Some([])
    ensures IsSuffix(" PRIMARY KEY AUTOINCREMENT", ColumnDef(m, name, d))
  {
    var cols := [(name, d)];
    assert cols[..0] == [];
    assert PkCollect(AsWritten, cols[..0]) == Some([]) && PkCollect(Intended, cols[..0]) == Some([]);
    assert PA.Lookup<int, string>([], d.pk).None?;
    assert PkCollect(AsWritten, cols) == Some([] + [(d.pk, name)]);
    assert [] + [(d.pk, name)] == [(d.pk, name)];
    assert !Keyed(Intended, cols[0].1);
    assert PkCollect(Intended, cols) == PkCollect(Intended, cols[..0]);
    var q, rest := NamePath(name), ColumnClauses(m, Escape.Unkeyed(d));
    assert ColumnDef(m, name, d) == (q + rest) + " PRIMARY KEY AUTOINCREMENT";
    AppendSuffix(q + rest, " PRIMARY KEY AUTOINCREMENT");
  }

  /** An entry of the key list is a keyed column's ordinal and name. */
  lemma {:induction false} KeyedColumnsIn(rule: KeyRule, columns: seq<(string, ColDef)>, e: (int, string))
    ensures e in KeyedColumns(rule, columns) <==>
      exists j :: 0 <= j < |columns| && Keyed(rule, columns[j].1) && e == (columns[j].1.pk, columns[j].0)
  {
    if columns != [] {
      var p := columns[..|columns| - 1];
      KeyedColumnsIn(rule, p, e);
      assert forall j :: 0 <= j < |p| ==> p[j] == columns[j];
      if exists j :: 0 <= j < |columns| && Keyed(rule, columns[j].1) && e == (columns[j].1.pk, columns[j].0) {
        var j :| 0 <= j < |columns| && Keyed(rule, columns[j].1) && e == (columns[j].1.pk, columns[j].0);
        if j < |p| {
          assert p[j] == columns[j];
        }
      }
    }
  }

  /**
   * With the intended rule a key column declares its key in one place: an
   * autoincrement column closes its own definition with PRIMARY KEY
   * AUTOINCREMENT and stays out of the key list, any other key column is
   * in the key list with its ordinal.
   */
  lemma IntendedKeyOnce(m: Manager, columns: seq<(string, ColDef)>, i: nat)
    requires PkCollect(Intended, columns).Some?
    requires PA.DistinctKeys(columns) && i < |columns| && columns[i].1.pk != 0
    ensures columns[i].1.ai ==> IsSuffix(" PRIMARY KEY AUTOINCREMENT", ColumnDef(m, columns[i].0, columns[i].1))
    ensures columns[i].1.ai <==> forall e :: e in PkCollect(Intended, columns).value ==> e.1 != columns[i].0
    ensures !columns[i].1.ai ==> (columns[i].1.pk, columns[i].0) in PkCollect(Intended, columns).value
  {
    var n, d := columns[i].0, columns[i].1;
    PkCollectSpec(Intended, columns);
    if d.ai {
      AppendSuffix(NamePath(n) + ColumnClauses(m, Escape.Unkeyed(d)), " PRIMARY KEY AUTOINCREMENT");
      forall e | e in KeyedColumns(Intended, columns)
        ensures e.1 != n
      {
        KeyedColumnsIn(Intended, columns, e);
        var j :| 0 <= j < |columns| && Keyed(Intended, columns[j].1) && e == (columns[j].1.pk, columns[j].0);
        assert j != i;
      }
    } else {
      KeyedColumnsIn(Intended, columns, (d.pk, n));
    }
  }

  /**
   * So the table as written declares two primary keys, which SQLite
   * refuses, while the intended table declares one.
   */
  lemma AutoincrementTwoKeys(m: Manager, table: Php, name: string, d: ColDef)
    requires d.pk != 0 && d.ai
    ensures CreateTableSpec(m, AsWritten, table, [(name, d)], None, false, false, false) ==
      Some(CreateHead(m, table, false, false) + "(\n\t" + ColumnDef(m, name, d) + ",\n\t" + PkDef(m, [(d.pk, name)])[0] + "\n)")
    ensures CreateTableSpec(m, Intended, table, [(name, d)], None, false, false, false) ==
      Some(CreateHead(m, table, false, false) + "(\n\t" + ColumnDef(m, name, d) + "\n)")
  {
    AutoincrementKeyed(m, name, d);
    CreateTableOne(m, AsWritten, table, name, d, [(d.pk, name)]);
    CreateTableOne(m, Intended, table, name, d, []);
    var pkd := PkDef(m, [(d.pk, name)]);
    assert pkd == [pkd[0]];
    Wrapped(CreateHead(m, table, false, false), ColumnDef(m, name, d), pkd);
    Wrapped(CreateHead(m, table, false, false), ColumnDef(m, name, d), PkDef(m, []));
  }

  /** The column list of a one-column table, with and without a key clause. */
  lemma Wrapped(h: string, c: string, pkd: seq<string>)
    requires |pkd| <= 1
    ensures h + "(\n\t" + Join(",\n\t", [c] + pkd) + "\n)" ==
      if pkd == [] then h + "(\n\t" + c + "\n)" else h + "(\n\t" + c + ",\n\t" + pkd[0] + "\n)"
  {
    JoinSmall(",\n\t", c);
    if pkd == [] {
      assert [c] + pkd == [c];
    } else {
      assert pkd == [pkd[0]];
      JoinSnoc(",\n\t", [c], pkd[0]);
    }
  }

  /** As written, an autoincrement column also clashes with a key column of the same ordinal. */
  lemma AutoincrementClash(m: Manager, a: string, da: ColDef, b: string, db: ColDef)
    requires da.pk != 0 && da.ai && db.pk == da.pk && !db.ai
    ensures PkCollect(AsWritten, [(a, da), (b, db)]).None?
    ensures PkCollect(Intended, [(a, da), (b, db)]) == Some([(db.pk, b)])
  {
    var cols := [(a, da), (b, db)];
    assert cols[..1] == [(a, da)] && cols[..1][..0] == [];
    assert PkCollect(AsWritten, cols[..1][..0]) == Some([]) && PkCollect(Intended, cols[..1][..0]) == Some([]);
    assert PkCollect(AsWritten, cols[..1]) == Some([] + [(da.pk, a)]);
    assert PkCollect(Intended, cols[..1]) == Some([]);
    assert PA.Lookup([(da.pk, a)], db.pk).Some?;
    assert PA.Lookup<int, string>([], db.pk).None?;
    assert Keyed(Intended, cols[1].1) && cols[..|cols| - 1] == cols[..1];
    assert PkCollect(Intended, cols) == Some([] + [(db.pk, b)]);
    assert [] + [(db.pk, b)] == [(db.pk, b)];
  }

  // ---------------------------------------------------------- COLUMN DIFF

  /** This manager's `value`, as the differ's default escaper. */
  function ValueOf(m: Manager): Php -> string
  {
    p => Value(m, p)
  }

  /** `detectColumnDiff`: false on no table info; otherwise the shared loop with defaults escaped by `value`. */
  method DetectColumnDiff(m: Manager, defs: Option<seq<CD.Row>>, columns: seq<(string, CD.Desired<Php>)>)
    returns (r: Option<CD.Diff<Php>>)
    ensures defs.None? || defs.value == [] ==> r.None?
    ensures defs.Some? && defs.value != [] ==> r == CD.DiffSpec(defs, columns, ValueOf(m), Sc(Data.Null))
  {
    r := CD.DetectColumnDiffFetched(defs, columns, ValueOf(m), Sc(Data.Null));
  }
}
