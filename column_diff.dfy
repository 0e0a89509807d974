/**
 * `detectColumnDiff`, the same loop in every generation of the SQLite
 * manager: the rows of `PRAGMA table_info` are compared with the desired
 * column definitions (an array keyed by column name), and the result lists
 * the columns to add, to drop and to change.
 */
module ColumnDiff {
  import opened Text
  import opened PhpArray
  import opened Escape
  import opened PhpCompare

  /** One row of `table_info`: name, declared type, notnull flag, key ordinal and default text. */
  datatype Row = Row(name: string, typ: Option<string>, notnull: int, pk: int, dflt: Option<string>)

  /**
   * One entry of the desired columns: a definition array, any other
   * non-null value (a bare string, number or bool, none of whose offsets
   * `isset` finds), or null (which `isset` does not find at all).
   */
  datatype Desired<D> = Def(def: ColDef<D>) | Bare | NullEntry

  /** The three arrays of the result, each keyed by column name. */
  datatype Diff<D> = Diff(add: seq<(string, Desired<D>)>, drop: seq<(string, Row)>, change: seq<(string, Row)>)

  function OrElse(o: Option<string>, s: string): string
  {
    if o.Some? then o.value else s
  }

  /** What `isset($columns[name])` finds. */
  predicate IsSet<D>(w: Option<Desired<D>>)
  {
    w.Some? && !w.value.NullEntry?
  }

  /**
   * The properties the four tests read from a set entry: a definition as
   * given, and for a bare value every `??` fallback (no type, not null 0,
   * key 0, default null, which `nullD` stands for).
   */
  function Read<D>(w: Desired<D>, nullD: D): (d: ColDef<D>)
    ensures w.Def? ==> d == w.def
    ensures w.Bare? ==> d.typ.None? && !d.notnull && d.pk == 0 && d.default == nullD
  {
    match w
    case Def(d) => d
    case _ => ColDef(None, false, false, nullD, None, None, None, 0, false)
  }

  /**
   * The four tests, in the source's order, each a loose `!=`: the
   * upper-cased types (BLOB when absent), the notnull flags, the key
   * ordinals, and the escaped default (`dv` is the generation's `value`)
   * against the stored default text ('NULL' when absent).
   */
  predicate Differs<D>(d: ColDef<D>, row: Row, dv: D -> string)
  {
    !LooseEq(Upper(OrElse(d.typ, "BLOB")), Upper(OrElse(row.typ, "BLOB")))
    || d.notnull != (row.notnull != 0)
    || d.pk != row.pk
    || !LooseEq(dv(d.default), OrElse(row.dflt, "NULL"))
  }

  /** One pass of the loop body for one row. */
  function Step<D>(acc: Diff<D>, row: Row, dv: D -> string, nullD: D): Diff<D>
  {
    var add := Unset(acc.add, row.name);
    var w := Lookup(acc.add, row.name);
    if IsSet(w) then
      if Differs(Read(w.value, nullD), row, dv) then Diff(add, acc.drop, Put(acc.change, row.name, row))
      else Diff(add, acc.drop, acc.change)
    else Diff(add, Put(acc.drop, row.name, row), acc.change)
  }

  /** The three arrays after the first |rows| rows. */
  function Fold<D>(columns: seq<(string, Desired<D>)>, rows: seq<Row>, dv: D -> string, nullD: D): Diff<D>
  {
    if rows == [] then Diff(columns, [], [])
    else Step(Fold(columns, rows[..|rows| - 1], dv, nullD), rows[|rows| - 1], dv, nullD)
  }

  /** The result: false (None) when the query failed, the three arrays otherwise. */
  function DiffSpec<D>(defs: Option<seq<Row>>, columns: seq<(string, Desired<D>)>, dv: D -> string, nullD: D): Option<Diff<D>>
  {
    if defs.None? then None else Some(Fold(columns, defs.value, dv, nullD))
  }

  /**
   * `detectColumnDiff` of the abstract manager, its trait copy and the
   * later manager base: the loop over the rows fills drop and change and
   * unsets each row's name from the desired columns, which become add.
   */
  method DetectColumnDiff<D>(defs: Option<seq<Row>>, columns: seq<(string, Desired<D>)>, dv: D -> string, nullD: D)
    returns (r: Option<Diff<D>>)
    ensures r == DiffSpec(defs, columns, dv, nullD)
  {
    if defs.None? { return None; }
    var rows := defs.value;
    var cols := columns;
    var drop: seq<(string, Row)> := [];
    var change: seq<(string, Row)> := [];
    var i := 0;
    while i < |rows|
      invariant 0 <= i <= |rows|
      invariant Diff(cols, drop, change) == Fold(columns, rows[..i], dv, nullD)
    {
      var col := rows[i];
      var w := Lookup(cols, col.name);
      if w.Some? && !w.value.NullEntry? {
        var want := Read(w.value, nullD);
        if !LooseEq(Upper(OrElse(want.typ, "BLOB")), Upper(OrElse(col.typ, "BLOB"))) {
          change := Put(change, col.name, col);
        } else if want.notnull != (col.notnull != 0) {
          change := Put(change, col.name, col);
        } else if want.pk != col.pk {
          change := Put(change, col.name, col);
        } else if !LooseEq(dv(want.default), OrElse(col.dflt, "NULL")) {
          change := Put(change, col.name, col);
        }
      } else {
        drop := Put(drop, col.name, col);
      }
      cols := Unset(cols, col.name);
      assert rows[..i + 1][..i] == rows[..i];
      i := i + 1;
    }
    assert rows[..i] == rows;
    return Some(Diff(cols, drop, change));
  }

  /**
   * The PDO manager of SQLiteMan/Manager.php fetches the rows into an array,
   * so it also fails when the table info is empty (no such table).
   */
  method DetectColumnDiffFetched<D>(defs: Option<seq<Row>>, columns: seq<(string, Desired<D>)>, dv: D -> string, nullD: D)
    returns (r: Option<Diff<D>>)
    ensures defs.None? || defs.value == [] ==> r.None?
    ensures defs.Some? && defs.value != [] ==> r == DiffSpec(defs, columns, dv, nullD)
  {
    if defs.None? || |defs.value| == 0 { return None; }
    r := DetectColumnDiff(defs, columns, dv, nullD);
  }

  /** `table_info` names each column once. */
  predicate DistinctNames(rows: seq<Row>)
  {
    forall i, j :: 0 <= i < j < |rows| ==> rows[i].name != rows[j].name
  }

  /** Reference definition: the row that describes column n, if any. */
  function RowNamed(rows: seq<Row>, n: string): (r: Option<Row>)
    ensures r.Some? ==> r.value.name == n
  {
    if rows == [] then None
    else if rows[|rows| - 1].name == n then Some(rows[|rows| - 1])
    else RowNamed(rows[..|rows| - 1], n)
  }

  /** What the change array holds for column n. */
  function Changed<D>(row: Option<Row>, want: Option<Desired<D>>, dv: D -> string, nullD: D): Option<Row>
  {
    if row.Some? && IsSet(want) && Differs(Read(want.value, nullD), row.value, dv) then row else None
  }

  /**
   * Column by column: a desired entry stays in add exactly when no row
   * names it; a row goes to drop exactly when `isset` finds no desired
   * entry with its name (none, or a null one); and a row goes to change
   * exactly when a set entry has its name and one of the four tests finds
   * a difference.
   */
  lemma {:induction false} FoldSpec<D>(columns: seq<(string, Desired<D>)>, rows: seq<Row>, dv: D -> string, nullD: D, n: string)
    requires DistinctNames(rows)
    ensures var f := Fold(columns, rows, dv, nullD);
      Lookup(f.add, n) == (if RowNamed(rows, n).Some? then None else Lookup(columns, n)) &&
      Lookup(f.drop, n) == (if IsSet(Lookup(columns, n)) then None else RowNamed(rows, n)) &&
      Lookup(f.change, n) == Changed(RowNamed(rows, n), Lookup(columns, n), dv, nullD)
  {
    if rows != [] {
      var p, row := rows[..|rows| - 1], rows[|rows| - 1];
      assert DistinctNames(p);
      FoldSpec(columns, p, dv, nullD, n);
      FoldSpec(columns, p, dv, nullD, row.name);
      assert RowNamed(p, row.name).None? by {
        NoEarlierRow(rows, row.name);
      }
      var acc := Fold(columns, p, dv, nullD);
      UnsetLookup(acc.add, row.name, n);
      PutLookup(acc.drop, row.name, row, n);
      PutLookup(acc.change, row.name, row, n);
    }
  }

  /** With distinct names the last row's name occurs in none of the rows before it. */
  lemma {:induction false} NoEarlierRow(rows: seq<Row>, n: string)
    requires rows != [] && DistinctNames(rows) && rows[|rows| - 1].name == n
    ensures RowNamed(rows[..|rows| - 1], n).None?
  {
    var p := rows[..|rows| - 1];
    forall i | 0 <= i < |p|
      ensures p[i].name != n
    {
      assert p[i] == rows[i];
    }
    RowNamedIndex(p, n);
  }

  /** A row is found exactly when some row carries the name. */
  lemma {:induction false} RowNamedIndex(rows: seq<Row>, n: string)
    ensures RowNamed(rows, n).Some? <==> exists i :: 0 <= i < |rows| && rows[i].name == n
  {
    if rows != [] {
      var p := rows[..|rows| - 1];
      RowNamedIndex(p, n);
      if RowNamed(p, n).Some? {
        var i :| 0 <= i < |p| && p[i].name == n;
        assert rows[i].name == n;
      }
      if rows[|rows| - 1].name != n && exists i :: 0 <= i < |rows| && rows[i].name == n {
        var i :| 0 <= i < |rows| && rows[i].name == n;
        assert i < |p| && p[i].name == n;
      }
    }
  }

  /** So no column name is in two of the three result arrays. */
  lemma DiffDisjoint<D>(columns: seq<(string, Desired<D>)>, rows: seq<Row>, dv: D -> string, nullD: D, n: string)
    requires DistinctNames(rows)
    ensures var f := Fold(columns, rows, dv, nullD);
      !(Lookup(f.add, n).Some? && Lookup(f.drop, n).Some?) &&
      !(Lookup(f.add, n).Some? && Lookup(f.change, n).Some?) &&
      !(Lookup(f.drop, n).Some? && Lookup(f.change, n).Some?)
  {
    FoldSpec(columns, rows, dv, nullD, n);
  }

  /** A live column that already matches its definition appears in none of the three arrays. */
  lemma MatchingColumnUntouched<D>(columns: seq<(string, Desired<D>)>, rows: seq<Row>, dv: D -> string, nullD: D, n: string)
    requires DistinctNames(rows)
    requires RowNamed(rows, n).Some? && IsSet(Lookup(columns, n))
    requires !Differs(Read(Lookup(columns, n).value, nullD), RowNamed(rows, n).value, dv)
    ensures var f := Fold(columns, rows, dv, nullD);
      Lookup(f.add, n).None? && Lookup(f.drop, n).None? && Lookup(f.change, n).None?
  {
    FoldSpec(columns, rows, dv, nullD, n);
  }

  /** A live column whose desired entry is null is dropped, and the null entry leaves add. */
  lemma NullEntryDropped<D>(columns: seq<(string, Desired<D>)>, rows: seq<Row>, dv: D -> string, nullD: D, n: string)
    requires DistinctNames(rows)
    requires RowNamed(rows, n).Some? && Lookup(columns, n) == Some(NullEntry)
    ensures var f := Fold(columns, rows, dv, nullD);
      Lookup(f.drop, n) == RowNamed(rows, n) && Lookup(f.add, n).None? && Lookup(f.change, n).None?
  {
    FoldSpec(columns, rows, dv, nullD, n);
  }

  /**
   * A default that escapes to "1" matches a stored default "1.0": both are
   * numeric strings and `!=` compares them as numbers.
   */
  lemma NumericDefaultMatches<D>(d: ColDef<D>, row: Row, dv: D -> string)
    requires d.typ == row.typ && d.notnull == (row.notnull != 0) && d.pk == row.pk
    requires dv(d.default) == "1" && row.dflt == Some("1.0")
    ensures !Differs(d, row, dv)
  {
    LooseEqExamples();
  }

  /**
   * Types are upper-cased and then compared exactly (neither is a number):
   * with everything else equal, a declared "int" matches the live "INT"
   * and not "INTEGER".
   */
  lemma TypeCaseFolded<D>(d: ColDef<D>, row: Row, dv: D -> string)
    requires d.typ == Some("int") && d.notnull == (row.notnull != 0) && d.pk == row.pk
    requires LooseEq(dv(d.default), OrElse(row.dflt, "NULL"))
    ensures row.typ == Some("INT") ==> !Differs(d, row, dv)
    ensures row.typ == Some("INTEGER") ==> Differs(d, row, dv)
  {
    IntTypeTexts();
  }

  lemma IntTypeTexts()
    ensures Upper("int") == "INT" && Upper("INT") == "INT" && Upper("INTEGER") == "INTEGER"
    ensures LooseEq("INT", "INT") && !LooseEq("INT", "INTEGER")
  {
    UpperInt();
    UpperInteger();
    IntNotNumeric();
  }

  lemma UpperInt()
    ensures Upper("int") == "INT" && Upper("INT") == "INT"
  {
    var u := Upper("int");
    assert u == "INT" by { assert u[0] == 'I' && u[1] == 'N' && u[2] == 'T'; }
    UpperIdempotent("int");
  }

  lemma UpperInteger()
    ensures Upper("INTEGER") == "INTEGER"
  {
    var v := Upper("INTEGER");
    assert v == "INTEGER" by { assert forall k :: 0 <= k < 7 ==> v[k] == "INTEGER"[k]; }
  }

  lemma IntNotNumeric()
    ensures !IsNumeric("INT")
  {
    var s := "INT";
    assert Span(s, 0, IsWs) == 0 && Span(s, 0, IsDigit) == 0 by { assert s[0] == 'I'; }
  }

  /**
   * A bare entry is compared as an untyped column with no flags and a null
   * default: it matches a BLOB row without flags whose default is absent
   * exactly when the null default escapes to a text loosely equal to 'NULL'.
   */
  lemma BareEntryDefaults<D>(row: Row, dv: D -> string, nullD: D)
    requires row.typ == Some("BLOB") && row.notnull == 0 && row.pk == 0 && row.dflt.None?
    ensures !Differs(Read(Bare, nullD), row, dv) <==> LooseEq(dv(nullD), "NULL")
  {
    assert OrElse(Read(Bare, nullD).typ, "BLOB") == OrElse(row.typ, "BLOB");
    LooseEqBasics(Upper("BLOB"), Upper("BLOB"));
  }
  /** One row and one set entry of its name that matches it: all three arrays are empty. */
  lemma OneMatchingColumn<D>(w: Desired<D>, row: Row, dv: D -> string, nullD: D)
    requires !w.NullEntry? && !Differs(Read(w, nullD), row, dv)
    ensures DiffSpec(Some([row]), [(row.name, w)], dv, nullD) == Some(Diff([], [], []))
  {
    var cols := [(row.name, w)];
    assert [row][..0] == [];
    assert Fold(cols, [row], dv, nullD) == Step(Diff(cols, [], []), row, dv, nullD);
    assert Lookup(cols, row.name) == Some(w);
    assert Unset(cols, row.name) == [] by { assert cols[1..] == []; }
  }
}
