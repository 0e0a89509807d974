/**
 * Escaping in the SQLite manager base (src/SQLiteMan/ManagerBase.php):
 * the dispatch on tagged data, backtick names, `:param` pass-through,
 * values and blobs, name lists and column definitions. `quoteVal` and
 * `quoteBin` belong to the driver and are left uninterpreted.
 */
module ManagerBase {
  import opened Text
  import opened NameGrammar
  import opened BacktickQuote
  import opened Data
  import OP = OParam
  import Escape

  datatype Manager = Manager(quoteVal: string -> string, quoteBin: string -> string)

  /** What `value` and `value_bin` accept: a scalar or null, or a datum. */
  datatype Arg = Lit(v: Scalar) | Dat(d: Data)

  /** What `name`, `nameVar` and `sql` accept: a string or a datum. */
  datatype Text_ = S(s: string) | D(d: Data)

  /** A bare part may start with neither a backtick nor a dot. */
  const BareExcluded: set<char> := {'`', '.'}

  /** `name_`: `*`, a path of backtick parts, each kept when already quoted and quoted otherwise. */
  function Name_(name: string): (r: string)
    ensures QuotedPath(r, '`')
  {
    NameParts(name, BareExcluded)
  }

  /** A name that starts with a dot matches neither part pattern and is quoted whole. */
  lemma NameLeadingDot(name: string)
    requires name != "" && name[0] == '.'
    ensures Name_(name) == QuoteName(name)
  {
    NamePartsExcludedStart(name, BareExcluded);
  }

  /** `value` of a scalar: NULL, 1/0, the number's text, or quoteVal of the string with every NUL deleted. */
  function ScalarValue(m: Manager, v: Scalar): string
  {
    match v
    case Null => "NULL"
    case Bool(b) => if b then "1" else "0"
    case Int(i) => IntText(i)
    case Float(t) => t
    case Str(s) => m.quoteVal(Strip(s, '\0'))
  }

  /** `value_bin` of a scalar: the same literals, and quoteBin of a string as it is. */
  function ScalarBin(m: Manager, v: Scalar): string
  {
    match v
    case Null => "NULL"
    case Bool(b) => if b then "1" else "0"
    case Int(i) => IntText(i)
    case Float(t) => t
    case Str(s) => m.quoteBin(s)
  }

  /**
   * `esc` / `escSQL`: SQL verbatim, Binary through value_bin, Value through
   * value and Name through name, each applied to the datum's payload.
   */
  function Esc(m: Manager, d: Data): string
  {
    match d
    case Sql(t) => t
    case Binary(s) => ScalarBin(m, Str(s))
    case Value(v) => ScalarValue(m, v)
    case Name(n) => Name_(n)
  }

  /** `value`: a datum by its tag, a scalar by ScalarValue. */
  function Value(m: Manager, a: Arg): string
  {
    match a
    case Dat(d) => Esc(m, d)
    case Lit(v) => ScalarValue(m, v)
  }

  /** `value_bin`: a datum by its tag, a scalar by ScalarBin. */
  function ValueBin(m: Manager, a: Arg): string
  {
    match a
    case Dat(d) => Esc(m, d)
    case Lit(v) => ScalarBin(m, v)
  }

  /**
   * The tag decides: on a datum value and value_bin agree; tagging a scalar
   * with `Data::val` changes nothing, and tagging a string with `Data::bin`
   * sends it to quoteBin.
   */
  lemma TagDecides(m: Manager, d: Data, v: Scalar, s: string)
    ensures Value(m, Dat(d)) == ValueBin(m, Dat(d)) == Esc(m, d)
    ensures Value(m, Dat(Val(v))) == Value(m, Lit(v))
    ensures Value(m, Dat(Bin(s))) == m.quoteBin(s)
    ensures Value(m, Dat(NameOf(s))) == Name_(s) && Value(m, Dat(SqlOf(s))) == s
  {
  }

  /** value never hands quoteVal a NUL; on text without NUL it quotes the text itself. */
  lemma ValueDropsNul(m: Manager, s: string)
    ensures Value(m, Lit(Str(s))) == m.quoteVal(Strip(s, '\0')) && '\0' !in Strip(s, '\0')
    ensures '\0' !in s ==> Value(m, Lit(Str(s))) == m.quoteVal(s)
  {
    StripSpec(s, '\0');
  }

  /** Only strings reach the driver's quoters; the literals are the same for every driver. */
  lemma LiteralsIgnoreQuoters(m: Manager, m': Manager, v: Scalar)
    requires !v.Str?
    ensures ScalarValue(m, v) == ScalarValue(m', v) == ScalarBin(m, v) == ScalarBin(m', v)
    ensures v.Null? ==> ScalarValue(m, v) == "NULL"
    ensures v.Bool? ==> ScalarValue(m, v) == if v.b then "1" else "0"
  {
  }

  function EscAll(m: Manager, ds: seq<Data>): (r: seq<string>)
    ensures |r| == |ds|
  {
    seq(|ds|, i requires 0 <= i < |ds| => Esc(m, ds[i]))
  }

  /** `escList`: the escaped data joined by commas. */
  function EscList(m: Manager, ds: seq<Data>): (r: string)
  {
    Join(",", EscAll(m, ds))
  }

  function ValueAll(m: Manager, bin: bool, vs: seq<Arg>): (r: seq<string>)
    ensures |r| == |vs|
  {
    seq(|vs|, i requires 0 <= i < |vs| => if bin then ValueBin(m, vs[i]) else Value(m, vs[i]))
  }

  /** `values` (bin false) and `values_bin` (bin true): the escaped items joined by commas. */
  function Values(m: Manager, bin: bool, vs: seq<Arg>): (r: string)
  {
    Join(",", ValueAll(m, bin, vs))
  }

  /** No items give "", one item its escape, and each further item one more comma. */
  lemma ValuesShape(m: Manager, bin: bool, vs: seq<Arg>, x: Arg, ds: seq<Data>, d: Data)
    ensures Values(m, bin, []) == "" && EscList(m, []) == ""
    ensures Values(m, bin, [x]) == if bin then ValueBin(m, x) else Value(m, x)
    ensures vs != [] ==> Values(m, bin, vs + [x]) == Values(m, bin, vs) + "," + Values(m, bin, [x])
    ensures ds != [] ==> EscList(m, ds + [d]) == EscList(m, ds) + "," + Esc(m, d)
  {
    assert ValueAll(m, bin, [x]) == [if bin then ValueBin(m, x) else Value(m, x)];
    assert ValueAll(m, bin, vs + [x]) == ValueAll(m, bin, vs) + ValueAll(m, bin, [x]);
    JoinSnoc(",", ValueAll(m, bin, vs), if bin then ValueBin(m, x) else Value(m, x));
    assert EscAll(m, ds + [d]) == EscAll(m, ds) + [Esc(m, d)];
    JoinSnoc(",", EscAll(m, ds), Esc(m, d));
  }

  /** `sql($sql)`: a datum by its tag, a string as it is. */
  function SqlText(m: Manager, t: Text_): string
  {
    match t
    case D(d) => Esc(m, d)
    case S(s) => s
  }

  /** `name`: a datum by its tag, a string through name_. */
  function Name(m: Manager, n: Text_): string
  {
    match n
    case D(d) => Esc(m, d)
    case S(s) => Name_(s)
  }

  /** `nameVar`: a `:word` string is written as it is, anything else goes through name. */
  function NameVar(m: Manager, n: Text_): (r: string)
    ensures n.S? && OP.ParamSyntax(n.s) ==> r == n.s
    ensures !(n.S? && OP.ParamSyntax(n.s)) ==> r == Name(m, n)
  {
    if n.S? && OP.ParamSyntax(n.s) then n.s else Name(m, n)
  }

  /** A string nameVar does not pass through comes out as a backtick path: only `:word` escapes quoting. */
  lemma NameVarQuotes(m: Manager, s: string)
    ensures OP.ParamSyntax(s) || QuotedPath(NameVar(m, S(s)), '`')
    ensures OP.Make(s).Some? ==> NameVar(m, S(s)) == OP.ToSql(OP.Make(s).value)
  {
  }

  /** The two list escapers: name for nameList, nameVar for nameVarList. */
  datatype Escaper = ByName | ByNameVar

  function EscapeName(m: Manager, e: Escaper, n: Text_): string
  {
    if e == ByName then Name(m, n) else NameVar(m, n)
  }

  /** One list entry: the escaped name, then ` AS <quoteName(key)>` for a string key when aliases are on. */
  function NameEntry(m: Manager, e: Escaper, key: Key, n: Text_, alias: bool): string
  {
    EscapeName(m, e, n) + (if alias && key.StrKey? then " AS " + QuoteName(key.s) else "")
  }

  function NameEntries(m: Manager, e: Escaper, list: seq<(Key, Text_)>, alias: bool): (r: seq<string>)
    ensures |r| == |list|
  {
    seq(|list|, i requires 0 <= i < |list| => NameEntry(m, e, list[i].0, list[i].1, alias))
  }

  /** What nameList and nameVarList write: the entries joined by a comma and a space. */
  function NameListSpec(m: Manager, e: Escaper, list: seq<(Key, Text_)>, alias: bool): string
  {
    Join(", ", NameEntries(m, e, list, alias))
  }

  /** `nameList` / `nameVarList`: the loop with a first-entry flag that writes ", " before every later entry. */
  method NameList(m: Manager, e: Escaper, list: seq<(Key, Text_)>, alias: bool) returns (r: string)
    ensures r == NameListSpec(m, e, list, alias)
  {
    ghost var parts := NameEntries(m, e, list, alias);
    r := "";
    var first := true;
    var i := 0;
    while i < |list|
      invariant 0 <= i <= |list|
      invariant first <==> i == 0
      invariant r == Join(", ", parts[..i])
    {
      JoinStep(", ", parts, i, r);
      if first {
        first := false;
      } else {
        r := r + ", ";
      }
      var as_ := if alias && list[i].0.StrKey? then " AS " + QuoteName(list[i].0.s) else "";
      r := r + (EscapeName(m, e, list[i].1) + as_);
      i := i + 1;
    }
    assert parts[..i] == parts;
  }

  /** An empty list gives "", and an alias is written only for a string key when asked for. */
  lemma NameListShape(m: Manager, e: Escaper, k: Key, n: Text_, alias: bool)
    ensures NameListSpec(m, e, [], alias) == ""
    ensures NameListSpec(m, e, [(k, n)], alias) ==
      if alias && k.StrKey? then EscapeName(m, e, n) + " AS " + QuoteName(k.s) else EscapeName(m, e, n)
  {
    assert NameEntries(m, e, [(k, n)], alias) == [NameEntry(m, e, k, n, alias)];
    var x := EscapeName(m, e, n);
    assert x + "" == x;
  }

  /** Appending one entry appends ", " and that entry. */
  lemma NameListAppend(m: Manager, e: Escaper, list: seq<(Key, Text_)>, k: Key, n: Text_, alias: bool)
    requires list != []
    ensures NameListSpec(m, e, list + [(k, n)], alias) == NameListSpec(m, e, list, alias) + ", " + NameEntry(m, e, k, n, alias)
  {
    assert NameEntries(m, e, list + [(k, n)], alias) == NameEntries(m, e, list, alias) + [NameEntry(m, e, k, n, alias)];
    JoinSnoc(", ", NameEntries(m, e, list, alias), NameEntry(m, e, k, n, alias));
  }

  type ColDef = Escape.ColDef<Arg>

  function Opt(c: bool, s: string): string { if c then s else "" }

  /** The clauses after the column name, in columnDef's fixed order (the type is escaped as a value). */
  function ColumnClauses(m: Manager, d: ColDef): string
  {
    var typ := if d.typ.Some? then " " + Value(m, Lit(Str(d.typ.value))) else "";
    var dflt := if d.default != Lit(Null) then " DEFAULT " + Value(m, d.default)
      else if d.defaultExpr.Some? then " DEFAULT (" + d.defaultExpr.value + ")" else "";
    var gen := if d.stored.Some? then " AS (" + d.stored.value + ") STORED"
      else if d.virtual.Some? then " AS (" + d.virtual.value + ") VIRTUAL" else "";
    typ + Opt(d.notnull, " NOT NULL") + Opt(d.unique, " UNIQUE") + dflt + gen
  }

  /** `columnDef`: the column's name through name_, its clauses, and PRIMARY KEY AUTOINCREMENT for a pk ai column. */
  function ColumnDef(m: Manager, colName: string, d: ColDef): string
  {
    Name_(colName) + ColumnClauses(m, Escape.Unkeyed(d)) + Opt(d.pk != 0 && d.ai, " PRIMARY KEY AUTOINCREMENT")
  }


  /** A default value hides a default expression, and a stored expression hides a virtual one. */
  lemma ColumnDefPrecedence(m: Manager, colName: string, d: ColDef)
    ensures d.default != Lit(Null) ==> ColumnDef(m, colName, d) == ColumnDef(m, colName, d.(defaultExpr := None))
    ensures d.stored.Some? ==> ColumnDef(m, colName, d) == ColumnDef(m, colName, d.(virtual := None))
  {
    var u := Escape.Unkeyed(d);
    if d.default != Lit(Null) {
      assert Escape.Unkeyed(d.(defaultExpr := None)) == u.(defaultExpr := None);
      ClausesSkipExpr(m, u);
    }
    if d.stored.Some? {
      assert Escape.Unkeyed(d.(virtual := None)) == u.(virtual := None);
      ClausesSkipVirtual(m, u);
    }
  }

  lemma ClausesSkipExpr(m: Manager, u: ColDef)
    requires u.default != Lit(Null)
    ensures ColumnClauses(m, u) == ColumnClauses(m, u.(defaultExpr := None))
  {
  }

  lemma ClausesSkipVirtual(m: Manager, u: ColDef)
    requires u.stored.Some?
    ensures ColumnClauses(m, u) == ColumnClauses(m, u.(virtual := None))
  {
  }

}
