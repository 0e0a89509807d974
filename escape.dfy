/**
 * Escaping of names and values by the SQLite manager: the abstract
 * `Manager` class (src/SQLiteMan/Manager.php) and its trait copy
 * (src/SQLiteManager/Manager_base.php). The two differ in one point: the
 * class also accepts self-escaping objects (`OParam`), which the trait turns
 * into their text and escapes like any string.
 */
module Escape {
  import opened Text
  import opened NameGrammar
  import opened SqliteQuote
  import OP = OParam

  /** Which of the two managers: the class knows `SelfEscape`, the trait does not. */
  datatype Kind = ClassManager | TraitManager

  /**
   * A manager as far as escaping goes. `quoteVal` and `quoteHex` belong to
   * the database driver and are left uninterpreted.
   */
  datatype Manager = Manager(kind: Kind, quoteVal: string -> string, quoteHex: string -> string)

  /** A PHP value handed to `value()`: a scalar, a built SQL fragment or a parameter. */
  datatype Arg =
    | Null
    | Bool(b: bool)
    | Int(i: int)
    | Float(text: string)   // the text PHP's strval gives the float
    | Str(s: string)
    | Sql(sql: string)
    | Param(p: OP.OParam)

  /** A name handed to `name()`: a string, a built SQL fragment or a parameter. */
  datatype Nm = Name(s: string) | NameSql(sql: string) | NameParam(p: OP.OParam)

  /** `strval` of a non-SQL argument, the text that reaches the quoters. */
  function Strval(v: Arg): string
  {
    match v
    case Null => ""
    case Bool(b) => if b then "1" else ""
    case Int(i) => IntText(i)
    case Float(t) => t
    case Str(s) => s
    case Sql(t) => t
    case Param(p) => OP.ToString(p)
  }

  /** The arguments that altEscape writes without the driver's quoter. */
  predicate IsLiteral(k: Kind, v: Arg)
  {
    v.Null? || v.Bool? || v.Int? || v.Float? || (v.Param? && k == ClassManager)
  }

  /** `altEscape`: NULL, 1/0, strval of a number, a parameter's own text; otherwise nothing. */
  function AltEscape(m: Manager, v: Arg): (r: Option<string>)
    ensures r.Some? <==> IsLiteral(m.kind, v)
    ensures v.Null? ==> r == Some("NULL")
    ensures v.Bool? ==> r == Some(if v.b then "1" else "0")
    ensures v.Int? ==> r.Some? && forall ch :: ch in r.value ==> ch == '-' || '0' <= ch <= '9'
  {
    match v
    case Null => Some("NULL")
    case Bool(b) => Some(if b then "1" else "0")
    case Int(i) => Some(IntText(i))
    case Float(t) => Some(t)
    case Param(p) => if m.kind == ClassManager then Some(OP.ToSql(p)) else None
    case _ => None
  }

  /** The three escapers behind value, value_text and value_hex. */
  datatype Esc = Plain | NulFree | Hex

  /**
   * `value` / `value_text` / `value_hex`: an SQL fragment as it is, a literal
   * by altEscape, and anything else through the driver's quoter; value_text
   * first deletes every NUL, value_hex always uses quoteHex.
   */
  function Escape(m: Manager, e: Esc, v: Arg): string
  {
    if v.Sql? then v.sql
    else match AltEscape(m, v)
      case Some(t) => t
      case None =>
        match e
        case Plain => m.quoteVal(Strval(v))
        case NulFree => m.quoteVal(Strip(Strval(v), '\0'))
        case Hex => m.quoteHex(Strval(v))
  }

  function Value(m: Manager, v: Arg): string { Escape(m, Plain, v) }

  /**
   * An SQL fragment and a literal do not depend on the driver's quoters;
   * every other argument is the quoter's output for the argument's text.
   */
  lemma EscapeQuoterUse(m: Manager, m': Manager, e: Esc, v: Arg)
    requires m'.kind == m.kind
    ensures v.Sql? ==> Escape(m, e, v) == v.sql
    ensures v.Sql? || IsLiteral(m.kind, v) ==> Escape(m, e, v) == Escape(m', e, v)
    ensures !v.Sql? && !IsLiteral(m.kind, v) ==>
      Escape(m, e, v) == match e
        case Plain => m.quoteVal(Strval(v))
        case NulFree => m.quoteVal(Strip(Strval(v), '\0'))
        case Hex => m.quoteHex(Strval(v))
  {
  }

  /** The class writes a parameter as its own text; the trait quotes that text as a string. */
  lemma ParamByKind(m: Manager, o: OP.OParam)
    ensures m.kind == ClassManager ==> Value(m, Param(o)) == o.n
    ensures m.kind == TraitManager ==> Value(m, Param(o)) == m.quoteVal(o.n)
  {
  }

  /** value_text never hands a NUL to quoteVal, and agrees with value on text without NUL. */
  lemma NulFreeText(m: Manager, s: string)
    ensures exists t :: '\0' !in t && Escape(m, NulFree, Str(s)) == m.quoteVal(t)
    ensures '\0' !in s ==> Escape(m, NulFree, Str(s)) == Value(m, Str(s))
  {
    StripSpec(s, '\0');
    var t := Strip(s, '\0');
    assert '\0' !in t && Escape(m, NulFree, Str(s)) == m.quoteVal(t);
  }

  /** `name`: an SQL fragment as it is, a parameter (class only) as its text, anything else by quoteNameParts. */
  function NameText(m: Manager, n: Nm): string
  {
    match n
    case NameSql(t) => t
    case NameParam(p) => if m.kind == ClassManager then OP.ToSql(p) else QuoteNameParts(OP.ToString(p))
    case Name(s) => QuoteNameParts(s)
  }

  /** A string name, and in the trait also a parameter, always comes out as a quoted path. */
  lemma NameTextQuoted(m: Manager, n: Nm)
    requires n.Name? || (n.NameParam? && m.kind == TraitManager)
    ensures QuotedPath(NameText(m, n), '"')
  {
  }

  /** `->_as(alias)`: a space, AS and the alias quoted with quoteName. */
  function AsClause(alias: string): string
  {
    " AS " + QuoteName(alias)
  }

  /** `name($name, $alias)` */
  function NameAlias(m: Manager, n: Nm, alias: Option<string>): string
  {
    NameText(m, n) + (if alias.Some? then AsClause(alias.value) else "")
  }

  /** The `$indexedBy` argument of qualified_name: a string, false, or null. */
  datatype IndexHint = NoHint | IndexedBy(index: string) | NotIndexed

  /** `qualified_name`: the name, its alias, then INDEXED BY <name> or NOT INDEXED. */
  function QualifiedName(m: Manager, n: Nm, alias: Option<string>, hint: IndexHint): (r: string)
    ensures IsPrefix(NameAlias(m, n, alias), r)
    ensures hint.NoHint? ==> r == NameAlias(m, n, alias)
  {
    var base := NameAlias(m, n, alias);
    match hint
    case NoHint => base
    case IndexedBy(ix) => base + " INDEXED BY " + QuoteNameParts(ix)
    case NotIndexed => base + " NOT INDEXED"
  }

  /** `names()`'s argument: an array with keys, or a single name. */
  datatype NameArg = SingleName(n: Nm) | NameList(entries: seq<(Key, Nm)>)

  /** One entry of a name list: the name, then ` AS "<key>"` for a string key when aliases are on. */
  function NameEntry(m: Manager, key: Key, n: Nm, alias: bool): string
  {
    NameText(m, n) + (if alias && key.StrKey? then AsClause(key.s) else "")
  }

  function NameEntries(m: Manager, es: seq<(Key, Nm)>, alias: bool): (r: seq<string>)
    ensures |r| == |es|
  {
    seq(|es|, i requires 0 <= i < |es| => NameEntry(m, es[i].0, es[i].1, alias))
  }

  /** What `names` writes: the entries joined by a comma with no space; a single name has no alias. */
  function NamesSpec(m: Manager, names: NameArg, alias: bool): string
  {
    match names
    case SingleName(n) => NameText(m, n)
    case NameList(es) => Join(",", NameEntries(m, es, alias))
  }

  /** `names`: the loop that starts a builder with the first entry and appends `,<name>` for the others. */
  method Names(m: Manager, names: NameArg, alias: bool) returns (r: string)
    ensures r == NamesSpec(m, names, alias)
  {
    if names.SingleName? { return NameText(m, names.n); }
    var es := names.entries;
    ghost var parts := NameEntries(m, es, alias);
    r := "";
    var i := 0;
    while i < |es|
      invariant 0 <= i <= |es|
      invariant r == Join(",", parts[..i])
    {
      var entry := NameText(m, es[i].1);
      if alias && es[i].0.StrKey? { entry := entry + AsClause(es[i].0.s); }
      NameEntryAt(m, es, alias, i, entry);
      JoinStep(",", parts, i, r);
      if i > 0 { r := r + "," + entry; } else { r := entry; }
      i := i + 1;
    }
    assert parts[..i] == parts;
  }

  /** The loop's entry is the i-th entry of the specification. */
  lemma NameEntryAt(m: Manager, es: seq<(Key, Nm)>, alias: bool, i: nat, entry: string)
    requires i < |es|
    requires entry == if alias && es[i].0.StrKey? then NameText(m, es[i].1) + AsClause(es[i].0.s) else NameText(m, es[i].1)
    ensures entry == NameEntries(m, es, alias)[i]
  {
    assert NameText(m, es[i].1) + "" == NameText(m, es[i].1);
  }

  /** An empty array gives "", and an alias is written only for string keys when asked for. */
  lemma NamesShape(m: Manager, k: Key, n: Nm, alias: bool)
    ensures NamesSpec(m, NameList([]), alias) == ""
    ensures NamesSpec(m, NameList([(k, n)]), alias) ==
      if alias && k.StrKey? then NameText(m, n) + " AS " + QuoteName(k.s) else NameText(m, n)
    ensures NamesSpec(m, NameList([(k, n)]), false) == NameText(m, n)
  {
    assert NameEntries(m, [(k, n)], alias) == [NameEntry(m, k, n, alias)];
    assert NameEntries(m, [(k, n)], false) == [NameEntry(m, k, n, false)];
  }

  /** Appending one entry to the array appends a comma and that entry to the text. */
  lemma NamesAppend(m: Manager, es: seq<(Key, Nm)>, k: Key, n: Nm, alias: bool)
    requires es != []
    ensures NamesSpec(m, NameList(es + [(k, n)]), alias) ==
      NamesSpec(m, NameList(es), alias) + "," + NameEntry(m, k, n, alias)
  {
    assert NameEntries(m, es + [(k, n)], alias) == NameEntries(m, es, alias) + [NameEntry(m, k, n, alias)];
    JoinSnoc(",", NameEntries(m, es, alias), NameEntry(m, k, n, alias));
  }

  /** `values()`'s argument: an array (its keys are ignored) or a single value. */
  datatype ValueArg = SingleValue(v: Arg) | ValueList(items: seq<Arg>)

  function Escaped(m: Manager, e: Esc, vs: seq<Arg>): (r: seq<string>)
    ensures |r| == |vs|
  {
    seq(|vs|, i requires 0 <= i < |vs| => Escape(m, e, vs[i]))
  }

  /** What `values` / `values_text` / `values_hex` write: the escaped items joined by a comma. */
  function ValuesSpec(m: Manager, e: Esc, vals: ValueArg): string
  {
    match vals
    case SingleValue(v) => Escape(m, e, v)
    case ValueList(vs) => Join(",", Escaped(m, e, vs))
  }

  /** `values`, `values_text` and `values_hex`: the same loop with a different escaper. */
  method Values(m: Manager, e: Esc, vals: ValueArg) returns (r: string)
    ensures r == ValuesSpec(m, e, vals)
  {
    if vals.SingleValue? { return Escape(m, e, vals.v); }
    var vs := vals.items;
    r := "";
    var i := 0;
    while i < |vs|
      invariant 0 <= i <= |vs|
      invariant r == Join(",", Escaped(m, e, vs)[..i])
    {
      var x := Escape(m, e, vs[i]);
      JoinStep(",", Escaped(m, e, vs), i, r);
      if i > 0 { r := r + "," + x; } else { r := x; }
      i := i + 1;
    }
    assert Escaped(m, e, vs)[..i] == Escaped(m, e, vs);
  }

  /** No items give "", one item is its escape alone, and each further item adds one comma. */
  lemma ValuesShape(m: Manager, e: Esc, vs: seq<Arg>, x: Arg)
    ensures ValuesSpec(m, e, ValueList([])) == ""
    ensures ValuesSpec(m, e, ValueList([x])) == Escape(m, e, x)
    ensures vs != [] ==> ValuesSpec(m, e, ValueList(vs + [x])) == ValuesSpec(m, e, ValueList(vs)) + "," + Escape(m, e, x)
  {
    assert Escaped(m, e, [x]) == [Escape(m, e, x)];
    assert Escaped(m, e, vs + [x]) == Escaped(m, e, vs) + [Escape(m, e, x)];
    JoinSnoc(",", Escaped(m, e, vs), Escape(m, e, x));
  }

  /** The column properties read by columnDef; a property left out is None (or false, 0, Null). */
  datatype ColDef<D> = ColDef(
    typ: Option<string>,
    notnull: bool,
    unique: bool,
    default: D,              // Null when unset: isset() is false for null
    defaultExpr: Option<string>,
    stored: Option<string>,
    virtual: Option<string>,
    pk: int,                 // 0 when not part of the key; true counts as 1
    ai: bool)

  function Opt(c: bool, s: string): string { if c then s else "" }

  /** The clauses after the column name, in columnDef's fixed order. */
  function ColumnClauses(m: Manager, d: ColDef<Arg>): string
  {
    var typ := if d.typ.Some? then " " + Value(m, Str(d.typ.value)) else "";
    var dflt := if !d.default.Null? then " DEFAULT " + Value(m, d.default)
      else if d.defaultExpr.Some? then " DEFAULT (" + d.defaultExpr.value + ")" else "";
    var gen := if d.stored.Some? then " AS (" + d.stored.value + ") STORED"
      else if d.virtual.Some? then " AS (" + d.virtual.value + ") VIRTUAL" else "";
    typ + Opt(d.notnull, " NOT NULL") + Opt(d.unique, " UNIQUE") + dflt + gen
  }

  /** `columnDef`: the quoted column name, its clauses, and PRIMARY KEY AUTOINCREMENT for a pk ai column. */
  function ColumnDef(m: Manager, colName: string, d: ColDef<Arg>): string
  {
    QuoteName(colName) + ColumnClauses(m, Unkeyed(d)) + Opt(d.pk != 0 && d.ai, " PRIMARY KEY AUTOINCREMENT")
  }

  /** The properties the clauses read: all but the key fields, which only decide the closing clause. */
  function Unkeyed<D>(d: ColDef<D>): ColDef<D>
  {
    d.(pk := 0, ai := false)
  }

  /** A default value hides a default expression, and a stored expression hides a virtual one. */
  lemma ColumnDefPrecedence(m: Manager, colName: string, d: ColDef<Arg>)
    ensures !d.default.Null? ==> ColumnDef(m, colName, d) == ColumnDef(m, colName, d.(defaultExpr := None))
    ensures d.stored.Some? ==> ColumnDef(m, colName, d) == ColumnDef(m, colName, d.(virtual := None))
  {
    var u := Unkeyed(d);
    if !d.default.Null? {
      assert Unkeyed(d.(defaultExpr := None)) == u.(defaultExpr := None);
      ClausesSkipExpr(m, u);
    }
    if d.stored.Some? {
      assert Unkeyed(d.(virtual := None)) == u.(virtual := None);
      ClausesSkipVirtual(m, u);
    }
  }

  lemma ClausesSkipExpr(m: Manager, u: ColDef<Arg>)
    requires !u.default.Null?
    ensures ColumnClauses(m, u) == ColumnClauses(m, u.(defaultExpr := None))
  {
  }

  lemma ClausesSkipVirtual(m: Manager, u: ColDef<Arg>)
    requires u.stored.Some?
    ensures ColumnClauses(m, u) == ColumnClauses(m, u.(virtual := None))
  {
  }

}
