/**
 * The SQL function list of the PDO manager (SQLiteMan/funcList.php):
 * `_CONCAT`, which escapes each argument with `nameVar`, joins them with
 * SQLite's `||` operator and tags the result as SQL.
 */
module FuncList {
  import opened Text
  import opened Data
  import opened SqVar
  import opened PdoManager
  import OP = OParam

  /** Each argument through nameVar, in argument order. */
  function NameVars(m: Manager, ps: seq<Php>): (r: seq<string>)
    ensures |r| == |ps| && forall i :: 0 <= i < |ps| ==> r[i] == NameVar(m, ps[i])
  {
    seq(|ps|, i requires 0 <= i < |ps| => NameVar(m, ps[i]))
  }

  /** `_CONCAT`: the first argument, then a push per further argument, imploded with `||` and tagged SQL. */
  method Concat(m: Manager, name: Php, names: seq<Php>) returns (r: SQVar)
    ensures r == S(Join("||", NameVars(m, [name] + names)))
    ensures GetType(r) == TYPE_SQL
  {
    var sql := [NameVar(m, name)];
    var i := 0;
    while i < |names|
      invariant 0 <= i <= |names|
      invariant sql == NameVars(m, [name] + names[..i])
    {
      assert ([name] + names[..i + 1]) == ([name] + names[..i]) + [names[i]];
      sql := sql + [NameVar(m, names[i])];
      i := i + 1;
    }
    assert names[..i] == names;
    r := S(Join("||", sql));
  }

  /** A single argument is its nameVar alone, with no `||`. */
  lemma ConcatSingle(m: Manager, p: Php)
    ensures Join("||", NameVars(m, [p])) == NameVar(m, p)
  {
    assert NameVars(m, [p]) == [NameVar(m, p)];
    JoinSmall("||", NameVar(m, p));
  }

  /** Each further argument is appended after one `||`, so the arguments keep their order. */
  lemma ConcatAppend(m: Manager, ps: seq<Php>, x: Php)
    requires ps != []
    ensures Join("||", NameVars(m, ps + [x])) == Join("||", NameVars(m, ps)) + "||" + NameVar(m, x)
  {
    assert NameVars(m, ps + [x]) == NameVars(m, ps) + [NameVar(m, x)];
    JoinSnoc("||", NameVars(m, ps), NameVar(m, x));
  }

  /** `:param` arguments pass through unescaped, and any other text is quoted as a name. */
  lemma ConcatParams(m: Manager, p: string, q: string)
    requires OP.ParamSyntax(p) && !OP.ParamSyntax(q)
    ensures Join("||", NameVars(m, [Sc(Str(p)), Sc(Str(q))])) == p + "||" + NamePath(q)
  {
    ConcatSingle(m, Sc(Str(p)));
    ConcatAppend(m, [Sc(Str(p))], Sc(Str(q)));
    assert [Sc(Str(p))] + [Sc(Str(q))] == [Sc(Str(p)), Sc(Str(q))];
  }

  /** The result is SQL: escaping it again, as a value, a name or a nameVar, inserts its text verbatim. */
  lemma ConcatVerbatim(m: Manager, m': Manager, name: Php, names: seq<Php>)
    ensures var t := Join("||", NameVars(m, [name] + names));
      PdoManager.Value(m', Var(S(t))) == t && PdoManager.Name(m', Var(S(t))) == t && NameVar(m', Var(S(t))) == t
  {
    FactoriesTransparent(m', Sc(Null), Join("||", NameVars(m, [name] + names)));
  }
}
