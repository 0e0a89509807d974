/**
 * `SQVar`, the tagged datum of the PDO manager: a value to escape as a
 * literal (type 0), a name to escape as an identifier (type 1) or SQL to
 * write verbatim (type 2). The constructor is private, so the three
 * factories are the only way to build one.
 */
module SqVar {
  import opened Text
  import opened Data

  const TYPE_VALUE: int := 0
  const TYPE_NAME: int := 1
  const TYPE_SQL: int := 2

  /**
   * A PHP value as the manager receives it: a scalar or null, an array (of
   * parts, for a dotted name), an object with `__toString` (by its text),
   * or an `SQVar`.
   */
  datatype Php = Sc(v: Scalar) | Arr(items: seq<Php>) | Obj(text: string) | Var(x: SQVar)

  /** The private fields `$d` and `$t`. */
  datatype SQVar = SQVar(d: Php, t: int)

  /** `strval` of a scalar: null and false give "", true gives "1". */
  function ScalarText(v: Scalar): string
  {
    match v
    case Null => ""
    case Bool(b) => if b then "1" else ""
    case Int(i) => IntText(i)
    case Float(t) => t
    case Str(s) => s
  }

  /** `strval`: an array gives "Array"; an SQVar has no `__toString`, so PHP throws and there is no text. */
  function Strval(p: Php): (r: Option<string>)
    ensures r.None? <==> p.Var?
  {
    match p
    case Sc(v) => Some(ScalarText(v))
    case Arr(_) => Some("Array")
    case Obj(t) => Some(t)
    case Var(_) => None
  }

  /** `SQVar::v`: a scalar or null is kept, anything else is replaced by its text. */
  function V(value: Php): (r: Option<SQVar>)
    ensures r.None? <==> value.Var?
    ensures r.Some? ==> GetType(r.value) == TYPE_VALUE && GetData(r.value).Sc?
    ensures value.Sc? ==> r == Some(SQVar(value, TYPE_VALUE))
    ensures value.Obj? ==> r == Some(SQVar(Sc(Str(value.text)), TYPE_VALUE))
  {
    if value.Sc? then Some(SQVar(value, TYPE_VALUE))
    else match Strval(value)
      case None => None
      case Some(s) => Some(SQVar(Sc(Str(s)), TYPE_VALUE))
  }

  /** `SQVar::n`: an array is kept for a dotted name, anything else is replaced by its text. */
  function N(name: Php): (r: Option<SQVar>)
    ensures r.None? <==> name.Var?
    ensures r.Some? ==> GetType(r.value) == TYPE_NAME && (GetData(r.value).Arr? || GetData(r.value).Sc?)
    ensures name.Arr? ==> r == Some(SQVar(name, TYPE_NAME))
    ensures name.Sc? ==> r == Some(SQVar(Sc(Str(ScalarText(name.v))), TYPE_NAME))
  {
    if name.Arr? then Some(SQVar(name, TYPE_NAME))
    else match Strval(name)
      case None => None
      case Some(s) => Some(SQVar(Sc(Str(s)), TYPE_NAME))
  }

  /** `SQVar::s` */
  function S(sql: string): (r: SQVar)
    ensures GetType(r) == TYPE_SQL && GetData(r) == Sc(Str(sql))
  {
    SQVar(Sc(Str(sql)), TYPE_SQL)
  }

  function GetType(x: SQVar): int { x.t }

  function GetData(x: SQVar): Php { x.d }

  /** What the factories can build: one of the three tags, with the data that tag's factory stores. */
  predicate Built(x: SQVar)
  {
    (x.t == TYPE_VALUE && x.d.Sc?) ||
    (x.t == TYPE_NAME && (x.d.Arr? || (x.d.Sc? && x.d.v.Str?))) ||
    (x.t == TYPE_SQL && x.d.Sc? && x.d.v.Str?)
  }

  /** Everything a factory returns is Built, and the getters return exactly what it stored. */
  lemma FactoriesBuild(p: Php, sql: string)
    ensures V(p).Some? ==> Built(V(p).value)
    ensures N(p).Some? ==> Built(N(p).value)
    ensures Built(S(sql)) && GetData(S(sql)) == Sc(Str(sql))
  {
  }

  /** Conversely, every Built value is what a factory returns given the stored data back. */
  lemma BuiltByFactory(x: SQVar)
    requires Built(x)
    ensures x.t == TYPE_VALUE ==> V(GetData(x)) == Some(x)
    ensures x.t == TYPE_NAME ==> N(GetData(x)) == Some(x)
    ensures x.t == TYPE_SQL ==> x == S(GetData(x).v.s)
    ensures x.t in {TYPE_VALUE, TYPE_NAME, TYPE_SQL}
  {
  }
}
