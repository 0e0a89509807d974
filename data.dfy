/**
 * The tagged data of the SQLite manager base (`Data` and its four
 * subclasses): a datum says how the manager must escape it. The
 * constructor is protected, so the four factories are the only way to
 * build one, and each builds exactly one kind.
 */
module Data {
  import opened Text

  /** A PHP scalar or null, as a `Value` datum may hold it. */
  datatype Scalar =
    | Null
    | Bool(b: bool)
    | Int(i: int)
    | Float(text: string)   // the text PHP's strval gives the float
    | Str(s: string)

  /** `SQL` (written verbatim), `Binary` (escaped as a blob), `Value` (escaped as a literal), `Name` (escaped as a name). */
  datatype Data = Sql(text: string) | Binary(bytes: string) | Value(v: Scalar) | Name(n: string)

  /** `data()`: the stored datum. */
  function Payload(d: Data): Scalar
  {
    match d
    case Sql(t) => Str(t)
    case Binary(s) => Str(s)
    case Value(v) => v
    case Name(n) => Str(n)
  }

  /** `Data::bin` */
  function Bin(s: string): (r: Data)
    ensures r.Binary? && Payload(r) == Str(s)
  {
    Binary(s)
  }

  /** `Data::val` */
  function Val(v: Scalar): (r: Data)
    ensures r.Value? && Payload(r) == v
  {
    Value(v)
  }

  /** `Data::name` */
  function NameOf(n: string): (r: Data)
    ensures r.Name? && Payload(r) == Str(n)
  {
    Name(n)
  }

  /** `Data::sql` */
  function SqlOf(t: string): (r: Data)
    ensures r.Sql? && Payload(r) == Str(t)
  {
    Sql(t)
  }

  /** Every datum is what one of the factories built from its own payload. */
  lemma FactoriesCover(d: Data)
    ensures d.Sql? ==> d == SqlOf(d.text)
    ensures d.Binary? ==> d == Bin(d.bytes)
    ensures d.Value? ==> d == Val(Payload(d))
    ensures d.Name? ==> d == NameOf(d.n)
  {
  }
}
