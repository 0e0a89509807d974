/**
 * The token builder of the MySQL manager (src/MySQLMan/ManagerBase.php):
 * an object holding a list of SQL tokens, which `add` pushes onto,
 * `clear` empties, `parenthesis` folds into one "(…)" token and `not`
 * prefixes with NOT; `__toString` joins the tokens with single spaces.
 */
module MySqlBuilder {
  import opened Text
  import opened Data
  import SqVar

  /**
   * A PHP value as the MySQL manager receives it: a scalar or null, a
   * builder of this class (by its tokens), an object with `__toString`
   * (by its text), or an array of key => value entries.
   */
  datatype Php = Sc(v: Scalar) | Self(tokens: seq<string>) | Obj(text: string) | Arr(entries: seq<(Key, Php)>)

  /** Any argument: a value as above, or an object without `__toString`, seen through `get_object_vars`. */
  datatype Mixed = Plain(p: Php) | Props(values: seq<Php>)

  /** `strval`: a builder gives its text, an array "Array". */
  function Strval(p: Php): string
  {
    match p
    case Sc(v) => SqVar.ScalarText(v)
    case Self(t) => Join(" ", t)
    case Obj(t) => t
    case Arr(_) => "Array"
  }

  /** The values of an array, in order. */
  function EntryValues(entries: seq<(Key, Php)>): (r: seq<Php>)
    ensures |r| == |entries| && forall i :: 0 <= i < |entries| ==> r[i] == entries[i].1
  {
    seq(|entries|, i requires 0 <= i < |entries| => entries[i].1)
  }

  /** `implode(sep, values)`: each value by its strval. */
  function Implode(sep: string, ps: seq<Php>): string
  {
    Join(sep, seq(|ps|, i requires 0 <= i < |ps| => Strval(ps[i])))
  }

  /** The text `add` turns an object, an array or a scalar into before it checks the length. */
  function AddText(x: Mixed): string
  {
    match x
    case Props(vs) => Implode(",", vs)
    case Plain(Arr(es)) => Implode(",", EntryValues(es))
    case Plain(p) => Strval(p)
  }

  /** A text as a token list: one token, or none for "". */
  function NonEmpty(s: string): (r: seq<string>)
    ensures r == [] <==> s == ""
    ensures r != [] ==> r == [s]
  {
    if |s| > 0 then [s] else []
  }

  /** What `add` pushes: nothing for "", NULL for null, TRUE/FALSE for a bool, otherwise the text if it is not empty. */
  function Piece(x: Mixed): (r: seq<string>)
    ensures |r| <= 1
  {
    match x
    case Plain(Sc(Str(""))) => []
    case Plain(Sc(Null)) => ["NULL"]
    case Plain(Sc(Bool(b))) => [if b then "TRUE" else "FALSE"]
    case _ => NonEmpty(AddText(x))
  }

  /** A builder's tokens are never empty. */
  predicate NoEmpty(tokens: seq<string>)
  {
    forall i :: 0 <= i < |tokens| ==> tokens[i] != ""
  }

  /** `__toString` */
  function Rendered(tokens: seq<string>): string
  {
    Join(" ", tokens)
  }

  /** The logical operators `_and`, `_or` and `_xor` add. */
  datatype LogicOp = And | Or | Xor

  function OpText(op: LogicOp): string
  {
    match op
    case And => "AND"
    case Or => "OR"
    case Xor => "XOR"
  }

  class Builder {
    var tokens: seq<string>

    /** `sql('')`: a builder with no tokens. */
    constructor()
      ensures tokens == []
    {
      tokens := [];
    }

    predicate Valid()
      reads this
    {
      NoEmpty(tokens)
    }

    /** `__toString` */
    function ToString(): string
      reads this
    {
      Rendered(tokens)
    }

    /** `add`: at most one new token, at the end. */
    method Add(x: Mixed)
      modifies this
      ensures tokens == old(tokens) + Piece(x)
      ensures old(Valid()) ==> Valid()
    {
      PieceNotEmpty(x);
      match x
      case Plain(Sc(Str(""))) =>
        assert Piece(x) == [];
      case Plain(Sc(Null)) =>
        tokens := tokens + ["NULL"];
      case Plain(Sc(Bool(b))) =>
        tokens := tokens + [if b then "TRUE" else "FALSE"];
      case _ =>
        var s := AddText(x);
        if |s| > 0 {
          tokens := tokens + [s];
        }
    }

    /** `clear` */
    method Clear()
      modifies this
      ensures tokens == []
    {
      tokens := [];
    }

    /** `parenthesis`: the whole text in parentheses, as the only token. */
    method Parenthesis()
      modifies this
      ensures tokens == ["(" + old(ToString()) + ")"]
      ensures Valid()
    {
      var s := "(" + ToString() + ")";
      Clear();
      Add(Plain(Sc(Str(s))));
    }

    /** `not`: parenthesise, then put NOT in front. */
    method Not()
      modifies this
      ensures tokens == ["NOT", "(" + old(ToString()) + ")"]
      ensures Valid()
    {
      Parenthesis();
      tokens := ["NOT"] + tokens;
    }

    /**
     * `_and`, `_or`, `_xor`: the operator, then the SQL unless it is null
     * (which is also what an omitted argument is).
     */
    method Logic(op: LogicOp, sql: Mixed)
      modifies this
      ensures tokens == old(tokens) + [OpText(op)] + (if sql == Plain(Sc(Null)) then [] else Piece(sql))
      ensures old(Valid()) ==> Valid()
    {
      Add(Plain(Sc(Str(OpText(op)))));
      if sql != Plain(Sc(Null)) {
        Add(sql);
      }
    }
  }

  /** `add` never pushes an empty token, so a builder only ever holds non-empty tokens. */
  lemma PieceNotEmpty(x: Mixed)
    ensures NoEmpty(Piece(x))
  {
  }

  /** The empty string and an empty builder add nothing; null and the booleans add their keyword. */
  lemma PieceShapes(t: seq<string>, s: string, i: int)
    ensures Piece(Plain(Sc(Str("")))) == [] && Piece(Plain(Self([]))) == []
    ensures Piece(Plain(Sc(Null))) == ["NULL"]
    ensures Piece(Plain(Sc(Bool(true)))) == ["TRUE"] && Piece(Plain(Sc(Bool(false)))) == ["FALSE"]
    ensures Piece(Plain(Sc(Int(i)))) == [IntText(i)]
    ensures s != "" ==> Piece(Plain(Sc(Str(s)))) == [s]
    ensures t != [] && NoEmpty(t) ==> Piece(Plain(Self(t))) == [Rendered(t)]
  {
    JoinSmall(" ", "");
    if t != [] && NoEmpty(t) {
      TextEmptyIff(t);
    }
  }

  /** An array is added as one token: its values' texts joined by ",". */
  lemma PieceArray(a: Php, b: Php)
    requires Strval(a) != ""
    ensures Piece(Plain(Arr([(IntKey(0), a), (IntKey(1), b)]))) == [Strval(a) + "," + Strval(b)]
  {
    var ps := EntryValues([(IntKey(0), a), (IntKey(1), b)]);
    assert ps == [a, b];
    var texts := seq(|ps|, i requires 0 <= i < |ps| => Strval(ps[i]));
    assert texts == [Strval(a), Strval(b)];
    assert texts[1..] == [Strval(b)];
    JoinSmall(",", Strval(b));
    assert Join(",", texts) == texts[0] + "," + Join(",", texts[1..]);
    assert Implode(",", ps) == Join(",", texts);
    assert AddText(Plain(Arr([(IntKey(0), a), (IntKey(1), b)]))) == Implode(",", ps);
  }

  /** The text of a token list with no empty token is empty exactly when the list is. */
  lemma {:induction false} TextEmptyIff(t: seq<string>)
    requires NoEmpty(t)
    ensures Rendered(t) == "" <==> t == []
    ensures t != [] ==> |Rendered(t)| >= |t[0]|
  {
    if |t| >= 2 {
      assert NoEmpty(t[1..]) by {
        forall i | 0 <= i < |t[1..]| ensures t[1..][i] != "" { assert t[1..][i] == t[i + 1]; }
      }
      assert Rendered(t) == t[0] + " " + Rendered(t[1..]);
    }
  }

  /** After an add, the text gains one space and the new token, or nothing. */
  lemma TextPush(t: seq<string>, x: Mixed)
    ensures Rendered(t + Piece(x)) ==
      if Piece(x) == [] then Rendered(t) else if t == [] then Piece(x)[0] else Rendered(t) + " " + Piece(x)[0]
  {
    if Piece(x) == [] {
      assert t + Piece(x) == t;
    } else {
      assert Piece(x) == [Piece(x)[0]];
      JoinSnoc(" ", t, Piece(x)[0]);
    }
  }

  /** `not` writes NOT, one space and the parenthesised text. */
  lemma NotText(t: seq<string>)
    ensures Rendered(["NOT", "(" + Rendered(t) + ")"]) == "NOT (" + Rendered(t) + ")"
  {
    JoinSnoc(" ", ["NOT"], "(" + Rendered(t) + ")");
    assert ["NOT"] + ["(" + Rendered(t) + ")"] == ["NOT", "(" + Rendered(t) + ")"];
  }
}
