/**
 * The SQL fragment builder of the SQLite manager (src/SQLiteManager/SQL.php)
 * with its `SQL_adds` operator and join helpers. A builder owns a text
 * buffer and the manager that escapes for it; every mutator appends to the
 * buffer and hands back the same builder, so calls can be chained.
 */
module Builder {
  import opened Text
  import opened SqliteQuote
  import opened Escape
  import opened Clauses

  /** Manager::JOINS, the join types that `join` accepts (compared upper-cased). */
  const Joins: seq<string> := ["INNER", "LEFT", "LEFT OUTER", "RIGHT", "RIGHT OUTER", "FULL", "FULL OUTER"]

  /** What the optional join type contributes: the type as given, when its upper-case form is listed. */
  function JoinTypePart(joinType: Option<string>): string
  {
    if joinType.Some? && Upper(joinType.value) in Joins then " " + joinType.value else ""
  }

  /**
   * The check is case-insensitive but the type is written as the caller
   * spelled it; an unknown type (CROSS, NATURAL, a typo) is dropped silently.
   */
  lemma JoinTypeChecked(t: string)
    ensures JoinTypePart(Some(t)) == (if Upper(t) in Joins then " " + t else "")
    ensures JoinTypePart(Some(t)) != "" <==> JoinTypePart(Some(Upper(t))) != ""
    ensures JoinTypePart(None) == ""
  {
    UpperIdempotent(t);
  }

  /** The six comparison helpers cond_greater … cond_greater_equal. */
  datatype Comparison = Greater | NotGreater | Less | NotLess | LessEqual | GreaterEqual

  /** The operator token each comparison writes: one or two symbols and no space. */
  function OpText(op: Comparison): (r: string)
    ensures 1 <= |r| <= 2 && ' ' !in r
    ensures r[0] in {'>', '<', '!'}
  {
    match op
    case Greater => ">"
    case NotGreater => "!>"
    case Less => "<"
    case NotLess => "!<"
    case LessEqual => "<="
    case GreaterEqual => ">="
  }

  /** Each comparison has its own token, so the written operator tells which helper was called. */
  lemma OpTextInjective(a: Comparison, b: Comparison)
    ensures OpText(a) == OpText(b) <==> a == b
  {
  }

  /** Where a LIKE pattern puts the '%' wildcard: after, before, or on both sides of the operand. */
  datatype Wildcard = Begins | Ends | Contains

  /** The `concat_` arguments of cond_begins, cond_ends and cond_contains. */
  function PatternArgs(w: Wildcard, v: Arg): (r: seq<Arg>)
    ensures v in r && Str("%") in r
    ensures w == Begins ==> r[0] == v
    ensures w != Begins ==> r[0] == Str("%")
    ensures w == Ends ==> r[|r| - 1] == v
    ensures w != Ends ==> r[|r| - 1] == Str("%")
  {
    match w
    case Begins => [v, Str("%")]
    case Ends => [Str("%"), v]
    case Contains => [Str("%"), v, Str("%")]
  }

  /** The pattern is the operand and the quoted '%' joined by `||`, with the wildcard on the right side or sides. */
  lemma PatternText(m: Manager, w: Wildcard, v: Arg)
    ensures ConcatSpec(m, PatternArgs(w, v)) ==
      match w
      case Begins => Value(m, v) + "||" + m.quoteVal("%")
      case Ends => m.quoteVal("%") + "||" + Value(m, v)
      case Contains => m.quoteVal("%") + "||" + Value(m, v) + "||" + m.quoteVal("%")
  {
    var args := PatternArgs(w, v);
    var p := Value(m, Str("%"));
    assert p == m.quoteVal("%");
    match w
    case Begins =>
      assert Escaped(m, Plain, args) == [Value(m, v), p];
      JoinSnoc("||", [Value(m, v)], p);
    case Ends =>
      assert Escaped(m, Plain, args) == [p, Value(m, v)];
      JoinSnoc("||", [p], Value(m, v));
    case Contains =>
      assert Escaped(m, Plain, args) == [p, Value(m, v), p];
      assert [p] + [Value(m, v)] == [p, Value(m, v)];
      assert [p, Value(m, v)] + [p] == [p, Value(m, v), p];
      JoinSnoc("||", [p], Value(m, v));
      JoinSnoc("||", [p, Value(m, v)], p);
  }

  class Sql {
    /** The text built so far. */
    var d: string
    /** The manager whose escapers the builder uses. */
    const man: Manager

    constructor(data: string, man: Manager)
      ensures d == data && this.man == man
    {
      d := data;
      this.man := man;
    }

    /** `__toString` */
    function ToString(): string
      reads this
    {
      d
    }

    /** `__clone`: a new builder with a copy of the text and the same manager. */
    method Clone() returns (c: Sql)
      ensures fresh(c) && c.ToString() == ToString() && c.man == man
    {
      c := new Sql(d, man);
    }

    /** `_parentheses(sql)`: appends the parenthesised text; the existing buffer is not wrapped. */
    method Parentheses(s: string) returns (self: Sql)
      modifies this
      ensures self == this && d == old(d) + "(" + s + ")"
    {
      d := d + "(" + s + ")";
      self := this;
    }

    /** `_(sql)`: appends a space and the text, even to an empty buffer. */
    method Add(s: string) returns (self: Sql)
      modifies this
      ensures self == this && d == old(d) + " " + s
    {
      d := d + " " + s;
      self := this;
    }

    /** `_comma(sql)`: appends a comma and the text, with no space. */
    method Comma(s: string) returns (self: Sql)
      modifies this
      ensures self == this && d == old(d) + "," + s
    {
      d := d + "," + s;
      self := this;
    }

    /** `_comma_value` */
    method CommaValue(v: Arg) returns (self: Sql)
      modifies this
      ensures self == this && d == old(d) + "," + Value(man, v)
    {
      self := Comma(Value(man, v));
    }

    /** `_comma_name` */
    method CommaName(n: Nm) returns (self: Sql)
      modifies this
      ensures self == this && d == old(d) + "," + NameText(man, n)
    {
      self := Comma(NameText(man, n));
    }

    /** `_as(alias)`: a space, AS, and the alias quoted with quoteName. */
    method As(alias: string) returns (self: Sql)
      modifies this
      ensures self == this && d == old(d) + " " + ("AS " + QuoteName(alias))
    {
      self := Add("AS " + QuoteName(alias));
    }

    /** `_concat(value)`: appends `||` and the escaped value. */
    method Concat(v: Arg) returns (self: Sql)
      modifies this
      ensures self == this && d == old(d) + "||" + Value(man, v)
    {
      d := d + "||" + Value(man, v);
      self := this;
    }

    /** `_value` */
    method AddValue(v: Arg) returns (self: Sql)
      modifies this
      ensures self == this && d == old(d) + " " + Value(man, v)
    {
      self := Add(Value(man, v));
    }

    /** `_values` */
    method AddValues(vals: ValueArg) returns (self: Sql)
      modifies this
      ensures self == this && d == old(d) + " " + ValuesSpec(man, Plain, vals)
    {
      var t := Values(man, Plain, vals);
      self := Add(t);
    }

    /** `_name` */
    method AddName(n: Nm) returns (self: Sql)
      modifies this
      ensures self == this && d == old(d) + " " + NameText(man, n)
    {
      self := Add(NameText(man, n));
    }

    /** `_names` */
    method AddNames(names: NameArg, alias: bool) returns (self: Sql)
      modifies this
      ensures self == this && d == old(d) + " " + NamesSpec(man, names, alias)
    {
      var t := Names(man, names, alias);
      self := Add(t);
    }

    /** `cond_is`: ` IS <value>`. */
    method CondIs(v: Arg) returns (self: Sql)
      modifies this
      ensures self == this && d == old(d) + " IS" + " " + Value(man, v)
    {
      var _ := Add("IS");
      self := AddValue(v);
    }

    /** `cond_is_not`: ` IS NOT <value>`. */
    method CondIsNot(v: Arg) returns (self: Sql)
      modifies this
      ensures self == this && d == old(d) + " IS NOT" + " " + Value(man, v)
    {
      var _ := Add("IS NOT");
      self := AddValue(v);
    }

    /** `cond_equal`: ` IS NULL` for null, otherwise ` = <value>`. */
    method CondEqual(v: Arg) returns (self: Sql)
      modifies this
      ensures self == this
      ensures v.Null? ==> d == old(d) + " IS" + " NULL"
      ensures !v.Null? ==> d == old(d) + " =" + " " + Value(man, v)
    {
      if v.Null? {
        self := CondIs(v);
      } else {
        var _ := Add("=");
        self := AddValue(v);
      }
    }

    /** `cond_diff`: ` IS NOT NULL` for null, otherwise ` <> <value>`. */
    method CondDiff(v: Arg) returns (self: Sql)
      modifies this
      ensures self == this
      ensures v.Null? ==> d == old(d) + " IS NOT" + " NULL"
      ensures !v.Null? ==> d == old(d) + " <>" + " " + Value(man, v)
    {
      if v.Null? {
        self := CondIsNot(v);
      } else {
        var _ := Add("<>");
        self := AddValue(v);
      }
    }

    /** cond_greater, cond_not_greater, cond_less, cond_not_less, cond_less_equal, cond_greater_equal. */
    method CondCompare(op: Comparison, v: Arg) returns (self: Sql)
      modifies this
      ensures self == this && d == old(d) + " " + OpText(op) + " " + Value(man, v)
    {
      var _ := Add(OpText(op));
      self := AddValue(v);
    }

    /** `cond_between` and `cond_not_between`: the two bounds in argument order. */
    method CondBetween(negated: bool, low: Arg, high: Arg) returns (self: Sql)
      modifies this
      ensures self == this
      ensures d == old(d) + " " + (if negated then "NOT BETWEEN" else "BETWEEN") + " " + Value(man, low)
                 + " AND" + " " + Value(man, high)
    {
      var _ := Add(if negated then "NOT BETWEEN" else "BETWEEN");
      var _ := AddValue(low);
      var _ := Add("AND");
      self := AddValue(high);
    }

    /** `cond_inlist` and `cond_not_inlist`: IN directly followed by the parenthesised value list. */
    method CondInlist(negated: bool, values: seq<Arg>) returns (self: Sql)
      modifies this
      ensures self == this
      ensures d == old(d) + " " + (if negated then "NOT IN" else "IN") + "(" + Text.Join(",", Escaped(man, Plain, values)) + ")"
    {
      var _ := Add(if negated then "NOT IN" else "IN");
      var t := Values(man, Plain, ValueList(values));
      self := Parentheses(t);
    }

    /** `cond_like` and `cond_not_like` */
    method CondLike(negated: bool, v: Arg) returns (self: Sql)
      modifies this
      ensures self == this
      ensures d == old(d) + " " + (if negated then "NOT LIKE" else "LIKE") + " " + Value(man, v)
    {
      var _ := Add(if negated then "NOT LIKE" else "LIKE");
      self := AddValue(v);
    }

    /** cond_begins, cond_ends, cond_contains and their NOT forms: LIKE with a `concat_` pattern. */
    method CondPattern(negated: bool, w: Wildcard, v: Arg) returns (self: Sql)
      modifies this
      ensures self == this
      ensures d == old(d) + " " + (if negated then "NOT LIKE" else "LIKE") + " " + ConcatSpec(man, PatternArgs(w, v))
    {
      var args := PatternArgs(w, v);
      var p := Clauses.Concat(man, args[0], args[1..]);
      assert [args[0]] + args[1..] == args;
      self := CondLike(negated, Sql(p));
    }

    /** `join`: the join type when it is listed, then JOIN and the aliased names. */
    method Join(names: NameArg, joinType: Option<string>) returns (self: Sql)
      modifies this
      ensures self == this
      ensures d == old(d) + JoinTypePart(joinType) + " JOIN" + " " + NamesSpec(man, names, true)
    {
      if joinType.Some? && Upper(joinType.value) in Joins { var _ := Add(joinType.value); }
      ghost var typed := d;
      assert typed == old(d) + JoinTypePart(joinType);
      var _ := Add("JOIN");
      assert d == typed + " JOIN";
      self := AddNames(names, true);
    }

    /** `natural_join`: NATURAL always comes first, then the checked join type and JOIN. */
    method NaturalJoin(names: NameArg, joinType: Option<string>) returns (self: Sql)
      modifies this
      ensures self == this
      ensures d == old(d) + " NATURAL" + JoinTypePart(joinType) + " JOIN" + " " + NamesSpec(man, names, true)
    {
      ghost var d0 := d;
      var _ := Add("NATURAL");
      assert d == d0 + " NATURAL" by {
        assert " " + "NATURAL" == " NATURAL";
        SeqAssoc(d0, " ", "NATURAL");
      }
      ghost var d1 := d;
      self := Join(names, joinType);
      assert d == d1 + JoinTypePart(joinType) + " JOIN" + " " + NamesSpec(man, names, true);
    }

    /** `join_on`: a join followed by ON and the `on_` conditions. */
    method JoinOn(names: NameArg, on: seq<(Key, Nm)>, joinType: Option<string>) returns (self: Sql)
      modifies this
      ensures self == this
      ensures d == old(d) + JoinTypePart(joinType) + " JOIN" + " " + NamesSpec(man, names, true)
                 + " ON" + " " + OnSpec(man, on)
    {
      var _ := Join(names, joinType);
      var _ := Add("ON");
      var t := On(man, on);
      self := Add(t);
    }

    /** `join_using`: a join followed by USING and the parenthesised, alias-free column list. */
    method JoinUsing(names: NameArg, using: NameArg, joinType: Option<string>) returns (self: Sql)
      modifies this
      ensures self == this
      ensures d == old(d) + JoinTypePart(joinType) + " JOIN" + " " + NamesSpec(man, names, true)
                 + " USING" + "(" + NamesSpec(man, using, false) + ")"
    {
      var _ := Join(names, joinType);
      ghost var joined := d;
      var _ := Add("USING");
      assert d == joined + " USING";
      var t := Names(man, using, false);
      self := Parentheses(t);
    }

    /** `cross_join`: CROSS JOIN and the names, with no join type. */
    method CrossJoin(names: NameArg) returns (self: Sql)
      modifies this
      ensures self == this && d == old(d) + " CROSS JOIN" + " " + NamesSpec(man, names, true)
    {
      var _ := Add("CROSS JOIN");
      self := AddNames(names, true);
    }
  }
}
