/**
 * The clause builders of the MySQL manager (src/MySQLMan/ManagerBase.php):
 * `sets` for UPDATE … SET, `where` and `on` for conditions, `orderby`, and
 * `case_when`, each giving the token list of the builder it returns.
 */
module MySqlClauses {
  import opened Text
  import opened Data
  import opened MySqlBuilder
  import opened MySqlEscape

  /** The text of each token list. */
  function Renders(items: seq<seq<string>>): (r: seq<string>)
    ensures |r| == |items| && forall i :: 0 <= i < |items| ==> r[i] == Rendered(items[i])
  {
    seq(|items|, i requires 0 <= i < |items| => Rendered(items[i]))
  }

  /** What `add` of a builder pushes: its text as one token, or nothing. */
  lemma PieceSelf(t: seq<string>)
    ensures Piece(Plain(Self(t))) == NonEmpty(Rendered(t))
  {
  }

  /** A single token renders as itself. */
  lemma RenderedOne(s: string)
    ensures Rendered([s]) == s
  {
  }

  /** A token in front adds itself and one space. */
  lemma RenderedCons(a: string, t: seq<string>)
    requires t != []
    ensures Rendered([a] + t) == a + " " + Rendered(t)
  {
    assert ([a] + t)[1..] == t;
  }

  lemma RenderedThree(a: string, b: string, c: string)
    ensures Rendered([a, b, c]) == a + " " + b + " " + c
  {
    RenderedCons(b, [c]);
    assert [b] + [c] == [b, c];
    RenderedCons(a, [b, c]);
    assert [a] + [b, c] == [a, b, c];
  }

  /** A plain column name without alias is one token, its escaped text. */
  lemma NameOne(s: string)
    ensures NameTokens(Sc(Str(s)), Sc(Null)) == [EscapeNameText(s)]
    ensures Piece(Plain(Self(NameTokens(Sc(Str(s)), Sc(Null))))) == [EscapeNameText(s)]
    ensures Rendered(NameTokens(Sc(Str(s)), Sc(Null))) == EscapeNameText(s)
  {
    EscapeNameTextNonEmpty(s);
    var n := EscapeNameText(s);
    assert EscapeName(Sc(Str(s))) == [n];
    RenderedOne(n);
  }

  /** `add_value` of a value: its escaped text as one token. */
  function ValuePiece(m: Manager, v: Php): seq<string>
  {
    Piece(Plain(Self(ValueTokens(m, Plain(v), Sc(Null), false))))
  }

  /** `add_value`: the value's builder added to res. */
  method AddValue(res: Builder, m: Manager, v: Php)
    modifies res
    ensures res.tokens == old(res.tokens) + ValuePiece(m, v)
  {
    res.Add(Plain(Self(ValueTokens(m, Plain(v), Sc(Null), false))));
  }

  /** A value whose escaped text is not empty is added as that one token. */
  lemma ValueOne(m: Manager, v: Php)
    requires EscapeValue(m, Plain(v), false) != ""
    ensures ValuePiece(m, v) == [EscapeValue(m, Plain(v), false)]
  {
    var e := EscapeValue(m, Plain(v), false);
    assert ValueTokens(m, Plain(v), Sc(Null), false) == [e];
    RenderedOne(e);
  }

  // ------------------------------------------------------- chained conditions

  /**
   * The builder `where` and `on` fold their conditions into: the first
   * condition, then for each further one the operator and that condition,
   * each condition added as its text.
   */
  function Chain(op: LogicOp, items: seq<seq<string>>): seq<string>
    requires |items| >= 1
  {
    if |items| == 1 then NonEmpty(Rendered(items[0]))
    else Chain(op, items[..|items| - 1]) + [OpText(op)] + NonEmpty(Rendered(items[|items| - 1]))
  }

  /** One condition is returned as it is; several are chained and put in parentheses. */
  function Combined(op: LogicOp, items: seq<seq<string>>): seq<string>
    requires |items| >= 1
  {
    if |items| == 1 then items[0] else ["(" + Rendered(Chain(op, items)) + ")"]
  }

  /** The array_shift loop of `where` and `on`, on a builder. */
  method Combine(op: LogicOp, items: seq<seq<string>>) returns (r: seq<string>)
    requires |items| >= 1
    ensures r == Combined(op, items)
  {
    if |items| == 1 {
      return items[0];
    }
    var sql := new Builder();
    ChainFirst(op, items);
    sql.Add(Plain(Self(items[0])));
    var j := 1;
    while j < |items|
      invariant 1 <= j <= |items|
      invariant sql.tokens == Chain(op, items[..j])
    {
      ChainGrow(op, items, j);
      sql.Logic(op, Plain(Self(items[j])));
      j := j + 1;
    }
    ChainWhole(op, items, j);
    sql.Parenthesis();
    r := sql.tokens;
  }

  /** After the loop the chain holds every condition, and in parentheses it is the combined condition. */
  lemma ChainWhole(op: LogicOp, items: seq<seq<string>>, j: nat)
    requires 2 <= j == |items|
    ensures ["(" + Rendered(Chain(op, items[..j])) + ")"] == Combined(op, items)
  {
    assert items[..j] == items;
  }

  /** The first condition starts the chain. */
  lemma ChainFirst(op: LogicOp, items: seq<seq<string>>)
    requires |items| >= 1
    ensures [] + Piece(Plain(Self(items[0]))) == Chain(op, items[..1])
  {
    assert items[..1] == [items[0]];
    PieceSelf(items[0]);
  }

  /** One turn of the loop: the operator and the next condition's text extend the chain. */
  lemma ChainGrow(op: LogicOp, items: seq<seq<string>>, j: nat)
    requires 1 <= j < |items|
    ensures Chain(op, items[..j]) + [OpText(op)] + Piece(Plain(Self(items[j]))) == Chain(op, items[..j + 1])
  {
    assert items[..j + 1][..j] == items[..j];
    PieceSelf(items[j]);
  }

  /** The texts of all but the last list, then the last one's. */
  lemma RendersInit(items: seq<seq<string>>)
    requires |items| >= 1
    ensures Renders(items) == Renders(items[..|items| - 1]) + [Rendered(items[|items| - 1])]
  {
  }

  /** Adding an operator and a condition to a non-empty builder adds both after single spaces. */
  lemma ChainStep(a: seq<string>, op: string, last: string)
    requires a != []
    ensures Rendered(a + [op] + [last]) == Rendered(a) + " " + op + " " + last
  {
    JoinSnoc(" ", a, op);
    JoinSnoc(" ", a + [op], last);
  }

  /** Conditions whose texts are not empty are written one after another, separated by the operator in spaces. */
  lemma {:induction false} ChainText(op: LogicOp, items: seq<seq<string>>)
    requires |items| >= 1 && forall i :: 0 <= i < |items| ==> Rendered(items[i]) != ""
    ensures Rendered(Chain(op, items)) == Join(" " + OpText(op) + " ", Renders(items))
    ensures Chain(op, items) != []
  {
    var sep := " " + OpText(op) + " ";
    if |items| == 1 {
      assert Renders(items) == [Rendered(items[0])];
    } else {
      var init := items[..|items| - 1];
      var last := Rendered(items[|items| - 1]);
      assert forall i :: 0 <= i < |init| ==> Rendered(init[i]) != "" by {
        forall i | 0 <= i < |init| ensures Rendered(init[i]) != "" { assert init[i] == items[i]; }
      }
      ChainText(op, init);
      var a := Chain(op, init);
      var x := Rendered(a);
      ChainStep(a, OpText(op), last);
      assert Chain(op, items) == a + [OpText(op)] + [last];
      RendersInit(items);
      JoinSnoc(sep, Renders(init), last);
      SepAssoc(x, OpText(op), last);
    }
  }

  lemma SepAssoc(x: string, op: string, last: string)
    ensures x + " " + op + " " + last == x + (" " + op + " ") + last
  {
  }

  /** Several non-empty conditions give "(c1 OP c2 OP …)". */
  lemma CombinedText(op: LogicOp, items: seq<seq<string>>)
    requires |items| >= 2 && forall i :: 0 <= i < |items| ==> Rendered(items[i]) != ""
    ensures Rendered(Combined(op, items)) == "(" + Join(" " + OpText(op) + " ", Renders(items)) + ")"
  {
    ChainText(op, items);
  }

  /** `cond_equal`: IS NULL for null, otherwise `=` and the escaped value. */
  function CondEqual(m: Manager, val: Php): seq<string>
  {
    if val == Sc(Null) then ["IS NULL"] else ["="] + ValuePiece(m, val)
  }

  // -------------------------------------------------------------------- where

  /** One entry of a `where` array: a builder under an integer key as it is, a string key compared with its value, anything else as SQL. */
  function WhereItem(m: Manager, e: (Key, Php)): seq<string>
  {
    if e.1.Self? && e.0.IntKey? then e.1.tokens
    else if e.0.StrKey? then NameTokens(Sc(Str(e.0.s)), Sc(Null)) + CondEqual(m, e.1)
    else Piece(Plain(e.1))
  }

  function WhereItems(m: Manager, es: seq<(Key, Php)>): (r: seq<seq<string>>)
    ensures |r| == |es| && forall i :: 0 <= i < |es| ==> r[i] == WhereItem(m, es[i])
  {
    seq(|es|, i requires 0 <= i < |es| => WhereItem(m, es[i]))
  }

  /** What `where` returns: a non-array as a value, TRUE for an empty array, otherwise its conditions combined with op. */
  function WhereSpec(m: Manager, vars: Mixed, op: LogicOp): seq<string>
  {
    if !(vars.Plain? && vars.p.Arr?) then ValueTokens(m, vars, Sc(Null), false)
    else if |vars.p.entries| == 0 then ["TRUE"]
    else Combined(op, WhereItems(m, vars.p.entries))
  }

  /** `where` (and `where_AND`, `where_OR`, `where_XOR`) */
  method Where(m: Manager, vars: Mixed, op: LogicOp) returns (r: seq<string>)
    ensures r == WhereSpec(m, vars, op)
  {
    if !(vars.Plain? && vars.p.Arr?) {
      return ValueTokens(m, vars, Sc(Null), false);
    }
    var es := vars.p.entries;
    if |es| == 0 {
      return ["TRUE"];
    }
    var items: seq<seq<string>> := [];
    var i := 0;
    while i < |es|
      invariant 0 <= i <= |es|
      invariant items == WhereItems(m, es[..i])
    {
      assert es[..i + 1] == es[..i] + [es[i]];
      items := items + [WhereItem(m, es[i])];
      i := i + 1;
    }
    assert es[..i] == es;
    r := Combine(op, items);
  }

  /** A string key is compared with `IS NULL` to null and with `=` to any other value. */
  lemma WhereEquality(m: Manager, k: string, v: Php)
    requires EscapeValue(m, Plain(v), false) != ""
    ensures Rendered(WhereItem(m, (StrKey(k), Sc(Null)))) == EscapeNameText(k) + " IS NULL"
    ensures v != Sc(Null) ==> Rendered(WhereItem(m, (StrKey(k), v))) == EscapeNameText(k) + " = " + EscapeValue(m, Plain(v), false)
  {
    var n := EscapeNameText(k);
    NameOne(k);
    RenderedCons(n, ["IS NULL"]);
    RenderedOne("IS NULL");
    assert [n] + ["IS NULL"] == WhereItem(m, (StrKey(k), Sc(Null)));
    WhereLiterals();
    SeqAssoc(n, " ", "IS NULL");
    if v != Sc(Null) {
      var e := EscapeValue(m, Plain(v), false);
      ValueOne(m, v);
      assert WhereItem(m, (StrKey(k), v)) == [n, "=", e];
      RenderedThree(n, "=", e);
      SpacedWord(n, "=", " = ", e);
    }
  }

  /** The comparison words of a `where` entry, with their spaces. */
  lemma WhereLiterals()
    ensures " " + "IS NULL" == " IS NULL"
    ensures " " + "=" + " " == " = "
  {
  }

  /** A word between single spaces. */
  lemma SpacedWord(n: string, w: string, sw: string, e: string)
    requires sw == " " + w + " "
    ensures n + " " + w + " " + e == n + sw + e
  {
    SeqAssoc(n, " ", w);
    SeqAssoc(n, " " + w, " ");
  }

  /** Several conditions whose texts are not empty are joined with the operator inside parentheses. */
  lemma WhereText(m: Manager, es: seq<(Key, Php)>, op: LogicOp)
    requires |es| >= 2 && forall i :: 0 <= i < |es| ==> Rendered(WhereItem(m, es[i])) != ""
    ensures Rendered(WhereSpec(m, Plain(Arr(es)), op)) == "(" + Join(" " + OpText(op) + " ", Renders(WhereItems(m, es))) + ")"
  {
    CombinedText(op, WhereItems(m, es));
  }

  /** A builder under an integer key is used as the condition itself; an empty array is TRUE. */
  lemma WhereBuilder(m: Manager, t: seq<string>, op: LogicOp)
    ensures WhereSpec(m, Plain(Arr([(IntKey(0), Self(t))])), op) == t
    ensures WhereSpec(m, Plain(Arr([])), op) == ["TRUE"]
  {
    assert WhereItems(m, [(IntKey(0), Self(t))]) == [t];
  }

  // ----------------------------------------------------------------------- on

  /** One entry of an `on` array: like `where`, but a string key is compared with the value as a column name. */
  function OnItem(m: Manager, e: (Key, Php)): seq<string>
  {
    if e.1.Self? && e.0.IntKey? then e.1.tokens
    else if e.0.StrKey? then NameTokens(Sc(Str(e.0.s)), Sc(Null)) + CondEqual(m, Self(NameTokens(e.1, Sc(Null))))
    else Piece(Plain(e.1))
  }

  function OnItems(m: Manager, es: seq<(Key, Php)>): (r: seq<seq<string>>)
    ensures |r| == |es| && forall i :: 0 <= i < |es| ==> r[i] == OnItem(m, es[i])
  {
    seq(|es|, i requires 0 <= i < |es| => OnItem(m, es[i]))
  }

  /** What `on` returns: a non-array as a value, TRUE for an empty array, otherwise its conditions joined with AND. */
  function OnSpec(m: Manager, on: Mixed): seq<string>
  {
    if !(on.Plain? && on.p.Arr?) then ValueTokens(m, on, Sc(Null), false)
    else if |on.p.entries| == 0 then ["TRUE"]
    else Combined(And, OnItems(m, on.p.entries))
  }

  /** `on` */
  method On(m: Manager, on: Mixed) returns (r: seq<string>)
    ensures r == OnSpec(m, on)
  {
    if !(on.Plain? && on.p.Arr?) {
      return ValueTokens(m, on, Sc(Null), false);
    }
    var es := on.p.entries;
    if |es| == 0 {
      return ["TRUE"];
    }
    var items: seq<seq<string>> := [];
    var i := 0;
    while i < |es|
      invariant 0 <= i <= |es|
      invariant items == OnItems(m, es[..i])
    {
      assert es[..i + 1] == es[..i] + [es[i]];
      items := items + [OnItem(m, es[i])];
      i := i + 1;
    }
    assert es[..i] == es;
    r := Combine(And, items);
  }

  /** In `on`, a string key and its string value are both escaped as column names. */
  lemma OnColumns(m: Manager, a: string, b: string)
    ensures Rendered(OnItem(m, (StrKey(a), Sc(Str(b))))) == EscapeNameText(a) + " = " + EscapeNameText(b)
  {
    var n := EscapeNameText(a);
    var c := EscapeNameText(b);
    NameOne(a);
    NameOne(b);
    assert EscapeValue(m, Plain(Self([c])), false) == c by { RenderedOne(c); }
    ValueOne(m, Self([c]));
    OnItemThree(m, a, b);
    RenderedThree(n, "=", c);
    WhereLiterals();
    SpacedWord(n, "=", " = ", c);
  }

  lemma OnItemThree(m: Manager, a: string, b: string)
    requires NameTokens(Sc(Str(a)), Sc(Null)) == [EscapeNameText(a)]
    requires NameTokens(Sc(Str(b)), Sc(Null)) == [EscapeNameText(b)]
    requires EscapeValue(m, Plain(Self([EscapeNameText(b)])), false) == EscapeNameText(b)
    ensures OnItem(m, (StrKey(a), Sc(Str(b)))) == [EscapeNameText(a), "=", EscapeNameText(b)]
  {
    var n := EscapeNameText(a);
    var c := EscapeNameText(b);
    ValueOne(m, Self([c]));
    assert OnItem(m, (StrKey(a), Sc(Str(b)))) == [n] + ["="] + [c];
    assert [n] + ["="] + [c] == [n, "=", c];
  }

  /** Several `on` conditions whose texts are not empty are joined with AND inside parentheses. */
  lemma OnText(m: Manager, es: seq<(Key, Php)>)
    requires |es| >= 2 && forall i :: 0 <= i < |es| ==> Rendered(OnItem(m, es[i])) != ""
    ensures Rendered(OnSpec(m, Plain(Arr(es)))) == "(" + Join(" AND ", Renders(OnItems(m, es))) + ")"
  {
    CombinedText(And, OnItems(m, es));
    assert " " + OpText(And) + " " == " AND ";
  }

  // --------------------------------------------------------------------- sets

  /** One entry of a `sets` array: a builder under an integer key as it is, otherwise `name = value`. */
  function SetItem(m: Manager, e: (Key, Php)): seq<string>
  {
    if e.1.Self? && e.0.IntKey? then e.1.tokens
    else NameTokens(KeyPhp(e.0), Sc(Null)) + ["="] + ValuePiece(m, e.1)
  }

  function SetItems(m: Manager, es: seq<(Key, Php)>): (r: seq<seq<string>>)
    ensures |r| == |es| && forall i :: 0 <= i < |es| ==> r[i] == SetItem(m, es[i])
  {
    seq(|es|, i requires 0 <= i < |es| => SetItem(m, es[i]))
  }

  /** What `sets` returns: nothing for no entries, one assignment as it is, several joined by ",". */
  function SetsSpec(m: Manager, es: seq<(Key, Php)>): seq<string>
  {
    if |es| == 0 then []
    else if |es| == 1 then SetItem(m, es[0])
    else NonEmpty(Join(",", Renders(SetItems(m, es))))
  }

  /** `sets` */
  method Sets(m: Manager, es: seq<(Key, Php)>) returns (r: seq<string>)
    ensures r == SetsSpec(m, es)
  {
    if |es| == 0 {
      return [];
    }
    var sets: seq<seq<string>> := [];
    var i := 0;
    while i < |es|
      invariant 0 <= i <= |es|
      invariant sets == SetItems(m, es[..i])
    {
      assert es[..i + 1] == es[..i] + [es[i]];
      sets := sets + [SetItem(m, es[i])];
      i := i + 1;
    }
    assert es[..i] == es;
    if |sets| == 1 {
      return sets[0];
    }
    r := NonEmpty(Join(",", Renders(sets)));
  }

  /** Unlike `where`, `sets` writes null as `= NULL`, never `IS NULL`. */
  lemma SetsNull(m: Manager, k: string)
    ensures Rendered(SetsSpec(m, [(StrKey(k), Sc(Null))])) == EscapeNameText(k) + " = NULL"
  {
    var e := (StrKey(k), Sc(Null));
    assert EscapeValue(m, Plain(Sc(Null)), false) == "NULL";
    SetOne(m, k, Sc(Null));
    assert SetsSpec(m, [e]) == SetItem(m, e);
    assert " = " + "NULL" == " = NULL";
    SeqAssoc(EscapeNameText(k), " = ", "NULL");
  }

  /** A string key and a value are written `name = value`. */
  lemma SetOne(m: Manager, k: string, v: Php)
    requires EscapeValue(m, Plain(v), false) != ""
    ensures Rendered(SetItem(m, (StrKey(k), v))) == EscapeNameText(k) + " = " + EscapeValue(m, Plain(v), false)
  {
    var n := EscapeNameText(k);
    var e := EscapeValue(m, Plain(v), false);
    NameOne(k);
    ValueOne(m, v);
    assert SetItem(m, (StrKey(k), v)) == [n] + ["="] + [e];
    assert [n] + ["="] + [e] == [n, "=", e];
    RenderedThree(n, "=", e);
    WhereLiterals();
    SpacedWord(n, "=", " = ", e);
  }

  /** Each further assignment is appended after one ",", with no space. */
  lemma SetsAppend(m: Manager, es: seq<(Key, Php)>, e: (Key, Php))
    requires |es| >= 1
    ensures Rendered(SetsSpec(m, es + [e])) == Rendered(SetsSpec(m, es)) + "," + Rendered(SetItem(m, e))
  {
    var ts := Renders(SetItems(m, es));
    var t := Rendered(SetItem(m, e));
    assert Renders(SetItems(m, es + [e])) == ts + [t] by {
      assert SetItems(m, es + [e]) == SetItems(m, es) + [SetItem(m, e)];
    }
    JoinSnoc(",", ts, t);
    var j := Join(",", ts + [t]);
    assert j != "" by { assert |j| >= |Join(",", ts)| + 1; }
    RenderedOne(j);
    if |es| >= 2 {
      var js := Join(",", ts);
      assert js == ts[0] + "," + Join(",", ts[1..]);
      RenderedOne(js);
    } else {
      assert ts == [Rendered(SetItem(m, es[0]))];
    }
  }

  // ------------------------------------------------------------------ orderby

  /** A sort direction is kept when it is ASC or DESC in any letter case. */
  predicate IsDirection(t: Php)
  {
    Upper(Strval(t)) == "ASC" || Upper(Strval(t)) == "DESC"
  }

  /** `orderby` of a column: the name, then the direction as given if it is one. */
  function OrderTerm(col: Php, dir: Php): seq<string>
  {
    Piece(Plain(Self(NameTokens(col, Sc(Null))))) + (if IsDirection(dir) then Piece(Plain(dir)) else [])
  }

  /**
   * `orderby`: a builder as it is; an array entry by entry, joined by ",";
   * anything else a column with the given direction.
   */
  function OrderBy(ob: Php, dir: Php): seq<string>
    decreases ob, 2
  {
    match ob
    case Self(t) => Piece(Plain(ob))
    case Arr(es) => NonEmpty(Join(",", OrderEntries(es, dir)))
    case _ => OrderTerm(ob, dir)
  }

  /** The texts of an orderby array's entries, in order. */
  function OrderEntries(es: seq<(Key, Php)>, dir: Php): (r: seq<string>)
    ensures |r| == |es| && forall i :: 0 <= i < |es| ==> r[i] == OrderEntry(es[i], dir)
    decreases Arr(es), 1
  {
    seq(|es|, i requires 0 <= i < |es| => OrderEntry(es[i], dir))
  }

  /**
   * One entry of an orderby array: a string key is the column and its value
   * the direction (the recursive call reaches the column case at once);
   * any other entry is sorted by the outer direction.
   */
  function OrderEntry(e: (Key, Php), dir: Php): string
    decreases e, 0
  {
    if e.0.StrKey? then Rendered(OrderTerm(Sc(Str(e.0.s)), e.1)) else Rendered(OrderBy(e.1, dir))
  }

  /** A direction is written as given, in its own letter case. */
  lemma OrderByDirection(c: string)
    ensures Rendered(OrderBy(Sc(Str(c)), Sc(Str("desc")))) == EscapeNameText(c) + " desc"
  {
    DirectionWords();
    OrderTermDir(c, "desc");
    assert OrderBy(Sc(Str(c)), Sc(Str("desc"))) == OrderTerm(Sc(Str(c)), Sc(Str("desc")));
    SpaceWord(EscapeNameText(c), "desc", " desc");
  }

  /** The direction words and their upper case. */
  lemma DirectionWords()
    ensures Upper("desc") == "DESC" && Upper("ASC") == "ASC" && Upper("up") == "UP"
    ensures "UP" != "ASC" && "UP" != "DESC"
    ensures " " + "desc" == " desc" && " " + "ASC" == " ASC"
  {
  }

  /** A column and a direction word: the escaped name, then the word as given. */
  lemma OrderTermDir(c: string, d: string)
    requires IsDirection(Sc(Str(d)))
    ensures OrderTerm(Sc(Str(c)), Sc(Str(d))) == [EscapeNameText(c), d]
    ensures Rendered(OrderTerm(Sc(Str(c)), Sc(Str(d)))) == EscapeNameText(c) + " " + d
  {
    var n := EscapeNameText(c);
    NameOne(c);
    assert d != "" by { assert Upper(d) != ""; }
    assert Piece(Plain(Sc(Str(d)))) == [d];
    assert [n] + [d] == [n, d];
    JoinSnoc(" ", [n], d);
  }

  /** One space and a word after a text. */
  lemma SpaceWord(n: string, w: string, sw: string)
    requires sw == " " + w
    ensures n + " " + w == n + sw
  {
    SeqAssoc(n, " ", w);
  }

  /** Anything but ASC or DESC as the direction is dropped. */
  lemma OrderByNoDirection(c: string)
    ensures Rendered(OrderBy(Sc(Str(c)), Sc(Str("up")))) == EscapeNameText(c)
    ensures Rendered(OrderBy(Sc(Str(c)), Sc(Null))) == EscapeNameText(c)
  {
    var n := EscapeNameText(c);
    NameOne(c);
    DirectionWords();
    RenderedOne(n);
  }

  /** Each further array entry is appended after one ",". */
  lemma OrderByAppend(es: seq<(Key, Php)>, e: (Key, Php), dir: Php)
    requires |es| >= 1
    ensures Rendered(OrderBy(Arr(es + [e]), dir)) == Rendered(OrderBy(Arr(es), dir)) + "," + OrderEntry(e, dir)
  {
    var ts := OrderEntries(es, dir);
    var t := OrderEntry(e, dir);
    OrderEntriesSnoc(es, e, dir);
    JoinSnoc(",", ts, t);
    RenderedNonEmpty(Join(",", ts + [t]));
    RenderedNonEmpty(Join(",", ts));
  }

  lemma OrderEntriesSnoc(es: seq<(Key, Php)>, e: (Key, Php), dir: Php)
    ensures OrderEntries(es + [e], dir) == OrderEntries(es, dir) + [OrderEntry(e, dir)]
  {
  }

  /** A text as a token list renders back to the text, empty or not. */
  lemma RenderedNonEmpty(s: string)
    ensures Rendered(NonEmpty(s)) == s
  {
  }

  /** A string key sorts that column by its value; an integer key sorts its value by the outer direction. */
  lemma OrderEntryKeys(a: string, b: string, i: int, dir: Php)
    ensures OrderEntry((StrKey(a), Sc(Str("ASC"))), dir) == EscapeNameText(a) + " ASC"
    ensures OrderEntry((IntKey(i), Sc(Str(b))), dir) == Rendered(OrderBy(Sc(Str(b)), dir))
  {
    DirectionWords();
    OrderTermDir(a, "ASC");
    SpaceWord(EscapeNameText(a), "ASC", " ASC");
  }

  // ---------------------------------------------------------------- case_when

  /** One `WHEN condition THEN value`: the key is added as SQL, the value escaped. */
  function WhenPart(m: Manager, e: (Key, Php)): seq<string>
  {
    ["WHEN"] + Piece(Plain(KeyPhp(e.0))) + ["THEN"] + ValuePiece(m, e.1)
  }

  function WhenParts(m: Manager, es: seq<(Key, Php)>): seq<string>
  {
    if es == [] then [] else WhenParts(m, es[..|es| - 1]) + WhenPart(m, es[|es| - 1])
  }

  /** The subject after CASE, left out when it is `true`. */
  function SubjectPart(m: Manager, subject: Php): seq<string>
  {
    if subject != Sc(Bool(true)) then ValuePiece(m, subject) else []
  }

  /** The ELSE part, left out when the default is null. */
  function ElsePart(m: Manager, default: Php): seq<string>
  {
    if default != Sc(Null) then ["ELSE"] + ValuePiece(m, default) else []
  }

  /** What `case_when` returns: NULL with no conditions, otherwise CASE, the subject unless it is `true`, the WHEN parts, ELSE unless the default is null, END. */
  function CaseWhenSpec(m: Manager, subject: Php, whens: seq<(Key, Php)>, default: Php): seq<string>
  {
    if |whens| == 0 then ValueTokens(m, Plain(Sc(Null)), Sc(Null), false)
    else ["CASE"] + SubjectPart(m, subject) + WhenParts(m, whens) + ElsePart(m, default) + ["END"]
  }

  /** `case_when`, on a builder. */
  method CaseWhen(m: Manager, subject: Php, whens: seq<(Key, Php)>, default: Php) returns (r: seq<string>)
    ensures r == CaseWhenSpec(m, subject, whens, default)
  {
    if |whens| == 0 {
      return ValueTokens(m, Plain(Sc(Null)), Sc(Null), false);
    }
    var res := new Builder();
    AddWord(res, "CASE");
    if subject != Sc(Bool(true)) {
      AddValue(res, m, subject);
    } else {
      assert res.tokens == ["CASE"] + [];
    }
    ghost var head := res.tokens;
    assert head == ["CASE"] + SubjectPart(m, subject);
    AddWhens(res, m, whens);
    ghost var body := res.tokens;
    if default != Sc(Null) {
      AddWord(res, "ELSE");
      AddValue(res, m, default);
      SeqAssoc(body, ["ELSE"], ValuePiece(m, default));
    } else {
      assert res.tokens == body + [];
    }
    assert res.tokens == body + ElsePart(m, default);
    AddWord(res, "END");
    r := res.tokens;
  }

  /** A keyword of `case_when`, added as one token. */
  method AddWord(res: Builder, w: string)
    requires w != ""
    modifies res
    ensures res.tokens == old(res.tokens) + [w]
  {
    PieceShapes([], w, 0);
    res.Add(Plain(Sc(Str(w))));
  }

  /** The foreach of `case_when`: each WHEN … THEN … in order. */
  method AddWhens(res: Builder, m: Manager, whens: seq<(Key, Php)>)
    modifies res
    ensures res.tokens == old(res.tokens) + WhenParts(m, whens)
  {
    var i := 0;
    while i < |whens|
      invariant 0 <= i <= |whens|
      invariant res.tokens == old(res.tokens) + WhenParts(m, whens[..i])
    {
      assert WhenParts(m, whens[..i + 1]) == WhenParts(m, whens[..i]) + WhenPart(m, whens[i]) by {
        assert whens[..i + 1][..i] == whens[..i];
      }
      SeqAssoc(old(res.tokens), WhenParts(m, whens[..i]), WhenPart(m, whens[i]));
      AddWhen(res, m, whens[i]);
      i := i + 1;
    }
    assert whens[..i] == whens;
  }

  /** One WHEN … THEN … on the builder. */
  method AddWhen(res: Builder, m: Manager, e: (Key, Php))
    modifies res
    ensures res.tokens == old(res.tokens) + WhenPart(m, e)
  {
    ghost var t0 := res.tokens;
    ghost var k := Piece(Plain(KeyPhp(e.0)));
    ghost var v := ValuePiece(m, e.1);
    AddWord(res, "WHEN");
    res.Add(Plain(KeyPhp(e.0)));
    AddWord(res, "THEN");
    AddValue(res, m, e.1);
    SeqAssoc(t0, ["WHEN"], k);
    SeqAssoc(t0, ["WHEN"] + k, ["THEN"]);
    SeqAssoc(t0, ["WHEN"] + k + ["THEN"], v);
  }

  /** With no conditions the result is NULL; otherwise it is bracketed by CASE and END. */
  lemma CaseWhenShape(m: Manager, subject: Php, whens: seq<(Key, Php)>, default: Php)
    ensures |whens| == 0 ==> CaseWhenSpec(m, subject, whens, default) == ["NULL"]
    ensures |whens| > 0 ==> var r := CaseWhenSpec(m, subject, whens, default); r[0] == "CASE" && r[|r| - 1] == "END"
  {
  }

  /** One condition with a non-empty text and an integer value. */
  lemma WhenPartsOne(m: Manager, c: string, i: int)
    requires c != ""
    ensures WhenParts(m, [(StrKey(c), Sc(Int(i)))]) == ["WHEN", c, "THEN", IntText(i)]
  {
    var w := [(StrKey(c), Sc(Int(i)))];
    ValueOne(m, Sc(Int(i)));
    assert w[..0] == [];
    assert Piece(Plain(KeyPhp(StrKey(c)))) == [c];
  }

  /** With no subject and no default, the WHEN parts stand alone between CASE and END. */
  lemma CaseWhenBare(m: Manager, whens: seq<(Key, Php)>)
    requires |whens| > 0
    ensures CaseWhenSpec(m, Sc(Bool(true)), whens, Sc(Null)) == ["CASE"] + WhenParts(m, whens) + ["END"]
  {
    assert SubjectPart(m, Sc(Bool(true))) == [] && ElsePart(m, Sc(Null)) == [];
    assert ["CASE"] + [] == ["CASE"];
    assert ["CASE"] + WhenParts(m, whens) + [] == ["CASE"] + WhenParts(m, whens);
  }

  /** One condition with no subject and no default: `CASE WHEN c THEN v END`. */
  lemma CaseWhenOne(m: Manager, c: string, i: int)
    requires c != ""
    ensures Rendered(CaseWhenSpec(m, Sc(Bool(true)), [(StrKey(c), Sc(Int(i)))], Sc(Null))) ==
      "CASE WHEN " + c + " THEN " + IntText(i) + " END"
  {
    var v := IntText(i);
    WhenPartsOne(m, c, i);
    CaseWhenBare(m, [(StrKey(c), Sc(Int(i)))]);
    var t := ["CASE"] + ["WHEN", c, "THEN", v] + ["END"];
    assert t == ["CASE"] + (["WHEN"] + ([c] + ["THEN", v, "END"]));
    RenderedThree("THEN", v, "END");
    RenderedCons(c, ["THEN", v, "END"]);
    RenderedCons("WHEN", [c] + ["THEN", v, "END"]);
    RenderedCons("CASE", ["WHEN"] + ([c] + ["THEN", v, "END"]));
    CaseText(c, v);
  }

  lemma CaseLiterals()
    ensures "CASE" + " " + "WHEN" + " " == "CASE WHEN "
    ensures " " + "THEN" + " " == " THEN "
    ensures " " + "END" == " END"
  {
  }

  /** The spaced tokens of a one-condition CASE, as one text. */
  lemma CaseText(c: string, v: string)
    ensures "CASE" + " " + ("WHEN" + " " + (c + " " + ("THEN" + " " + v + " " + "END"))) ==
      "CASE WHEN " + c + " THEN " + v + " END"
  {
    CaseLiterals();
    var tail := v + " " + "END";
    assert "THEN" + " " + v + " " + "END" == "THEN" + " " + tail;
    assert c + " " + ("THEN" + " " + tail) == c + " THEN " + tail;
    assert "CASE" + " " + ("WHEN" + " " + (c + " THEN " + tail)) == "CASE WHEN " + (c + " THEN " + tail);
    assert v + " " + "END" == v + " END";
    assert "CASE WHEN " + (c + " THEN " + (v + " END")) == "CASE WHEN " + c + " THEN " + v + " END";
  }
}
