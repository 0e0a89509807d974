/**
 * Column type affinity (`typeColumnAffinity`), the same in every generation
 * of the manager: the declared type is upper-cased, an exact affinity name is
 * kept, and otherwise the first key of the ordered substring table that
 * occurs in it decides.
 */
module Affinity {
  import opened Text

  const Integer := "INTEGER"
  const Real := "REAL"
  const TextType := "TEXT"
  const Blob := "BLOB"
  const Numeric := "NUMERIC"

  /** Manager::TYPES, the five affinities. */
  const Types: seq<string> := [Integer, Real, TextType, Blob, Numeric]

  /** Manager::TYPES_AFFINITY: substring => affinity, tried in this order. */
  const TypesAffinity: seq<(string, string)> :=
    [("INT", Integer), ("CHAR", TextType), ("CLOB", TextType), ("TEXT", TextType),
     ("BLOB", Blob), ("REAL", Real), ("FLOA", Real), ("DOUB", Real)]

  /** The affinity of the first table entry whose key occurs in t, if any. */
  function FirstMatch(t: string, table: seq<(string, string)>): (r: Option<string>)
    ensures r.Some? ==> exists k :: 0 <= k < |table| && table[k].1 == r.value && Contains(t, table[k].0)
  {
    if table == [] then None
    else if Contains(t, table[0].0) then Some(table[0].1)
    else FirstMatch(t, table[1..])
  }

  /** Manager::typeColumnAffinity: total, and always one of the five affinities. */
  function TypeColumnAffinity(declared: string): (r: string)
    ensures r in Types
  {
    if declared == "" then Blob
    else
      var t := Upper(declared);
      if t in Types then t
      else match FirstMatch(t, TypesAffinity)
        case Some(a) => a
        case None => Numeric
  }

  /**
   * Section 3.1 of SQLite's "Datatypes In SQLite" (Determination Of Column
   * Affinity), rules 1 to 5 in order, on the case-folded declared type.
   */
  function DocumentedAffinity(declared: string): string
  {
    var t := Upper(declared);
    if Contains(t, "INT") then Integer
    else if Contains(t, "CHAR") || Contains(t, "CLOB") || Contains(t, "TEXT") then TextType
    else if Contains(t, "BLOB") || declared == "" then Blob
    else if Contains(t, "REAL") || Contains(t, "FLOA") || Contains(t, "DOUB") then Real
    else Numeric
  }

  /** Every character of a contained text occurs in the containing text. */
  lemma {:induction false} ContainsChars(s: string, t: string, c: char)
    requires Contains(s, t) && c in t
    ensures c in s
    decreases |s|
  {
    if IsPrefix(t, s) {
      var k :| 0 <= k < |t| && t[k] == c;
      assert s[k] == c;
    } else {
      ContainsChars(s[1..], t, c);
    }
  }

  /** A text that lacks some character of t does not contain t. */
  lemma Lacks(s: string, t: string, c: char)
    requires c in t && c !in s
    ensures !Contains(s, t)
  {
    if Contains(s, t) { ContainsChars(s, t, c); }
  }

  /*
   * The exact-name facts are proved on a symbolic text that has the
   * characters of the name, so that the solver never unfolds Contains on
   * two literal strings.
   */
  lemma RealShape(t: string)
    requires 'I' !in t && 'C' !in t && 'T' !in t && 'B' !in t && Contains(t, "REAL")
    ensures !Contains(t, "INT") && !Contains(t, "CHAR") && !Contains(t, "CLOB")
    ensures !Contains(t, "TEXT") && !Contains(t, "BLOB")
  {
    Lacks(t, "INT", 'I'); Lacks(t, "CHAR", 'C'); Lacks(t, "CLOB", 'C');
    Lacks(t, "TEXT", 'T'); Lacks(t, "BLOB", 'B');
  }

  lemma TextShape(t: string)
    requires 'I' !in t && 'C' !in t && Contains(t, "TEXT")
    ensures !Contains(t, "INT") && !Contains(t, "CHAR") && !Contains(t, "CLOB")
  {
    Lacks(t, "INT", 'I'); Lacks(t, "CHAR", 'C'); Lacks(t, "CLOB", 'C');
  }

  lemma BlobShape(t: string)
    requires 'I' !in t && 'C' !in t && 'T' !in t && Contains(t, "BLOB")
    ensures !Contains(t, "INT") && !Contains(t, "CHAR") && !Contains(t, "CLOB") && !Contains(t, "TEXT")
  {
    Lacks(t, "INT", 'I'); Lacks(t, "CHAR", 'C'); Lacks(t, "CLOB", 'C'); Lacks(t, "TEXT", 'T');
  }

  lemma NoKeyShape(t: string)
    requires 'T' !in t && 'H' !in t && 'L' !in t && 'B' !in t && 'A' !in t && 'F' !in t && 'D' !in t
    ensures !Contains(t, "INT") && !Contains(t, "CHAR") && !Contains(t, "CLOB") && !Contains(t, "TEXT")
    ensures !Contains(t, "BLOB") && !Contains(t, "REAL") && !Contains(t, "FLOA") && !Contains(t, "DOUB")
  {
    Lacks(t, "INT", 'T'); Lacks(t, "CHAR", 'H'); Lacks(t, "CLOB", 'L'); Lacks(t, "TEXT", 'T');
    Lacks(t, "BLOB", 'B'); Lacks(t, "REAL", 'A'); Lacks(t, "FLOA", 'F'); Lacks(t, "DOUB", 'D');
  }

  /** Each exact affinity name already gets itself from the documented rules. */
  lemma ExactInteger() ensures RuleChain("INTEGER") == "INTEGER"
  {
    assert IsPrefix("INT", "INTEGER");
  }

  lemma ExactReal() ensures RuleChain("REAL") == "REAL"
  {
    assert IsPrefix("REAL", "REAL");
    RealShape("REAL");
  }

  lemma ExactText() ensures RuleChain("TEXT") == "TEXT"
  {
    assert IsPrefix("TEXT", "TEXT");
    TextShape("TEXT");
  }

  lemma ExactBlob() ensures RuleChain("BLOB") == "BLOB"
  {
    assert IsPrefix("BLOB", "BLOB");
    BlobShape("BLOB");
  }

  lemma ExactNumeric() ensures RuleChain("NUMERIC") == "NUMERIC"
  {
    NoKeyShape("NUMERIC");
  }

  /** The documented rules 1, 2, 4 and 5 for a non-empty, upper-cased declared type. */
  function RuleChain(t: string): string
  {
    if Contains(t, "INT") then Integer
    else if Contains(t, "CHAR") || Contains(t, "CLOB") || Contains(t, "TEXT") then TextType
    else if Contains(t, "BLOB") then Blob
    else if Contains(t, "REAL") || Contains(t, "FLOA") || Contains(t, "DOUB") then Real
    else Numeric
  }

  /** Walking the substring table in order is the documented rule chain. */
  lemma TableIsRuleChain(t: string)
    ensures (match FirstMatch(t, TypesAffinity) case Some(a) => a case None => Numeric) == RuleChain(t)
  {
    var t1 := [("CHAR", TextType), ("CLOB", TextType), ("TEXT", TextType), ("BLOB", Blob), ("REAL", Real), ("FLOA", Real), ("DOUB", Real)];
    var t2 := [("CLOB", TextType), ("TEXT", TextType), ("BLOB", Blob), ("REAL", Real), ("FLOA", Real), ("DOUB", Real)];
    var t3 := [("TEXT", TextType), ("BLOB", Blob), ("REAL", Real), ("FLOA", Real), ("DOUB", Real)];
    var t4 := [("BLOB", Blob), ("REAL", Real), ("FLOA", Real), ("DOUB", Real)];
    var t5 := [("REAL", Real), ("FLOA", Real), ("DOUB", Real)];
    var t6 := [("FLOA", Real), ("DOUB", Real)];
    var t7 := [("DOUB", Real)];
    assert TypesAffinity[1..] == t1 && t1[1..] == t2 && t2[1..] == t3 && t3[1..] == t4;
    assert t4[1..] == t5 && t5[1..] == t6 && t6[1..] == t7 && t7[1..] == [];
    assert FirstMatch(t, TypesAffinity) == if Contains(t, "INT") then Some(Integer) else FirstMatch(t, t1);
    assert FirstMatch(t, t1) == if Contains(t, "CHAR") then Some(TextType) else FirstMatch(t, t2);
    assert FirstMatch(t, t2) == if Contains(t, "CLOB") then Some(TextType) else FirstMatch(t, t3);
    assert FirstMatch(t, t3) == if Contains(t, "TEXT") then Some(TextType) else FirstMatch(t, t4);
    assert FirstMatch(t, t4) == if Contains(t, "BLOB") then Some(Blob) else FirstMatch(t, t5);
    assert FirstMatch(t, t5) == if Contains(t, "REAL") then Some(Real) else FirstMatch(t, t6);
    assert FirstMatch(t, t6) == if Contains(t, "FLOA") then Some(Real) else FirstMatch(t, t7);
    assert FirstMatch(t, t7) == if Contains(t, "DOUB") then Some(Real) else None;
  }

  /** For an exact affinity name the exact-name step and the rule chain agree. */
  lemma ExactBranch(t: string)
    requires t in Types
    ensures RuleChain(t) == t
  {
    if t == "INTEGER" { ExactInteger(); }
    else if t == "REAL" { ExactReal(); }
    else if t == "TEXT" { ExactText(); }
    else if t == "BLOB" { ExactBlob(); }
    else { ExactNumeric(); }
  }

  /**
   * The resolver agrees with SQLite's documented rules on every declared
   * type: the exact-name step never changes the outcome, and the table order
   * is the rule order.
   */
  lemma AffinityFollowsDocumentedRules(declared: string)
    ensures TypeColumnAffinity(declared) == DocumentedAffinity(declared)
  {
    if declared != "" {
      var t := Upper(declared);
      assert DocumentedAffinity(declared) == RuleChain(t);
      if t in Types {
        ExactBranch(t);
      } else {
        TableIsRuleChain(t);
      }
    }
  }

  /** Rule 1 comes first: any declared type mentioning INT is INTEGER, such as "FLOATING POINT". */
  lemma IntWins(declared: string)
    requires Contains(Upper(declared), "INT")
    ensures TypeColumnAffinity(declared) == Integer
  {
    AffinityFollowsDocumentedRules(declared);
  }

  /** Rule 5: a non-empty declared type with no table key is NUMERIC, such as "DECIMAL(10,2)". */
  lemma NoKeyIsNumeric(declared: string)
    requires declared != ""
    requires forall k :: 0 <= k < |TypesAffinity| ==> !Contains(Upper(declared), TypesAffinity[k].0)
    ensures TypeColumnAffinity(declared) == Numeric
  {
    var t := Upper(declared);
    assert !Contains(t, TypesAffinity[0].0) && !Contains(t, TypesAffinity[1].0);
    assert !Contains(t, TypesAffinity[2].0) && !Contains(t, TypesAffinity[3].0);
    assert !Contains(t, TypesAffinity[4].0) && !Contains(t, TypesAffinity[5].0);
    assert !Contains(t, TypesAffinity[6].0) && !Contains(t, TypesAffinity[7].0);
    AffinityFollowsDocumentedRules(declared);
  }

  /** Case is ignored: a lower-case exact name is an exact name; an empty declared type is BLOB. */
  lemma LowerCaseExactName()
    ensures TypeColumnAffinity("integer") == Integer && TypeColumnAffinity("") == Blob
  {
    assert Upper("integer") == "INTEGER";
  }
}
