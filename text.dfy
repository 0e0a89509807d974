/**
 * The PHP string built-ins that the SQL builders rely on, over `string`
 * (a PHP string is a byte string; a `char` below 256 stands for one byte).
 */
module Text {

  datatype Option<T> = None | Some(value: T)

  /** A PHP array key: arrays are ordered maps from int or string keys. */
  datatype Key = IntKey(i: int) | StrKey(s: string)

  /** `implode(sep, parts)` */
  function Join(sep: string, parts: seq<string>): string
  {
    if |parts| == 0 then ""
    else if |parts| == 1 then parts[0]
    else parts[0] + sep + Join(sep, parts[1..])
  }

  /** Appending one more piece to an implode adds exactly one separator. */
  lemma {:induction false} JoinSnoc(sep: string, parts: seq<string>, x: string)
    ensures Join(sep, parts + [x]) == if parts == [] then x else Join(sep, parts) + sep + x
  {
    if |parts| >= 2 {
      assert (parts + [x])[1..] == parts[1..] + [x];
      JoinSnoc(sep, parts[1..], x);
    } else if |parts| == 1 {
      assert (parts + [x])[1..] == [x];
    }
  }

  /** One step of a loop that builds an implode: the first piece starts the text, the others add sep and the piece. */
  lemma JoinStep(sep: string, parts: seq<string>, i: nat, r: string)
    requires i < |parts| && r == Join(sep, parts[..i])
    ensures Join(sep, parts[..i + 1]) == if i == 0 then parts[i] else r + sep + parts[i]
  {
    assert parts[..i + 1] == parts[..i] + [parts[i]];
    JoinSnoc(sep, parts[..i], parts[i]);
  }

  /** The same step behind a fixed leading text. */
  lemma JoinExtend(head: string, sep: string, parts: seq<string>, i: nat, r: string)
    requires i < |parts| && r == head + Join(sep, parts[..i])
    ensures head + Join(sep, parts[..i + 1]) == if i == 0 then r + parts[i] else r + sep + parts[i]
  {
    var j := Join(sep, parts[..i]);
    JoinStep(sep, parts, i, j);
    if i == 0 {
      assert j == "" by { assert parts[..0] == []; }
      assert r == head;
    } else {
      assert head + (j + sep + parts[i]) == head + j + sep + parts[i];
    }
  }

  /** JoinExtend for a loop that has already appended the piece. */
  lemma JoinExtended(head: string, sep: string, parts: seq<string>, i: nat, r0: string, r: string)
    requires i < |parts| && r0 == head + Join(sep, parts[..i])
    requires r == if i == 0 then r0 + parts[i] else r0 + sep + parts[i]
    ensures r == head + Join(sep, parts[..i + 1])
  {
    JoinExtend(head, sep, parts, i, r0);
  }

  /** With no separator, the step is plain concatenation behind the fixed leading text. */
  lemma ConcatExtend(head: string, parts: seq<string>, i: nat, r: string)
    requires i < |parts| && r == head + Join("", parts[..i])
    ensures head + Join("", parts[..i + 1]) == r + parts[i]
  {
    var j := Join("", parts[..i]);
    JoinStep("", parts, i, j);
    if i == 0 {
      assert j == "" by { assert parts[..0] == []; }
      assert r == head;
    } else {
      assert j + "" + parts[i] == j + parts[i];
      SeqAssoc(head, j, parts[i]);
    }
  }

  /** implode of the empty array is "" and of one piece is that piece. */
  lemma JoinSmall(sep: string, x: string)
    ensures Join(sep, []) == "" && Join(sep, [x]) == x
  {
  }

  /** `str_replace(c, c.c, s)`: every occurrence of c doubled. */
  function Double(s: string, c: char): (r: string)
    ensures |r| >= |s|
  {
    if s == [] then []
    else (if s[0] == c then [c, c] else [s[0]]) + Double(s[1..], c)
  }

  /** `str_replace(c.c, c, s)`: left-to-right, non-overlapping. */
  function Undouble(s: string, c: char): (r: string)
    ensures |r| <= |s|
  {
    if |s| >= 2 && s[0] == c && s[1] == c then [c] + Undouble(s[2..], c)
    else if s == [] then []
    else [s[0]] + Undouble(s[1..], c)
  }

  /** Undoubling is the inverse of doubling. */
  lemma {:induction false} UndoubleDouble(s: string, c: char)
    ensures Undouble(Double(s, c), c) == s
  {
    if s != [] {
      UndoubleDouble(s[1..], c);
      if s[0] == c {
        assert ([c, c] + Double(s[1..], c))[2..] == Double(s[1..], c);
      } else {
        assert ([s[0]] + Double(s[1..], c))[1..] == Double(s[1..], c);
      }
    }
  }

  /** A string without c is left alone by doubling and by undoubling. */
  lemma {:induction false} DoubleFree(s: string, c: char)
    requires c !in s
    ensures Double(s, c) == s && Undouble(s, c) == s
  {
    if s != [] {
      assert c !in s[1..] by { assert forall k | 0 <= k < |s[1..]| :: s[1..][k] == s[k + 1]; }
      DoubleFree(s[1..], c);
    }
  }

  /** `str_replace(c, '', s)`: every occurrence of c deleted. */
  function Strip(s: string, c: char): (r: string)
    ensures |r| <= |s|
  {
    if s == [] then []
    else (if s[0] == c then [] else [s[0]]) + Strip(s[1..], c)
  }

  /** Deleting c leaves no c, keeps every other character, and changes nothing if c is absent. */
  lemma {:induction false} StripSpec(s: string, c: char)
    ensures c !in Strip(s, c)
    ensures forall x :: x != c ==> (x in Strip(s, c) <==> x in s)
    ensures c !in s ==> Strip(s, c) == s
  {
    if s != [] {
      StripSpec(s[1..], c);
      assert s == [s[0]] + s[1..];
    }
  }

  /** ASCII `strtoupper` of one character. */
  function UpperChar(ch: char): (r: char)
  {
    if 'a' <= ch <= 'z' then (ch as int - 'a' as int + 'A' as int) as char else ch
  }

  /** `strtoupper` (ASCII only, as in PHP 8). */
  function Upper(s: string): (r: string)
    ensures |r| == |s|
    ensures forall k :: 0 <= k < |s| ==> r[k] == UpperChar(s[k])
  {
    if s == [] then [] else [UpperChar(s[0])] + Upper(s[1..])
  }

  /** Upper-casing twice is upper-casing once. */
  lemma UpperIdempotent(s: string)
    ensures Upper(Upper(s)) == Upper(s)
  {
  }

  /** Text with no lower-case letter is its own upper case. */
  lemma UpperKeeps(s: string)
    requires forall ch :: ch in s ==> !('a' <= ch <= 'z')
    ensures Upper(s) == s
  {
    forall k | 0 <= k < |s|
      ensures Upper(s)[k] == s[k]
    {
      assert s[k] in s;
    }
  }

  /** `str_starts_with(s, p)` */
  predicate IsPrefix(p: string, s: string)
  {
    |p| <= |s| && s[..|p|] == p
  }

  /** s ends with p. */
  predicate IsSuffix(p: string, s: string)
  {
    |p| <= |s| && s[|s| - |p|..] == p
  }

  /** Concatenation regroups freely. */
  lemma Assoc(a: string, b: string, c: string)
    ensures a + (b + c) == a + b + c
  {
  }

  /** The same for any sequence; stated once so that a proof can name the regrouping it needs. */
  lemma SeqAssoc<T>(a: seq<T>, b: seq<T>, c: seq<T>)
    ensures a + b + c == a + (b + c)
  {
  }

  /** A text ends with whatever was appended last. */
  lemma AppendSuffix(a: string, b: string)
    ensures IsSuffix(b, a + b)
  {
    assert (a + b)[|a|..] == b;
  }

  /** `strpos(s, t) !== false` */
  predicate Contains(s: string, t: string)
    decreases |s|
  {
    IsPrefix(t, s) || (|s| > 0 && Contains(s[1..], t))
  }

  /** Decimal digit string of a natural number. */
  function Digits(n: nat): (r: string)
    ensures |r| >= 1
    ensures forall ch :: ch in r ==> '0' <= ch <= '9'
    decreases n
  {
    if n < 10 then [('0' as int + n) as char]
    else Digits(n / 10) + [('0' as int + n % 10) as char]
  }

  /** `strval` of a PHP int: optional minus sign and decimal digits. */
  function IntText(i: int): (r: string)
    ensures |r| >= 1
    ensures forall ch :: ch in r ==> ch == '-' || '0' <= ch <= '9'
  {
    if i < 0 then "-" + Digits(-i) else Digits(i)
  }

  /** The text a PHP array key becomes when it is used as a string. */
  function KeyText(k: Key): string
  {
    match k
    case IntKey(i) => IntText(i)
    case StrKey(s) => s
  }

  /** PCRE `\w` without the /u flag: ASCII letters, digits and underscore. */
  predicate IsWordChar(ch: char)
  {
    'a' <= ch <= 'z' || 'A' <= ch <= 'Z' || '0' <= ch <= '9' || ch == '_'
  }

  /** PCRE `[0-9a-fA-F]` */
  predicate IsHexDigit(ch: char)
  {
    '0' <= ch <= '9' || 'a' <= ch <= 'f' || 'A' <= ch <= 'F'
  }

  /** A PHP string: every character is one byte. */
  predicate IsBytes(s: string)
  {
    forall k :: 0 <= k < |s| ==> s[k] as int < 256
  }
}
