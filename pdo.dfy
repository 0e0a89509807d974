/**
 * The PDO driver of the SQLite manager base (src/SQLiteManPDO.php): the
 * one concrete `quoteVal`, which turns text holding a NUL byte into an
 * SQLite BLOB literal `x'…'` of two lower-case hex digits per byte, and
 * `columnIndex`, the search for a result column by name.
 */
module Pdo {
  import opened Text
  import opened PhpCompare
  import MB = ManagerBase
  import Data

  /** The connection's `quote`, left uninterpreted. */
  datatype Conn = Conn(quote: string -> string)

  /** `bin2hex` digit: 0-9 then a-f. */
  function HexDigit(n: int): (r: char)
    requires 0 <= n < 16
    ensures '0' <= r <= '9' || 'a' <= r <= 'f'
  {
    if n < 10 then ('0' as int + n) as char else ('a' as int + n - 10) as char
  }

  /** The value of one hex digit, either case. */
  function HexValue(ch: char): (n: int)
    ensures 0 <= n < 16
  {
    if '0' <= ch <= '9' then ch as int - '0' as int
    else if 'a' <= ch <= 'f' then ch as int - 'a' as int + 10
    else if 'A' <= ch <= 'F' then ch as int - 'A' as int + 10
    else 0
  }

  /** `bin2hex`: each byte as two lower-case hex digits, high nibble first. */
  function Bin2Hex(s: string): (r: string)
    ensures |r| == 2 * |s|
    ensures forall k :: 0 <= k < |r| ==> '0' <= r[k] <= '9' || 'a' <= r[k] <= 'f'
  {
    if s == [] then []
    else
      var b := s[0] as int % 256;
      [HexDigit(b / 16), HexDigit(b % 16)] + Bin2Hex(s[1..])
  }

  /** Reading hex digits back two at a time: the reference decoder for bin2hex. */
  function HexDecode(h: string): (r: string)
    ensures |r| == |h| / 2
  {
    if |h| < 2 then [] else [(HexValue(h[0]) * 16 + HexValue(h[1])) as char] + HexDecode(h[2..])
  }

  lemma DigitValue(n: int)
    requires 0 <= n < 16
    ensures HexValue(HexDigit(n)) == n
  {
  }

  /** The hex text decodes back to the bytes it came from. */
  lemma {:induction false} HexRoundTrip(s: string)
    requires IsBytes(s)
    ensures HexDecode(Bin2Hex(s)) == s
  {
    if s != [] {
      var b := s[0] as int % 256;
      assert b == s[0] as int;
      DigitValue(b / 16);
      DigitValue(b % 16);
      var h := Bin2Hex(s);
      assert h[2..] == Bin2Hex(s[1..]);
      assert IsBytes(s[1..]) by {
        forall k | 0 <= k < |s[1..]| ensures s[1..][k] as int < 256 { assert s[1..][k] == s[k + 1]; }
      }
      HexRoundTrip(s[1..]);
      assert s == [s[0]] + s[1..];
    }
  }

  /** `quoteVal`: text with a NUL becomes `x` and the quoted hex of its bytes; any other text is quoted as it is. */
  function QuoteVal(c: Conn, s: string): string
  {
    if '\0' in s then "x" + c.quote(Bin2Hex(s)) else c.quote(s)
  }

  /** SQLite's own quoting, as PDO's SQLite driver applies it: single quotes, inner quotes doubled. */
  function SqlQuote(s: string): (r: string)
    ensures |r| >= 2 && r[0] == '\'' && r[|r| - 1] == '\''
  {
    "'" + Double(s, '\'') + "'"
  }

  /** Hex digits never need quoting. */
  lemma HexQuoted(s: string)
    ensures SqlQuote(Bin2Hex(s)) == "'" + Bin2Hex(s) + "'"
  {
    var h := Bin2Hex(s);
    assert '\'' !in h by {
      forall k | 0 <= k < |h| ensures h[k] != '\'' { }
    }
    DoubleFree(h, '\'');
  }

  /** With SQLite's quoting, text holding a NUL becomes the BLOB literal `x'<hex>'`. */
  lemma QuoteValHex(s: string)
    requires '\0' in s
    ensures QuoteVal(Conn(SqlQuote), s) == "x'" + Bin2Hex(s) + "'"
  {
    HexQuoted(s);
  }

  /** The hex branch is taken if and only if the text holds a NUL: only then does the result start with `x`. */
  lemma QuoteValHexIff(s: string)
    ensures IsPrefix("x", QuoteVal(Conn(SqlQuote), s)) <==> '\0' in s
  {
    var r := QuoteVal(Conn(SqlQuote), s);
    if '\0' in s {
      QuoteValHex(s);
      assert r[..1] == "x";
    } else {
      assert r == SqlQuote(s);
      assert r[0] == '\'';
    }
  }

  /**
   * The hex branch is out of reach of the manager base's `value`, which
   * deletes every NUL first: through value this driver always quotes the
   * stripped text as it is.
   */
  lemma ValueNeverHex(c: Conn, quoteBin: string -> string, s: string)
    ensures MB.Value(MB.Manager(t => QuoteVal(c, t), quoteBin), MB.Lit(Data.Str(s))) == c.quote(Strip(s, '\0'))
  {
    StripSpec(s, '\0');
  }

  /**
   * `columnIndex`: the counting loop over the statement's columns. The
   * column names are given as a sequence and compared with PHP's loose `==`.
   */
  method ColumnIndex(names: seq<string>, column: string) returns (r: Option<nat>)
    ensures r.Some? ==> r.value < |names| && LooseEq(names[r.value], column)
    ensures r.Some? ==> forall j :: 0 <= j < r.value ==> !LooseEq(names[j], column)
    ensures r.None? ==> forall j :: 0 <= j < |names| ==> !LooseEq(names[j], column)
  {
    var i := 0;
    var count := |names|;
    while i < count
      invariant 0 <= i <= count
      invariant forall j :: 0 <= j < i ==> !LooseEq(names[j], column)
    {
      if LooseEq(names[i], column) {
        return Some(i);
      }
      i := i + 1;
    }
    return None;
  }
}
