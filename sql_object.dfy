/**
 * The `SQL` datum of the SQLite manager base: a fragment of SQL text that
 * is written verbatim and that three methods rewrite in place, each
 * returning the same object.
 */
module SqlObject {
  import opened Text
  import D = Data

  class Sql {
    var d: string

    /** Built through `Data::sql`. */
    constructor(data: string)
      ensures d == data
    {
      d := data;
    }

    /** `__toString` */
    function ToString(): (r: string)
      reads this
    {
      d
    }

    /** This object as the datum the manager dispatches on. */
    function AsData(): (r: D.Data)
      reads this
      ensures r.Sql? && D.Payload(r) == D.Str(d)
    {
      D.Sql(d)
    }

    /** `not()`: "NOT " in front of the text, with no parentheses added. */
    method Not() returns (self: Sql)
      modifies this
      ensures self == this && d == "NOT " + old(d)
      ensures IsSuffix(old(d), d)
    {
      d := "NOT " + d;
      AppendSuffix("NOT ", old(d));
      return this;
    }

    /** `parentheses()`: the whole text wrapped in parentheses. */
    method Parentheses() returns (self: Sql)
      modifies this
      ensures self == this && d == "(" + old(d) + ")"
    {
      d := "(" + d + ")";
      return this;
    }

    /** `add(s)`: a space and s after the text, even when the text is empty. */
    method Add(s: string) returns (self: Sql)
      modifies this
      ensures self == this && d == old(d) + " " + s
      ensures IsPrefix(old(d), d)
    {
      d := d + " " + s;
      return this;
    }
  }
}
