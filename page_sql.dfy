/**
 * pageSql: the textual rewrite that bounds the rows a read query returns.
 * The paging argument is either absent (any non-array value) or a map with
 * the optional entries 'cur', 'size', 'all' and 'start'.
 */
module Paging {
  import opened Outcomes
  import opened Decimal

  /**
   * A paging map. An entry that is missing (for 'cur' and 'start': missing or
   * null) is None.
   */
  datatype PageSpec = PageSpec(cur: Option<int>, size: Option<int>, all: Option<string>, start: Option<int>)

  /** The largest page size the rewrite emits. */
  const MaxPageSize: int := 1000

  /** The clause that limits a query to its first row. */
  const LimitOne: string := " LIMIT 1"

  /** Which rows a rewritten query asks for. */
  datatype Window = Unlimited | FirstRow | Range(offset: int, count: int)

  predicate HasPositiveSize(p: PageSpec) { p.size.Some? && p.size.value > 0 }

  function Min(a: int, b: int): int { if a <= b then a else b }

  /** The rewrite, branch for branch as mysql.php writes it. */
  function PageSql(sql: string, page: Option<PageSpec>): (r: string)
    ensures |sql| <= |r| && r[..|sql|] == sql
    ensures r == sql <==> page.Some? && !HasPositiveSize(page.value) && page.value.all == Some("y")
    ensures !(page.Some? && HasPositiveSize(page.value)) && r != sql ==> r == sql + LimitOne
  {
    if page.None? then sql + LimitOne
    else
      var p := page.value;
      if p.size.None? || p.size.value <= 0 then
        if p.all.None? || p.all.value != "y" then sql + LimitOne else sql
      else sql + LimitClause(Range(PageOffset(p), PageCount(p)))
  }

  /** The row count of a sized page: 'size', capped. */
  function PageCount(p: PageSpec): int
    requires HasPositiveSize(p)
  {
    if p.size.value > MaxPageSize then MaxPageSize else p.size.value
  }

  /** The offset of a sized page: 'start' when given, else the rows before page 'cur' (default 1). */
  function PageOffset(p: PageSpec): int
    requires HasPositiveSize(p)
  {
    var cur := if p.cur.None? then 1 else p.cur.value;
    if p.start.Some? then p.start.value else (cur - 1) * PageCount(p)
  }

  /** The clause a window is written as; the inverse of DecodeLimit. */
  function LimitClause(w: Window): string
  {
    match w
    case Unlimited => ""
    case FirstRow => LimitOne
    case Range(offset, count) => " LIMIT " + IntToString(offset) + " , " + IntToString(count)
  }

  /** The index of the first blank in `s`, or |s| if there is none. */
  function FirstBlank(s: string): (k: nat)
    ensures k <= |s|
    ensures forall i :: 0 <= i < k ==> s[i] != ' '
    ensures k < |s| ==> s[k] == ' '
  {
    if s == [] || s[0] == ' ' then 0 else 1 + FirstBlank(s[1..])
  }

  /** Reads "<offset> , <count>". */
  function DecodeRange(b: string): Option<Window>
  {
    var k := FirstBlank(b);
    if k + 3 <= |b| && b[k..k + 3] == " , " then
      match (ParseInt(b[..k]), ParseInt(b[k + 3..]))
      case (Some(offset), Some(count)) => Some(Range(offset, count))
      case _ => None
    else None
  }

  /** Reads the text a rewrite appended back as the window it asks for. */
  function DecodeLimit(t: string): Option<Window>
  {
    if t == "" then Some(Unlimited)
    else if t == LimitOne then Some(FirstRow)
    else if |t| > 7 && t[..7] == " LIMIT " then DecodeRange(t[7..])
    else None
  }

  /** "<offset> , <count>" is read back as the range it writes. */
  lemma RangeRoundTrip(offset: int, count: int)
    ensures DecodeRange(IntToString(offset) + " , " + IntToString(count)) == Some(Range(offset, count))
  {
    var a, b := IntToString(offset), IntToString(count);
    var body := a + " , " + b;
    assert FirstBlank(body) == |a| by {
      assert forall i :: 0 <= i < |a| ==> body[i] == a[i];
      assert body[|a|] == ' ';
    }
    assert body[..|a|] == a && body[|a|..|a| + 3] == " , " && body[|a| + 3..] == b;
    IntToStringRoundTrip(offset);
    IntToStringRoundTrip(count);
  }

  /** Every window is read back from the clause that writes it. */
  lemma LimitClauseRoundTrip(w: Window)
    ensures DecodeLimit(LimitClause(w)) == Some(w)
  {
    if w.Range? {
      var body := IntToString(w.offset) + " , " + IntToString(w.count);
      var t := LimitClause(w);
      assert t == " LIMIT " + body;
      assert t[..7] == " LIMIT " && t[7..] == body;
      assert t != LimitOne by { assert t[7] != '1' || |t| > 8; }
      RangeRoundTrip(w.offset, w.count);
    }
  }

  /** The text after a prefix. */
  lemma AfterPrefix(sql: string, t: string)
    ensures (sql + t)[|sql|..] == t
  {
  }

  /** The rewrite of a sized page appends the range clause. */
  lemma SizedRewrite(sql: string, p: PageSpec)
    requires HasPositiveSize(p)
    ensures PageSql(sql, Some(p)) == sql + LimitClause(Range(PageOffset(p), PageCount(p)))
  {
  }

  /**
   * Without a paging map, or without a positive 'size', the query is limited to
   * one row unless 'all' is "y", in which case it is left unbounded.
   */
  lemma PageSqlUnsized(sql: string, page: Option<PageSpec>)
    requires page.None? || !HasPositiveSize(page.value)
    ensures var r := PageSql(sql, page);
      DecodeLimit(r[|sql|..]) == Some(if page.Some? && page.value.all == Some("y") then Unlimited else FirstRow)
  {
    var r := PageSql(sql, page);
    if r == sql {
      assert r[|sql|..] == "";
    } else {
      assert r[|sql|..] == LimitOne;
    }
  }

  /**
   * With a positive 'size', the rewrite asks for a range whose count is the
   * size capped at 1000 and whose offset is 'start' when given, and otherwise
   * the rows before page 'cur' (default 1).
   */
  lemma PageSqlSized(sql: string, page: Option<PageSpec>)
    requires page.Some? && HasPositiveSize(page.value)
    ensures var p := page.value;
      var w := DecodeLimit(PageSql(sql, page)[|sql|..]);
      && w.Some? && w.value.Range?
      && 1 <= w.value.count <= MaxPageSize
      && w.value.count == Min(p.size.value, MaxPageSize)
      && w.value.offset == if p.start.Some? then p.start.value
                           else ((if p.cur.Some? then p.cur.value else 1) - 1) * w.value.count
  {
    var p := page.value;
    SizedRewrite(sql, p);
    AfterPrefix(sql, LimitClause(Range(PageOffset(p), PageCount(p))));
    LimitClauseRoundTrip(Range(PageOffset(p), PageCount(p)));
  }

  /** Concrete rewrites of unsized paging maps. */
  lemma PageSqlUnsizedExamples(sql: string)
    ensures PageSql(sql, None) == sql + " LIMIT 1"
    ensures PageSql(sql, Some(PageSpec(None, Some(0), None, None))) == sql + " LIMIT 1"
    ensures PageSql(sql, Some(PageSpec(None, Some(0), Some("y"), None))) == sql
  {
  }

  /** Page 3 of 20 rows starts after row 40. */
  lemma PageSqlThirdPage(sql: string)
    ensures PageSql(sql, Some(PageSpec(Some(3), Some(20), None, None))) == sql + " LIMIT 40 , 20"
  {
    SizedRewrite(sql, PageSpec(Some(3), Some(20), None, None));
    assert IntToString(40) == "40" by { assert NatToString(4) == "4"; }
    assert IntToString(20) == "20" by { assert NatToString(2) == "2"; }
  }

  /** A size above the cap is written as 1000. */
  lemma PageSqlCapped(sql: string)
    ensures PageSql(sql, Some(PageSpec(None, Some(5000), None, None))) == sql + " LIMIT 0 , 1000"
  {
    SizedRewrite(sql, PageSpec(None, Some(5000), None, None));
    assert IntToString(0) == "0";
    assert IntToString(1000) == "1000" by {
      assert NatToString(1) == "1";
      assert NatToString(10) == "10";
      assert NatToString(100) == "100";
    }
  }

  /** An explicit 'start' replaces the offset computed from the page number. */
  lemma PageSqlExplicitStart(sql: string)
    ensures PageSql(sql, Some(PageSpec(Some(4), Some(10), None, Some(7)))) == sql + " LIMIT 7 , 10"
  {
    SizedRewrite(sql, PageSpec(Some(4), Some(10), None, Some(7)));
    assert IntToString(7) == "7";
    assert IntToString(10) == "10" by { assert NatToString(1) == "1"; }
  }
}
