/** Filtered search and facet counts (SearchRows and DistinctValues in
    internal/pg/tabledata.go) over a stored table. */
module Facets {
  import opened Base
  import opened SqlText
  import opened SqlReader
  import opened SqlEval
  import opened Filters

  const MAX_DISTINCT_VALUES: nat := 200
  const MAX_PAGE_SIZE: int := 200

  // ----- the server's side -----

  /** The rows a condition keeps, in table order. */
  function Select(rows: seq<Row>, where: Option<Expr>): seq<Row> {
    if rows == [] then []
    else (if Keeps(where, rows[0]) then [rows[0]] else []) + Select(rows[1..], where)
  }

  /** SELECT ... FROM t<tail>: the server reads the tail it is sent. */
  function Run(rows: seq<Row>, tail: string): Option<seq<Row>> {
    match ReadTail(tail)
    case None => None
    case Some(where) => Some(Select(rows, where))
  }

  function Page(rows: seq<Row>, limit: nat, offset: nat): seq<Row> {
    if offset >= |rows| then [] else if offset + limit >= |rows| then rows[offset..] else rows[offset..offset + limit]
  }

  function CountOf(rows: seq<Row>, column: string, v: Value): nat {
    if rows == [] then 0
    else (if ValueAt(rows[0], column) == v then 1 else 0) + CountOf(rows[1..], column, v)
  }

  datatype Group = Group(value: Value, count: nat)

  /** A legal answer to GROUP BY value ORDER BY count DESC LIMIT limit: distinct
      groups with their true sizes, largest first, and none left out unless
      the limit was reached, and then only groups no larger than those shown. */
  ghost predicate IsGroupAnswer(res: seq<Group>, rows: seq<Row>, column: string, limit: nat) {
    && |res| <= limit
    && (forall i | 0 <= i < |res| :: res[i].count == CountOf(rows, column, res[i].value) > 0)
    && (forall i, j | 0 <= i < j < |res| :: res[i].value != res[j].value && res[i].count >= res[j].count)
    && (forall v | CountOf(rows, column, v) > 0 && (forall i | 0 <= i < |res| :: res[i].value != v) ::
          |res| == limit && forall i | 0 <= i < |res| :: CountOf(rows, column, v) <= res[i].count)
  }

  // ----- search -----

  function ClampSize(pageSize: int): nat {
    if pageSize <= 0 then 50 else if pageSize > MAX_PAGE_SIZE then 200 else pageSize
  }

  function ClampPage(page: int): nat {
    if page < 0 then 0 else page
  }

  /** The rows every filter lists. */
  function Matching(rows: seq<Row>, filters: seq<TableFilter>, exclude: string): seq<Row> {
    if rows == [] then []
    else (if Passes(filters, exclude, rows[0]) then [rows[0]] else []) + Matching(rows[1..], filters, exclude)
  }

  lemma {:induction false} SelectMatches(rows: seq<Row>, filters: seq<TableFilter>, exclude: string)
    requires Compilable(filters, exclude)
    ensures ReadTail(WhereText(filters, exclude)).Some?
    ensures Select(rows, ReadTail(WhereText(filters, exclude)).value) == Matching(rows, filters, exclude)
  {
    hide Passes, Keeps, WhereText, ReadTail, Compilable;
    WhereMeans(filters, exclude, map[]);
    if rows != [] {
      WhereMeans(filters, exclude, rows[0]);
      SelectMatches(rows[1..], filters, exclude);
    }
  }

  /** The total is the number of matching rows, and the page is a slice of them. */
  method SearchRows(rows: seq<Row>, schema: string, name: string, filters: seq<TableFilter>, page: int, pageSize: int)
    returns (r: Built<(nat, seq<Row>)>)
    ensures r.Ok? <==> IsIdent(schema) && IsIdent(name) && Compilable(filters, "")
    ensures r.Ok? ==> r.value.0 == |Matching(rows, filters, "")|
    ensures r.Ok? ==> r.value.1 == PageOf(Matching(rows, filters, ""), page, pageSize)
  {
    var q := QuoteIdent(schema);
    if q.Err? { return Err(q.error); }
    q := QuoteIdent(name);
    if q.Err? { return Err(q.error); }
    var where := BuildWhere(filters, "");
    if where.Err? { return Err(where.error); }
    SelectMatches(rows, filters, "");
    var kept := Run(rows, where.value);
    r := Ok((|kept.value|, Page(kept.value, ClampSize(pageSize), ClampPage(page) * ClampSize(pageSize))));
  }

  /** The page of a search, as SearchRows returns it. */
  function PageOf(rows: seq<Row>, page: int, pageSize: int): seq<Row> {
    Page(rows, ClampSize(pageSize), ClampPage(page) * ClampSize(pageSize))
  }

  /** The first n pages, one after the other. */
  function FirstPages(rows: seq<Row>, pageSize: int, n: nat): seq<Row> {
    if n == 0 then [] else FirstPages(rows, pageSize, n - 1) + PageOf(rows, n - 1, pageSize)
  }

  function UpTo(rows: seq<Row>, n: nat): seq<Row> {
    if n < |rows| then rows[..n] else rows
  }

  lemma PageNext(rows: seq<Row>, size: nat, start: nat)
    ensures UpTo(rows, start) + Page(rows, size, start) == UpTo(rows, start + size)
    ensures |Page(rows, size, start)| <= size
    ensures |Page(rows, size, start)| < size ==> UpTo(rows, start + size) == rows
  {
  }

  /** A page size of 1 to 200 is used as it is, a larger one is 200, and none at
      all is 50. Pages are adjacent: the first n hold the first n times that many
      rows, and once one falls short they hold every row. */
  lemma {:induction false} PagesTile(rows: seq<Row>, pageSize: int, n: nat)
    ensures var size := if pageSize < 1 then 50 else if pageSize <= 200 then pageSize else 200;
            && FirstPages(rows, pageSize, n) == UpTo(rows, n * size)
            && |PageOf(rows, n, pageSize)| <= size
            && (|PageOf(rows, n, pageSize)| < size ==> FirstPages(rows, pageSize, n + 1) == rows)
  {
    var size := ClampSize(pageSize);
    hide Page, UpTo;
    if n == 0 {
      PageNext(rows, size, 0);
      StartOfTable(rows);
    } else {
      PagesTile(rows, pageSize, n - 1);
      assert (n - 1) * size + size == n * size;
      PageNext(rows, size, (n - 1) * size);
    }
    PageNext(rows, size, n * size);
  }

  lemma StartOfTable(rows: seq<Row>)
    ensures UpTo(rows, 0) == []
  {
  }

  /** A page before the first is the first. */
  lemma NegativePage(rows: seq<Row>, page: int, pageSize: int)
    requires page < 0
    ensures PageOf(rows, page, pageSize) == PageOf(rows, 0, pageSize) == FirstPages(rows, pageSize, 1)
  {
  }

  // ----- facets -----

  /** The loop of DistinctValues over the server's answer. */
  method CollectDistinct(res: seq<Group>) returns (values: seq<Group>, truncated: bool)
    ensures values == if |res| > MAX_DISTINCT_VALUES then res[..MAX_DISTINCT_VALUES] else res
    ensures truncated <==> |res| > MAX_DISTINCT_VALUES
  {
    values, truncated := [], false;
    var i := 0;
    while i < |res|
      invariant 0 <= i <= |res| && i <= MAX_DISTINCT_VALUES
      invariant values == res[..i]
    {
      if i >= MAX_DISTINCT_VALUES {
        truncated := true;
        return;
      }
      values := values + [res[i]];
      i := i + 1;
    }
  }

  /** The filters without those on one column. */
  function Without(filters: seq<TableFilter>, column: string): seq<TableFilter> {
    if filters == [] then []
    else (if filters[0].column == column then [] else [filters[0]]) + Without(filters[1..], column)
  }

  function CellOf(v: Value): Cell {
    if v.None? then Null else Str(v.value)
  }

  /** That column's filters replaced by one that lists the single value. */
  function Only(filters: seq<TableFilter>, column: string, v: Value): seq<TableFilter> {
    Without(filters, column) + [TableFilter(column, [CellOf(v)])]
  }

  lemma {:induction false} WithoutHas(filters: seq<TableFilter>, column: string)
    ensures forall f :: f in Without(filters, column) <==> f in filters && f.column != column
  {
    if filters != [] {
      WithoutHas(filters[1..], column);
      assert filters == [filters[0]] + filters[1..];
    }
  }

  lemma OnlyPasses(filters: seq<TableFilter>, column: string, v: Value, row: Row)
    requires column != ""
    ensures Passes(Only(filters, column, v), "", row) <==> Passes(filters, column, row) && ValueAt(row, column) == v
  {
    WithoutHas(filters, column);
    var last := TableFilter(column, [CellOf(v)]);
    assert Lists(last, ValueAt(row, column)) <==> ValueAt(row, column) == v by {
      assert Meaning(CellOf(v)) == v;
      assert CellOf(v) in last.values;
    }
    assert Active(last, "") && last in Only(filters, column, v);
    hide Lists;
    if Passes(Only(filters, column, v), "", row) {
      forall f | f in filters && Active(f, column) ensures Lists(f, ValueAt(row, f.column)) {
        assert f in Only(filters, column, v) && Active(f, "");
      }
    }
  }

  lemma WithoutPasses(filters: seq<TableFilter>, column: string, row: Row)
    ensures Passes(Without(filters, column), "", row) <==> Passes(filters, column, row)
  {
    hide Lists;
    WithoutHas(filters, column);
    if Passes(Without(filters, column), "", row) {
      forall f | f in filters && Active(f, column) ensures Lists(f, ValueAt(row, f.column)) {
        assert f in Without(filters, column) && Active(f, "");
      }
    }
  }

  lemma {:induction false} OnlyCounts(rows: seq<Row>, filters: seq<TableFilter>, column: string, v: Value)
    requires column != ""
    ensures |Matching(rows, Only(filters, column, v), "")| == CountOf(Matching(rows, filters, column), column, v)
  {
    hide Passes, Only;
    if rows != [] {
      OnlyPasses(filters, column, v, rows[0]);
      OnlyCounts(rows[1..], filters, column, v);
      var rest := Matching(rows[1..], filters, column);
      assert ([rows[0]] + rest)[1..] == rest;
      assert [] + rest == rest;
    }
  }

  lemma {:induction false} WithoutMatches(rows: seq<Row>, filters: seq<TableFilter>, column: string)
    ensures Matching(rows, Without(filters, column), "") == Matching(rows, filters, column)
  {
    if rows != [] {
      WithoutPasses(filters, column, rows[0]);
      WithoutMatches(rows[1..], filters, column);
    }
  }

  lemma OnlyCompilable(filters: seq<TableFilter>, column: string, v: Value)
    requires IsIdent(column) && Compilable(filters, column)
    ensures Compilable(Only(filters, column, v), "") && Compilable(Without(filters, column), "")
  {
    hide IsIdent;
    WithoutHas(filters, column);
    forall f | f in Only(filters, column, v) && Active(f, "") ensures IsIdent(f.column) {
      if f.column != column { assert f in filters && Active(f, column); }
    }
  }

  function SumCounts(gs: seq<Group>): nat {
    if gs == [] then 0 else gs[0].count + SumCounts(gs[1..])
  }

  function Drop(rows: seq<Row>, column: string, v: Value): seq<Row> {
    if rows == [] then []
    else (if ValueAt(rows[0], column) == v then [] else [rows[0]]) + Drop(rows[1..], column, v)
  }

  lemma {:induction false} DropCounts(rows: seq<Row>, column: string, v: Value, w: Value)
    ensures |rows| == CountOf(rows, column, v) + |Drop(rows, column, v)|
    ensures CountOf(Drop(rows, column, v), column, w) == if w == v then 0 else CountOf(rows, column, w)
  {
    if rows != [] {
      DropCounts(rows[1..], column, v, w);
      var rest := Drop(rows[1..], column, v);
      if ValueAt(rows[0], column) == v {
        assert Drop(rows, column, v) == rest;
      } else {
        assert Drop(rows, column, v) == [rows[0]] + rest;
        assert Drop(rows, column, v)[1..] == rest;
      }
    }
  }

  /** Distinct groups that leave no value out add up to the rows. */
  lemma {:induction false} GroupsCover(gs: seq<Group>, rows: seq<Row>, column: string)
    requires forall i | 0 <= i < |gs| :: gs[i].count == CountOf(rows, column, gs[i].value)
    requires forall i, j | 0 <= i < j < |gs| :: gs[i].value != gs[j].value
    requires forall v | CountOf(rows, column, v) > 0 :: exists i :: 0 <= i < |gs| && gs[i].value == v
    ensures SumCounts(gs) == |rows|
  {
    if rows != [] { assert CountOf(rows, column, ValueAt(rows[0], column)) > 0; }
    if gs != [] {
      var v := gs[0].value;
      var rest := Drop(rows, column, v);
      DropCounts(rows, column, v, v);
      forall i | 0 <= i < |gs[1..]| ensures gs[1..][i].count == CountOf(rest, column, gs[1..][i].value) {
        assert gs[1..][i] == gs[i + 1];
        DropCounts(rows, column, v, gs[i + 1].value);
      }
      forall w | CountOf(rest, column, w) > 0 ensures exists i :: 0 <= i < |gs[1..]| && gs[1..][i].value == w {
        DropCounts(rows, column, v, w);
        var i :| 0 <= i < |gs| && gs[i].value == w;
        assert gs[1..][i - 1].value == w;
      }
      GroupsCover(gs[1..], rest, column);
    }
  }

  /** res is an answer the server may give to the facet query with this tail. */
  ghost predicate Answers(res: seq<Group>, rows: seq<Row>, tail: string, column: string) {
    Run(rows, tail).Some? ==> IsGroupAnswer(res, Run(rows, tail).value, column, MAX_DISTINCT_VALUES + 1)
  }

  /** Each count shown is the total of a search for that value alone. */
  ghost predicate CountsAgree(values: seq<Group>, rows: seq<Row>, filters: seq<TableFilter>, column: string) {
    forall i | 0 <= i < |values| ::
      Compilable(Only(filters, column, values[i].value), "")
      && values[i].count == |Matching(rows, Only(filters, column, values[i].value), "")|
  }

  /** No value left out is more frequent than one shown. */
  ghost predicate ShowsLargest(values: seq<Group>, rows: seq<Row>, filters: seq<TableFilter>, column: string) {
    forall v, i | 0 <= i < |values| && (forall j | 0 <= j < |values| :: values[j].value != v) ::
      |Matching(rows, Only(filters, column, v), "")| <= values[i].count
  }

  lemma AnswerAgrees(res: seq<Group>, rows: seq<Row>, filters: seq<TableFilter>, column: string, n: nat)
    requires IsIdent(column) && Compilable(filters, column) && n <= |res|
    requires IsGroupAnswer(res, Matching(rows, filters, column), column, MAX_DISTINCT_VALUES + 1)
    ensures CountsAgree(res[..n], rows, filters, column)
    ensures ShowsLargest(res[..n], rows, filters, column)
  {
    hide IsIdent, Matching, Compilable, Only, CountOf;
    IdentNonEmpty(column);
    var kept := Matching(rows, filters, column);
    forall v: Value
      ensures |Matching(rows, Only(filters, column, v), "")| == CountOf(kept, column, v)
      ensures Compilable(Only(filters, column, v), "")
    {
      OnlyCounts(rows, filters, column, v);
      OnlyCompilable(filters, column, v);
    }
    forall v, i | 0 <= i < n && (forall j | 0 <= j < n :: res[..n][j].value != v)
      ensures CountOf(kept, column, v) <= res[i].count
    {
      assert forall j | 0 <= j < n :: res[..n][j] == res[j];
      if j :| 0 <= j < |res| && res[j].value == v {
        assert j >= n > i;
      }
    }
  }

  /** Facets agree with search, for any answer the server may give: each count
      is the total SearchRows reports with that column's filters replaced by
      the value, values are distinct, those left out are no more frequent than
      those shown, and untruncated counts add up to the total with the column
      unfiltered. */
  method DistinctValues(rows: seq<Row>, schema: string, name: string, column: string, filters: seq<TableFilter>,
                        res: seq<Group>) returns (r: Built<(seq<Group>, bool)>)
    requires Answers(res, rows, WhereText(filters, column), column)
    ensures r.Ok? <==> IsIdent(schema) && IsIdent(name) && IsIdent(column) && Compilable(filters, column)
    ensures r.Ok? ==> CountsAgree(r.value.0, rows, filters, column)
    ensures r.Ok? ==> ShowsLargest(r.value.0, rows, filters, column)
    ensures r.Ok? ==> forall i, j | 0 <= i < j < |r.value.0| :: r.value.0[i].value != r.value.0[j].value
    ensures r.Ok? && !r.value.1 ==> SumCounts(r.value.0) == |Matching(rows, Without(filters, column), "")|
    ensures r.Ok? && r.value.1 ==> |r.value.0| == 200
    ensures r.Ok? ==> |r.value.0| <= 200
  {
    hide IsIdent, Compilable, Without, CountOf, CountsAgree, ShowsLargest, ReadTail, WhereText, Matching, Select;
    var q := QuoteIdent(schema);
    if q.Err? { return Err(q.error); }
    q := QuoteIdent(name);
    if q.Err? { return Err(q.error); }
    q := QuoteIdent(column);
    if q.Err? { return Err(q.error); }
    var where := BuildWhere(filters, column);
    if where.Err? { return Err(where.error); }
    var values, truncated := CollectDistinct(res);
    r := Ok((values, truncated));
    SelectMatches(rows, filters, column);
    AnswerAgrees(res, rows, filters, column, |values|);
    assert values == res[..|values|];
    if !truncated {
      WithoutMatches(rows, filters, column);
      GroupsCover(res, Matching(rows, filters, column), column);
    }
  }

  lemma IdentNonEmpty(c: string)
    requires IsIdent(c)
    ensures c != ""
  {
  }
}
