/** Over-fetch paging: the engine asks for one row more than the page holds, and the
    resolver cuts the surplus off again to learn whether a next page exists. */
module Paging {
  import opened Text
  import opened Wrapping

  datatype Page<T> = Page(nodes: seq<T>, hasNextPage: bool, hasPreviousPage: bool, truncated: bool)

  function Min(a: int, b: int): int { if a < b then a else b }

  /** The rows of `result` that LIMIT `limit` OFFSET `offset` selects. */
  function Select<T>(result: seq<T>, limit: int, offset: int): seq<T>
    requires limit >= 0 && offset >= 0
  {
    result[Min(offset, |result|)..Min(offset + limit, |result|)]
  }

  /** What the resolver makes of the rows it is handed. */
  function Cut<T>(data: seq<T>, first: Option<int>, offset: Option<int>, maxRows: int): Page<T>
    requires first.Some? ==> first.value >= 0
  {
    var asked := if first.Some? && |data| > first.value then data[..first.value] else data;
    var truncated := maxRows > 0 && |asked| > maxRows;
    Page(if truncated then asked[..maxRows] else asked,
         first.Some? && |data| > first.value,
         offset.Some? && offset.value > 0,
         truncated)
  }

  /** The truncation steps of TemplateQuery, then buildTemplateQueryConnection. */
  method TruncateAndConnect<T>(rows: seq<T>, first: Option<int>, offset: Option<int>, maxRows: int)
    returns (page: Page<T>)
    requires first.Some? ==> first.value >= 0
    ensures page == Cut(rows, first, offset, maxRows)
  {
    var data := rows;
    var originalLen := |data|;
    if first.Some? && |data| > first.value {
      data := data[..first.value];
    }
    var warned := false;
    if maxRows > 0 && |data| > maxRows {
      warned := true;
      data := data[..maxRows];
    }
    var nodes := [];
    for k := 0 to |data|
      invariant nodes == data[..k]
    {
      nodes := nodes + [data[k]];
    }
    assert data[..|data|] == data;
    var hasNextPage := first.Some? && originalLen > first.value;
    var hasPreviousPage := offset.Some? && offset.value > 0;
    return Page(nodes, hasNextPage, hasPreviousPage, warned);
  }

  /** One page of a fixed result list, end to end. */
  function Query<T>(result: seq<T>, first: Option<int>, offset: Option<int>, maxRows: int): Page<T>
    requires first.Some? ==> first.value >= 0
    requires Limit(first, maxRows) >= 0 && Offset(offset) >= 0
  {
    Cut(Select(result, Limit(first, maxRows), Offset(offset)), first, offset, maxRows)
  }

  /** The limit is one more than the page size exactly as long as that fits Go's int;
      at the largest int it wraps around to a negative LIMIT. */
  lemma OverfetchFits(first: int, maxRows: int)
    requires 0 <= first <= MAX_INT
    ensures Limit(Some(first), maxRows) == first + 1 <==> first < MAX_INT
    ensures first == MAX_INT ==> Limit(Some(first), maxRows) < 0
  {
  }

  /** A page is a slice of the result, and the next-page flag says whether rows remain after it. */
  lemma PageIsSlice<T>(result: seq<T>, first: int, offset: int, maxRows: int)
    requires 0 <= first < MAX_INT && offset >= 0
    ensures var page := Query(result, Some(first), Some(offset), maxRows);
            && (page.hasNextPage <==> offset + first < |result|)
            && (page.hasPreviousPage <==> offset > 0)
            && (maxRows <= 0 || first <= maxRows ==>
                  page.nodes == result[Min(offset, |result|)..Min(offset + first, |result|)] && !page.truncated)
            && (0 < maxRows < first ==>
                  page.nodes == result[Min(offset, |result|)..Min(offset + maxRows, |result|)])
  {
    var limit := Limit(Some(first), maxRows);
    SelectPrefix(result, limit, offset, first);
    if 0 < maxRows < first {
      SelectPrefix(result, limit, offset, maxRows);
      SelectPrefix(result, first, offset, maxRows);
    }
  }

  /** The first `n` selected rows are those a limit of `n` selects. */
  lemma SelectPrefix<T>(result: seq<T>, limit: int, offset: int, n: int)
    requires 0 <= n <= limit && offset >= 0
    ensures var data := Select(result, limit, offset);
            && (|data| > n ==> data[..n] == Select(result, n, offset))
            && (|data| <= n ==> data == Select(result, n, offset))
            && (|data| > n <==> limit > n && offset + n < |result|)
  {
  }

  /** Without `first` there is no next page to ask for: the result is cut at the row limit. A row
      limit of zero, elsewhere the absence of a limit, leaves a single row, and one of -1 none. */
  lemma PageWithoutFirst<T>(result: seq<T>, offset: Option<int>, maxRows: int)
    requires -1 <= maxRows < MAX_INT && Offset(offset) >= 0
    ensures var page, o := Query(result, None, offset, maxRows), Offset(offset);
            && !page.hasNextPage && (page.hasPreviousPage <==> o > 0)
            && page.nodes == Select(result, if maxRows > 0 then maxRows else maxRows + 1, o)
            && (page.truncated <==> 0 < maxRows < |result| - o)
  {
    var n := if maxRows > 0 then maxRows else maxRows + 1;
    SelectPrefix(result, Limit(None, maxRows), Offset(offset), n);
  }

  /** Any lower row limit, which nothing rejects, makes the LIMIT negative, as the largest int does. */
  lemma LimitWithoutFirst(maxRows: int)
    requires -MAX_INT - 1 <= maxRows <= MAX_INT
    ensures Limit(None, maxRows) < 0 <==> maxRows < -1 || maxRows == MAX_INT
  {
  }

  /** A client that asks for page after page until there is no next one. */
  function Walk<T>(result: seq<T>, first: int, maxRows: int, offset: nat): seq<T>
    requires 1 <= first < MAX_INT
    decreases if offset < |result| then |result| - offset else 0
  {
    var page := Query(result, Some(first), Some(offset), maxRows);
    PageIsSlice(result, first, offset, maxRows);
    page.nodes + if page.hasNextPage then Walk(result, first, maxRows, offset + first) else []
  }

  /** The rows of the page at `offset`, at most `n` of them. */
  function Rows<T>(result: seq<T>, offset: nat, n: nat): seq<T> {
    result[Min(offset, |result|)..Min(offset + n, |result|)]
  }

  /** The rows from `offset` on. */
  function Remaining<T>(result: seq<T>, offset: nat): seq<T> {
    result[Min(offset, |result|)..]
  }

  function Later<T>(result: seq<T>, first: int, maxRows: int, offset: nat): seq<T>
    requires 1 <= first < MAX_INT
  {
    if offset + first < |result| then Walk(result, first, maxRows, offset + first) else []
  }

  lemma WalkStep<T>(result: seq<T>, first: int, maxRows: int, offset: nat)
    requires 1 <= first < MAX_INT
    ensures var n := if 0 < maxRows < first then maxRows else first;
            Walk(result, first, maxRows, offset)
            == Rows(result, offset, n) + Later(result, first, maxRows, offset)
  {
    PageIsSlice(result, first, offset, maxRows);
  }

  lemma RowsInNumber<T>(result: seq<T>, offset: nat, n: nat)
    ensures |Rows(result, offset, n)| == Min(offset + n, |result|) - Min(offset, |result|)
  {
  }

  lemma NothingRemains<T>(result: seq<T>, offset: nat)
    requires offset >= |result|
    ensures Remaining(result, offset) == []
  {
  }

  lemma RowsThenRemaining<T>(result: seq<T>, offset: nat, n: nat, later: seq<T>)
    requires later == Remaining(result, offset + n)
    ensures Rows(result, offset, n) + later == Remaining(result, offset)
  {
  }

  lemma {:induction false} WalkFrom<T>(result: seq<T>, first: int, maxRows: int, offset: nat)
    requires 1 <= first < MAX_INT
    requires maxRows <= 0 || first <= maxRows
    ensures Walk(result, first, maxRows, offset) == Remaining(result, offset)
    decreases if offset < |result| then |result| - offset else 0
  {
    if offset + first < |result| {
      WalkFrom(result, first, maxRows, offset + first);
    } else {
      NothingRemains(result, offset + first);
    }
    OnePageMore(result, first, maxRows, offset);
  }

  lemma OnePageMore<T>(result: seq<T>, first: int, maxRows: int, offset: nat)
    requires 1 <= first < MAX_INT
    requires maxRows <= 0 || first <= maxRows
    requires Later(result, first, maxRows, offset) == Remaining(result, offset + first)
    ensures Walk(result, first, maxRows, offset) == Remaining(result, offset)
  {
    WalkStep(result, first, maxRows, offset);
    RowsThenRemaining(result, offset, first, Later(result, first, maxRows, offset));
  }

  lemma {:induction false} WalkIsNoLonger<T>(result: seq<T>, first: int, maxRows: int, offset: nat)
    requires 1 <= first < MAX_INT
    ensures |Walk(result, first, maxRows, offset)| <= |result| - Min(offset, |result|)
    decreases if offset < |result| then |result| - offset else 0
  {
    WalkStep(result, first, maxRows, offset);
    RowsInNumber(result, offset, if 0 < maxRows < first then maxRows else first);
    if offset + first < |result| {
      WalkIsNoLonger(result, first, maxRows, offset + first);
    }
  }

  /** Walking all pages visits every row once and in order, if and only if the row limit
      does not cut pages shorter than the step between them. */
  lemma PageWalkIsExact<T>(result: seq<T>, first: int, maxRows: int)
    requires 1 <= first < MAX_INT
    ensures Walk(result, first, maxRows, 0) == result
       <==> maxRows <= 0 || first <= maxRows || |result| <= maxRows
  {
    PageIsSlice(result, first, 0, maxRows);
    if maxRows <= 0 || first <= maxRows {
      WalkFrom(result, first, maxRows, 0);
    } else if first < |result| {
      WalkIsNoLonger(result, first, maxRows, first);
    } else {
      assert Walk(result, first, maxRows, 0) == result[..Min(maxRows, |result|)] + [];
    }
  }
}
