/**
  The pager under a paginated list: the "Showing start–end of total results"
  line and the previous/next buttons, computed from the `page`, `totalPages`
  and `total` of a list response and the `limit` the list asked for.
*/
module Pagination {
  import opened Wrappers
  import opened Seqs
  import opened Paging

  /**
    What the component renders: the first and last result number shown, and
    the page each button asks for, `None` when the button is disabled (a
    disabled button never calls `onPageChange`).
  */
  datatype Pager = Pager(start: int, end: int, previous: Option<int>, next: Option<int>)

  /** The rendered pager, or `None` when the component renders nothing. */
  function Render(page: int, totalPages: int, total: int, limit: int): (r: Option<Pager>)
    ensures r.None? <==> total == 0
    ensures r.Some? ==> r.value.end <= total
    ensures r.Some? ==> (r.value.previous.None? <==> page <= 1) && (r.value.next.None? <==> page >= totalPages)
    ensures r.Some? && 1 <= page <= totalPages ==>
      && (r.value.previous.Some? ==> r.value.previous.value == page - 1 && 1 <= r.value.previous.value <= totalPages)
      && (r.value.next.Some? ==> r.value.next.value == page + 1 && 1 <= r.value.next.value <= totalPages)
  {
    if total == 0 then None
    else
      var start := (page - 1) * limit + 1;
      var end := if page * limit < total then page * limit else total;
      Some(Pager(start, end,
                 if page <= 1 then None else Some(page - 1),
                 if page >= totalPages then None else Some(page + 1)))
  }

  /**
    On an existing page the shown range is a non-empty run of at most `limit`
    results, and it is exactly the rows the database returned for that page.
  */
  lemma ShownRangeIsThePage<T>(rows: seq<T>, page: int, limit: int)
    requires limit >= 1 && |rows| > 0 && 1 <= page <= TotalPages(|rows|, limit)
    ensures var p := Render(page, TotalPages(|rows|, limit), |rows|, limit).value;
      && 1 <= p.start <= p.end <= |rows|
      && p.end - p.start + 1 <= limit
      && PageOf(rows, page, limit) == rows[p.start - 1 .. p.end]
  {
    var pages := TotalPages(|rows|, limit);
    var p := Render(page, pages, |rows|, limit).value;
    MulMonotone(page - 1, pages - 1, limit);
    assert p.start - 1 == Skip(page, limit) < |rows|;
    assert page * limit == Skip(page, limit) + limit;
    var w := PageOf(rows, page, limit);
    assert |w| == p.end - (p.start - 1);
    assert w == rows[p.start - 1 .. p.end];
  }

  /**
    Past the last page (a page number the list response echoes back unclamped)
    the range is inverted, start beyond end, and only "previous" is enabled.
  */
  lemma PastTheLastPage(page: int, total: int, limit: int)
    requires limit >= 1 && total > 0 && page > TotalPages(total, limit)
    ensures var p := Render(page, TotalPages(total, limit), total, limit).value;
      && p.end < p.start
      && p.previous == Some(page - 1) && p.next.None?
  {
    var pages := TotalPages(total, limit);
    MulMonotone(pages, page - 1, limit);
    assert (page - 1) * limit >= total;
  }

  /**
    Rendered from a list response, the pager counts exactly the rows of that
    response: "Showing start–end" covers `data`, position by position.
  */
  lemma PagerMatchesResponse<T>(table: seq<T>, keep: T -> bool, rawPage: Option<int>, rawLimit: Option<int>)
    ensures var r := NewestFirstPage(table, keep, rawPage, rawLimit);
      r.total > 0 && r.page <= r.totalPages ==>
        var p := Render(r.page, r.totalPages, r.total, PageLimit(rawLimit)).value;
        && p.end - p.start + 1 == |r.data|
        && r.data == Reverse(Filter(table, keep))[p.start - 1 .. p.end]
  {
    var r := NewestFirstPage(table, keep, rawPage, rawLimit);
    if r.total > 0 && r.page <= r.totalPages {
      ShownRangeIsThePage(Reverse(Filter(table, keep)), r.page, PageLimit(rawLimit));
    }
  }
}
