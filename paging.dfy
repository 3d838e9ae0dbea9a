/**
  Offset pagination shared by `GET /jobs` and `GET /jobs/:jobId/applications`:
  the page and limit read from the query string, the `skip`/`take` pair handed
  to the database, and `totalPages` in the response.
*/
module Paging {
  import opened Wrappers
  import opened Domain
  import opened Seqs

  /**
    `parseInt(raw) || fallback`. `raw` is the parsed query value, `None` when the
    parameter is missing or not a number (NaN); 0 is falsy and falls back too.
  */
  function OrDefault(raw: Option<int>, fallback: int): int
  {
    match raw
    case None => fallback
    case Some(n) => if n == 0 then fallback else n
  }

  /** `Math.max(1, parseInt(page) || 1)`. */
  function PageNumber(raw: Option<int>): (page: int)
    ensures page >= 1
    ensures raw.Some? && raw.value >= 1 ==> page == raw.value
    ensures raw.None? || raw.value < 1 ==> page == 1
  {
    var n := OrDefault(raw, 1);
    if n < 1 then 1 else n
  }

  /** `Math.min(100, Math.max(1, parseInt(limit) || 10))`. */
  function PageLimit(raw: Option<int>): (limit: int)
    ensures 1 <= limit <= 100
    ensures raw.Some? && 1 <= raw.value <= 100 ==> limit == raw.value
    ensures raw.None? || raw.value == 0 ==> limit == 10
    ensures raw.Some? && raw.value < 0 ==> limit == 1
    ensures raw.Some? && raw.value > 100 ==> limit == 100
  {
    var n := OrDefault(raw, 10);
    if n < 1 then 1 else if n > 100 then 100 else n
  }

  /** `(page - 1) * limit`: how many rows the database skips. */
  function Skip(page: int, limit: int): nat
    requires page >= 1 && limit >= 1
  {
    (page - 1) * limit
  }

  /** `Math.ceil(total / limit)`. */
  function TotalPages(total: nat, limit: int): (pages: nat)
    requires limit >= 1
    ensures total <= pages * limit
    ensures pages == 0 || (pages - 1) * limit < total
    ensures pages == 0 <==> total == 0
  {
    var q, r := total / limit, total % limit;
    assert total == q * limit + r;
    if r == 0 then q else q + 1
  }

  /** The rows of `rows` (already filtered and ordered) that page `page` shows. */
  function PageOf<T>(rows: seq<T>, page: int, limit: int): (r: seq<T>)
    requires page >= 1 && limit >= 1
    ensures |r| <= limit
    ensures forall k :: 0 <= k < |r| ==> Skip(page, limit) + k < |rows| && r[k] == rows[Skip(page, limit) + k]
    ensures forall x :: x in r ==> x in rows
  {
    Window(rows, Skip(page, limit), limit)
  }

  /**
    The list envelope both paginated routes build: the rows of `table` that
    `keep` selects, newest first, cut to the requested page.
  */
  function NewestFirstPage<T>(table: seq<T>, keep: T -> bool, rawPage: Option<int>, rawLimit: Option<int>): Paged<T>
  {
    var page, limit := PageNumber(rawPage), PageLimit(rawLimit);
    var rows := Reverse(Filter(table, keep));
    Paged(PageOf(rows, page, limit), |rows|, page, TotalPages(|rows|, limit))
  }

  /**
    What a list response promises: a page of at most `limit` selected rows,
    newest first, with the total count of selected rows and the page count.
  */
  lemma NewestFirstPageSpec<T>(table: seq<T>, keep: T -> bool, stamp: T -> int, rawPage: Option<int>, rawLimit: Option<int>)
    requires Ascending(table, stamp)
    ensures var r := NewestFirstPage(table, keep, rawPage, rawLimit);
      && r.page == PageNumber(rawPage)
      && r.total == |Filter(table, keep)|
      && r.totalPages == TotalPages(r.total, PageLimit(rawLimit))
      && |r.data| <= PageLimit(rawLimit)
      && (forall x :: x in r.data ==> x in table && keep(x))
      && Descending(r.data, stamp)
  {
    var page, limit := PageNumber(rawPage), PageLimit(rawLimit);
    var kept := Filter(table, keep);
    var rows := Reverse(kept);
    FilterAscending(table, keep, stamp);
    ReverseDescending(kept, stamp);
    WindowDescending(rows, Skip(page, limit), limit, stamp);
    forall x | x in PageOf(rows, page, limit) ensures x in table && keep(x) {
      ReverseMembers(kept, x);
    }
  }

  /** Row `i` lies on exactly one page, page `i / limit + 1`, and that page exists. */
  lemma RowOnExactlyOnePage(total: nat, limit: int, i: nat, page: int)
    requires limit >= 1 && i < total && page >= 1
    ensures 1 <= i / limit + 1 <= TotalPages(total, limit)
    ensures Skip(page, limit) <= i < Skip(page, limit) + limit <==> page == i / limit + 1
  {
    var q, r := i / limit, i % limit;
    assert i == q * limit + r && 0 <= r < limit;
    var pages := TotalPages(total, limit);
    if pages <= q {
      MulMonotone(pages, q, limit);
    }
    if page <= q {
      MulMonotone(page, q, limit);
      assert Skip(page, limit) + limit == page * limit <= q * limit <= i;
    } else if page >= q + 2 {
      MulMonotone(q + 1, page - 1, limit);
      assert Skip(page, limit) == (page - 1) * limit >= (q + 1) * limit > i;
    } else {
      assert Skip(page, limit) == q * limit;
    }
  }

  /** Every page before the last one is full. */
  lemma EarlierPagesAreFull<T>(rows: seq<T>, page: int, limit: int)
    requires limit >= 1 && 1 <= page < TotalPages(|rows|, limit)
    ensures |PageOf(rows, page, limit)| == limit
  {
    var pages := TotalPages(|rows|, limit);
    MulMonotone(page, pages - 1, limit);
    assert Skip(page, limit) + limit == page * limit;
  }

  /** A page past the last one is empty. */
  lemma PagesPastTheEndAreEmpty<T>(rows: seq<T>, page: int, limit: int)
    requires limit >= 1 && page > TotalPages(|rows|, limit)
    ensures PageOf(rows, page, limit) == []
  {
    var pages := TotalPages(|rows|, limit);
    MulMonotone(pages, page - 1, limit);
    assert Skip(page, limit) >= pages * limit >= |rows|;
  }

  lemma MulMonotone(a: int, b: int, c: int)
    requires a <= b && c >= 0
    ensures a * c <= b * c
  {
    assert b * c - a * c == (b - a) * c;
  }
}
