/**
  The page of results the table shows, `results.slice(page * rowsPerPage,
  page * rowsPerPage + rowsPerPage)`, and the number in each row's first
  column, `page * rowsPerPage + index + 1`.
 */
module Paging {

  function Min(a: int, b: int): int {
    if a <= b then a else b
  }

  /** Array.prototype.slice(start, end) for non-negative arguments: both are clamped to the length. */
  function Slice<T>(s: seq<T>, start: nat, end: nat): (r: seq<T>)
    ensures |r| == if start < end && start < |s| then Min(end, |s|) - start else 0
    ensures forall i :: 0 <= i < |r| ==> r[i] == s[start + i]
  {
    var from, to := Min(start, |s|), Min(end, |s|);
    if from < to then s[from..to] else []
  }

  /** The rows of page `page` when each page holds `rowsPerPage` rows. */
  function PageRows<T>(results: seq<T>, page: nat, rowsPerPage: nat): seq<T> {
    Slice(results, page * rowsPerPage, page * rowsPerPage + rowsPerPage)
  }

  /** The number shown beside the row at `index` on page `page`. */
  function RowNumber(page: nat, rowsPerPage: nat, index: nat): nat {
    page * rowsPerPage + index + 1
  }

  /**
    A page holds the results from `page * rowsPerPage` on, as many as fit,
    and never more than `rowsPerPage`; a page past the end is empty.
   */
  lemma PageShape<T>(results: seq<T>, page: nat, rowsPerPage: nat)
    ensures var first := page * rowsPerPage;
      && |PageRows(results, page, rowsPerPage)| == (if first < |results| then Min(rowsPerPage, |results| - first) else 0)
      && |PageRows(results, page, rowsPerPage)| <= rowsPerPage
      && (first >= |results| ==> PageRows(results, page, rowsPerPage) == [])
      && forall i :: 0 <= i < |PageRows(results, page, rowsPerPage)| ==> PageRows(results, page, rowsPerPage)[i] == results[first + i]
  {
  }

  /** The number shown beside a row is that row's 1-based position in the whole result list. */
  lemma RowNumberNamesItsRow<T>(results: seq<T>, page: nat, rowsPerPage: nat, index: nat)
    requires index < |PageRows(results, page, rowsPerPage)|
    ensures 1 <= RowNumber(page, rowsPerPage, index) <= |results|
    ensures results[RowNumber(page, rowsPerPage, index) - 1] == PageRows(results, page, rowsPerPage)[index]
  {
  }

  /** Every result is shown on page k / rowsPerPage, at position k % rowsPerPage. */
  lemma EveryRowOnItsPage<T>(results: seq<T>, rowsPerPage: nat, k: nat)
    requires rowsPerPage > 0 && k < |results|
    ensures k % rowsPerPage < |PageRows(results, k / rowsPerPage, rowsPerPage)|
    ensures PageRows(results, k / rowsPerPage, rowsPerPage)[k % rowsPerPage] == results[k]
  {
    var page, i := k / rowsPerPage, k % rowsPerPage;
    assert page * rowsPerPage + i == k;
  }

  /**
    No result is shown twice: the row at position i of page `page` is result
    page * rowsPerPage + i, and that result's page and position are
    `page` and i again.
   */
  lemma RowOnOnePage<T>(results: seq<T>, page: nat, rowsPerPage: nat, i: nat)
    requires i < |PageRows(results, page, rowsPerPage)|
    ensures rowsPerPage > 0
    ensures (page * rowsPerPage + i) / rowsPerPage == page
    ensures (page * rowsPerPage + i) % rowsPerPage == i
  {
    var k := page * rowsPerPage + i;
    assert i < rowsPerPage;
    assert (k / rowsPerPage) * rowsPerPage + k % rowsPerPage == k;
    PageIndexUnique(k / rowsPerPage, k % rowsPerPage, page, i, rowsPerPage);
  }

  /** a < b leaves room for a whole page between a * c and b * c. */
  lemma {:induction false} MulStep(a: nat, b: nat, c: nat)
    requires a < b
    ensures a * c + c <= b * c
    decreases c
  {
    if c > 0 {
      MulStep(a, b, c - 1);
      assert a * c == a * (c - 1) + a;
      assert b * c == b * (c - 1) + b;
    }
  }

  /** A row index splits in one way only into a page start and an offset below the page size. */
  lemma PageIndexUnique(p1: nat, i1: nat, p2: nat, i2: nat, size: nat)
    requires i1 < size && i2 < size
    requires p1 * size + i1 == p2 * size + i2
    ensures p1 == p2 && i1 == i2
  {
    if p1 < p2 {
      MulStep(p1, p2, size);
      assert false;
    } else if p2 < p1 {
      MulStep(p2, p1, size);
      assert false;
    }
  }

  /** Twenty-three results in pages of ten: page 2 holds results 20 to 22, page 5 nothing. */
  lemma PagingExample<T>(results: seq<T>)
    requires |results| == 23
    ensures PageRows(results, 2, 10) == results[20..23]
    ensures PageRows(results, 5, 10) == []
  {
  }
}
