/** `PaginationComponent` (src/app/shared/components/pagination/pagination.component.ts):
    the window of page buttons shown around the current page, and the guard
    on page changes. Pages are numbered from 0. */
module Pagination {

  /** At most this many page buttons are shown. */
  const MaxPages := 5

  function Max(a: int, b: int): int {
    if a >= b then a else b
  }

  function Min(a: int, b: int): int {
    if a <= b then a else b
  }

  /** The run of `length` consecutive pages starting at `first` (an empty run
      for a negative length, as `Array.from({length: n})` gives). */
  function Run(first: int, length: int): (r: seq<int>)
    ensures |r| == Max(0, length)
    ensures forall i :: 0 <= i < |r| ==> r[i] == first + i
  {
    seq(Max(0, length), i => first + i)
  }

  /** The `pages` getter. */
  function Pages(currentPage: int, totalPages: int): (pages: seq<int>)
    ensures forall i :: 0 < i < |pages| ==> pages[i] == pages[i - 1] + 1
    ensures forall i :: 0 <= i < |pages| ==> 0 <= pages[i] < totalPages
    ensures totalPages >= 0 ==> |pages| == Min(MaxPages, totalPages)
    ensures 0 <= currentPage < totalPages ==> currentPage in pages
    ensures currentPage >= 2 && currentPage + 3 <= totalPages ==> pages[0] == currentPage - 2
    ensures currentPage + 3 >= totalPages > 0 ==> pages[|pages| - 1] == totalPages - 1
  {
    var half := MaxPages / 2;
    var start := Max(0, currentPage - half);
    var end := Min(totalPages, start + MaxPages);
    var start' := if end - start < MaxPages then Max(0, end - MaxPages) else start;
    var pages := Run(start', end - start');
    assert 0 <= currentPage < totalPages ==> pages[currentPage - start'] == currentPage;
    pages
  }

  /** Reference definition: the window is `min(5, totalPages)` pages long and
      starts two pages before the current one, pushed right to page 0 and left
      so that it ends on the last page. */
  lemma PagesIsClampedWindow(currentPage: int, totalPages: int)
    requires totalPages >= 0
    ensures Pages(currentPage, totalPages)
         == Run(Min(Max(0, currentPage - 2), Max(0, totalPages - MaxPages)), Min(MaxPages, totalPages))
  {
  }

  /** `changePage(page)`: the list of values emitted on `pageChange`. */
  function ChangePage(page: int, totalPages: int): (emitted: seq<int>)
    ensures emitted == [page] <==> 0 <= page < totalPages
    ensures emitted == [] <==> !(0 <= page < totalPages)
  {
    if page >= 0 && page < totalPages then [page] else []
  }

  /** Every button of the window is a page `changePage` accepts. */
  lemma ListedPagesAreAccepted(currentPage: int, totalPages: int, i: nat)
    requires i < |Pages(currentPage, totalPages)|
    ensures ChangePage(Pages(currentPage, totalPages)[i], totalPages) == [Pages(currentPage, totalPages)[i]]
  {
  }
}
