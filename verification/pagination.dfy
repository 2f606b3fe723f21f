/**
 * The client's pagination bar: Prev, up to three page numbers around the
 * current page, and Next. Page numbers are 1-based.
 */
module Pagination {
  import opened Common

  /** handlePageChange: the page handed to setPageNo, or None when it is out of range. */
  function HandlePageChange(page: int, noOfPages: int): (forwarded: Option<int>)
    ensures forwarded.Some? <==> 1 <= page <= noOfPages
    ensures forwarded.Some? ==> forwarded.value == page
  {
    if page >= 1 && page <= noOfPages then Some(page) else None
  }

  /** getPageNumbers: the previous page if any, the current page, the next page if any. */
  method GetPageNumbers(noOfPages: int, currentPage: int) returns (pages: seq<int>)
    ensures noOfPages <= 1 ==> pages == []
    ensures noOfPages > 1 ==> currentPage in pages
    ensures noOfPages > 1 ==> (currentPage - 1 in pages <==> currentPage > 1)
    ensures noOfPages > 1 ==> (currentPage + 1 in pages <==> currentPage < noOfPages)
    ensures |pages| <= 3
    ensures forall i :: 0 <= i < |pages| ==> pages[i] == pages[0] + i
    ensures 1 <= currentPage <= noOfPages ==> forall p :: p in pages ==> HandlePageChange(p, noOfPages) == Some(p)
    ensures 1 <= currentPage <= noOfPages && noOfPages > 1 ==> |pages| >= 2
  {
    pages := [];
    if noOfPages <= 1 {
      return pages;
    }
    if currentPage > 1 {
      pages := pages + [currentPage - 1];
    }
    pages := pages + [currentPage];
    if currentPage < noOfPages {
      pages := pages + [currentPage + 1];
    }
  }

  /** The Prev button is disabled exactly on page 1. */
  predicate PrevDisabled(currentPage: int)
  {
    currentPage == 1
  }

  /** The Next button is disabled exactly on the last page. */
  predicate NextDisabled(currentPage: int, noOfPages: int)
  {
    currentPage == noOfPages
  }

  /** Within range, an enabled Prev or Next forwards its page, and a disabled one would have been refused. */
  lemma ButtonsMatchBounds(currentPage: int, noOfPages: int)
    requires 1 <= currentPage <= noOfPages
    ensures !PrevDisabled(currentPage) <==> HandlePageChange(currentPage - 1, noOfPages).Some?
    ensures !NextDisabled(currentPage, noOfPages) <==> HandlePageChange(currentPage + 1, noOfPages).Some?
  {
  }
}
