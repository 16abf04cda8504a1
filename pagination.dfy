/**
 * The product-list pagination bar: the window of page buttons `getPageNumbers`
 * builds (every page when there are at most seven, else the first page, the last
 * page and a few around the current one, with ellipses for the gaps), the
 * "showing items a to b" range, and the guard that hides the bar for a single page.
 */
module Pagination {
  import opened Wrappers

  /** An entry of the bar: a page button or an ellipsis. */
  datatype PageEntry = Page(n: int) | Ellipsis

  /** The most entries the bar shows. */
  const MaxVisible: int := 7

  /** The buttons for pages `lo` to `hi`, in order; none when `hi < lo`. */
  function Range(lo: int, hi: int): (r: seq<PageEntry>)
    ensures |r| == if hi < lo then 0 else hi - lo + 1
    ensures forall k :: 0 <= k < |r| ==> r[k] == Page(lo + k)
    decreases hi - lo
  {
    if hi < lo then [] else Range(lo, hi - 1) + [Page(hi)]
  }

  /** The window `getPageNumbers` returns for the current page and the page count. */
  function Window(currentPage: int, totalPages: int): (w: seq<PageEntry>)
    ensures |w| == if totalPages < 1 then 0 else if totalPages <= MaxVisible then totalPages else MaxVisible
    ensures |w| > 0 ==> w[0] == Page(1) && w[|w| - 1] == Page(totalPages)
  {
    if totalPages <= MaxVisible then Range(1, totalPages)
    else if currentPage <= 3 then [Page(1)] + Range(2, 5) + [Ellipsis, Page(totalPages)]
    else if currentPage >= totalPages - 2 then [Page(1), Ellipsis] + Range(totalPages - 4, totalPages)
    else [Page(1), Ellipsis] + Range(currentPage - 1, currentPage + 1) + [Ellipsis, Page(totalPages)]
  }

  /** Appends the buttons for pages `lo` to `hi`, one at a time. */
  method PushRange(pages: seq<PageEntry>, lo: int, hi: int) returns (out: seq<PageEntry>)
    ensures out == pages + Range(lo, hi)
  {
    out := pages;
    var i := lo;
    while i <= hi
      invariant lo <= i <= if lo <= hi then hi + 1 else lo
      invariant out == pages + Range(lo, i - 1)
      decreases hi - i
    {
      out := out + [Page(i)];
      i := i + 1;
    }
  }

  /** `getPageNumbers`: pushes the entries of the window branch by branch. */
  method GetPageNumbers(currentPage: int, totalPages: int) returns (pages: seq<PageEntry>)
    ensures pages == Window(currentPage, totalPages)
  {
    pages := [];
    if totalPages <= MaxVisible {
      pages := PushRange(pages, 1, totalPages);
    } else {
      pages := pages + [Page(1)];
      if currentPage <= 3 {
        pages := PushRange(pages, 2, 5);
        pages := pages + [Ellipsis];
        pages := pages + [Page(totalPages)];
      } else if currentPage >= totalPages - 2 {
        pages := pages + [Ellipsis];
        pages := PushRange(pages, totalPages - 4, totalPages);
      } else {
        pages := pages + [Ellipsis];
        pages := PushRange(pages, currentPage - 1, currentPage + 1);
        pages := pages + [Ellipsis];
        pages := pages + [Page(totalPages)];
      }
    }
  }

  // ------------------------------------------------------------ properties

  /** Page buttons appear in strictly increasing order. */
  predicate Increasing(pages: seq<PageEntry>)
  {
    forall i, j :: 0 <= i < j < |pages| && pages[i].Page? && pages[j].Page? ==> pages[i].n < pages[j].n
  }

  /** Every page button is a page that exists. */
  predicate WithinPages(pages: seq<PageEntry>, totalPages: int)
  {
    forall i :: 0 <= i < |pages| && pages[i].Page? ==> 1 <= pages[i].n <= totalPages
  }

  /** Every ellipsis sits between two page buttons and stands for at least one hidden page. */
  predicate EllipsesHidePages(pages: seq<PageEntry>)
  {
    forall i :: 0 <= i < |pages| && pages[i].Ellipsis? ==>
      0 < i < |pages| - 1 && pages[i - 1].Page? && pages[i + 1].Page? && pages[i + 1].n - pages[i - 1].n >= 2
  }

  /** With at most seven pages, the bar lists every page, in order, with no ellipsis. */
  lemma SmallShowsAll(currentPage: int, totalPages: int)
    requires totalPages <= MaxVisible
    ensures |Window(currentPage, totalPages)| == if totalPages < 1 then 0 else totalPages
    ensures forall k :: 0 <= k < |Window(currentPage, totalPages)| ==> Window(currentPage, totalPages)[k] == Page(k + 1)
  {
  }

  /** Near the beginning the bar is 1 2 3 4 5 … last. */
  lemma NearBeginning(currentPage: int, totalPages: int)
    requires totalPages > MaxVisible && currentPage <= 3
    ensures Window(currentPage, totalPages) == [Page(1), Page(2), Page(3), Page(4), Page(5), Ellipsis, Page(totalPages)]
  {
    assert Range(2, 5) == [Page(2), Page(3), Page(4), Page(5)];
  }

  /** Near the end the bar is 1 … and the last five pages. */
  lemma NearEnd(currentPage: int, totalPages: int)
    requires totalPages > MaxVisible && 3 < currentPage && currentPage >= totalPages - 2
    ensures Window(currentPage, totalPages) ==
      [Page(1), Ellipsis, Page(totalPages - 4), Page(totalPages - 3), Page(totalPages - 2), Page(totalPages - 1), Page(totalPages)]
  {
    var r := Range(totalPages - 4, totalPages);
    assert r == [Page(totalPages - 4), Page(totalPages - 3), Page(totalPages - 2), Page(totalPages - 1), Page(totalPages)];
  }

  /** In the middle the bar is 1 … c−1 c c+1 … last. */
  lemma InTheMiddle(currentPage: int, totalPages: int)
    requires totalPages > MaxVisible && 3 < currentPage < totalPages - 2
    ensures Window(currentPage, totalPages) ==
      [Page(1), Ellipsis, Page(currentPage - 1), Page(currentPage), Page(currentPage + 1), Ellipsis, Page(totalPages)]
  {
    var r := Range(currentPage - 1, currentPage + 1);
    assert r == [Page(currentPage - 1), Page(currentPage), Page(currentPage + 1)];
  }

  /** The four shape properties below, together. */
  predicate WellFormed(pages: seq<PageEntry>, totalPages: int)
  {
    |pages| <= MaxVisible && Increasing(pages) && WithinPages(pages, totalPages) && EllipsesHidePages(pages)
  }

  lemma SmallWellFormed(currentPage: int, totalPages: int)
    requires totalPages <= MaxVisible
    ensures WellFormed(Window(currentPage, totalPages), totalPages)
  {
    SmallShowsAll(currentPage, totalPages);
  }

  lemma NearBeginningWellFormed(currentPage: int, totalPages: int)
    requires totalPages > MaxVisible && currentPage <= 3
    ensures WellFormed(Window(currentPage, totalPages), totalPages)
  {
    NearBeginning(currentPage, totalPages);
  }

  lemma NearEndWellFormed(currentPage: int, totalPages: int)
    requires totalPages > MaxVisible && 3 < currentPage && currentPage >= totalPages - 2
    ensures WellFormed(Window(currentPage, totalPages), totalPages)
  {
    NearEnd(currentPage, totalPages);
  }

  lemma InTheMiddleWellFormed(currentPage: int, totalPages: int)
    requires totalPages > MaxVisible && 3 < currentPage < totalPages - 2
    ensures WellFormed(Window(currentPage, totalPages), totalPages)
  {
    InTheMiddle(currentPage, totalPages);
  }

  /**
   * In every branch: at most seven entries, page buttons strictly increasing and
   * within 1 to the page count, and every ellipsis between two buttons with at
   * least one page hidden between them.
   */
  lemma WindowWellFormed(currentPage: int, totalPages: int)
    ensures |Window(currentPage, totalPages)| <= MaxVisible
    ensures Increasing(Window(currentPage, totalPages))
    ensures WithinPages(Window(currentPage, totalPages), totalPages)
    ensures EllipsesHidePages(Window(currentPage, totalPages))
  {
    if totalPages <= MaxVisible {
      SmallWellFormed(currentPage, totalPages);
    } else if currentPage <= 3 {
      NearBeginningWellFormed(currentPage, totalPages);
    } else if currentPage >= totalPages - 2 {
      NearEndWellFormed(currentPage, totalPages);
    } else {
      InTheMiddleWellFormed(currentPage, totalPages);
    }
  }

  /** An existing current page always has its button, and exactly one. */
  lemma CurrentPageShown(currentPage: int, totalPages: int)
    requires 1 <= currentPage <= totalPages
    ensures Page(currentPage) in Window(currentPage, totalPages)
    ensures forall i, j ::
      (0 <= i < |Window(currentPage, totalPages)| && 0 <= j < |Window(currentPage, totalPages)| &&
       Window(currentPage, totalPages)[i] == Page(currentPage) && Window(currentPage, totalPages)[j] == Page(currentPage)) ==> i == j
  {
    var w := Window(currentPage, totalPages);
    WindowWellFormed(currentPage, totalPages);
    if totalPages <= MaxVisible {
      SmallShowsAll(currentPage, totalPages);
      assert w[currentPage - 1] == Page(currentPage);
    } else if currentPage <= 3 {
      NearBeginning(currentPage, totalPages);
      assert w[currentPage - 1] == Page(currentPage);
    } else if currentPage >= totalPages - 2 {
      NearEnd(currentPage, totalPages);
      assert w[currentPage - totalPages + 6] == Page(currentPage);
    } else {
      InTheMiddle(currentPage, totalPages);
      assert w[3] == Page(currentPage);
    }
  }

  // ------------------------------------------------------- item range and guard

  /** `startItem`: the number of the first item on the current page. */
  function StartItem(currentPage: int, pageSize: int): (s: int)
    ensures currentPage >= 1 && pageSize >= 1 ==> s >= 1 && (s - 1) % pageSize == 0 && (s - 1) / pageSize == currentPage - 1
  {
    if currentPage >= 1 && pageSize >= 1 then
      WholePages(currentPage - 1, pageSize);
      (currentPage - 1) * pageSize + 1
    else
      (currentPage - 1) * pageSize + 1
  }

  /** `q` whole pages of `d` items hold `q * d` items, with nothing left over. */
  lemma WholePages(q: int, d: int)
    requires q >= 0 && d >= 1
    ensures (q * d) % d == 0 && (q * d) / d == q
  {
    var a, b := (q * d) / d, (q * d) % d;
    assert q * d == a * d + b && 0 <= b < d;
    assert (q - a) * d == b;
  }

  /** `endItem`: the number of the last item on the current page. */
  function EndItem(currentPage: int, pageSize: int, totalItems: int): (e: int)
    ensures e <= currentPage * pageSize && e <= totalItems
    ensures e == currentPage * pageSize || e == totalItems
  {
    if currentPage * pageSize <= totalItems then currentPage * pageSize else totalItems
  }

  /**
   * On a page that holds items, the range runs from its first to its last item,
   * within the item count, and covers at most one page's worth.
   */
  lemma ItemRange(currentPage: int, pageSize: int, totalItems: int)
    requires currentPage >= 1 && pageSize >= 1
    requires (currentPage - 1) * pageSize < totalItems
    ensures 1 <= StartItem(currentPage, pageSize) <= EndItem(currentPage, pageSize, totalItems) <= totalItems
    ensures EndItem(currentPage, pageSize, totalItems) - StartItem(currentPage, pageSize) < pageSize
  {
    assert (currentPage - 1) * pageSize >= 0;
    assert currentPage * pageSize == (currentPage - 1) * pageSize + pageSize;
  }

  /** Consecutive full pages tile the items: the next page starts right after this one ends. */
  lemma PagesTile(currentPage: int, pageSize: int, totalItems: int)
    requires currentPage * pageSize <= totalItems
    ensures StartItem(currentPage + 1, pageSize) == EndItem(currentPage, pageSize, totalItems) + 1
  {
  }

  /** What the bar renders: nothing, or the item range, the two arrows' state and the window. */
  datatype View = View(
    startItem: int,
    endItem: int,
    totalItems: int,
    previousDisabled: bool,
    nextDisabled: bool,
    pages: seq<PageEntry>)

  /** The component: hidden for a single page (or none); else the range, the arrows and the window. */
  function Render(currentPage: int, totalPages: int, totalItems: int, pageSize: int): (r: Option<View>)
    ensures r.None? <==> totalPages <= 1
    ensures r.Some? ==> r.value.pages == Window(currentPage, totalPages)
    ensures r.Some? ==> (r.value.previousDisabled <==> currentPage == 1) && (r.value.nextDisabled <==> currentPage == totalPages)
  {
    if totalPages <= 1 then None
    else Some(View(
      StartItem(currentPage, pageSize),
      EndItem(currentPage, pageSize, totalItems),
      totalItems,
      currentPage == 1,
      currentPage == totalPages,
      Window(currentPage, totalPages)))
  }

  /** On the first page the bar goes back nowhere; on the last it goes forward nowhere. */
  lemma ArrowsAtTheEnds(totalPages: int, totalItems: int, pageSize: int)
    requires totalPages > 1
    ensures Render(1, totalPages, totalItems, pageSize).value.previousDisabled
    ensures !Render(1, totalPages, totalItems, pageSize).value.nextDisabled
    ensures Render(totalPages, totalPages, totalItems, pageSize).value.nextDisabled
    ensures !Render(totalPages, totalPages, totalItems, pageSize).value.previousDisabled
  {
  }
}
