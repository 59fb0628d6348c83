/**
 * The storefront's page-number bar: which page numbers and "..." markers
 * it lists around the current page, and where its previous, next and "..."
 * buttons lead.
 */
module Pagination {
  import opened Seqs

  /** One button of the bar: a page number, or the "..." on either side. */
  datatype Entry = Page(n: int) | LeftDots | RightDots

  function Max(a: int, b: int): int
  {
    if a >= b then a else b
  }

  function Min(a: int, b: int): int
  {
    if a <= b then a else b
  }

  /** The first page of the window around the current page. */
  function LeftSibling(current: int, siblingCount: int): int
  {
    Max(current - siblingCount, 1)
  }

  /** The last page of the window around the current page. */
  function RightSibling(current: int, totalPages: int, siblingCount: int): int
  {
    Min(current + siblingCount, totalPages)
  }

  /** The bar is drawn only when there is more than one page. */
  predicate Rendered(totalPages: int)
  {
    totalPages > 1
  }

  /** Page buttons lo, lo + 1, ..., hi (none when hi < lo). */
  function Pages(lo: int, hi: int): (r: seq<Entry>)
    ensures |r| == if hi < lo then 0 else hi - lo + 1
    ensures forall i :: 0 <= i < |r| ==> r[i] == Page(lo + i)
  {
    seq(if hi < lo then 0 else hi - lo + 1, i => Page(lo + i))
  }

  /** The buttons before the window: page 1 when the window starts later, then "..." when it starts after page 2. */
  function Front(left: int): seq<Entry>
  {
    (if 1 < left then [Page(1)] else []) + (if left > 2 then [LeftDots] else [])
  }

  /** The buttons after the window: "..." when it ends before the last page but one, then the last page when it ends earlier. */
  function Back(right: int, totalPages: int): seq<Entry>
  {
    (if right < totalPages - 1 then [RightDots] else []) + (if right < totalPages then [Page(totalPages)] else [])
  }

  /** The buttons `generatePagination` lists, left to right. */
  function Layout(current: int, totalPages: int, siblingCount: int): seq<Entry>
  {
    var left := LeftSibling(current, siblingCount);
    var right := RightSibling(current, totalPages, siblingCount);
    Front(left) + Pages(left, right) + Back(right, totalPages)
  }

  /** `generatePagination`: the first page, the left dots, the window, the right dots and the last page, each pushed when its condition holds. */
  method GeneratePagination(current: int, totalPages: int, siblingCount: int) returns (pages: seq<Entry>)
    ensures pages == Layout(current, totalPages, siblingCount)
  {
    var left := LeftSibling(current, siblingCount);
    var right := RightSibling(current, totalPages, siblingCount);
    pages := [];
    if 1 < left {
      pages := pages + [Page(1)];
    }
    if left > 2 {
      pages := pages + [LeftDots];
    }
    assert pages == Front(left);
    var head := pages;
    var i := left;
    while i <= right
      invariant left <= i <= (if right < left then left else right + 1)
      invariant pages == head + Pages(left, i - 1)
      decreases right - i
    {
      pages := pages + [Page(i)];
      i := i + 1;
    }
    assert pages == Front(left) + Pages(left, right);
    ghost var window := pages;
    if right < totalPages - 1 {
      pages := pages + [RightDots];
    }
    if right < totalPages {
      pages := pages + [Page(totalPages)];
    }
    assert pages == window + Back(right, totalPages);
  }

  /** The conditions under which the bar is shown for a page that exists. */
  predicate Sensible(current: int, totalPages: int, siblingCount: int)
  {
    Rendered(totalPages) && 1 <= current <= totalPages && siblingCount >= 0
  }

  /**
   * The bar starts with page 1 and ends with the last page, lists every
   * page of the window (the current one among them), and shows each "..."
   * exactly when pages are skipped on that side.
   */
  lemma LayoutShape(current: int, totalPages: int, siblingCount: int)
    requires Sensible(current, totalPages, siblingCount)
    ensures var pages := Layout(current, totalPages, siblingCount);
      var left := LeftSibling(current, siblingCount);
      var right := RightSibling(current, totalPages, siblingCount);
      && |pages| > 0
      && pages[0] == Page(1)
      && pages[|pages| - 1] == Page(totalPages)
      && Page(current) in pages
      && (forall i :: left <= i <= right ==> Page(i) in pages)
      && (LeftDots in pages <==> left > 2)
      && (RightDots in pages <==> right < totalPages - 1)
  {
    var left := LeftSibling(current, siblingCount);
    var right := RightSibling(current, totalPages, siblingCount);
    var head, window, tail := Parts(current, totalPages, siblingCount);
    var pages := head + window + tail;
    assert pages[|head|] == window[0];
    assert pages[|head| + |window| - 1] == window[|window| - 1];
    forall i | left <= i <= right
      ensures Page(i) in pages
    {
      assert pages[|head| + i - left] == window[i - left];
    }
    assert LeftDots !in window && RightDots !in window;
  }

  /**
   * Read left to right, consecutive page buttons are consecutive pages, and
   * every "..." sits between two page buttons that skip at least one page.
   */
  predicate GapsMarked(pages: seq<Entry>)
  {
    forall k :: 0 <= k < |pages| - 1 ==>
      (pages[k].Page? && pages[k + 1].Page? ==> pages[k + 1].n == pages[k].n + 1) &&
      (!pages[k + 1].Page? ==>
        k + 2 < |pages| && pages[k].Page? && pages[k + 2].Page? && pages[k + 2].n > pages[k].n + 1)
  }

  lemma LayoutGapsMarked(current: int, totalPages: int, siblingCount: int)
    requires Sensible(current, totalPages, siblingCount)
    ensures GapsMarked(Layout(current, totalPages, siblingCount))
  {
    var pages := Layout(current, totalPages, siblingCount);
    forall k | 0 <= k < |pages| - 1
      ensures pages[k].Page? && pages[k + 1].Page? ==> pages[k + 1].n == pages[k].n + 1
      ensures !pages[k + 1].Page? ==>
        k + 2 < |pages| && pages[k].Page? && pages[k + 2].Page? && pages[k + 2].n > pages[k].n + 1
    {
      GapAt(current, totalPages, siblingCount, k);
    }
  }

  /** The bar as its three parts: the head before the window, the window, the tail after it. */
  lemma Parts(current: int, totalPages: int, siblingCount: int)
    returns (head: seq<Entry>, window: seq<Entry>, tail: seq<Entry>)
    requires Sensible(current, totalPages, siblingCount)
    ensures Layout(current, totalPages, siblingCount) == head + window + tail
    ensures window == Pages(LeftSibling(current, siblingCount), RightSibling(current, totalPages, siblingCount))
    ensures |window| > 0
    ensures var left := LeftSibling(current, siblingCount);
      head == if left == 1 then [] else if left == 2 then [Page(1)] else [Page(1), LeftDots]
    ensures var right := RightSibling(current, totalPages, siblingCount);
      tail == if right == totalPages then [] else if right == totalPages - 1 then [Page(totalPages)]
              else [RightDots, Page(totalPages)]
  {
    var left := LeftSibling(current, siblingCount);
    var right := RightSibling(current, totalPages, siblingCount);
    window := Pages(left, right);
    head := Front(left);
    tail := Back(right, totalPages);
  }

  lemma GapAt(current: int, totalPages: int, siblingCount: int, k: int)
    requires Sensible(current, totalPages, siblingCount)
    requires 0 <= k < |Layout(current, totalPages, siblingCount)| - 1
    ensures var pages := Layout(current, totalPages, siblingCount);
      && (pages[k].Page? && pages[k + 1].Page? ==> pages[k + 1].n == pages[k].n + 1)
      && (!pages[k + 1].Page? ==>
            k + 2 < |pages| && pages[k].Page? && pages[k + 2].Page? && pages[k + 2].n > pages[k].n + 1)
  {
    var head, window, tail := Parts(current, totalPages, siblingCount);
    var pages := head + window + tail;
    var m := |head| + |window|;
    if k + 1 < |head| {
      assert pages[k + 2] == window[0];
    } else if k + 1 == |head| {
      assert pages[k + 1] == window[0];
    } else if k + 1 < m {
      assert pages[k] == window[k - |head|] && pages[k + 1] == window[k + 1 - |head|];
    } else if k + 1 == m {
      assert pages[k] == window[|window| - 1];
      assert pages[k + 1] == tail[0];
      if |tail| == 2 {
        assert pages[k + 2] == tail[1];
      }
    } else {
      assert pages[k + 1] == tail[1];
    }
  }

  /** `handlePrevious`: the page it moves to, if any. */
  function Previous(current: int): (r: Option<int>)
  {
    if current > 1 then Some(current - 1) else None
  }

  /** `handleNext`: the page it moves to, if any. */
  function Next(current: int, totalPages: int): (r: Option<int>)
  {
    if current < totalPages then Some(current + 1) else None
  }

  /** `handleDots`: five pages back or forward, clamped to the first and last page. */
  function JumpFrom(dots: Entry, current: int, totalPages: int): int
  {
    if dots == LeftDots then Max(1, current - 5) else Min(totalPages, current + 5)
  }

  /**
   * From any page of the bar, previous, next and both "..." lead to a page
   * that exists; previous and next move by one, the dots by at most five.
   */
  lemma NavigationStaysInRange(current: int, totalPages: int)
    requires 1 <= current <= totalPages
    ensures Previous(current).Some? ==> 1 <= Previous(current).value == current - 1
    ensures Previous(current).None? <==> current == 1
    ensures Next(current, totalPages).Some? ==> Next(current, totalPages).value == current + 1 <= totalPages
    ensures Next(current, totalPages).None? <==> current == totalPages
    ensures 1 <= JumpFrom(LeftDots, current, totalPages) <= current
    ensures current - JumpFrom(LeftDots, current, totalPages) <= 5
    ensures current <= JumpFrom(RightDots, current, totalPages) <= totalPages
    ensures JumpFrom(RightDots, current, totalPages) - current <= 5
  {
  }
}
