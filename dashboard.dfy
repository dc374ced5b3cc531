/**
 * The pagination and display arithmetic of the dashboard script
 * (public/js/dashboard.js): which page buttons `renderPagination` shows,
 * the guard in `changePage`, and how `renderTableRows` shortens passwords.
 * The HTML text itself is reduced to the sequence of controls it contains.
 */
module Dashboard {
  import opened Common

  const MaxButtons: int := 7
  const PasswordDisplayLength: nat := 30
  const Ellipsis3: string := "..."

  /** One control of the pagination bar, in the order it is rendered. */
  datatype PageItem =
    | Previous(disabled: bool, target: int)
    | PageLink(page: int, active: bool)
    | Ellipsis
    | Following(disabled: bool, target: int)

  function Max(a: int, b: int): int { if a >= b then a else b }
  function Min(a: int, b: int): int { if a <= b then a else b }

  /** The first and last numbered button of the sliding window. */
  datatype PageWindow = PageWindow(start: int, end: int)

  function WindowOf(totalPages: int, currentPage: int): PageWindow
  {
    var start := Max(1, currentPage - MaxButtons / 2);
    var end := Min(totalPages, start + MaxButtons - 1);
    if end - start < MaxButtons - 1 then PageWindow(Max(1, end - MaxButtons + 1), end)
    else PageWindow(start, end)
  }

  /**
   * For two or more pages the window lies inside `1..totalPages` and holds
   * `min(7, totalPages)` consecutive pages, whatever the current page; a
   * current page inside `1..totalPages` is inside the window.
   */
  lemma WindowBounds(totalPages: int, currentPage: int)
    requires totalPages >= 2
    ensures var w := WindowOf(totalPages, currentPage);
      && 1 <= w.start <= w.end <= totalPages
      && w.end - w.start + 1 == Min(MaxButtons, totalPages)
      && (1 <= currentPage <= totalPages ==> w.start <= currentPage <= w.end)
  {
  }

  /** Numbered buttons for the pages `lo .. hi - 1`, the current one active. */
  function PageRange(lo: int, hi: int, currentPage: int): (r: seq<PageItem>)
    requires lo <= hi
    ensures |r| == hi - lo
    ensures forall j :: 0 <= j < |r| ==> r[j] == PageLink(lo + j, lo + j == currentPage)
  {
    seq(hi - lo, j requires 0 <= j < hi - lo => PageLink(lo + j, lo + j == currentPage))
  }

  lemma RangeGrows(lo: int, hi: int, currentPage: int)
    requires lo <= hi
    ensures PageRange(lo, hi + 1, currentPage) == PageRange(lo, hi, currentPage) + [PageLink(hi, hi == currentPage)]
  {
  }

  /** One more page button at the end of a bar that ends with a range of pages. */
  lemma ExtendRange(before: seq<PageItem>, lo: int, hi: int, currentPage: int)
    requires lo <= hi
    ensures before + PageRange(lo, hi + 1, currentPage)
         == (before + PageRange(lo, hi, currentPage)) + [PageLink(hi, hi == currentPage)]
  {
    RangeGrows(lo, hi, currentPage);
  }

  /** The button for page 1 and the ellipsis after it, when the window does not start at 1. */
  function Lead(start: int): seq<PageItem>
  {
    if start > 1 then [PageLink(1, false)] + (if start > 2 then [Ellipsis] else []) else []
  }

  /** The ellipsis and the button for the last page, when the window does not reach it. */
  function Trail(end: int, totalPages: int): seq<PageItem>
  {
    if end < totalPages then (if end < totalPages - 1 then [Ellipsis] else []) + [PageLink(totalPages, false)]
    else []
  }

  /** The controls between the two arrows. */
  function Numbered(totalPages: int, currentPage: int): seq<PageItem>
    requires totalPages >= 2
  {
    var w := WindowOf(totalPages, currentPage);
    Lead(w.start) + PageRange(w.start, w.end + 1, currentPage) + Trail(w.end, totalPages)
  }

  /** The controls `renderPagination(totalPages, currentPage)` renders, in order. */
  function PaginationItems(totalPages: int, currentPage: int): seq<PageItem>
  {
    if totalPages <= 1 then []
    else
      [Previous(currentPage == 1, currentPage - 1)]
      + Numbered(totalPages, currentPage)
      + [Following(currentPage == totalPages, currentPage + 1)]
  }

  /**
   * `renderPagination`: nothing for at most one page; otherwise the
   * previous arrow, the first page and an ellipsis if the window starts
   * later, the window's pages one by one, an ellipsis and the last page if
   * it ends earlier, and the next arrow.
   */
  method RenderPagination(totalPages: int, currentPage: int) returns (items: seq<PageItem>)
    ensures items == PaginationItems(totalPages, currentPage)
  {
    if totalPages <= 1 {
      return [];
    }
    var prev := Previous(currentPage == 1, currentPage - 1);
    items := [prev];
    var startPage := Max(1, currentPage - MaxButtons / 2);
    var endPage := Min(totalPages, startPage + MaxButtons - 1);
    if endPage - startPage < MaxButtons - 1 {
      startPage := Max(1, endPage - MaxButtons + 1);
    }
    assert WindowOf(totalPages, currentPage) == PageWindow(startPage, endPage);
    WindowBounds(totalPages, currentPage);
    if startPage > 1 {
      items := items + [PageLink(1, false)];
      if startPage > 2 {
        items := items + [Ellipsis];
        assert items == [prev] + Lead(startPage);
      }
    }
    assert items == [prev] + Lead(startPage);
    var before := items;
    var i := startPage;
    while i <= endPage
      invariant startPage <= i <= endPage + 1
      invariant items == before + PageRange(startPage, i, currentPage)
    {
      ExtendRange(before, startPage, i, currentPage);
      items := items + [PageLink(i, i == currentPage)];
      i := i + 1;
    }
    var middle := items;
    if endPage < totalPages {
      if endPage < totalPages - 1 {
        items := items + [Ellipsis];
      }
      items := items + [PageLink(totalPages, false)];
      assert items == middle + Trail(endPage, totalPages);
    }
    assert items == middle + Trail(endPage, totalPages);
    items := items + [Following(currentPage == totalPages, currentPage + 1)];
    PaginationParts(totalPages, currentPage);
  }

  /** The bar as the concatenation the rendering loop builds, piece by piece from the left. */
  lemma PaginationParts(totalPages: int, currentPage: int)
    requires totalPages >= 2
    ensures var w := WindowOf(totalPages, currentPage);
      PaginationItems(totalPages, currentPage)
      == [Previous(currentPage == 1, currentPage - 1)] + Lead(w.start)
         + PageRange(w.start, w.end + 1, currentPage) + Trail(w.end, totalPages)
         + [Following(currentPage == totalPages, currentPage + 1)]
  {
    WindowBounds(totalPages, currentPage);
  }

  /**
   * Between the arrows only page buttons and ellipses appear; two adjacent
   * buttons are for consecutive pages, and an ellipsis always stands
   * between two buttons whose pages are at least two apart, that is,
   * exactly where page numbers are skipped.
   */
  predicate Spaced(m: seq<PageItem>)
  {
    && (forall i :: 0 <= i < |m| ==> m[i].PageLink? || m[i].Ellipsis?)
    && (forall i :: 0 <= i < |m| - 1 && m[i].PageLink? && m[i + 1].PageLink? ==> m[i + 1].page == m[i].page + 1)
    && (forall i :: 0 <= i < |m| && m[i].Ellipsis? ==>
          0 < i < |m| - 1 && m[i - 1].PageLink? && m[i + 1].PageLink? && m[i + 1].page > m[i - 1].page + 1)
  }

  lemma RangeSpaced(lo: int, hi: int, currentPage: int)
    requires lo <= hi
    ensures Spaced(PageRange(lo, hi, currentPage))
  {
  }

  /** A button for the page just before the first one shown keeps the bar spaced. */
  lemma PrependNext(p: int, m: seq<PageItem>)
    requires Spaced(m) && m != [] && m[0].PageLink? && m[0].page == p + 1
    ensures Spaced([PageLink(p, false)] + m)
  {
    var n := [PageLink(p, false)] + m;
    forall i | 0 <= i < |n| - 1 && n[i].PageLink? && n[i + 1].PageLink?
      ensures n[i + 1].page == n[i].page + 1
    {
      assert n[i + 1] == m[i];
      if i > 0 {
        assert n[i] == m[i - 1];
      }
    }
    forall i | 0 <= i < |n| && n[i].Ellipsis?
      ensures 0 < i < |n| - 1 && n[i - 1].PageLink? && n[i + 1].PageLink? && n[i + 1].page > n[i - 1].page + 1
    {
      assert n[i] == m[i - 1];
      assert n[i + 1] == m[i];
      assert n[i - 1] == m[i - 2];
    }
  }

  /** A button for a page at least two before the first one shown, with an ellipsis, keeps it spaced. */
  lemma PrependGap(p: int, m: seq<PageItem>)
    requires Spaced(m) && m != [] && m[0].PageLink? && m[0].page > p + 1
    ensures Spaced([PageLink(p, false), Ellipsis] + m)
  {
    var n := [PageLink(p, false), Ellipsis] + m;
    forall i | 0 <= i < |n| - 1 && n[i].PageLink? && n[i + 1].PageLink?
      ensures n[i + 1].page == n[i].page + 1
    {
      assert n[i] == m[i - 2] && n[i + 1] == m[i - 1];
    }
    forall i | 0 <= i < |n| && n[i].Ellipsis?
      ensures 0 < i < |n| - 1 && n[i - 1].PageLink? && n[i + 1].PageLink? && n[i + 1].page > n[i - 1].page + 1
    {
      if i > 1 {
        assert n[i] == m[i - 2];
        assert n[i + 1] == m[i - 1];
        assert n[i - 1] == m[i - 3];
      } else {
        assert n[2] == m[0];
      }
    }
  }

  lemma AppendNext(m: seq<PageItem>, p: int)
    requires Spaced(m) && m != [] && m[|m| - 1].PageLink? && m[|m| - 1].page == p - 1
    ensures Spaced(m + [PageLink(p, false)])
  {
    var n := m + [PageLink(p, false)];
    forall i | 0 <= i < |n| - 1 && n[i].PageLink? && n[i + 1].PageLink?
      ensures n[i + 1].page == n[i].page + 1
    {
      assert n[i] == m[i];
      if i + 1 < |m| {
        assert n[i + 1] == m[i + 1];
      }
    }
    forall i | 0 <= i < |n| && n[i].Ellipsis?
      ensures 0 < i < |n| - 1 && n[i - 1].PageLink? && n[i + 1].PageLink? && n[i + 1].page > n[i - 1].page + 1
    {
      assert n[i] == m[i];
      assert n[i - 1] == m[i - 1];
      assert n[i + 1] == m[i + 1];
    }
  }

  lemma AppendGap(m: seq<PageItem>, p: int)
    requires Spaced(m) && m != [] && m[|m| - 1].PageLink? && m[|m| - 1].page < p - 1
    ensures Spaced(m + [Ellipsis, PageLink(p, false)])
  {
    var n := m + [Ellipsis, PageLink(p, false)];
    forall i | 0 <= i < |n| - 1 && n[i].PageLink? && n[i + 1].PageLink?
      ensures n[i + 1].page == n[i].page + 1
    {
      assert n[i] == m[i] && n[i + 1] == m[i + 1];
    }
    forall i | 0 <= i < |n| && n[i].Ellipsis?
      ensures 0 < i < |n| - 1 && n[i - 1].PageLink? && n[i + 1].PageLink? && n[i + 1].page > n[i - 1].page + 1
    {
      if i < |m| {
        assert n[i] == m[i];
        assert n[i - 1] == m[i - 1];
        assert n[i + 1] == m[i + 1];
      } else {
        assert n[i - 1] == m[|m| - 1];
      }
    }
  }

  lemma LeadRange(start: int, end: int, currentPage: int)
    requires 1 <= start <= end
    ensures var m := Lead(start) + PageRange(start, end + 1, currentPage);
      Spaced(m) && m[0].PageLink? && m[0].page == 1 && m[|m| - 1] == PageLink(end, end == currentPage)
  {
    LeadRangeEnds(start, end, currentPage);
    LeadRangeSpaced(start, end, currentPage);
  }

  lemma LeadRangeEnds(start: int, end: int, currentPage: int)
    requires 1 <= start <= end
    ensures var m := Lead(start) + PageRange(start, end + 1, currentPage);
      m[0].PageLink? && m[0].page == 1 && m[|m| - 1] == PageLink(end, end == currentPage)
  {
    var r := PageRange(start, end + 1, currentPage);
    var m := Lead(start) + r;
    assert m[|m| - 1] == r[|r| - 1];
    if start == 1 {
      assert m[0] == r[0];
    }
  }

  lemma LeadRangeSpaced(start: int, end: int, currentPage: int)
    requires 1 <= start <= end
    ensures Spaced(Lead(start) + PageRange(start, end + 1, currentPage))
  {
    var r := PageRange(start, end + 1, currentPage);
    RangeSpaced(start, end + 1, currentPage);
    LeadSpaced(start, r);
  }

  /** The lead in front of a spaced bar that starts at page `start` keeps it spaced. */
  lemma LeadSpaced(start: int, r: seq<PageItem>)
    requires 1 <= start && Spaced(r) && r != [] && r[0].PageLink? && r[0].page == start
    ensures Spaced(Lead(start) + r)
  {
    if start == 2 {
      assert Lead(start) + r == [PageLink(1, false)] + r;
      PrependNext(1, r);
    } else if start > 2 {
      assert Lead(start) + r == [PageLink(1, false), Ellipsis] + r;
      PrependGap(1, r);
    } else {
      assert Lead(start) + r == r;
    }
  }

  lemma SpacedWithTrail(m: seq<PageItem>, end: int, totalPages: int)
    requires Spaced(m) && m != [] && m[|m| - 1].PageLink? && m[|m| - 1].page == end <= totalPages
    ensures var n := m + Trail(end, totalPages);
      Spaced(n) && n[0] == m[0] && n[|n| - 1].PageLink? && n[|n| - 1].page == totalPages
  {
    if end == totalPages - 1 {
      AppendNext(m, totalPages);
    } else if end < totalPages - 1 {
      AppendGap(m, totalPages);
      assert m + Trail(end, totalPages) == m + [Ellipsis, PageLink(totalPages, false)];
    } else {
      assert m + Trail(end, totalPages) == m;
    }
  }

  /** The pages with a button are 1, the last page and the pages of the window. */
  lemma NumberedPages(totalPages: int, currentPage: int)
    requires totalPages >= 2
    ensures var m := Numbered(totalPages, currentPage);
            var w := WindowOf(totalPages, currentPage);
      forall i :: 0 <= i < |m| && m[i].PageLink? ==>
        m[i].page == 1 || m[i].page == totalPages || w.start <= m[i].page <= w.end
  {
    var w := WindowOf(totalPages, currentPage);
    WindowBounds(totalPages, currentPage);
    var lead := Lead(w.start);
    var r := PageRange(w.start, w.end + 1, currentPage);
    var m := Numbered(totalPages, currentPage);
    forall i | 0 <= i < |m| && m[i].PageLink?
      ensures m[i].page == 1 || m[i].page == totalPages || w.start <= m[i].page <= w.end
    {
      if |lead| <= i < |lead| + |r| {
        assert m[i] == r[i - |lead|];
      }
    }
  }

  /**
   * The numbered part of the bar starts with page 1, ends with the last
   * page, and shows consecutive pages side by side and an ellipsis for
   * every gap, as `Spaced` says.
   */
  lemma NumberedShape(totalPages: int, currentPage: int)
    requires totalPages >= 2
    ensures var m := Numbered(totalPages, currentPage);
      && Spaced(m)
      && m[0].PageLink? && m[0].page == 1
      && m[|m| - 1].PageLink? && m[|m| - 1].page == totalPages
  {
    var w := WindowOf(totalPages, currentPage);
    WindowBounds(totalPages, currentPage);
    LeadRange(w.start, w.end, currentPage);
    var lr := Lead(w.start) + PageRange(w.start, w.end + 1, currentPage);
    SpacedWithTrail(lr, w.end, totalPages);
    var m := Numbered(totalPages, currentPage);
    assert m == lr + Trail(w.end, totalPages);
  }

  /**
   * Exactly one button is marked active when the current page is one of
   * the pages, and it is the current page's; no button is active otherwise.
   */
  lemma ActiveButton(totalPages: int, currentPage: int)
    requires totalPages >= 2
    ensures var m := Numbered(totalPages, currentPage);
      && (forall i :: 0 <= i < |m| && m[i].PageLink? && m[i].active ==> m[i].page == currentPage)
      && (1 <= currentPage <= totalPages <==> exists i :: 0 <= i < |m| && m[i] == PageLink(currentPage, true))
  {
    var w := WindowOf(totalPages, currentPage);
    WindowBounds(totalPages, currentPage);
    var lead := Lead(w.start);
    var r := PageRange(w.start, w.end + 1, currentPage);
    var m := Numbered(totalPages, currentPage);
    assert m == lead + r + Trail(w.end, totalPages);
    if 1 <= currentPage <= totalPages {
      var j := currentPage - w.start;
      assert m[|lead| + j] == r[j];
    }
  }

  /** `changePage(page)`: a page below 1 is ignored; any other page is loaded. */
  function ChangePage(page: int): (load: Option<int>)
    ensures load.Some? <==> page >= 1
    ensures load.Some? ==> load.value == page
  {
    if page < 1 then None else Some(page)
  }

  /**
   * With the current page among the pages, every button and enabled arrow
   * leads to a page between 1 and the last; the guard refuses the disabled
   * previous arrow on page 1, but not the disabled next arrow on the last
   * page, which would ask for the page after the last.
   */
  lemma ControlsStayInRange(totalPages: int, currentPage: int)
    requires 1 <= currentPage <= totalPages && totalPages >= 2
    ensures var items := PaginationItems(totalPages, currentPage);
      forall i :: 0 <= i < |items| ==>
        match items[i]
        case PageLink(p, _) => ChangePage(p) == Some(p) && 1 <= p <= totalPages
        case Previous(disabled, t) => disabled <==> ChangePage(t).None?
        case Following(disabled, t) =>
          (disabled ==> ChangePage(t) == Some(totalPages + 1))
          && (!disabled ==> ChangePage(t) == Some(t) && t <= totalPages)
        case Ellipsis => true
  {
    NumberedShape(totalPages, currentPage);
    var m := Numbered(totalPages, currentPage);
    var w := WindowOf(totalPages, currentPage);
    WindowBounds(totalPages, currentPage);
    var items := PaginationItems(totalPages, currentPage);
    forall i | 0 <= i < |items| && items[i].PageLink?
      ensures 1 <= items[i].page <= totalPages
    {
      assert items[i] == m[i - 1];
    }
  }

  /**
   * `renderTableRows` shows a password of more than 30 characters as its
   * first 30 followed by "...", and a shorter one whole: at most 33
   * characters are shown, and never more of the password than its first 30.
   */
  function DisplayPassword(p: string): (shown: string)
    ensures |p| <= PasswordDisplayLength ==> shown == p
    ensures |p| > PasswordDisplayLength ==>
              |shown| == PasswordDisplayLength + 3
              && shown[..PasswordDisplayLength] == p[..PasswordDisplayLength]
              && shown[PasswordDisplayLength..] == Ellipsis3
  {
    if |p| > PasswordDisplayLength then p[..PasswordDisplayLength] + Ellipsis3 else p
  }
}
