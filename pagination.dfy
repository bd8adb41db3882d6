/** The pagination footer of the data table: the "Showing X to Y of Z" label,
    the window of at most five numbered page buttons, which button is active
    and which page index each button requests. */
module Pagination {
  import opened Wrappers

  /** TanStack's pagination state `{ pageIndex, pageSize }`, absent when the
      table is used without pagination. */
  datatype PaginationState = PaginationState(pageIndex: int, pageSize: int)

  /** The counts the footer derives from the table. */
  datatype Counts = Counts(hasPagination: bool, totalRows: nat, pageCount: int, pageIndex: int, pageSize: int)

  /** The largest number of numbered buttons the footer shows. */
  const MaxButtons: int := 5

  /** Reads the counts; `tablePageCount` is what the table reports as its
      page count and `totalRows` the length of its pre-pagination row model. */
  function FooterCounts(state: Option<PaginationState>, tablePageCount: int, totalRows: nat): (c: Counts)
    ensures c.hasPagination <==> state.Some?
    ensures c.totalRows == totalRows
    ensures state.Some? ==> c.pageCount == tablePageCount && c.pageIndex == state.value.pageIndex &&
                            c.pageSize == state.value.pageSize
    ensures state.None? ==> c.pageCount == 1 && c.pageIndex == 0 && c.pageSize == totalRows
  {
    match state
    case Some(s) => Counts(true, totalRows, tablePageCount, s.pageIndex, s.pageSize)
    case None => Counts(false, totalRows, 1, 0, totalRows)
  }

  /** First row shown (1-based), 0 when there are no rows. */
  function Start(c: Counts): (first: int)
    ensures c.totalRows == 0 ==> first == 0
    ensures c.totalRows > 0 && 0 <= c.pageIndex && 0 <= c.pageSize ==> first >= 1
  {
    if c.totalRows == 0 then 0 else c.pageIndex * c.pageSize + 1
  }

  /** Last row shown: the end of the page, cut off at the number of rows. */
  function End(c: Counts): (last: int)
    ensures last <= c.totalRows && last <= (c.pageIndex + 1) * c.pageSize
    ensures last == c.totalRows || last == (c.pageIndex + 1) * c.pageSize
  {
    var pageEnd := (c.pageIndex + 1) * c.pageSize;
    if pageEnd < c.totalRows then pageEnd else c.totalRows
  }

  /** The page numbers lo, lo + 1, ..., hi (empty when lo > hi). */
  function Range(lo: int, hi: int): (r: seq<int>)
    decreases hi - lo
    ensures |r| == if lo <= hi then hi - lo + 1 else 0
    ensures forall i :: 0 <= i < |r| ==> r[i] == lo + i
  {
    if lo > hi then [] else [lo] + Range(lo + 1, hi)
  }

  /** The first and last button of a window of MaxButtons buttons centred on
      the current (1-based) page and pushed back inside 1..totalPages. */
  function WindowBounds(totalPages: int, pageIndex: int): (int, int)
  {
    var current := pageIndex + 1;
    var startPage := current - MaxButtons / 2;
    var endPage := current + MaxButtons / 2;
    if startPage < 1 then (1, MaxButtons)
    else if endPage > totalPages then (totalPages - (MaxButtons - 1), totalPages)
    else (startPage, endPage)
  }

  /** The numbered buttons the footer shows. */
  function Window(c: Counts): (w: seq<int>)
    ensures |w| <= MaxButtons
    ensures forall i :: 0 < i < |w| ==> w[i] == w[i - 1] + 1
    ensures !c.hasPagination ==> w == [1]
  {
    if !c.hasPagination then [1]
    else if c.pageCount <= MaxButtons then Range(1, c.pageCount)
    else
      var (lo, hi) := WindowBounds(c.pageCount, c.pageIndex);
      Range(lo, hi)
  }

  /** Computes the window the way the component does: all pages when there
      are few, otherwise a loop pushing startPage..endPage. */
  method GetWindow(c: Counts) returns (windowPages: seq<int>)
    ensures windowPages == Window(c)
  {
    if !c.hasPagination {
      return [1];
    }
    if c.pageCount <= MaxButtons {
      windowPages := seq(if c.pageCount > 0 then c.pageCount else 0, i => i + 1);
      assert windowPages == Range(1, c.pageCount);
      return;
    }
    var current := c.pageIndex + 1;
    var startPage := current - MaxButtons / 2;
    var endPage := current + MaxButtons / 2;
    if startPage < 1 {
      startPage := 1;
      endPage := MaxButtons;
    } else if endPage > c.pageCount {
      endPage := c.pageCount;
      startPage := c.pageCount - (MaxButtons - 1);
    }
    assert (startPage, endPage) == WindowBounds(c.pageCount, c.pageIndex);
    windowPages := [];
    var p := startPage;
    while p <= endPage
      invariant startPage <= p <= endPage + 1
      invariant windowPages == Range(startPage, p - 1)
    {
      RangeSnoc(startPage, p - 1);
      windowPages := windowPages + [p];
      p := p + 1;
    }
  }

  /** Extending a range by its next page. */
  lemma RangeSnoc(lo: int, hi: int)
    requires lo <= hi + 1
    ensures Range(lo, hi) + [hi + 1] == Range(lo, hi + 1)
  {
    var r, r' := Range(lo, hi) + [hi + 1], Range(lo, hi + 1);
    assert |r| == |r'|;
    forall i | 0 <= i < |r| ensures r[i] == r'[i] {
    }
  }

  /** What the left half of the footer says. */
  datatype Label = ShowingNoResults | ShowingRange(start: int, end: int, total: nat) | ShowingAllRows(total: nat)

  /** One numbered button: its number, whether it is highlighted, and the
      page index it asks the table for when pressed. */
  datatype Button = Button(page: int, active: bool, requestsIndex: int)

  /** The footer: its label and, when shown, the numbered buttons. */
  datatype Footer = Footer(caption: Label, pager: Option<seq<Button>>)

  /** Renders the footer from the table's pagination state and counts. */
  method RenderFooter(state: Option<PaginationState>, tablePageCount: int, totalRows: nat) returns (f: Footer)
    ensures state.None? ==> f.caption == ShowingAllRows(totalRows)
    ensures state.Some? && totalRows == 0 ==> f.caption == ShowingNoResults
    ensures state.Some? && totalRows > 0 ==>
      var c := FooterCounts(state, tablePageCount, totalRows);
      f.caption == ShowingRange(Start(c), End(c), totalRows)
    ensures f.pager.Some? <==> state.Some? && totalRows > 0
    ensures f.pager.Some? ==>
      var w := Window(FooterCounts(state, tablePageCount, totalRows));
      |f.pager.value| == |w| &&
      forall i :: 0 <= i < |w| ==>
        f.pager.value[i].page == w[i] &&
        (f.pager.value[i].active <==> w[i] == state.value.pageIndex + 1) &&
        f.pager.value[i].requestsIndex == w[i] - 1
  {
    var c := FooterCounts(state, tablePageCount, totalRows);
    var windowPages := GetWindow(c);
    var caption := if !c.hasPagination then ShowingAllRows(totalRows)
                 else if totalRows == 0 then ShowingNoResults
                 else ShowingRange(Start(c), End(c), totalRows);
    if c.hasPagination && totalRows > 0 {
      var buttons := seq(|windowPages|, i requires 0 <= i < |windowPages| =>
        Button(windowPages[i], windowPages[i] == c.pageIndex + 1, windowPages[i] - 1));
      f := Footer(caption, Some(buttons));
    } else {
      f := Footer(caption, None);
    }
  }

  /** Without pagination state the footer treats all rows as one page: the
      window is [1], and the range shown is 1..totalRows (or 0..0). */
  lemma NoPaginationDefaults(tablePageCount: int, totalRows: nat)
    ensures var c := FooterCounts(None, tablePageCount, totalRows);
      c.pageCount == 1 && c.pageIndex == 0 && c.pageSize == totalRows &&
      Window(c) == [1] &&
      Start(c) == (if totalRows == 0 then 0 else 1) && End(c) == totalRows
  {
  }

  /** The shown range never passes the row count, and when there are rows it
      spans at most one page. */
  lemma ShowingBounds(c: Counts)
    ensures End(c) <= c.totalRows
    ensures c.totalRows > 0 ==> End(c) - Start(c) + 1 <= c.pageSize
    ensures c.totalRows > 0 && 0 <= c.pageIndex && 0 < c.pageSize && c.pageIndex * c.pageSize < c.totalRows ==>
      1 <= Start(c) <= End(c) &&
      Start(c) == c.pageIndex * c.pageSize + 1 &&
      End(c) - Start(c) + 1 ==
        (if c.pageSize < c.totalRows - c.pageIndex * c.pageSize then c.pageSize
         else c.totalRows - c.pageIndex * c.pageSize)
  {
    assert (c.pageIndex + 1) * c.pageSize == c.pageIndex * c.pageSize + c.pageSize;
    if 0 <= c.pageIndex && 0 < c.pageSize {
      assert 0 <= c.pageIndex * c.pageSize;
    }
  }

  /** With at most MaxButtons pages every page has a button, in order. */
  lemma SmallWindowIsAllPages(c: Counts)
    requires c.hasPagination && c.pageCount <= MaxButtons
    ensures |Window(c)| == (if c.pageCount > 0 then c.pageCount else 0)
    ensures forall i :: 0 <= i < |Window(c)| ==> Window(c)[i] == i + 1
  {
  }

  /** With more than MaxButtons pages the window is MaxButtons consecutive
      page numbers inside 1..pageCount, and contains the current page when
      the page index is in range. */
  lemma LargeWindowShape(c: Counts)
    requires c.hasPagination && c.pageCount > MaxButtons
    ensures |Window(c)| == MaxButtons
    ensures forall i :: 0 <= i < |Window(c)| ==> 1 <= Window(c)[i] <= c.pageCount
    ensures forall i :: 0 < i < |Window(c)| ==> Window(c)[i] == Window(c)[i - 1] + 1
    ensures 0 <= c.pageIndex < c.pageCount ==> c.pageIndex + 1 in Window(c)
  {
    var w := Window(c);
    if 0 <= c.pageIndex < c.pageCount {
      assert w[c.pageIndex + 1 - w[0]] == c.pageIndex + 1;
    }
  }

  /** The clamping rule stated by the current page alone: the first five
      pages near the start, the last five near the end, else current-2 to
      current+2. */
  lemma WindowClamping(c: Counts)
    requires c.hasPagination && c.pageCount > MaxButtons
    ensures c.pageIndex + 1 <= 3 ==> Window(c) == Range(1, 5)
    ensures c.pageIndex + 1 >= c.pageCount - 2 ==> Window(c) == Range(c.pageCount - 4, c.pageCount)
    ensures 3 < c.pageIndex + 1 < c.pageCount - 2 ==> Window(c) == Range(c.pageIndex - 1, c.pageIndex + 3)
  {
  }

  /** In a window of in-range pages exactly one button is active, and it
      requests the current page index; every button requests an index that
      exists. */
  lemma ExactlyOneActiveButton(c: Counts)
    requires c.hasPagination && 0 <= c.pageIndex < c.pageCount
    ensures exists i :: 0 <= i < |Window(c)| && Window(c)[i] == c.pageIndex + 1
    ensures forall i, j ::
      (0 <= i < |Window(c)| && 0 <= j < |Window(c)| &&
       Window(c)[i] == c.pageIndex + 1 && Window(c)[j] == c.pageIndex + 1) ==> i == j
    ensures forall i :: 0 <= i < |Window(c)| ==> 0 <= Window(c)[i] - 1 < c.pageCount
  {
    var w := Window(c);
    if c.pageCount <= MaxButtons {
      SmallWindowIsAllPages(c);
      assert w[c.pageIndex] == c.pageIndex + 1;
    } else {
      LargeWindowShape(c);
      var lo := w[0];
      assert forall i :: 0 <= i < |w| ==> w[i] == lo + i by {
        var (l, h) := WindowBounds(c.pageCount, c.pageIndex);
        assert w == Range(l, h);
      }
      assert w[c.pageIndex + 1 - lo] == c.pageIndex + 1;
    }
  }

  /** The windows of the examples: 12 pages at indexes 0, 6 and 11, and 3
      pages at any index. */
  lemma WindowExamples(i: int)
    ensures Window(Counts(true, 120, 12, 0, 10)) == [1, 2, 3, 4, 5]
    ensures Window(Counts(true, 120, 12, 6, 10)) == [5, 6, 7, 8, 9]
    ensures Window(Counts(true, 120, 12, 11, 10)) == [8, 9, 10, 11, 12]
    ensures Window(Counts(true, 30, 3, i, 10)) == [1, 2, 3]
  {
  }
}
