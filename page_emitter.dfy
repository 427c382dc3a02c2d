/**
 * The page-change record of the layout manager (`mLastPageCount`,
 * `mLastPageIndex`) and the two de-duplicating notifications it drives,
 * `onPageSizeChanged` and `onPageSelect`, as pure state steps. The layout
 * manager's `SetPageCount` / `SetPageIndex` methods apply these steps to its
 * fields and append the emitted events to its event log.
 */
module PageEmitter {

  /** A `PageListener` callback as it was delivered. */
  datatype PageEvent = PageSizeChanged(pageSize: int) | PageSelect(pageIndex: int)

  /** `mLastPageCount` and `mLastPageIndex`; both start at -1. */
  datatype PageRecord = PageRecord(lastPageCount: int, lastPageIndex: int)

  /** The record after a step and the events the step delivered. */
  datatype Emission = Emission(record: PageRecord, events: seq<PageEvent>)

  const InitialRecord := PageRecord(-1, -1)

  /** The options that shape `setPageIndex`. */
  datatype EmitterOptions = EmitterOptions(
    hasListener: bool,              // mPageListener != null
    allowContinuousScroll: bool,    // isAllowContinuousScroll
    changeSelectInScrolling: bool)  // mChangeSelectInScrolling

  /**
   * `setPageCount`: a negative count is ignored; otherwise the count is
   * recorded and `onPageSizeChanged` is delivered when a listener is set and
   * the count differs from the recorded one.
   */
  function SetPageCount(rec: PageRecord, pageCount: int, hasListener: bool): (e: Emission)
    ensures pageCount < 0 ==> e == Emission(rec, [])
    ensures pageCount >= 0 ==> e.record == rec.(lastPageCount := pageCount)
    ensures e.events != [] <==> pageCount >= 0 && hasListener && pageCount != rec.lastPageCount
    ensures e.events != [] ==> e.events == [PageSizeChanged(pageCount)]
  {
    if pageCount >= 0 then
      var events := if hasListener && pageCount != rec.lastPageCount then [PageSizeChanged(pageCount)] else [];
      Emission(rec.(lastPageCount := pageCount), events)
    else Emission(rec, [])
  }

  /**
   * `setPageIndex`: nothing happens when the index equals the recorded one.
   * Otherwise the index is recorded (always in continuous mode, only at rest
   * otherwise) and `onPageSelect` is delivered to a listener unless the call
   * happens while scrolling with selection-in-scrolling off, or the index is
   * negative.
   */
  function SetPageIndex(rec: PageRecord, pageIndex: int, isScrolling: bool, opt: EmitterOptions): (e: Emission)
    ensures pageIndex == rec.lastPageIndex ==> e == Emission(rec, [])
    ensures pageIndex != rec.lastPageIndex && (opt.allowContinuousScroll || !isScrolling) ==>
              e.record == rec.(lastPageIndex := pageIndex)
    ensures pageIndex != rec.lastPageIndex && !opt.allowContinuousScroll && isScrolling ==> e.record == rec
    ensures e.events != [] <==>
              pageIndex != rec.lastPageIndex && opt.hasListener && pageIndex >= 0 &&
              !(isScrolling && !opt.changeSelectInScrolling)
    ensures e.events != [] ==> e.events == [PageSelect(pageIndex)]
    ensures e.record.lastPageCount == rec.lastPageCount
  {
    if pageIndex == rec.lastPageIndex then Emission(rec, [])
    else
      var rec' := if opt.allowContinuousScroll then rec.(lastPageIndex := pageIndex)
                  else if !isScrolling then rec.(lastPageIndex := pageIndex)
                  else rec;
      if isScrolling && !opt.changeSelectInScrolling then Emission(rec', [])
      else if pageIndex >= 0 && opt.hasListener then Emission(rec', [PageSelect(pageIndex)])
      else Emission(rec', [])
  }

  /**
   * `setPageCount(pageCount)` followed by `setPageIndex(pageIndex, false)`,
   * the report made after every layout.
   */
  function Report(rec: PageRecord, pageCount: int, pageIndex: int, hasListener: bool, opt: EmitterOptions): (e: Emission)
    ensures e.record.lastPageCount == (if pageCount >= 0 then pageCount else rec.lastPageCount)
    ensures e.record.lastPageIndex == pageIndex
    ensures e.events ==
              (if pageCount >= 0 && hasListener && pageCount != rec.lastPageCount then [PageSizeChanged(pageCount)] else []) +
              (if pageIndex != rec.lastPageIndex && opt.hasListener && pageIndex >= 0 then [PageSelect(pageIndex)] else [])
  {
    var e1 := SetPageCount(rec, pageCount, hasListener);
    var e2 := SetPageIndex(e1.record, pageIndex, false, opt);
    Emission(e2.record, e1.events + e2.events)
  }

  /** A report repeated without any change in between delivers nothing and changes nothing. */
  lemma ReportRepeatIsSilent(rec: PageRecord, pageCount: int, pageIndex: int, hasListener: bool, opt: EmitterOptions)
    ensures var first := Report(rec, pageCount, pageIndex, hasListener, opt);
            Report(first.record, pageCount, pageIndex, hasListener, opt) == Emission(first.record, [])
  {
  }

  /** `n` consecutive `setPageIndex` calls with the same index. */
  function RepeatSetPageIndex(rec: PageRecord, pageIndex: int, isScrolling: bool, opt: EmitterOptions, n: nat): Emission
    decreases n
  {
    if n == 0 then Emission(rec, [])
    else
      var first := SetPageIndex(rec, pageIndex, isScrolling, opt);
      var rest := RepeatSetPageIndex(first.record, pageIndex, isScrolling, opt, n - 1);
      Emission(rest.record, first.events + rest.events)
  }

  /**
   * De-duplication: however often `setPageIndex` is called with one index,
   * `onPageSelect` is delivered at most once, provided the index gets
   * recorded (continuous mode, or calls made at rest).
   */
  lemma {:induction false} SelectDeliveredAtMostOnce(rec: PageRecord, pageIndex: int, isScrolling: bool, opt: EmitterOptions, n: nat)
    requires opt.allowContinuousScroll || !isScrolling
    ensures |RepeatSetPageIndex(rec, pageIndex, isScrolling, opt, n).events| <= 1
    ensures n > 0 ==> RepeatSetPageIndex(rec, pageIndex, isScrolling, opt, n).record.lastPageIndex == pageIndex
    decreases n
  {
    if n > 0 {
      var first := SetPageIndex(rec, pageIndex, isScrolling, opt);
      assert first.record.lastPageIndex == pageIndex;
      RepeatedIndexIsSilent(first.record, pageIndex, isScrolling, opt, n - 1);
    }
  }

  /** Once an index is recorded, repeating it delivers nothing and changes nothing. */
  lemma {:induction false} RepeatedIndexIsSilent(rec: PageRecord, pageIndex: int, isScrolling: bool, opt: EmitterOptions, n: nat)
    requires rec.lastPageIndex == pageIndex
    ensures RepeatSetPageIndex(rec, pageIndex, isScrolling, opt, n) == Emission(rec, [])
    decreases n
  {
    if n > 0 {
      RepeatedIndexIsSilent(rec, pageIndex, isScrolling, opt, n - 1);
    }
  }

  /** A page count that has been recorded is never reported again until it changes. */
  lemma SetPageCountIdempotent(rec: PageRecord, pageCount: int, hasListener: bool)
    ensures var first := SetPageCount(rec, pageCount, hasListener);
            SetPageCount(first.record, pageCount, hasListener) == Emission(first.record, [])
  {
  }
}
