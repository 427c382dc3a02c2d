/**
 * `PagerGridLayoutManager`: a RecyclerView layout manager that lays items
 * out as pages of rows x columns and scrolls one axis. The class keeps the
 * manager's mutable state (scroll offsets and bounds, item size, the frame
 * cache, the page-change record); what it asks of the host view system
 * (attaching and placing child views, listener callbacks, starting a smooth
 * scroll, logging) is recorded in fields, the callbacks and the log as
 * ghost sequences.
 */
module GridLayout {
  import opened Wrappers
  import opened PageMath
  import opened Geometry
  import opened PageEmitter

  /** `RecyclerView.SCROLL_STATE_IDLE` (0), `_DRAGGING` (1), `_SETTLING` (2). */
  datatype ScrollState = Idle | Dragging | Settling

  /** What `scrollToPage` / `smoothScrollToPage` log when they refuse a request. */
  datatype JumpError = PageOutOfBounds(pageIndex: int, pageCount: int) | RecyclerViewNotFound

  /** An `onPageScrolled` callback, without its floating-point fraction. */
  datatype PageScrolled = PageScrolled(position: int, positionOffsetPixels: int)

  /** The cache `after` keeps every entry of `before` unchanged. */
  ghost predicate CacheExtends(before: map<int, Rect>, after: map<int, Rect>) {
    forall p :: p in before ==> p in after && after[p] == before[p]
  }

  class PagerGridLayoutManager {
    const rows: int
    const columns: int
    const orientation: Orientation
    /** `rows * columns`, fixed at construction. */
    const onePageSize: int
    /** Width and height of the host view minus its padding. */
    const usableWidth: int
    const usableHeight: int
    const paddingLeft: int
    const paddingTop: int
    /** `isAllowContinuousScroll`: initialised to true and never assigned again. */
    const isAllowContinuousScroll: bool

    /** The adapter's item count as the host reports it. */
    var itemCount: nat
    var offsetX: int
    var offsetY: int
    var maxScrollX: int
    var maxScrollY: int
    var itemWidth: int
    var itemHeight: int
    /** `itemFrames`: position -> frame, filled on first use. */
    var itemFrames: map<int, Rect>
    /** The attached child views, in the order they were added. */
    var children: seq<Placement>
    var scrollState: ScrollState
    /** Whether `onAttachedToWindow` has stored a RecyclerView. */
    var attached: bool
    var changeSelectInScrolling: bool
    var lastPageCount: int
    var lastPageIndex: int
    var hasPageListener: bool
    var hasPageChangeCallback: bool
    /** `PageListener` callbacks delivered so far. */
    ghost var pageEvents: seq<PageEvent>
    /** `OnPageChangeCallback.onPageScrolled` callbacks delivered so far. */
    ghost var pageScrolled: seq<PageScrolled>
    /** Refused page jumps, as logged. */
    ghost var jumpErrors: seq<JumpError>
    /** Target positions of the smooth scrollers started so far. */
    ghost var smoothScrollTargets: seq<int>

    /** Nothing checks `rows * columns > 0`; callers must pass at least one row and one column. */
    constructor (rows: int, columns: int, orientation: Orientation,
                 usableWidth: int, usableHeight: int, paddingLeft: int, paddingTop: int)
      requires rows >= 1 && columns >= 1
      ensures Valid()
      ensures this.rows == rows && this.columns == columns && this.orientation == orientation
      ensures this.usableWidth == usableWidth && this.usableHeight == usableHeight
      ensures this.paddingLeft == paddingLeft && this.paddingTop == paddingTop
      ensures itemCount == 0 && offsetX == 0 && offsetY == 0 && maxScrollX == 0 && maxScrollY == 0
      ensures itemWidth == 0 && itemHeight == 0 && itemFrames == map[] && children == []
      ensures scrollState == Idle && !attached && changeSelectInScrolling
      ensures Record() == InitialRecord && !hasPageListener && !hasPageChangeCallback
      ensures pageEvents == [] && pageScrolled == [] && jumpErrors == [] && smoothScrollTargets == []
    {
      this.rows := rows;
      this.columns := columns;
      this.orientation := orientation;
      this.usableWidth := usableWidth;
      this.usableHeight := usableHeight;
      this.paddingLeft := paddingLeft;
      this.paddingTop := paddingTop;
      this.isAllowContinuousScroll := true;
      onePageSize := GridSpec(rows, columns, orientation, usableWidth, usableHeight).OnePageSize();
      itemCount := 0;
      offsetX, offsetY, maxScrollX, maxScrollY := 0, 0, 0, 0;
      itemWidth, itemHeight := 0, 0;
      itemFrames := map[];
      children := [];
      scrollState := Idle;
      attached := false;
      changeSelectInScrolling := true;
      lastPageCount, lastPageIndex := -1, -1;
      hasPageListener, hasPageChangeCallback := false, false;
      pageEvents, pageScrolled, jumpErrors, smoothScrollTargets := [], [], [], [];
    }

    //--- state and derived quantities ---------------------------------------

    function Grid(): GridSpec {
      GridSpec(rows, columns, orientation, usableWidth, usableHeight)
    }

    /** The fixed part of the invariant: a real page capacity, always in continuous mode. */
    predicate Shape() {
      Grid().Valid() && onePageSize == Grid().OnePageSize() && isAllowContinuousScroll
    }

    /**
     * The manager's invariant: a real page capacity, exactly one scrolling
     * axis (the other one's bound stays 0) and, for a non-negative viewport,
     * offsets within their bounds.
     */
    ghost predicate Valid()
      reads this`offsetX, this`offsetY, this`maxScrollX, this`maxScrollY
    {
      Shape() &&
      (orientation == Horizontal ==> maxScrollY == 0) &&
      (orientation == Vertical ==> maxScrollX == 0) &&
      (0 <= usableWidth && 0 <= usableHeight ==>
         0 <= offsetX <= maxScrollX && 0 <= offsetY <= maxScrollY)
    }

    function Record(): PageRecord
      reads this`lastPageCount, this`lastPageIndex
    {
      PageRecord(lastPageCount, lastPageIndex)
    }

    function Options(): EmitterOptions
      reads this`hasPageListener, this`changeSelectInScrolling
    {
      EmitterOptions(hasPageListener, isAllowContinuousScroll, changeSelectInScrolling)
    }

    /** The offset and page extent of the scrolling axis. */
    function ActiveOffset(): int
      reads this`offsetX, this`offsetY
    {
      if orientation == Vertical then offsetY else offsetX
    }

    function ActiveExtent(): int {
      if orientation == Vertical then usableHeight else usableWidth
    }

    /**
     * `totalPageCount`: no pages without items; otherwise just enough pages
     * for every item, the last one not empty.
     */
    function TotalPageCount(): (pages: int)
      reads this`itemCount
      requires Shape()
      ensures itemCount == 0 ==> pages == 0
      ensures itemCount > 0 ==> (pages - 1) * onePageSize < itemCount <= pages * onePageSize
    {
      if itemCount > 0 then
        TotalPageCountBracket(itemCount, onePageSize);
        PageMath.TotalPageCount(itemCount, onePageSize)
      else PageMath.TotalPageCount(itemCount, onePageSize)
    }

    /**
     * `pageIndexByOffset`: the page whose start is nearest to the current
     * offset on the scrolling axis, the lower page winning a tie; page 0
     * at or before the start.
     */
    function PageIndexByOffset(): (page: int)
      reads this`offsetX, this`offsetY
      ensures 0 <= page
      ensures ActiveOffset() <= 0 || ActiveExtent() <= 0 ==> page == 0
      ensures ActiveOffset() > 0 && ActiveExtent() > 0 ==>
                page * ActiveExtent() - (ActiveExtent() - ActiveExtent() / 2) < ActiveOffset() <=
                page * ActiveExtent() + ActiveExtent() / 2
    {
      if ActiveOffset() > 0 && ActiveExtent() > 0 then
        PageIndexByOffsetNearest(ActiveOffset(), ActiveExtent());
        PageMath.PageIndexByOffset(ActiveOffset(), ActiveExtent())
      else PageMath.PageIndexByOffset(ActiveOffset(), ActiveExtent())
    }

    /** The `pageIndex` getter: the page the current offset has entered. */
    function PageIndex(): (page: int)
      reads this`offsetX, this`offsetY
      ensures 0 <= page
      ensures ActiveOffset() <= 0 || ActiveExtent() <= 0 ==> page == 0
      ensures ActiveOffset() > 0 && ActiveExtent() > 0 ==>
                page * ActiveExtent() <= ActiveOffset() < page * ActiveExtent() + ActiveExtent()
    {
      if ActiveOffset() > 0 && ActiveExtent() > 0 then
        PageIndexFloorBracket(ActiveOffset(), ActiveExtent());
        PageIndexFloor(ActiveOffset(), ActiveExtent())
      else PageIndexFloor(ActiveOffset(), ActiveExtent())
    }

    /** `getPageIndexByPos`: the page whose range of positions holds `pos`. */
    function GetPageIndexByPos(pos: int): (page: int)
      requires Shape()
      ensures 0 <= pos ==> 0 <= page && page * onePageSize <= pos < page * onePageSize + onePageSize
    {
      if 0 <= pos then
        PageIndexByPosBracket(pos, onePageSize);
        PageIndexByPos(pos, onePageSize)
      else PageIndexByPos(pos, onePageSize)
    }

    /**
     * `findNextPageFirstPos`: the first position of the page after the
     * recorded one, or of the last page when already there.
     */
    function FindNextPageFirstPos(): (r: int)
      reads this`itemCount, this`lastPageIndex
      requires Shape()
      ensures 0 < itemCount && -1 <= lastPageIndex ==>
                0 <= r < itemCount && r % onePageSize == 0 &&
                r / onePageSize == (if lastPageIndex + 1 < TotalPageCount() then lastPageIndex + 1 else TotalPageCount() - 1)
    {
      var page := lastPageIndex + 1;
      var target := if page >= TotalPageCount() then TotalPageCount() - 1 else page;
      FirstPositionOfPage(target);
      target * onePageSize
    }

    /**
     * `findPrePageFirstPos`: the first position of the page before the
     * recorded one, or of page 0.
     */
    function FindPrePageFirstPos(): (r: int)
      reads this`itemCount, this`lastPageIndex
      requires Shape()
      ensures 0 < itemCount && lastPageIndex <= TotalPageCount() ==>
                0 <= r < itemCount && r % onePageSize == 0 &&
                r / onePageSize == (if lastPageIndex - 1 < 0 then 0 else lastPageIndex - 1)
    {
      var page := lastPageIndex - 1;
      var target := if page < 0 then 0 else page;
      FirstPositionOfPage(target);
      target * onePageSize
    }

    /** The first position of an existing page is an existing position, on that page. */
    lemma FirstPositionOfPage(page: int)
      requires Shape()
      ensures 0 < itemCount && 0 <= page < TotalPageCount() ==>
                0 <= page * onePageSize < itemCount &&
                (page * onePageSize) % onePageSize == 0 && (page * onePageSize) / onePageSize == page
    {
      if 0 < itemCount && 0 <= page < TotalPageCount() {
        MulMonotone(0, page, 0, onePageSize);
        MulMonotone(page, TotalPageCount() - 1, onePageSize, onePageSize);
        FloorUnique(page * onePageSize, onePageSize, page, 0);
      }
    }

    /**
     * `getPageLeftTopByPosition`: 0 across the scrolling axis, and along it
     * the start of the page that holds `pos`.
     */
    function GetPageLeftTopByPosition(pos: int): (corner: Vec)
      requires Shape()
      ensures orientation == Horizontal ==> corner.y == 0
      ensures orientation == Vertical ==> corner.x == 0
      ensures orientation == Horizontal && 0 <= pos && 0 < usableWidth ==>
                PageStartHolding(corner.x, usableWidth, onePageSize, pos)
      ensures orientation == Vertical && 0 <= pos && 0 < usableHeight ==>
                PageStartHolding(corner.y, usableHeight, onePageSize, pos)
    {
      PageLeftTop(Grid(), pos)
    }

    /**
     * `getSnapOffset`: the scroll vector that brings the offset to the
     * start of the page holding `pos` along the scrolling axis, and to 0
     * across it.
     */
    function GetSnapOffset(pos: int): (delta: Vec)
      reads this`offsetX, this`offsetY
      requires Shape()
      ensures orientation == Horizontal ==> offsetY + delta.y == 0
      ensures orientation == Vertical ==> offsetX + delta.x == 0
      ensures orientation == Horizontal && 0 <= pos && 0 < usableWidth ==>
                PageStartHolding(offsetX + delta.x, usableWidth, onePageSize, pos)
      ensures orientation == Vertical && 0 <= pos && 0 < usableHeight ==>
                PageStartHolding(offsetY + delta.y, usableHeight, onePageSize, pos)
    {
      var leftTop := GetPageLeftTopByPosition(pos);
      Vec(leftTop.x - offsetX, leftTop.y - offsetY)
    }

    /** The scroll bound of the active axis is that of `pages` pages. */
    ghost predicate BoundsMatch(pages: int)
      reads this`maxScrollX, this`maxScrollY
    {
      if orientation == Horizontal then maxScrollX == (pages - 1) * usableWidth
      else maxScrollY == (pages - 1) * usableHeight
    }

    /**
     * Snap round trip: after a layout pass has set the bounds for the
     * current item count, scrolling by `getSnapOffset(pos)` is never clamped
     * and lands exactly on the top-left corner of the page of `pos`.
     */
    lemma SnapOffsetLandsOnPage(pos: int)
      requires Valid() && 0 <= usableWidth && 0 <= usableHeight
      requires BoundsMatch(TotalPageCount()) && 0 <= pos < itemCount
      ensures var s := GetSnapOffset(pos);
              var corner := GetPageLeftTopByPosition(pos);
              ClampDelta(offsetX, maxScrollX, s.x) == s.x && ClampDelta(offsetY, maxScrollY, s.y) == s.y &&
              offsetX + s.x == corner.x && offsetY + s.y == corner.y
    {
      var page := GetPageIndexByPos(pos);
      var total := TotalPageCount();
      assert 0 <= page;
      if page > total - 1 {
        MulMonotone(total, page, onePageSize, onePageSize);
        assert false;
      }
      if orientation == Horizontal {
        MulMonotone(0, page, 0, usableWidth);
        MulMonotone(page, total - 1, usableWidth, usableWidth);
      } else {
        MulMonotone(0, page, 0, usableHeight);
        MulMonotone(page, total - 1, usableHeight, usableHeight);
      }
    }

    /** The frame of `pos` under the current item size. */
    function FrameOf(pos: int): Rect
      reads this`itemWidth, this`itemHeight
      requires Shape()
    {
      ItemFrame(Grid(), itemWidth, itemHeight, pos)
    }

    /** Every cached frame is the frame of its position under the current item size. */
    ghost predicate CacheCoherent()
      reads this`itemWidth, this`itemHeight, this`itemFrames
      requires Shape()
    {
      FramesCoherent(Grid(), itemWidth, itemHeight, itemFrames)
    }

    /**
     * The display rectangle of a recycle pass: the viewport grown by one
     * item on every side, intersected (Android semantics) with the whole
     * scrollable area.
     */
    function DisplayRect(): (r: Rect)
      reads this`offsetX, this`offsetY, this`maxScrollX, this`maxScrollY, this`itemWidth, this`itemHeight
      ensures var grown := GrownViewport();
              var content := Rect(0, 0, maxScrollX + usableWidth, maxScrollY + usableHeight);
              (Intersects(grown, content) ==>
                 Within(r, grown) && Within(r, content) &&
                 forall x, y :: Contains(grown, x, y) && Contains(content, x, y) <==> Contains(r, x, y)) &&
              (!Intersects(grown, content) ==> r == grown)
    {
      Intersect(GrownViewport(), Rect(0, 0, maxScrollX + usableWidth, maxScrollY + usableHeight))
    }

    /** The viewport at the current offset, grown by one item on every side. */
    function GrownViewport(): Rect
      reads this`offsetX, this`offsetY, this`itemWidth, this`itemHeight
    {
      Rect(offsetX - itemWidth, offsetY - itemHeight,
           usableWidth + offsetX + itemWidth, usableHeight + offsetY + itemHeight)
    }

    /** The positions a recycle pass visits: four pages around the current one. */
    function RecycleWindow(): Span
      reads this`offsetX, this`offsetY, this`itemCount
      requires Shape()
    {
      Window(PageIndexByOffset(), onePageSize, itemCount)
    }

    ghost predicate WindowCached()
      reads this`offsetX, this`offsetY, this`itemCount, this`itemFrames
      requires Shape()
    {
      Covers(itemFrames, RecycleWindow())
    }

    /** The children a recycle pass in direction `isStart` attaches, given the cache. */
    ghost function PlannedChildren(isStart: bool): seq<Placement>
      reads this`offsetX, this`offsetY, this`maxScrollX, this`maxScrollY, this`itemCount, this`itemFrames, this`itemWidth, this`itemHeight
      requires Shape()
    {
      PassChildren(RecycleWindow(), isStart, DisplayRect(), itemFrames, paddingLeft - offsetX, paddingTop - offsetY)
    }

    //--- page-change notifications ------------------------------------------

    /** `setPageCount`. */
    method SetPageCount(pageCount: int)
      requires Valid()
      modifies this`lastPageCount, this`pageEvents
      ensures Valid()
      ensures var e := PageEmitter.SetPageCount(old(Record()), pageCount, hasPageListener);
              Record() == e.record && pageEvents == old(pageEvents) + e.events
    {
      if pageCount >= 0 {
        if hasPageListener && pageCount != lastPageCount {
          pageEvents := pageEvents + [PageSizeChanged(pageCount)];
        }
        lastPageCount := pageCount;
      }
    }

    /** `setPageIndex`. */
    method SetPageIndex(pageIndex: int, isScrolling: bool)
      requires Valid()
      modifies this`lastPageIndex, this`pageEvents
      ensures Valid()
      ensures var e := PageEmitter.SetPageIndex(old(Record()), pageIndex, isScrolling, Options());
              Record() == e.record && pageEvents == old(pageEvents) + e.events
    {
      if pageIndex == lastPageIndex {
        return;
      }
      if isAllowContinuousScroll || !isScrolling {
        lastPageIndex := pageIndex;
      }
      if isScrolling && !changeSelectInScrolling {
        return;
      }
      if pageIndex >= 0 && hasPageListener {
        pageEvents := pageEvents + [PageSelect(pageIndex)];
      }
    }

    /** `setChangeSelectInScrolling`. */
    method SetChangeSelectInScrolling(changeSelectInScrolling: bool)
      modifies this`changeSelectInScrolling
      ensures this.changeSelectInScrolling == changeSelectInScrolling
    {
      this.changeSelectInScrolling := changeSelectInScrolling;
    }

    /** `setPageListener` with a listener (true) or null (false). */
    method SetPageListener(present: bool)
      modifies this`hasPageListener
      ensures hasPageListener == present
    {
      hasPageListener := present;
    }

    /** `registerOnPageChangeCallback` with a callback (true) or null (false). */
    method RegisterOnPageChangeCallback(present: bool)
      modifies this`hasPageChangeCallback
      ensures hasPageChangeCallback == present
    {
      hasPageChangeCallback := present;
    }

    /** `onAttachedToWindow`: remembers the RecyclerView. */
    method OnAttachedToWindow()
      modifies this`attached
      ensures attached
    {
      attached := true;
    }

    /** The adapter's item count changed (read by the manager as `itemCount`). */
    method SetItemCount(count: nat)
      modifies this`itemCount
      ensures itemCount == count
    {
      itemCount := count;
    }

    /**
     * `setOrientationType`: its guard compares the argument with itself,
     * so it always returns the argument at once and changes nothing.
     */
    method SetOrientationType(orientation: Orientation) returns (result: Orientation)
      ensures result == orientation
    {
      if orientation == orientation || scrollState != Idle {
        return orientation;
      }
      // The orientation switch below the guard in the source is unreachable.
      return orientation;
    }

    //--- frames and the recycle pass ----------------------------------------

    /** `getItemFrameByPosition`: the cached frame, computed and cached on first use. */
    method GetItemFrameByPosition(pos: int) returns (rect: Rect)
      requires Valid()
      modifies this`itemFrames
      ensures Valid()
      ensures pos in old(itemFrames) ==> rect == old(itemFrames[pos]) && itemFrames == old(itemFrames)
      ensures pos !in old(itemFrames) ==> rect == FrameOf(pos) && itemFrames == old(itemFrames)[pos := rect]
      ensures pos in itemFrames && itemFrames[pos] == rect && CacheExtends(old(itemFrames), itemFrames)
      ensures old(CacheCoherent()) ==> CacheCoherent()
    {
      if pos in itemFrames {
        rect := itemFrames[pos];
      } else {
        rect := FrameOf(pos);
        itemFrames := itemFrames[pos := rect];
      }
    }

    /** The frame-cache warm-up loop of `onLayoutChildren` (positions 0 until `count`). */
    method PrefillFrames(count: int)
      requires Valid()
      modifies this`itemFrames
      ensures Valid()
      ensures forall p :: 0 <= p < count ==> p in itemFrames
      ensures CacheExtends(old(itemFrames), itemFrames)
      ensures old(CacheCoherent()) ==> CacheCoherent()
    {
      var i := 0;
      while i < count
        invariant forall p :: 0 <= p < i ==> p in itemFrames
        invariant CacheExtends(old(itemFrames), itemFrames)
        invariant old(CacheCoherent()) ==> CacheCoherent()
      {
        var _ := GetItemFrameByPosition(i);
        i := i + 1;
      }
    }

    /**
     * `recycleAndFillItems`: detach every child, then visit the window
     * (forward when `isStart`, backward otherwise) and attach the positions
     * whose frame meets the display rectangle; the others go back to the
     * recycler.
     */
    method RecycleAndFillItems(isPreLayout: bool, isStart: bool)
      requires Valid()
      modifies this`itemFrames, this`children
      ensures Valid()
      ensures isPreLayout ==> itemFrames == old(itemFrames) && children == old(children)
      ensures !isPreLayout ==> WindowCached() && children == PlannedChildren(isStart)
      ensures CacheExtends(old(itemFrames), itemFrames)
      ensures old(CacheCoherent()) ==> CacheCoherent()
    {
      if isPreLayout {
        return;
      }
      FillWindow(isStart);
    }

    /** The recycle pass proper: every window position cached, the visible ones attached. */
    method FillWindow(isStart: bool)
      requires Valid()
      modifies this`itemFrames, this`children
      ensures WindowCached() && children == PlannedChildren(isStart)
      ensures CacheExtends(old(itemFrames), itemFrames)
      ensures old(CacheCoherent()) ==> CacheCoherent()
    {
      var displayRect := DisplayRect();
      var window := RecycleWindow();
      children := [];
      if isStart {
        FillForward(window, displayRect);
      } else {
        FillBackward(window, displayRect);
      }
      assert window == RecycleWindow() && displayRect == DisplayRect();
      assert PlannedChildren(isStart) ==
             PassChildren(window, isStart, displayRect, itemFrames, paddingLeft - offsetX, paddingTop - offsetY);
    }

    /** `addOrRemove`: cache the frame of `i`; attach the child when the frame meets the display. */
    method AddOrRemove(displayRect: Rect, i: int)
      requires Valid()
      modifies this`itemFrames, this`children
      ensures i in itemFrames && CacheExtends(old(itemFrames), itemFrames)
      ensures old(CacheCoherent()) ==> CacheCoherent()
      ensures children == old(children) + Attached(i, displayRect, itemFrames, paddingLeft - offsetX, paddingTop - offsetY)
    {
      var rect := GetItemFrameByPosition(i);
      if Intersects(displayRect, rect) {
        children := children + [Placement(i, Translate(rect, paddingLeft - offsetX, paddingTop - offsetY))];
      }
    }

    /** The `isStart` loop: positions `startPos until stopPos`. */
    method FillForward(w: Span, displayRect: Rect)
      requires Valid() && children == []
      modifies this`itemFrames, this`children
      ensures Covers(itemFrames, w)
      ensures children == PassChildren(w, true, displayRect, itemFrames, paddingLeft - offsetX, paddingTop - offsetY)
      ensures CacheExtends(old(itemFrames), itemFrames)
      ensures old(CacheCoherent()) ==> CacheCoherent()
    {
      var i := w.start;
      while i < w.stop
        invariant w.start <= i && (i <= w.stop || i == w.start)
        invariant Covers(itemFrames, Span(w.start, i))
        invariant children == PassChildren(Span(w.start, i), true, displayRect, itemFrames, paddingLeft - offsetX, paddingTop - offsetY)
        invariant CacheExtends(old(itemFrames), itemFrames)
        invariant old(CacheCoherent()) ==> CacheCoherent()
      {
        ghost var before := itemFrames;
        AddOrRemove(displayRect, i);
        PassChildrenFramesAgree(Span(w.start, i), true, displayRect, before, itemFrames, paddingLeft - offsetX, paddingTop - offsetY);
        i := i + 1;
      }
    }

    /** The other loop: positions `stopPos - 1 downTo startPos`. */
    method FillBackward(w: Span, displayRect: Rect)
      requires Valid() && children == []
      modifies this`itemFrames, this`children
      ensures Covers(itemFrames, w)
      ensures children == PassChildren(w, false, displayRect, itemFrames, paddingLeft - offsetX, paddingTop - offsetY)
      ensures CacheExtends(old(itemFrames), itemFrames)
      ensures old(CacheCoherent()) ==> CacheCoherent()
    {
      var i := w.stop;
      while i > w.start
        invariant i == w.stop || w.start <= i <= w.stop
        invariant Covers(itemFrames, Span(i, w.stop))
        invariant children == PassChildren(Span(i, w.stop), false, displayRect, itemFrames, paddingLeft - offsetX, paddingTop - offsetY)
        invariant CacheExtends(old(itemFrames), itemFrames)
        invariant old(CacheCoherent()) ==> CacheCoherent()
      {
        ghost var before := itemFrames;
        AddOrRemove(displayRect, i - 1);
        PassChildrenFramesAgree(Span(i, w.stop), false, displayRect, before, itemFrames, paddingLeft - offsetX, paddingTop - offsetY);
        i := i - 1;
      }
    }

    //--- layout pass --------------------------------------------------------

    /**
     * `onLayoutChildren`: skipped for a pre-layout or when the structure did
     * not change. With no items it drops every child and reports 0 pages on
     * page 0. Otherwise it reports the page count and page, sets the scroll
     * bound of the active axis to (pages - 1) pages (0 on the other axis),
     * pulls the offset back onto it, fixes the item size on first use, warms
     * the frame cache for two pages and runs a forward recycle pass.
     */
    method OnLayoutChildren(isPreLayout: bool, didStructureChange: bool)
      requires Valid()
      modifies this`offsetX, this`offsetY, this`maxScrollX, this`maxScrollY,
               this`itemWidth, this`itemHeight, this`itemFrames, this`children,
               this`lastPageCount, this`lastPageIndex, this`pageEvents
      ensures Valid()
      ensures isPreLayout || !didStructureChange ==>
                offsetX == old(offsetX) && offsetY == old(offsetY) &&
                maxScrollX == old(maxScrollX) && maxScrollY == old(maxScrollY) &&
                itemWidth == old(itemWidth) && itemHeight == old(itemHeight) &&
                itemFrames == old(itemFrames) && children == old(children) &&
                Record() == old(Record()) && pageEvents == old(pageEvents)
      ensures !isPreLayout && didStructureChange ==>
                var e := Report(old(Record()), TotalPageCount(), if itemCount == 0 then 0 else old(PageIndexByOffset()),
                                hasPageListener, Options());
                Record() == e.record && pageEvents == old(pageEvents) + e.events
      ensures !isPreLayout && didStructureChange && itemCount == 0 ==>
                children == [] && itemFrames == old(itemFrames) &&
                offsetX == old(offsetX) && offsetY == old(offsetY) &&
                maxScrollX == old(maxScrollX) && maxScrollY == old(maxScrollY) &&
                itemWidth == old(itemWidth) && itemHeight == old(itemHeight)
      ensures !isPreLayout && didStructureChange && itemCount > 0 ==>
                LaidOutItems(old(offsetX), old(offsetY), old(itemWidth), old(itemHeight), old(itemFrames))
      ensures old(CacheCoherent()) && (old(itemFrames) == map[] || (old(itemWidth) > 0 && old(itemHeight) > 0)) ==>
                CacheCoherent()
    {
      if isPreLayout || !didStructureChange {
        return;
      }
      if itemCount == 0 {
        children := [];
        ReportPages(0, 0);
        return;
      }
      ReportPages(TotalPageCount(), PageIndexByOffset());
      LayoutItems();
    }

    /**
     * The effect of the non-empty branch of `onLayoutChildren` on the
     * geometry: scroll bounds of (pages - 1) pages on the active axis, the
     * offset pulled back onto them, the item size fixed on first use, the
     * first two pages' frames cached and a forward recycle pass done.
     */
    ghost predicate LaidOutItems(offsetX0: int, offsetY0: int, itemWidth0: int, itemHeight0: int, itemFrames0: map<int, Rect>)
      requires Shape()
      reads this`offsetX, this`offsetY, this`maxScrollX, this`maxScrollY, this`itemCount, this`itemFrames,
            this`itemWidth, this`itemHeight, this`children
    {
      BoundsMatch(TotalPageCount()) &&
      (orientation == Horizontal ==> offsetX == Min(offsetX0, maxScrollX) && offsetY == offsetY0) &&
      (orientation == Vertical ==> offsetY == Min(offsetY0, maxScrollY) && offsetX == offsetX0) &&
      itemWidth == (if itemWidth0 <= 0 then Quot(usableWidth, columns) else itemWidth0) &&
      itemHeight == (if itemHeight0 <= 0 then Quot(usableHeight, rows) else itemHeight0) &&
      (forall p :: 0 <= p < 2 * onePageSize ==> p in itemFrames) &&
      CacheExtends(itemFrames0, itemFrames) &&
      WindowCached() && children == PlannedChildren(true)
    }

    /** The non-empty branch of `onLayoutChildren` after the page report. */
    method LayoutItems()
      requires Valid() && itemCount > 0
      modifies this`offsetX, this`offsetY, this`maxScrollX, this`maxScrollY,
               this`itemWidth, this`itemHeight, this`itemFrames, this`children
      ensures Valid()
      ensures LaidOutItems(old(offsetX), old(offsetY), old(itemWidth), old(itemHeight), old(itemFrames))
      ensures old(CacheCoherent()) && (old(itemFrames) == map[] || (old(itemWidth) > 0 && old(itemHeight) > 0)) ==>
                CacheCoherent()
    {
      UpdateScrollBounds();
      FixItemSize();
      PrefillFrames(onePageSize * 2);
      RecycleAndFillItems(false, true);
    }

    /** `setPageCount` followed by `setPageIndex` at rest. */
    method ReportPages(pageCount: int, pageIndex: int)
      requires Valid()
      modifies this`lastPageCount, this`lastPageIndex, this`pageEvents
      ensures Valid()
      ensures var e := Report(old(Record()), pageCount, pageIndex, hasPageListener, Options());
              Record() == e.record && pageEvents == old(pageEvents) + e.events
    {
      SetPageCount(pageCount);
      SetPageIndex(pageIndex, false);
    }

    /**
     * The bound step of `onLayoutChildren`: the active axis may scroll over
     * (pages - 1) pages, the other not at all, and an offset beyond the new
     * bound is pulled back onto it.
     */
    method UpdateScrollBounds()
      requires Valid() && itemCount > 0
      modifies this`offsetX, this`offsetY, this`maxScrollX, this`maxScrollY
      ensures Valid()
      ensures BoundsMatch(TotalPageCount())
      ensures orientation == Horizontal ==> maxScrollY == 0 && offsetX == Min(old(offsetX), maxScrollX) && offsetY == old(offsetY)
      ensures orientation == Vertical ==> maxScrollX == 0 && offsetY == Min(old(offsetY), maxScrollY) && offsetX == old(offsetX)
    {
      var mPageCount := itemCount / onePageSize;
      if itemCount % onePageSize != 0 {
        mPageCount := mPageCount + 1;
      }
      assert mPageCount == TotalPageCount() >= 1;
      if orientation == Horizontal {
        maxScrollX := (mPageCount - 1) * usableWidth;
        maxScrollY := 0;
        if offsetX > maxScrollX {
          offsetX := maxScrollX;
        }
        if 0 <= usableWidth { MulMonotone(0, mPageCount - 1, 0, usableWidth); }
      } else {
        maxScrollX := 0;
        maxScrollY := (mPageCount - 1) * usableHeight;
        if offsetY > maxScrollY {
          offsetY := maxScrollY;
        }
        if 0 <= usableHeight { MulMonotone(0, mPageCount - 1, 0, usableHeight); }
      }
    }

    /** The item-size step of `onLayoutChildren`: an unset size becomes a cell of the viewport. */
    method FixItemSize()
      requires Valid()
      modifies this`itemWidth, this`itemHeight
      ensures Valid()
      ensures itemWidth == (if old(itemWidth) <= 0 then Quot(usableWidth, columns) else old(itemWidth))
      ensures itemHeight == (if old(itemHeight) <= 0 then Quot(usableHeight, rows) else old(itemHeight))
      ensures old(CacheCoherent()) && (old(itemFrames) == map[] || (old(itemWidth) > 0 && old(itemHeight) > 0)) ==>
                CacheCoherent()
    {
      if itemWidth <= 0 {
        itemWidth := Quot(usableWidth, columns);
      }
      if itemHeight <= 0 {
        itemHeight := Quot(usableHeight, rows);
      }
    }

    /** `onLayoutCompleted`: report the page count and page again after a real layout. */
    method OnLayoutCompleted(isPreLayout: bool)
      requires Valid()
      modifies this`lastPageCount, this`lastPageIndex, this`pageEvents
      ensures Valid()
      ensures isPreLayout ==> Record() == old(Record()) && pageEvents == old(pageEvents)
      ensures !isPreLayout ==>
                var e := Report(old(Record()), TotalPageCount(), PageIndexByOffset(), hasPageListener, Options());
                Record() == e.record && pageEvents == old(pageEvents) + e.events
    {
      if isPreLayout {
        return;
      }
      ReportPages(TotalPageCount(), PageIndexByOffset());
    }

    //--- scrolling ----------------------------------------------------------

    /** What `scrollHorizontallyBy` reports to `onPageScrolled` after consuming `result`. */
    ghost function ScrolledReport(result: int): seq<PageScrolled>
      reads this`offsetX, this`offsetY, this`hasPageChangeCallback
    {
      if hasPageChangeCallback && result != 0 then
        [PageScrolled(PageIndex(), offsetX - PageIndex() * usableWidth)]
      else []
    }

    /** The clamping step of `scrollHorizontallyBy`: move the offset by what may be consumed of `dx`. */
    method ConsumeHorizontal(dx: int) returns (result: int)
      requires Valid()
      modifies this`offsetX
      ensures Valid()
      ensures result == ClampDelta(old(offsetX), maxScrollX, dx) && offsetX == old(offsetX) + result
    {
      var newX := offsetX + dx;
      result := dx;
      if newX > maxScrollX {
        result := maxScrollX - offsetX;
      } else if newX < 0 {
        result := 0 - offsetX;
      }
      offsetX := offsetX + result;
    }

    /** The clamping step of `scrollVerticallyBy`. */
    method ConsumeVertical(dy: int) returns (result: int)
      requires Valid()
      modifies this`offsetY
      ensures Valid()
      ensures result == ClampDelta(old(offsetY), maxScrollY, dy) && offsetY == old(offsetY) + result
    {
      var newY := offsetY + dy;
      result := dy;
      if newY > maxScrollY {
        result := maxScrollY - offsetY;
      } else if newY < 0 {
        result := 0 - offsetY;
      }
      offsetY := offsetY + result;
    }

    /**
     * The `onPageScrolled` step of `scrollHorizontallyBy`: both branches of
     * the source (result < 0, result > 0) report the page the offset has
     * entered and the pixel offset into it.
     */
    method ReportPageScrolled(result: int)
      modifies this`pageScrolled
      ensures pageScrolled == old(pageScrolled) + ScrolledReport(result)
    {
      if result != 0 && hasPageChangeCallback {
        var positionOffsetPixels := offsetX - PageIndex() * usableWidth;
        pageScrolled := pageScrolled + [PageScrolled(PageIndex(), positionOffsetPixels)];
      }
    }

    /**
     * `scrollHorizontallyBy`: consume as much of `dx` as keeps the offset in
     * [0, maxScrollX], report the page while scrolling, and run a recycle
     * pass in the direction of the movement.
     */
    method ScrollHorizontallyBy(dx: int) returns (result: int)
      requires Valid()
      modifies this`offsetX, this`lastPageIndex, this`pageEvents, this`pageScrolled,
               this`itemFrames, this`children
      ensures Valid()
      ensures result == ClampDelta(old(offsetX), maxScrollX, dx) && offsetX == old(offsetX) + result
      ensures var e := PageEmitter.SetPageIndex(old(Record()), PageIndexByOffset(), true, Options());
              Record() == e.record && pageEvents == old(pageEvents) + e.events
      ensures pageScrolled == old(pageScrolled) + ScrolledReport(result)
      ensures WindowCached() && children == PlannedChildren(result > 0)
      ensures CacheExtends(old(itemFrames), itemFrames) && (old(CacheCoherent()) ==> CacheCoherent())
    {
      result := ConsumeHorizontal(dx);
      AfterScroll(result, true);
    }

    /** `scrollVerticallyBy`: the vertical counterpart, without `onPageScrolled`. */
    method ScrollVerticallyBy(dy: int) returns (result: int)
      requires Valid()
      modifies this`offsetY, this`lastPageIndex, this`pageEvents, this`pageScrolled, this`itemFrames, this`children
      ensures Valid()
      ensures result == ClampDelta(old(offsetY), maxScrollY, dy) && offsetY == old(offsetY) + result
      ensures var e := PageEmitter.SetPageIndex(old(Record()), PageIndexByOffset(), true, Options());
              Record() == e.record && pageEvents == old(pageEvents) + e.events
      ensures pageScrolled == old(pageScrolled)
      ensures WindowCached() && children == PlannedChildren(result > 0)
      ensures CacheExtends(old(itemFrames), itemFrames) && (old(CacheCoherent()) ==> CacheCoherent())
    {
      result := ConsumeVertical(dy);
      AfterScroll(result, false);
    }

    /**
     * What both `scroll*By` methods do once the offset has moved by
     * `result`: report the page while scrolling, report `onPageScrolled`
     * (horizontal only) and run a recycle pass in the direction of the
     * movement.
     */
    method AfterScroll(result: int, horizontal: bool)
      requires Valid()
      modifies this`lastPageIndex, this`pageEvents, this`pageScrolled, this`itemFrames, this`children
      ensures Valid()
      ensures var e := PageEmitter.SetPageIndex(old(Record()), PageIndexByOffset(), true, Options());
              Record() == e.record && pageEvents == old(pageEvents) + e.events
      ensures pageScrolled == old(pageScrolled) + (if horizontal then ScrolledReport(result) else [])
      ensures WindowCached() && children == PlannedChildren(result > 0)
      ensures CacheExtends(old(itemFrames), itemFrames) && (old(CacheCoherent()) ==> CacheCoherent())
    {
      var page := PageIndexByOffset();
      SetPageIndex(page, true);
      ghost var recorded, events := Record(), pageEvents;
      if horizontal {
        ReportPageScrolled(result);
      }
      // The source branches on `result > 0` to pass true or false.
      RecycleAndFillItems(false, result > 0);
      assert page == PageIndexByOffset() && Record() == recorded && pageEvents == events;
    }

    /** `onScrollStateChanged`: record the state; at rest, report the page. */
    method OnScrollStateChanged(state: ScrollState)
      requires Valid()
      modifies this`scrollState, this`lastPageIndex, this`pageEvents
      ensures Valid()
      ensures scrollState == state
      ensures state != Idle ==> Record() == old(Record()) && pageEvents == old(pageEvents)
      ensures state == Idle ==>
                var e := PageEmitter.SetPageIndex(old(Record()), PageIndexByOffset(), false, Options());
                Record() == e.record && pageEvents == old(pageEvents) + e.events
    {
      scrollState := state;
      if state == Idle {
        SetPageIndex(PageIndexByOffset(), false);
      }
    }

    //--- page jumps ---------------------------------------------------------

    /** The scroll `scrollToPage(pageIndex)` asks of the active axis. */
    function JumpDelta(pageIndex: int): int
      reads this`offsetX, this`offsetY
    {
      if orientation == Vertical then pageIndex * usableHeight - offsetY
      else pageIndex * usableWidth - offsetX
    }

    /** Nothing but the logs of refused jumps and smooth scrolls changed. */
    twostate predicate Unmoved()
      reads this`offsetX, this`offsetY, this`maxScrollX, this`maxScrollY, this`itemCount, this`itemWidth,
            this`itemHeight, this`itemFrames, this`children, this`attached, this`changeSelectInScrolling,
            this`lastPageCount, this`lastPageIndex, this`hasPageListener, this`hasPageChangeCallback,
            this`pageEvents, this`pageScrolled, this`jumpErrors
    {
      offsetX == old(offsetX) && offsetY == old(offsetY) &&
      Record() == old(Record()) && pageEvents == old(pageEvents) &&
      pageScrolled == old(pageScrolled) && itemFrames == old(itemFrames) && children == old(children)
    }

    /** The whole effect of `scrollToPage(pageIndex)`. */
    twostate predicate JumpedTo(pageIndex: int)
      reads this`offsetX, this`offsetY, this`maxScrollX, this`maxScrollY, this`itemCount, this`itemWidth,
            this`itemHeight, this`itemFrames, this`children, this`attached, this`changeSelectInScrolling,
            this`lastPageCount, this`lastPageIndex, this`hasPageListener, this`hasPageChangeCallback,
            this`pageEvents, this`pageScrolled, this`jumpErrors
      requires Shape()
    {
      var pageCount := old(lastPageCount);
      if !(0 <= pageIndex < pageCount) then
        Unmoved() && jumpErrors == old(jumpErrors) + [PageOutOfBounds(pageIndex, pageCount)]
      else if !attached then
        Unmoved() && jumpErrors == old(jumpErrors) + [RecyclerViewNotFound]
      else
        jumpErrors == old(jumpErrors) && Landed(pageIndex)
    }

    /**
     * The effect of an accepted jump: the active axis scrolled by the
     * distance to the page's corner (clamped; nothing when the distance is
     * 0), then the page reported at rest.
     */
    twostate predicate Landed(pageIndex: int)
      reads this`offsetX, this`offsetY, this`maxScrollX, this`maxScrollY, this`itemCount, this`itemWidth,
            this`itemHeight, this`itemFrames, this`children, this`attached, this`changeSelectInScrolling,
            this`lastPageCount, this`lastPageIndex, this`hasPageListener, this`hasPageChangeCallback,
            this`pageEvents, this`pageScrolled, this`jumpErrors
      requires Shape()
    {
      ScrolledThenSettled(old(JumpDelta(pageIndex)), pageIndex)
    }

    /** `scrollBy(delta)` along the active axis followed by `setPageIndex(pageIndex, false)`. */
    twostate predicate ScrolledThenSettled(delta: int, pageIndex: int)
      reads this`offsetX, this`offsetY, this`maxScrollX, this`maxScrollY, this`itemCount, this`itemWidth,
            this`itemHeight, this`itemFrames, this`children, this`attached, this`changeSelectInScrolling,
            this`lastPageCount, this`lastPageIndex, this`hasPageListener, this`hasPageChangeCallback,
            this`pageEvents, this`pageScrolled, this`jumpErrors
      requires Shape()
    {
      var e1 := if delta != 0 then PageEmitter.SetPageIndex(old(Record()), PageIndexByOffset(), true, Options())
                else Emission(old(Record()), []);
      var e2 := PageEmitter.SetPageIndex(e1.record, pageIndex, false, Options());
      MovedBy(delta) &&
      Record() == e2.record && lastPageIndex == pageIndex &&
      pageEvents == old(pageEvents) + e1.events + e2.events
    }

    /**
     * `scrollToPage`: an index outside [0, mLastPageCount), or no attached
     * RecyclerView, is logged and changes nothing. Otherwise the RecyclerView
     * scrolls the active axis by the distance to the page's corner (forwarded
     * to `scroll*By` when non-zero) and the page is reported at rest.
     */
    method ScrollToPage(pageIndex: int)
      requires Valid()
      modifies this`offsetX, this`offsetY, this`lastPageIndex, this`pageEvents, this`pageScrolled,
               this`itemFrames, this`children, this`jumpErrors
      ensures Valid()
      ensures JumpedTo(pageIndex)
      ensures 0 <= pageIndex < lastPageCount && attached && BoundsMatch(lastPageCount) &&
              0 <= usableWidth && 0 <= usableHeight ==>
                ActiveOffset() == pageIndex * ActiveExtent()
    {
      if pageIndex < 0 || pageIndex >= lastPageCount {
        jumpErrors := jumpErrors + [PageOutOfBounds(pageIndex, lastPageCount)];
        return;
      }
      if !attached {
        jumpErrors := jumpErrors + [RecyclerViewNotFound];
        return;
      }
      JumpToAcceptedPage(pageIndex);
    }

    /** The accepted case of `scrollToPage`. */
    method JumpToAcceptedPage(pageIndex: int)
      requires Valid() && 0 <= pageIndex < lastPageCount
      modifies this`offsetX, this`offsetY, this`lastPageIndex, this`pageEvents, this`pageScrolled,
               this`itemFrames, this`children
      ensures Valid()
      ensures Landed(pageIndex)
      ensures BoundsMatch(lastPageCount) && 0 <= usableWidth && 0 <= usableHeight ==>
                ActiveOffset() == pageIndex * ActiveExtent()
    {
      var targetOffsetXBy, targetOffsetYBy;
      if orientation == Vertical {
        targetOffsetXBy := 0;
        targetOffsetYBy := pageIndex * usableHeight - offsetY;
      } else {
        targetOffsetXBy := pageIndex * usableWidth - offsetX;
        targetOffsetYBy := 0;
      }
      if 0 <= usableWidth && 0 <= usableHeight && BoundsMatch(lastPageCount) {
        JumpTargetInBounds(pageIndex);
      }
      var delta := if orientation == Vertical then targetOffsetYBy else targetOffsetXBy;
      ScrollAndSettle(delta, pageIndex);
    }

    /** The scroll by `delta` of an accepted jump, then the report of `pageIndex` at rest. */
    method ScrollAndSettle(delta: int, pageIndex: int)
      requires Valid()
      modifies this`offsetX, this`offsetY, this`lastPageIndex, this`pageEvents, this`pageScrolled,
               this`itemFrames, this`children
      ensures Valid()
      ensures ScrolledThenSettled(delta, pageIndex)
    {
      ScrollActiveBy(delta);
      ghost var e1 := if delta != 0 then PageEmitter.SetPageIndex(old(Record()), PageIndexByOffset(), true, Options())
                      else Emission(old(Record()), []);
      assert Record() == e1.record && pageEvents == old(pageEvents) + e1.events;
      ghost var page := PageIndexByOffset();
      SetPageIndex(pageIndex, false);
      assert page == PageIndexByOffset();
    }

    /** The effect of `recyclerView.scrollBy` by `delta` along the active axis. */
    twostate predicate ScrolledBy(delta: int)
      reads this`offsetX, this`offsetY, this`maxScrollX, this`maxScrollY, this`itemCount, this`itemWidth,
            this`itemHeight, this`itemFrames, this`children, this`attached, this`changeSelectInScrolling,
            this`lastPageCount, this`lastPageIndex, this`hasPageListener, this`hasPageChangeCallback,
            this`pageEvents, this`pageScrolled, this`jumpErrors
      requires Shape()
    {
      var e := if delta != 0 then PageEmitter.SetPageIndex(old(Record()), PageIndexByOffset(), true, Options())
               else Emission(old(Record()), []);
      MovedBy(delta) && Record() == e.record && pageEvents == old(pageEvents) + e.events
    }

    /**
     * What a scroll by `delta` along the active axis does besides the page
     * report: the offset moves by the clamped distance, a horizontal move is
     * reported to the page-change callback, and the window is laid out anew
     * in the direction of the move. A zero distance changes nothing.
     */
    twostate predicate MovedBy(delta: int)
      reads this`offsetX, this`offsetY, this`maxScrollX, this`maxScrollY, this`itemCount, this`itemWidth,
            this`itemHeight, this`hasPageChangeCallback, this`pageScrolled, this`itemFrames, this`children
      requires Shape()
    {
      var moved := delta != 0;
      (orientation == Horizontal ==>
         offsetX == old(offsetX) + (if moved then ClampDelta(old(offsetX), maxScrollX, delta) else 0) &&
         offsetY == old(offsetY)) &&
      (orientation == Vertical ==>
         offsetY == old(offsetY) + (if moved then ClampDelta(old(offsetY), maxScrollY, delta) else 0) &&
         offsetX == old(offsetX)) &&
      pageScrolled == old(pageScrolled) +
        (if moved && orientation == Horizontal then ScrolledReport(offsetX - old(offsetX)) else []) &&
      (moved ==> WindowCached() && children == PlannedChildren(ActiveOffset() > old(ActiveOffset()))) &&
      (!moved ==> itemFrames == old(itemFrames) && children == old(children))
    }

    /**
     * `recyclerView.scrollBy` as this manager sees it: a non-zero distance on
     * the axis it scrolls reaches `scrollHorizontallyBy` or
     * `scrollVerticallyBy`; a zero distance does nothing.
     */
    method ScrollActiveBy(delta: int)
      requires Valid()
      modifies this`offsetX, this`offsetY, this`lastPageIndex, this`pageEvents, this`pageScrolled,
               this`itemFrames, this`children
      ensures Valid()
      ensures ScrolledBy(delta)
    {
      if delta != 0 {
        if orientation == Horizontal {
          var _ := ScrollHorizontallyBy(delta);
        } else {
          var _ := ScrollVerticallyBy(delta);
        }
      }
    }

    /** The corner of an existing page lies within the scroll bounds. */
    lemma JumpTargetInBounds(pageIndex: int)
      requires Valid() && 0 <= usableWidth && 0 <= usableHeight
      requires 0 <= pageIndex < lastPageCount && BoundsMatch(lastPageCount)
      ensures orientation == Horizontal ==> 0 <= pageIndex * usableWidth <= maxScrollX
      ensures orientation == Vertical ==> 0 <= pageIndex * usableHeight <= maxScrollY
    {
      MulMonotone(0, pageIndex, 0, ActiveExtent());
      MulMonotone(pageIndex, lastPageCount - 1, ActiveExtent(), ActiveExtent());
    }

    /** `scrollToPosition`: jump to the page of `position`. */
    method ScrollToPosition(position: int)
      requires Valid()
      modifies this`offsetX, this`offsetY, this`lastPageIndex, this`pageEvents, this`pageScrolled,
               this`itemFrames, this`children, this`jumpErrors
      ensures Valid()
      ensures JumpedTo(PageIndexByPos(position, onePageSize))
    {
      ScrollToPage(GetPageIndexByPos(position));
    }

    /** `prePage`. */
    method PrePage()
      requires Valid()
      modifies this`offsetX, this`offsetY, this`lastPageIndex, this`pageEvents, this`pageScrolled,
               this`itemFrames, this`children, this`jumpErrors
      ensures Valid()
      ensures JumpedTo(old(PageIndexByOffset()) - 1)
    {
      ScrollToPage(PageIndexByOffset() - 1);
    }

    /** `nextPage`. */
    method NextPage()
      requires Valid()
      modifies this`offsetX, this`offsetY, this`lastPageIndex, this`pageEvents, this`pageScrolled,
               this`itemFrames, this`children, this`jumpErrors
      ensures Valid()
      ensures JumpedTo(old(PageIndexByOffset()) + 1)
    {
      ScrollToPage(PageIndexByOffset() + 1);
    }

    /**
     * `smoothScrollToPage`: refused like `scrollToPage`. A target more than
     * three pages from the current page is first jumped to three pages short
     * of it; then a smooth scroller is started toward the page's first
     * position.
     */
    method SmoothScrollToPage(pageIndex: int)
      requires Valid()
      modifies this`offsetX, this`offsetY, this`lastPageIndex, this`pageEvents, this`pageScrolled,
               this`itemFrames, this`children, this`jumpErrors, this`smoothScrollTargets
      ensures Valid()
      ensures !(0 <= pageIndex < old(lastPageCount)) ==>
                Unmoved() && smoothScrollTargets == old(smoothScrollTargets) &&
                jumpErrors == old(jumpErrors) + [PageOutOfBounds(pageIndex, old(lastPageCount))]
      ensures 0 <= pageIndex < old(lastPageCount) && !attached ==>
                Unmoved() && smoothScrollTargets == old(smoothScrollTargets) &&
                jumpErrors == old(jumpErrors) + [RecyclerViewNotFound]
      ensures 0 <= pageIndex < old(lastPageCount) && attached ==>
                smoothScrollTargets == old(smoothScrollTargets) + [pageIndex * onePageSize]
      ensures 0 <= pageIndex < old(lastPageCount) && attached && Abs(pageIndex - old(PageIndexByOffset())) <= 3 ==>
                Unmoved() && jumpErrors == old(jumpErrors)
      ensures 0 <= pageIndex < old(lastPageCount) && attached && Abs(pageIndex - old(PageIndexByOffset())) > 3 ==>
                JumpedTo(if pageIndex > old(PageIndexByOffset()) then pageIndex - 3 else pageIndex + 3)
      ensures 0 <= pageIndex < old(lastPageCount) && attached && pageIndex > old(PageIndexByOffset()) + 3 &&
              BoundsMatch(lastPageCount) && 0 <= usableWidth && 0 <= usableHeight ==>
                ActiveOffset() == (pageIndex - 3) * ActiveExtent()
      ensures 0 <= pageIndex < old(lastPageCount) && attached && pageIndex < old(PageIndexByOffset()) - 3 &&
              pageIndex + 3 < lastPageCount &&
              BoundsMatch(lastPageCount) && 0 <= usableWidth && 0 <= usableHeight ==>
                ActiveOffset() == (pageIndex + 3) * ActiveExtent()
    {
      if pageIndex < 0 || pageIndex >= lastPageCount {
        jumpErrors := jumpErrors + [PageOutOfBounds(pageIndex, lastPageCount)];
        return;
      }
      if !attached {
        jumpErrors := jumpErrors + [RecyclerViewNotFound];
        return;
      }
      SmoothScrollAccepted(pageIndex);
    }

    /**
     * An accepted `smoothScrollToPage`: the jump close to a distant page,
     * then the smooth scroller toward the page's first position.
     */
    method SmoothScrollAccepted(pageIndex: int)
      requires Valid() && 0 <= pageIndex < lastPageCount && attached
      modifies this`offsetX, this`offsetY, this`lastPageIndex, this`pageEvents, this`pageScrolled,
               this`itemFrames, this`children, this`jumpErrors, this`smoothScrollTargets
      ensures Valid()
      ensures smoothScrollTargets == old(smoothScrollTargets) + [pageIndex * onePageSize]
      ensures Abs(pageIndex - old(PageIndexByOffset())) <= 3 ==> Unmoved() && jumpErrors == old(jumpErrors)
      ensures Abs(pageIndex - old(PageIndexByOffset())) > 3 ==>
                JumpedTo(if pageIndex > old(PageIndexByOffset()) then pageIndex - 3 else pageIndex + 3)
      ensures pageIndex > old(PageIndexByOffset()) + 3 &&
              BoundsMatch(lastPageCount) && 0 <= usableWidth && 0 <= usableHeight ==>
                ActiveOffset() == (pageIndex - 3) * ActiveExtent()
      ensures pageIndex < old(PageIndexByOffset()) - 3 && pageIndex + 3 < lastPageCount &&
              BoundsMatch(lastPageCount) && 0 <= usableWidth && 0 <= usableHeight ==>
                ActiveOffset() == (pageIndex + 3) * ActiveExtent()
    {
      // The source starts the smooth scroller after the jump; the jump never
      // touches this log, so the entry is recorded first.
      var position := pageIndex * onePageSize;
      smoothScrollTargets := smoothScrollTargets + [position];
      JumpCloseTo(pageIndex);
    }

    /**
     * The first step of an accepted `smoothScrollToPage`: a target more than
     * three pages away is jumped to three pages short of it.
     */
    method JumpCloseTo(pageIndex: int)
      requires Valid() && 0 <= pageIndex < lastPageCount && attached
      modifies this`offsetX, this`offsetY, this`lastPageIndex, this`pageEvents, this`pageScrolled,
               this`itemFrames, this`children, this`jumpErrors
      ensures Valid()
      ensures Abs(pageIndex - old(PageIndexByOffset())) <= 3 ==> Unmoved() && jumpErrors == old(jumpErrors)
      ensures Abs(pageIndex - old(PageIndexByOffset())) > 3 ==>
                JumpedTo(if pageIndex > old(PageIndexByOffset()) then pageIndex - 3 else pageIndex + 3)
      ensures pageIndex > old(PageIndexByOffset()) + 3 &&
              BoundsMatch(lastPageCount) && 0 <= usableWidth && 0 <= usableHeight ==>
                ActiveOffset() == (pageIndex - 3) * ActiveExtent()
      ensures pageIndex < old(PageIndexByOffset()) - 3 && pageIndex + 3 < lastPageCount &&
              BoundsMatch(lastPageCount) && 0 <= usableWidth && 0 <= usableHeight ==>
                ActiveOffset() == (pageIndex + 3) * ActiveExtent()
    {
      var currentPageIndex := PageIndexByOffset();
      if Abs(pageIndex - currentPageIndex) > 3 {
        // More than three pages apart, the target lies strictly on one side.
        var nearPage := if pageIndex > currentPageIndex then pageIndex - 3 else pageIndex + 3;
        ScrollToPage(nearPage);
      }
    }

    /**
     * `smoothScrollToPosition`: `smoothScrollToPage` for the page of
     * `position`, with its refusals, its jump to three pages short of a
     * distant page and its smooth scroll.
     */
    method SmoothScrollToPosition(position: int)
      requires Valid()
      modifies this`offsetX, this`offsetY, this`lastPageIndex, this`pageEvents, this`pageScrolled,
               this`itemFrames, this`children, this`jumpErrors, this`smoothScrollTargets
      ensures Valid()
      ensures var page := PageIndexByPos(position, onePageSize);
              !(0 <= page < old(lastPageCount)) ==>
                Unmoved() && smoothScrollTargets == old(smoothScrollTargets) &&
                jumpErrors == old(jumpErrors) + [PageOutOfBounds(page, old(lastPageCount))]
      ensures var page := PageIndexByPos(position, onePageSize);
              0 <= page < old(lastPageCount) && !attached ==>
                Unmoved() && smoothScrollTargets == old(smoothScrollTargets) &&
                jumpErrors == old(jumpErrors) + [RecyclerViewNotFound]
      ensures var page := PageIndexByPos(position, onePageSize);
              0 <= page < old(lastPageCount) && attached ==>
                smoothScrollTargets == old(smoothScrollTargets) + [page * onePageSize]
      ensures var page := PageIndexByPos(position, onePageSize);
              0 <= page < old(lastPageCount) && attached && Abs(page - old(PageIndexByOffset())) <= 3 ==>
                Unmoved() && jumpErrors == old(jumpErrors)
      ensures var page := PageIndexByPos(position, onePageSize);
              0 <= page < old(lastPageCount) && attached && Abs(page - old(PageIndexByOffset())) > 3 ==>
                JumpedTo(if page > old(PageIndexByOffset()) then page - 3 else page + 3)
      ensures var page := PageIndexByPos(position, onePageSize);
              0 <= page < old(lastPageCount) && attached && page > old(PageIndexByOffset()) + 3 &&
              BoundsMatch(lastPageCount) && 0 <= usableWidth && 0 <= usableHeight ==>
                ActiveOffset() == (page - 3) * ActiveExtent()
      ensures var page := PageIndexByPos(position, onePageSize);
              0 <= page < old(lastPageCount) && attached && page < old(PageIndexByOffset()) - 3 &&
              page + 3 < lastPageCount &&
              BoundsMatch(lastPageCount) && 0 <= usableWidth && 0 <= usableHeight ==>
                ActiveOffset() == (page + 3) * ActiveExtent()
    {
      SmoothScrollToPage(GetPageIndexByPos(position));
    }

    /**
     * `smoothPrePage`: `smoothScrollToPage` for the page before the nearest
     * one. It is never more than three pages away, so nothing is jumped.
     */
    method SmoothPrePage()
      requires Valid()
      modifies this`offsetX, this`offsetY, this`lastPageIndex, this`pageEvents, this`pageScrolled,
               this`itemFrames, this`children, this`jumpErrors, this`smoothScrollTargets
      ensures Valid()
      ensures var page := old(PageIndexByOffset()) - 1;
              !(0 <= page < old(lastPageCount)) ==>
                Unmoved() && smoothScrollTargets == old(smoothScrollTargets) &&
                jumpErrors == old(jumpErrors) + [PageOutOfBounds(page, old(lastPageCount))]
      ensures var page := old(PageIndexByOffset()) - 1;
              0 <= page < old(lastPageCount) && !attached ==>
                Unmoved() && smoothScrollTargets == old(smoothScrollTargets) &&
                jumpErrors == old(jumpErrors) + [RecyclerViewNotFound]
      ensures var page := old(PageIndexByOffset()) - 1;
              0 <= page < old(lastPageCount) && attached ==>
                smoothScrollTargets == old(smoothScrollTargets) + [page * onePageSize]
      ensures var page := old(PageIndexByOffset()) - 1;
              0 <= page < old(lastPageCount) && attached ==> Unmoved() && jumpErrors == old(jumpErrors)
    {
      SmoothScrollToPage(PageIndexByOffset() - 1);
    }

    /**
     * `smoothNextPage`: `smoothScrollToPage` for the page after the nearest
     * one. It is never more than three pages away, so nothing is jumped.
     */
    method SmoothNextPage()
      requires Valid()
      modifies this`offsetX, this`offsetY, this`lastPageIndex, this`pageEvents, this`pageScrolled,
               this`itemFrames, this`children, this`jumpErrors, this`smoothScrollTargets
      ensures Valid()
      ensures var page := old(PageIndexByOffset()) + 1;
              !(0 <= page < old(lastPageCount)) ==>
                Unmoved() && smoothScrollTargets == old(smoothScrollTargets) &&
                jumpErrors == old(jumpErrors) + [PageOutOfBounds(page, old(lastPageCount))]
      ensures var page := old(PageIndexByOffset()) + 1;
              0 <= page < old(lastPageCount) && !attached ==>
                Unmoved() && smoothScrollTargets == old(smoothScrollTargets) &&
                jumpErrors == old(jumpErrors) + [RecyclerViewNotFound]
      ensures var page := old(PageIndexByOffset()) + 1;
              0 <= page < old(lastPageCount) && attached ==>
                smoothScrollTargets == old(smoothScrollTargets) + [page * onePageSize]
      ensures var page := old(PageIndexByOffset()) + 1;
              0 <= page < old(lastPageCount) && attached ==> Unmoved() && jumpErrors == old(jumpErrors)
    {
      SmoothScrollToPage(PageIndexByOffset() + 1);
    }

    //--- snapping -----------------------------------------------------------

    /**
     * `findSnapView`, answering with the adapter position of the chosen
     * child: the focused child if any; none without children; otherwise the
     * child at the first position of the nearest page, else the first child.
     */
    method FindSnapView(focused: Option<int>) returns (view: Option<int>)
      requires Valid()
      ensures focused.Some? ==> view == focused
      ensures focused.None? && |children| == 0 ==> view == None
      ensures focused.None? && |children| > 0 ==>
                var targetPos := PageIndexByOffset() * onePageSize;
                view == Some(if targetPos in Positions(children) then targetPos else children[0].pos)
    {
      if focused.Some? {
        return focused;
      }
      if |children| <= 0 {
        return None;
      }
      var targetPos := PageIndexByOffset() * onePageSize;
      var i := 0;
      while i < |children|
        invariant 0 <= i <= |children|
        invariant forall j :: 0 <= j < i ==> children[j].pos != targetPos
      {
        var childPos := children[i].pos;
        if childPos == targetPos {
          assert Positions(children)[i] == targetPos;
          return Some(childPos);
        }
        i := i + 1;
      }
      assert targetPos !in Positions(children);
      return Some(children[0].pos);
    }
  }
}
