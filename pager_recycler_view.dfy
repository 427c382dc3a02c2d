/**
 * `PagerRecyclerView`: a RecyclerView over a grid layout that turns pages
 * by dragging. It sums the horizontal scroll of a drag; on release it
 * classifies that distance against the touch slop as a turn back, a turn
 * forward or a reset, and a moment later scrolls to the position the
 * decision names. The pure rules (classification, target positions, the
 * page under the finger, the page count) are functions; the view is a
 * class whose fields the touch and scroll handlers update.
 */
module PagerView {
  import opened Wrappers
  import opened PageMath
  import opened Geometry

  /** `RecyclerView.SCROLL_STATE_IDLE`, `_DRAGGING` and `_SETTLING`. */
  const ScrollStateIdle := 0
  const ScrollStateDragging := 1
  const ScrollStateSettling := 2

  /** The decision taken on release, with the codes of its `DRAGGING_*` constant. */
  datatype TurnFlag = LeftBack | RightNext | LeftReset | RightReset
  {
    function Code(): int {
      match this
      case LeftBack => 0
      case RightNext => 1
      case LeftReset => -1
      case RightReset => -2
    }

    predicate IsReset() {
      this == LeftReset || this == RightReset
    }
  }

  /** The action of a touch event; `ActionOther` also stands for a missing event. */
  datatype TouchAction = ActionDown | ActionMove | ActionUp | ActionCancel | ActionOther

  /** The flag codes are distinct, so the decision taken is the decision run. */
  lemma CodesDistinct(f: TurnFlag, g: TurnFlag)
    ensures f.Code() == g.Code() <==> f == g
  {
  }

  /**
   * The release rule of `onTouchEvent`: a drag to the left (negative) past
   * the slop turns back, a shorter one resets; a drag to the right past the
   * slop turns forward, a shorter one resets; no drag decides nothing. The
   * inner test for a zero drag inside each direction can never hold.
   */
  function ReleaseDecision(dragX: int, slop: int): (flag: Option<TurnFlag>)
    ensures flag == None <==> dragX == 0
    ensures flag == Some(LeftBack) <==> dragX < 0 && Abs(dragX) > slop
    ensures flag == Some(RightReset) <==> dragX < 0 && Abs(dragX) <= slop
    ensures flag == Some(RightNext) <==> dragX > 0 && Abs(dragX) > slop
    ensures flag == Some(LeftReset) <==> dragX > 0 && Abs(dragX) <= slop
  {
    if dragX < 0 then
      if dragX == 0 then None
      else if Abs(dragX) > slop then Some(LeftBack)
      else Some(RightReset)
    else if dragX > 0 then
      if dragX == 0 then None
      else if Abs(dragX) > slop then Some(RightNext)
      else Some(LeftReset)
    else None
  }

  /**
   * A release turns the page exactly when the drag went past the slop, and
   * then in the direction of the drag; mirrored drags take mirrored
   * decisions.
   */
  lemma ReleaseTurnsPastSlop(dragX: int, slop: int)
    requires 0 <= slop
    ensures var flag := ReleaseDecision(dragX, slop);
            (flag.Some? && !flag.value.IsReset() <==> Abs(dragX) > slop) &&
            (flag.Some? && flag.value.IsReset() <==> 0 < Abs(dragX) <= slop)
    ensures ReleaseDecision(dragX, slop) == Some(LeftBack) <==> ReleaseDecision(-dragX, slop) == Some(RightNext)
    ensures ReleaseDecision(dragX, slop) == Some(RightReset) <==> ReleaseDecision(-dragX, slop) == Some(LeftReset)
  {
  }

  /**
   * `getPositionByPage`: the first position of a page; for an existing page
   * it is a position on that page, at its first slot.
   */
  function GetPositionByPage(page: int, pageSize: int): (position: int)
    ensures pageSize > 0 && page >= 0 ==>
              position >= 0 && Quot(position, pageSize) == page && Rem(position, pageSize) == 0
  {
    SlotOnPage(page, 0, pageSize);
    page * pageSize
  }

  /** Slot `slot` of page `page` lies on that page, when it is a position at all. */
  lemma SlotOnPage(page: int, slot: int, size: int)
    ensures 0 < size && 0 <= page && 0 <= slot ==> page * size + slot >= 0
    ensures 0 < size && 0 <= slot < size && page * size + slot >= 0 ==>
              Quot(page * size + slot, size) == page && Rem(page * size + slot, size) == slot
  {
    if 0 < size && 0 <= page && 0 <= slot {
      MulMonotone(0, page, 0, size);
    }
    if 0 < size && 0 <= slot < size && page * size + slot >= 0 {
      if page < 0 {
        MulStep(page, 0, size);
        assert false;
      }
      FloorUnique(page * size + slot, size, page, slot);
    }
  }

  /**
   * The page a decision scrolls to: the current page for a reset, one page
   * further for a forward turn and one page back for a backward turn.
   */
  function TargetPage(flag: TurnFlag, currentPage: int): (page: int)
    ensures page == currentPage <==> flag.IsReset()
    ensures page > currentPage <==> flag == RightNext
    ensures Abs(page - currentPage) <= 1
  {
    match flag
    case LeftBack => currentPage - 1
    case RightNext => currentPage + 1
    case _ => currentPage
  }

  /**
   * The position the pending decision scrolls to: the first position of
   * the previous page, the last position of the next page, or the first
   * position of the current page for a reset. None of them is clamped to
   * the existing positions; with a positive page size each one that is a
   * position lies on the decision's page, at its first slot or, for a
   * forward turn, its last.
   */
  function TurnTarget(flag: TurnFlag, currentPage: int, pageSize: int): (position: int)
    ensures pageSize > 0 && position >= 0 ==>
              Quot(position, pageSize) == TargetPage(flag, currentPage) &&
              Rem(position, pageSize) == (if flag == RightNext then pageSize - 1 else 0)
  {
    SlotOnPage(TargetPage(flag, currentPage), if flag == RightNext then pageSize - 1 else 0, pageSize);
    match flag
    case LeftBack => GetPositionByPage(currentPage - 1, pageSize)
    case RightNext => GetPositionByPage(currentPage + 1, pageSize) + (pageSize - 1)
    case _ => GetPositionByPage(currentPage, pageSize)
  }

  /** Turning back from the first page targets a position before the first item. */
  lemma BackFromFirstPageUnclamped(pageSize: int)
    requires pageSize > 0
    ensures TurnTarget(LeftBack, 0, pageSize) == -pageSize
  {
  }

  /** `adapter?.itemCount ?: 0`. */
  function ItemCountOr0(adapterItemCount: Option<nat>): nat {
    if adapterItemCount.Some? then adapterItemCount.value else 0
  }

  /**
   * `downCurrentPage`: the last page when the last completely visible item
   * is the last item, otherwise the page of the first completely visible
   * item by truncating division. `None` stands for the division by a zero
   * page size, which throws.
   */
  function DownCurrentPage(firstVisible: int, lastVisible: int, adapterItemCount: Option<nat>,
                           pageCount: int, pageSize: int): (page: Option<int>)
    ensures lastVisible + 1 == ItemCountOr0(adapterItemCount) ==> page == Some(pageCount - 1)
    ensures lastVisible + 1 != ItemCountOr0(adapterItemCount) ==>
              (page.None? <==> pageSize == 0) &&
              (pageSize != 0 ==> page == Some(Quot(firstVisible, pageSize)))
  {
    if lastVisible + 1 == ItemCountOr0(adapterItemCount) then Some(pageCount - 1)
    else if pageSize == 0 then None
    else Some(Quot(firstVisible, pageSize))
  }

  /**
   * Away from the end, the page under the finger is the page that holds
   * the first completely visible item.
   */
  lemma DownPageHoldsFirstVisible(firstVisible: int, lastVisible: int, adapterItemCount: Option<nat>,
                                  pageCount: int, pageSize: int)
    requires lastVisible + 1 != ItemCountOr0(adapterItemCount)
    requires pageSize > 0 && firstVisible >= 0
    ensures var page := DownCurrentPage(firstVisible, lastVisible, adapterItemCount, pageCount, pageSize);
            page.Some? && page.value * pageSize <= firstVisible < page.value * pageSize + pageSize
  {
    QuotBracket(firstVisible, pageSize);
  }

  /**
   * With no completely visible item (position -1) and a page size above
   * one, the truncating division gives page 0, not -1.
   */
  lemma NoVisibleItemIsPageZero(lastVisible: int, adapterItemCount: Option<nat>, pageCount: int, pageSize: int)
    requires lastVisible + 1 != ItemCountOr0(adapterItemCount) && pageSize > 1
    ensures DownCurrentPage(-1, lastVisible, adapterItemCount, pageCount, pageSize) == Some(0)
  {
  }

  /**
   * The condition under which `onScrollStateChanged` notifies the
   * position listener: entering the idle state from settling or dragging
   * while the last state is also idle. It can never hold.
   */
  function PositionChangedFires(lastState: int, state: int): (fires: bool)
    ensures !fires
  {
    state == ScrollStateIdle &&
    (lastState == ScrollStateSettling || lastState == ScrollStateDragging) && lastState == ScrollStateIdle
  }

  /**
   * `initPageCounts` as a step on the page count: `None` when the page size
   * is zero (it throws); otherwise a zero count becomes the item count
   * divided by the page size, rounded toward positive infinity, and any
   * other count is kept.
   */
  function InitPageCount(pageCount: int, itemCount: nat, pageSize: int): (r: Option<int>)
    ensures r.None? <==> pageSize == 0
    ensures r.Some? && pageCount != 0 ==> r.value == pageCount
    ensures r.Some? && pageCount == 0 && pageSize > 0 ==>
              (r.value - 1) * pageSize < itemCount <= r.value * pageSize
    ensures r.Some? && pageCount == 0 && pageSize < 0 ==>
              r.value * pageSize <= itemCount < r.value * pageSize - pageSize
  {
    if pageSize == 0 then None
    else if pageCount == 0 then Some(CeilDiv(itemCount, pageSize))
    else Some(pageCount)
  }

  /**
   * The page count is computed once: after a step that leaves it nonzero,
   * no later step changes it, whatever the item count has become.
   */
  lemma PageCountSettles(pageCount: int, itemCount: nat, laterItemCount: nat, pageSize: int)
    requires InitPageCount(pageCount, itemCount, pageSize).Some?
    requires InitPageCount(pageCount, itemCount, pageSize).value != 0
    ensures var first := InitPageCount(pageCount, itemCount, pageSize).value;
            InitPageCount(first, laterItemCount, pageSize) == Some(first)
    ensures var first := InitPageCount(pageCount, itemCount, pageSize).value;
            pageCount == 0 && pageSize > 0 ==> (first - 1) * pageSize < itemCount <= first * pageSize
    ensures var first := InitPageCount(pageCount, itemCount, pageSize).value;
            pageCount == 0 && pageSize < 0 ==> first * pageSize <= itemCount < first * pageSize - pageSize
  {
  }

  /** Without items the count stays zero and is computed again at the next change. */
  lemma EmptyAdapterKeepsZero(pageSize: int)
    requires pageSize != 0
    ensures InitPageCount(0, 0, pageSize) == Some(0)
  {
  }

  class PagerRecyclerView {
    var pageSize: int
    var pageCount: int
    var currentPage: int
    const scaledTouchSlop: int
    var lastState: int
    var needResetPosition: int
    var dragX: int
    /** The decision posted to the handler and not yet run; posting replaces it. */
    var pending: Option<TurnFlag>
    var hasPositionListener: bool

    /** Positions passed to `smoothScrollToPosition`. */
    ghost var smoothScrollRequests: seq<int>
    /** Positions passed to the grid layout's `scrollToPositionWithOffset(position, 0)`. */
    ghost var offsetScrollRequests: seq<int>
    /** Pages passed to `onPositionChanged`. */
    ghost var positionChanges: seq<int>
    /** Number of `stopScroll` calls. */
    ghost var stopScrolls: nat

    /** A new view, with the touch slop of its display. */
    constructor(scaledTouchSlop: int)
      ensures this.scaledTouchSlop == scaledTouchSlop
      ensures pageSize == 0 && pageCount == 0 && currentPage == 0 && lastState == 0
      ensures needResetPosition == -1 && dragX == 0 && pending == None && !hasPositionListener
      ensures smoothScrollRequests == [] && offsetScrollRequests == [] && positionChanges == [] && stopScrolls == 0
    {
      this.scaledTouchSlop := scaledTouchSlop;
      pageSize, pageCount, currentPage, lastState := 0, 0, 0, 0;
      needResetPosition, dragX, pending, hasPositionListener := -1, 0, None, false;
      smoothScrollRequests, offsetScrollRequests, positionChanges, stopScrolls := [], [], [], 0;
    }

    /** Assign the public `pageSize` field. */
    method SetPageSize(size: int)
      modifies this`pageSize
      ensures pageSize == size
    {
      pageSize := size;
    }

    /** `setOnPositionChangedListener`. */
    method SetOnPositionChangedListener()
      modifies this`hasPositionListener
      ensures hasPositionListener
    {
      hasPositionListener := true;
    }

    /** `onScrolled`: the horizontal scroll adds to the drag distance. */
    method OnScrolled(dx: int, dy: int)
      modifies this`dragX
      ensures dragX == old(dragX) + dx
    {
      dragX := dragX + dx;
    }

    /**
     * `onInterceptTouchEvent`: a press clears the drag distance and takes
     * the page under the finger from the grid layout's completely visible
     * positions. `thrown` reports the division by a zero page size, which
     * leaves the current page as it was.
     */
    method OnInterceptTouchEvent(action: TouchAction, firstVisible: int, lastVisible: int, adapterItemCount: Option<nat>)
      returns (thrown: bool)
      modifies this`dragX, this`currentPage
      ensures action != ActionDown ==> !thrown && dragX == old(dragX) && currentPage == old(currentPage)
      ensures action == ActionDown ==>
                var page := DownCurrentPage(firstVisible, lastVisible, adapterItemCount, pageCount, pageSize);
                dragX == 0 && (thrown <==> page.None?) &&
                currentPage == (if page.Some? then page.value else old(currentPage))
    {
      thrown := false;
      if action == ActionDown {
        dragX := 0;
        var page := DownCurrentPage(firstVisible, lastVisible, adapterItemCount, pageCount, pageSize);
        if page.None? {
          thrown := true;
          return;
        }
        currentPage := page.value;
      }
    }

    /**
     * `onTouchEvent`: a release or cancel stops the scroll and, when the
     * drag went somewhere, posts the release decision in place of any
     * pending one. A release without a drag leaves an earlier decision
     * pending.
     */
    method OnTouchEvent(action: TouchAction)
      modifies this`stopScrolls, this`pending
      ensures action != ActionUp && action != ActionCancel ==>
                stopScrolls == old(stopScrolls) && pending == old(pending)
      ensures action == ActionUp || action == ActionCancel ==>
                var flag := ReleaseDecision(dragX, scaledTouchSlop);
                stopScrolls == old(stopScrolls) + 1 &&
                pending == (if flag.Some? then flag else old(pending))
    {
      if action == ActionUp || action == ActionCancel {
        stopScrolls := stopScrolls + 1;
        var flag := ReleaseDecision(dragX, scaledTouchSlop);
        if flag.Some? {
          TroggleTurning(flag.value);
        }
      }
    }

    /** `troggleTurning`: cancel whatever is pending and post `flag`. */
    method TroggleTurning(flag: TurnFlag)
      modifies this`pending
      ensures pending == Some(flag)
    {
      pending := Some(flag);
    }

    /**
     * The handler runs the pending decision once its delay has passed. A
     * turn smooth-scrolls to its target; a reset reports the idle state,
     * records the first position of the current page as the reset position
     * and jumps there. The target is taken from the current page at the
     * time the decision runs, not when it was posted.
     */
    method RunPending()
      modifies this`pending, this`smoothScrollRequests, this`lastState, this`needResetPosition,
               this`offsetScrollRequests, this`positionChanges
      ensures pending == None
      ensures positionChanges == old(positionChanges)
      ensures old(pending).None? ==>
                smoothScrollRequests == old(smoothScrollRequests) && lastState == old(lastState) &&
                needResetPosition == old(needResetPosition) && offsetScrollRequests == old(offsetScrollRequests)
      ensures old(pending).Some? && !old(pending).value.IsReset() ==>
                smoothScrollRequests == old(smoothScrollRequests) + [TurnTarget(old(pending).value, currentPage, pageSize)] &&
                lastState == old(lastState) && needResetPosition == old(needResetPosition) &&
                offsetScrollRequests == old(offsetScrollRequests)
      ensures old(pending).Some? && old(pending).value.IsReset() ==>
                smoothScrollRequests == old(smoothScrollRequests) && lastState == ScrollStateIdle &&
                needResetPosition == GetPositionByPage(currentPage, pageSize) &&
                offsetScrollRequests == old(offsetScrollRequests) + [needResetPosition]
    {
      if pending.None? {
        return;
      }
      var flag := pending.value;
      pending := None;
      match flag
      case LeftBack =>
        var position := GetPositionByPage(currentPage - 1, pageSize);
        smoothScrollRequests := smoothScrollRequests + [position];
      case RightNext =>
        var position := GetPositionByPage(currentPage + 1, pageSize) + (pageSize - 1);
        smoothScrollRequests := smoothScrollRequests + [position];
      case _ =>
        var position := GetPositionByPage(currentPage, pageSize);
        OnScrollStateChanged(ScrollStateIdle);
        needResetPosition := position;
        offsetScrollRequests := offsetScrollRequests + [needResetPosition];
    }

    /**
     * `onScrollStateChanged`: the new state is always recorded; the
     * position listener would be told the current page when
     * `PositionChangedFires`, which never happens.
     */
    method OnScrollStateChanged(state: int)
      modifies this`lastState, this`positionChanges
      ensures lastState == state
      ensures positionChanges == old(positionChanges)
    {
      var notify := PositionChangedFires(lastState, state) && hasPositionListener;
      positionChanges := positionChanges + (if notify then [currentPage] else []);
      lastState := state;
    }

    /**
     * `initPageCounts`, run by the adapter observer's `onChanged`: throws
     * (`thrown`) when the page size is zero, otherwise applies
     * `InitPageCount` to the page count.
     */
    method InitPageCounts(adapterItemCount: Option<nat>) returns (thrown: bool)
      modifies this`pageCount
      ensures var r := InitPageCount(old(pageCount), ItemCountOr0(adapterItemCount), pageSize);
              (thrown <==> r.None?) && pageCount == (if r.Some? then r.value else old(pageCount))
    {
      if pageSize == 0 {
        return true;
      }
      thrown := false;
      if pageCount == 0 {
        var itemCount := ItemCountOr0(adapterItemCount);
        pageCount := CeilDiv(itemCount, pageSize);
      }
    }
  }
}
