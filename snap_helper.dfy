/**
 * `PagerGridSnapHelper`: the snap decisions of the paging grid. A fling
 * whose velocity on the scrolling axis exceeds the threshold snaps to the
 * first position of the next or the previous page; a target view snaps by
 * the layout manager's snap offset. The decisions are functions of the
 * velocities, the fling threshold and the layout manager's queries.
 */
module SnapHelper {
  import opened Wrappers
  import opened PageMath
  import opened Geometry
  import opened GridLayout

  /** `RecyclerView.NO_POSITION`. */
  const NoPosition := -1

  /** The layout manager a snap helper works with. */
  datatype Manager =
    | Paging(lm: PagerGridLayoutManager)      // a PagerGridLayoutManager
    | Other(isScrollVectorProvider: bool)     // any other layout manager

  /**
   * What `onFling` finds through the attached view: its layout manager
   * (`None` when no view is attached or it has no manager) and whether an
   * adapter is set.
   */
  datatype Host = Host(layoutManager: Option<Manager>, hasAdapter: bool)

  /** The result of `onFling`: whether the fling was consumed and the target of the smooth scroll it started. */
  datatype FlingOutcome = FlingOutcome(consumed: bool, scrollTarget: Option<int>)

  function Objects(m: Manager): set<object> {
    if m.Paging? then {m.lm} else {}
  }

  function HostObjects(h: Host): set<object> {
    if h.layoutManager.Some? then Objects(h.layoutManager.value) else {}
  }

  /** The layout manager's fixed shape, the only thing these decisions ask of it. */
  predicate Usable(m: Manager) {
    m.Paging? ==> m.lm.Shape()
  }

  /** The velocity along the axis the paging manager scrolls. */
  function ActiveVelocity(lm: PagerGridLayoutManager, velocityX: int, velocityY: int): int {
    if lm.orientation == Horizontal then velocityX else velocityY
  }

  /**
   * `findTargetSnapPosition`: for the paging manager, the first position of
   * the next page when the velocity on its axis is above the threshold, of
   * the previous page when it is below minus the threshold, and no position
   * otherwise; no position for any other manager.
   */
  function FindTargetSnapPosition(m: Manager, velocityX: int, velocityY: int, threshold: int): (target: int)
    reads Objects(m)
    requires Usable(m)
    ensures m.Other? ==> target == NoPosition
    ensures m.Paging? ==>
              var v := ActiveVelocity(m.lm, velocityX, velocityY);
              (v > threshold ==> target == m.lm.FindNextPageFirstPos()) &&
              (v < -threshold && !(v > threshold) ==> target == m.lm.FindPrePageFirstPos()) &&
              (-threshold <= v <= threshold ==> target == NoPosition)
  {
    if m.Paging? then
      var lm := m.lm;
      if lm.orientation == Horizontal then
        if velocityX > threshold then lm.FindNextPageFirstPos()
        else if velocityX < -threshold then lm.FindPrePageFirstPos()
        else NoPosition
      else
        if velocityY > threshold then lm.FindNextPageFirstPos()
        else if velocityY < -threshold then lm.FindPrePageFirstPos()
        else NoPosition
    else NoPosition
  }

  /** The velocity across the scrolling axis has no say in the target. */
  lemma TargetIgnoresCrossAxis(m: Manager, velocityX: int, velocityY: int, velocityX': int, velocityY': int, threshold: int)
    requires Usable(m)
    requires m.Paging? ==> ActiveVelocity(m.lm, velocityX, velocityY) == ActiveVelocity(m.lm, velocityX', velocityY')
    ensures FindTargetSnapPosition(m, velocityX, velocityY, threshold) ==
            FindTargetSnapPosition(m, velocityX', velocityY', threshold)
  {
  }

  /**
   * With items present and a recorded page within range, a fling finds a
   * target exactly when it is fast on the scrolling axis, and the target is
   * the first position of an existing page.
   */
  lemma TargetIsPageStart(m: Manager, velocityX: int, velocityY: int, threshold: int)
    requires Usable(m) && m.Paging?
    requires 0 < m.lm.itemCount && -1 <= m.lm.lastPageIndex <= m.lm.TotalPageCount()
    requires 0 <= threshold
    ensures var target := FindTargetSnapPosition(m, velocityX, velocityY, threshold);
            (target != NoPosition <==> Abs(ActiveVelocity(m.lm, velocityX, velocityY)) > threshold) &&
            (target != NoPosition ==>
               0 <= target < m.lm.itemCount && target % m.lm.onePageSize == 0)
  {
    var lm := m.lm;
    var v := ActiveVelocity(lm, velocityX, velocityY);
    var next, pre := lm.FindNextPageFirstPos(), lm.FindPrePageFirstPos();
    assert 0 <= next && 0 <= pre;
  }

  /**
   * `onFling` with `snapFromFling`: consumed when a manager and an adapter
   * are present, the fling is fast on some axis, the manager provides scroll
   * vectors and a target is found; the smooth scroll then heads for that
   * target.
   */
  function OnFling(h: Host, velocityX: int, velocityY: int, threshold: int): (r: FlingOutcome)
    reads HostObjects(h)
    requires h.layoutManager.Some? ==> Usable(h.layoutManager.value)
    ensures r.consumed <==> r.scrollTarget.Some?
    ensures r.consumed <==>
              h.layoutManager.Some? && h.hasAdapter &&
              (Abs(velocityY) > threshold || Abs(velocityX) > threshold) &&
              FindTargetSnapPosition(h.layoutManager.value, velocityX, velocityY, threshold) != NoPosition
    ensures r.consumed ==>
              h.layoutManager.value.Paging? &&
              r.scrollTarget == Some(FindTargetSnapPosition(h.layoutManager.value, velocityX, velocityY, threshold))
  {
    if h.layoutManager.None? || !h.hasAdapter then FlingOutcome(false, None)
    else if !(Abs(velocityY) > threshold || Abs(velocityX) > threshold) then FlingOutcome(false, None)
    else SnapFromFling(h.layoutManager.value, velocityX, velocityY, threshold)
  }

  /** `snapFromFling`: nothing without scroll vectors or a target; otherwise a smooth scroll to the target. */
  function SnapFromFling(m: Manager, velocityX: int, velocityY: int, threshold: int): (r: FlingOutcome)
    reads Objects(m)
    requires Usable(m)
    ensures r.consumed <==> FindTargetSnapPosition(m, velocityX, velocityY, threshold) != NoPosition
    ensures r.consumed ==> r.scrollTarget == Some(FindTargetSnapPosition(m, velocityX, velocityY, threshold))
    ensures !r.consumed ==> r.scrollTarget == None
  {
    var isProvider := m.Paging? || m.isScrollVectorProvider;
    if !isProvider then FlingOutcome(false, None)
    else
      var target := FindTargetSnapPosition(m, velocityX, velocityY, threshold);
      if target == NoPosition then FlingOutcome(false, None)
      else FlingOutcome(true, Some(target))
  }

  /**
   * A fling that is fast only across the scrolling axis is not consumed,
   * however fast it is.
   */
  lemma CrossAxisFlingNotConsumed(h: Host, velocityX: int, velocityY: int, threshold: int)
    requires h.layoutManager.Some? && Usable(h.layoutManager.value) && h.layoutManager.value.Paging?
    requires Abs(ActiveVelocity(h.layoutManager.value.lm, velocityX, velocityY)) <= threshold
    ensures !OnFling(h, velocityX, velocityY, threshold).consumed
  {
    var v := ActiveVelocity(h.layoutManager.value.lm, velocityX, velocityY);
    assert -threshold <= v <= threshold;
  }

  /**
   * With items present and a recorded page within range, the paging
   * manager consumes exactly the flings that are fast on its axis, and
   * scrolls to the first position of an existing page.
   */
  lemma PagingFlingConsumed(h: Host, velocityX: int, velocityY: int, threshold: int)
    requires h.layoutManager.Some? && Usable(h.layoutManager.value) && h.layoutManager.value.Paging?
    requires h.hasAdapter && 0 <= threshold
    requires var lm := h.layoutManager.value.lm;
             0 < lm.itemCount && -1 <= lm.lastPageIndex <= lm.TotalPageCount()
    ensures var lm := h.layoutManager.value.lm;
            var r := OnFling(h, velocityX, velocityY, threshold);
            (r.consumed <==> Abs(ActiveVelocity(lm, velocityX, velocityY)) > threshold) &&
            (r.consumed ==> 0 <= r.scrollTarget.value < lm.itemCount && r.scrollTarget.value % lm.onePageSize == 0)
  {
    TargetIsPageStart(h.layoutManager.value, velocityX, velocityY, threshold);
  }

  /**
   * `calculateDistanceToFinalSnap`: the paging manager's snap offset for
   * the target's position, and no movement for any other manager.
   */
  function CalculateDistanceToFinalSnap(m: Manager, pos: int): (distance: Vec)
    reads Objects(m)
    requires Usable(m)
    ensures m.Other? ==> distance == Vec(0, 0)
    ensures m.Paging? ==> distance == m.lm.GetSnapOffset(pos)
  {
    if m.Paging? then m.lm.GetSnapOffset(pos) else Vec(0, 0)
  }

  /**
   * Scrolling the paging manager by the snap distance of an existing
   * position, once a layout pass has set its bounds, is never clamped and
   * ends on the corner of that position's page.
   */
  lemma SnapDistanceLandsOnPage(m: Manager, pos: int)
    requires Usable(m) && m.Paging?
    requires m.lm.Valid() && 0 <= m.lm.usableWidth && 0 <= m.lm.usableHeight
    requires m.lm.BoundsMatch(m.lm.TotalPageCount()) && 0 <= pos < m.lm.itemCount
    ensures var lm := m.lm;
            var d := CalculateDistanceToFinalSnap(m, pos);
            var page := PageIndexByPos(pos, lm.onePageSize);
            ClampDelta(lm.offsetX, lm.maxScrollX, d.x) == d.x && ClampDelta(lm.offsetY, lm.maxScrollY, d.y) == d.y &&
            lm.offsetX + d.x == (if lm.orientation == Horizontal then page * lm.usableWidth else 0) &&
            lm.offsetY + d.y == (if lm.orientation == Vertical then page * lm.usableHeight else 0)
  {
    m.lm.SnapOffsetLandsOnPage(pos);
  }

  /** `findSnapView`: the paging manager's choice of snap view, and none for any other manager. */
  method FindSnapView(m: Manager, focused: Option<int>) returns (view: Option<int>)
    requires m.Paging? ==> m.lm.Valid()
    ensures m.Other? ==> view == None
    ensures m.Paging? && focused.Some? ==> view == focused
    ensures m.Paging? && focused.None? && |m.lm.children| == 0 ==> view == None
    ensures m.Paging? && focused.None? && |m.lm.children| > 0 ==>
              var targetPos := m.lm.PageIndexByOffset() * m.lm.onePageSize;
              view == Some(if targetPos in Positions(m.lm.children) then targetPos else m.lm.children[0].pos)
  {
    if m.Paging? {
      view := m.lm.FindSnapView(focused);
    } else {
      view := None;
    }
  }
}
