# PagerRecyclerView in Dafny

A Dafny model of the paging core of the PagerRecyclerView repository, with
proofs about it. The core has three parts:

- **`PagerGridLayoutManager`** is a RecyclerView layout manager. It lays
  items out as pages of `rows x columns` cells and scrolls along one axis.
  It keeps:
  - the scroll offsets and their bounds;
  - the item size;
  - a cache from position to frame rectangle;
  - the page-change record (`mLastPageCount`, `mLastPageIndex`), which
    de-duplicates the page listener's notifications.

  Each layout or scroll pass caches the frames of a four-page window
  around the current page. It then attaches the window's positions whose
  frame meets the display rectangle.
- **`PagerGridSnapHelper`** decides where a fling snaps: to the first
  position of the next page, to that of the previous page, or nowhere. It
  also computes the vector that aligns a view with its page.
- **`PagerRecyclerView`** turns pages by dragging:
  - it sums the drag distance;
  - on release, it classifies that distance against the touch slop as a
    turn back, a turn forward or a reset;
  - it posts that decision to a handler, replacing any pending one;
  - when the decision runs, it scrolls to the target position.

  It also computes its page count once, by ceiling division.

Files, one module each:

- `wrappers.dfy` (`Wrappers`): `Option`.
- `page_math.dfy` (`PageMath`): Kotlin's truncating `/` and `%`, the page
  count, and the two offset-to-page getters.
- `page_emitter.dfy` (`PageEmitter`): `setPageCount` and `setPageIndex`
  as pure steps over the page record, which produce the delivered events.
- `grid_geometry.dfy` (`Geometry`): rectangles with Android's
  `intersect` / `intersects` semantics, item frames, page corners, the
  scroll clamp, the recycle window, and the children a recycle pass
  attaches (`PassChildren`, with the reference definition `LaidOut`).
- `layout_manager.dfy` (`GridLayout`): the class `PagerGridLayoutManager`.
  Its methods update the fields as the Kotlin methods do, and they are
  specified by the functions above.
- `snap_helper.dfy` (`SnapHelper`): the snap decisions.
- `pager_recycler_view.dfy` (`PagerView`): the release rule, the target
  positions, the page under the finger, the page count, and the class
  `PagerRecyclerView`.

How host calls are modelled:

- Calls into the Android view system become state:
  - attached children are a `seq<Placement>` of positions and bounds;
  - listener callbacks, refused jumps (the `Log.e` calls), started smooth
    scrolls, `smoothScrollToPosition` and `scrollToPositionWithOffset`
    requests are ghost logs.
- `recyclerView.scrollBy` is modelled as its effect on this manager: a
  non-zero distance on the scrolling axis reaches `scrollHorizontallyBy`
  or `scrollVerticallyBy`.
- The following are inputs rather than state:
  - the adapter's item count, set with `SetItemCount`;
  - the usable width and height and the paddings, which are constructor
    constants;
  - the `RecyclerView.State` flags (`isPreLayout`,
    `didStructureChange`), which are boolean parameters;
  - the fling threshold;
  - the touch slop;
  - the completely visible positions.

All integers are unbounded.

The model follows the code exactly at these points:

- The `pageIndex` getter's round-up test (`remainder > extent`) can never
  pass, so the getter is the floor page (`PageMath.PageIndexFloorBracket`).
- `setOrientationType` compares its argument with itself, so it always
  returns at once.
- `isAllowContinuousScroll` is always true.
- The position-changed condition of `PagerRecyclerView` can never hold
  (`PagerView.PositionChangedFires`).
- Nothing checks `rows * columns > 0`, so the manager's constructor
  requires `rows >= 1 && columns >= 1`.
- `-1 / pageSize` truncates toward zero (page 0 for a page size of at least 2).
- A pending page-turn decision is cancelled only when a later release
  posts a new one. A press does not cancel it, and a release without
  movement leaves it pending (`PagerView.PagerRecyclerView.OnTouchEvent`).
- The offset is kept within `[0, maxScroll]` only when the usable width
  and height are non-negative. With a negative viewport the code
  computes negative bounds (`GridLayout.PagerGridLayoutManager.Valid`).
- The fling threshold may be any integer; the target lemmas assume it is
  non-negative.
- A fling that finds no target is not consumed (`onFling` returns
  false). What RecyclerView does after that is outside this model.
- `Rect.intersects` does not check emptiness, so an empty rectangle can
  "intersect" another (`Geometry.EmptyRectIntersects`).
- `pageSize` is a public field with no sign check; the page arithmetic
  is stated for either sign of it (`PageMath.QuotBracket`,
  `PageMath.CeilDiv`).

## Model

| member | source | states |
|---|---|---|
| PageMath.Quot | app/src/main/java/com/eks/pagerrecyclerview/PagerRecyclerView.kt:179 | Kotlin's truncating `/`: Dafny's quotient for a non-negative dividend and a positive divisor, and otherwise a quotient whose sign is the product of the operands' signs |
| PageMath.QuotBracket | app/src/main/java/com/eks/pagerrecyclerview/PagerRecyclerView.kt:179 | the truncating quotient rounds toward zero for either sign of divisor: `q*b` lies between 0 and `a`, less than `|b|` from `a` |
| PageMath.Rem | app/src/main/java/com/eks/paginggridlayoutmanager/layoutmanager/PagerGridLayoutManager.kt:388-390 | Kotlin's `%`: the remainder has the sign of the dividend, is smaller than the divisor in magnitude, and equals Dafny's `%` for `a >= 0`, `b > 0` |
| PageMath.TotalPageCount | app/src/main/java/com/eks/paginggridlayoutmanager/layoutmanager/PagerGridLayoutManager.kt:422-430 | no pages without items, at least one page otherwise |
| PageMath.TotalPageCountBracket | app/src/main/java/com/eks/paginggridlayoutmanager/layoutmanager/PagerGridLayoutManager.kt:422-430 | the count is the ceiling of items over page size: `(r-1)*n < itemCount <= r*n` |
| PageMath.PageIndexByPos | app/src/main/java/com/eks/paginggridlayoutmanager/layoutmanager/PagerGridLayoutManager.kt:438-440 | a non-negative position has a non-negative page |
| PageMath.PageIndexByPosBracket | app/src/main/java/com/eks/paginggridlayoutmanager/layoutmanager/PagerGridLayoutManager.kt:438-440 | a position lies in its page's range `[page*n, page*n + n)` |
| PageMath.PageIndexByOffset | app/src/main/java/com/eks/paginggridlayoutmanager/layoutmanager/PagerGridLayoutManager.kt:447-472 | page 0 when the offset or the extent is not positive; never negative |
| PageMath.PageIndexByOffsetNearest | app/src/main/java/com/eks/paginggridlayoutmanager/layoutmanager/PagerGridLayoutManager.kt:447-472 | the nearest page start to the offset, the lower page winning a tie |
| PageMath.PageIndexFloor | app/src/main/java/com/eks/paginggridlayoutmanager/layoutmanager/PagerGridLayoutManager.kt:479-504 | page 0 when the offset or the extent is not positive; never negative |
| PageMath.PageIndexFloorBracket | app/src/main/java/com/eks/paginggridlayoutmanager/layoutmanager/PagerGridLayoutManager.kt:479-504 | the `pageIndex` getter is the floor page `page*extent <= offset < page*extent + extent`: its round-up test never passes |
| PageMath.CeilDiv | app/src/main/java/com/eks/pagerrecyclerview/PagerRecyclerView.kt:239-241 | `BigDecimal.divide(.., ROUND_CEILING)`: the least `c` with `a <= c*b` for a positive divisor, and with `c*b <= a` for a negative one |
| PageEmitter.SetPageCount | app/src/main/java/com/eks/paginggridlayoutmanager/layoutmanager/PagerGridLayoutManager.kt:675-682 | a negative count changes nothing; otherwise the count is recorded, and `onPageSizeChanged(count)` is delivered exactly when a listener is set and the count differs from the recorded one |
| PageEmitter.SetPageIndex | app/src/main/java/com/eks/paginggridlayoutmanager/layoutmanager/PagerGridLayoutManager.kt:690-706 | the recorded index is a no-op; otherwise recorded (always in continuous mode); `onPageSelect(index)` delivered exactly when a listener is set, the index is non-negative and not (scrolling with selection-in-scrolling off); the count is untouched |
| PageEmitter.SelectDeliveredAtMostOnce | app/src/main/java/com/eks/paginggridlayoutmanager/layoutmanager/PagerGridLayoutManager.kt:690-706 | any number of `setPageIndex` calls with one index deliver `onPageSelect` at most once and leave that index recorded |
| PageEmitter.RepeatedIndexIsSilent | app/src/main/java/com/eks/paginggridlayoutmanager/layoutmanager/PagerGridLayoutManager.kt:690-693 | once an index is recorded, repeating it delivers nothing and changes nothing |
| PageEmitter.SetPageCountIdempotent | app/src/main/java/com/eks/paginggridlayoutmanager/layoutmanager/PagerGridLayoutManager.kt:675-682 | a second `setPageCount` with the same count delivers nothing and keeps the record |
| PageEmitter.Report | app/src/main/java/com/eks/paginggridlayoutmanager/layoutmanager/PagerGridLayoutManager.kt:181-187 | `setPageCount` then `setPageIndex(.., false)`: the count is recorded unless negative, the index always; the events are `onPageSizeChanged` for a new count followed by `onPageSelect` for a new non-negative index, each only with a listener |
| PageEmitter.ReportRepeatIsSilent | app/src/main/java/com/eks/paginggridlayoutmanager/layoutmanager/PagerGridLayoutManager.kt:181-187 | a second identical report delivers nothing and changes nothing |
| Geometry.Intersect | app/src/main/java/com/eks/paginggridlayoutmanager/layoutmanager/PagerGridLayoutManager.kt:210 | Android `Rect.intersect`: unchanged when the rectangles do not meet, otherwise inside both |
| Geometry.IntersectIsLargest | app/src/main/java/com/eks/paginggridlayoutmanager/layoutmanager/PagerGridLayoutManager.kt:210 | the intersection holds every rectangle lying inside both |
| Geometry.Intersects | app/src/main/java/com/eks/paginggridlayoutmanager/layoutmanager/PagerGridLayoutManager.kt:248 | Android `Rect.intersects`: true whenever the rectangles share a pixel, and for non-empty rectangles only then |
| Geometry.EmptyRectIntersects | app/src/main/java/com/eks/paginggridlayoutmanager/layoutmanager/PagerGridLayoutManager.kt:248 | the test does not check emptiness: a zero-width rectangle inside another still intersects it |
| Geometry.PageLeftTop | app/src/main/java/com/eks/paginggridlayoutmanager/layoutmanager/PagerGridLayoutManager.kt:631-642 | 0 across the scrolling axis; along it, the start of the page whose positions hold `pos` |
| Geometry.GridSpec.OnePageSize | app/src/main/java/com/eks/paginggridlayoutmanager/layoutmanager/PagerGridLayoutManager.kt:897-899 | a page holds `rows*columns` positions, at least one row's and one column's worth |
| Geometry.ItemFrame | app/src/main/java/com/eks/paginggridlayoutmanager/layoutmanager/PagerGridLayoutManager.kt:372-401 | a frame is `itemWidth` wide and `itemHeight` tall |
| Geometry.CellDecomposition | app/src/main/java/com/eks/paginggridlayoutmanager/layoutmanager/PagerGridLayoutManager.kt:378-392 | every non-negative position is `page*n + row*columns + col` with its page non-negative and row, column in range |
| Geometry.CellOfPosition | app/src/main/java/com/eks/paginggridlayoutmanager/layoutmanager/PagerGridLayoutManager.kt:378-392 | conversely a page, row and column in range give back exactly that page, row and column |
| Geometry.FrameInsidePage | app/src/main/java/com/eks/paginggridlayoutmanager/layoutmanager/PagerGridLayoutManager.kt:378-396 | when the item size fits, an item's frame lies inside the rectangle of its page |
| Geometry.DefaultItemSizeFits | app/src/main/java/com/eks/paginggridlayoutmanager/layoutmanager/PagerGridLayoutManager.kt:152-157 | the default item size `usableWidth/columns` x `usableHeight/rows` fits the page |
| Geometry.FramesDisjointSamePage | app/src/main/java/com/eks/paginggridlayoutmanager/layoutmanager/PagerGridLayoutManager.kt:378-396 | two positions of one page have disjoint frames |
| Geometry.FramesDisjointAcrossPages | app/src/main/java/com/eks/paginggridlayoutmanager/layoutmanager/PagerGridLayoutManager.kt:378-396 | with a fitting item size, positions on different pages have disjoint frames |
| Geometry.FramesDisjoint | app/src/main/java/com/eks/paginggridlayoutmanager/layoutmanager/PagerGridLayoutManager.kt:378-396 | with a fitting item size, distinct positions never overlap |
| Geometry.ClampDelta | app/src/main/java/com/eks/paginggridlayoutmanager/layoutmanager/PagerGridLayoutManager.kt:277-284 | the consumed delta keeps an in-range offset in `[0, maxScroll]`, equals the request when that stays in range, and otherwise stops exactly at the violated bound |
| Geometry.Window | app/src/main/java/com/eks/paginggridlayoutmanager/layoutmanager/PagerGridLayoutManager.kt:211-221 | the window starts at or after 0, ends at or before `itemCount` and spans at most four pages |
| Geometry.WindowCoversNearbyPages | app/src/main/java/com/eks/paginggridlayoutmanager/layoutmanager/PagerGridLayoutManager.kt:211-221 | the window holds every existing position of the two pages before the current one, the current page and the next |
| Geometry.Traversal | app/src/main/java/com/eks/paginggridlayoutmanager/layoutmanager/PagerGridLayoutManager.kt:223-231 | a pass visits exactly the window's positions, each once |
| Geometry.TraversalAt | app/src/main/java/com/eks/paginggridlayoutmanager/layoutmanager/PagerGridLayoutManager.kt:223-231 | forward passes go up from `start` (`until`), backward ones down from `stop - 1` (`downTo`) |
| Geometry.TraversalOrdered | app/src/main/java/com/eks/paginggridlayoutmanager/layoutmanager/PagerGridLayoutManager.kt:223-231 | forward visits are strictly increasing, backward ones strictly decreasing |
| Geometry.PassChildrenIsLaidOut | app/src/main/java/com/eks/paginggridlayoutmanager/layoutmanager/PagerGridLayoutManager.kt:222-231 | the children a pass attaches are the visible frames in traversal order (the reference definition `LaidOut`) |
| Geometry.LaidOutMembers | app/src/main/java/com/eks/paginggridlayoutmanager/layoutmanager/PagerGridLayoutManager.kt:248-250 | a position is attached iff it is visited and its frame meets the display rectangle |
| Geometry.LaidOutBounds | app/src/main/java/com/eks/paginggridlayoutmanager/layoutmanager/PagerGridLayoutManager.kt:253-260 | each attached child's bounds are its frame shifted by padding minus offset |
| Geometry.PassChildrenFramesAgree | app/src/main/java/com/eks/paginggridlayoutmanager/layoutmanager/PagerGridLayoutManager.kt:222-231 | a pass depends only on the cached frames of the window's positions |
| Geometry.PassChildrenMembers | app/src/main/java/com/eks/paginggridlayoutmanager/layoutmanager/PagerGridLayoutManager.kt:197-262 | with the window cached, a position is attached iff it lies in the window and its frame meets the display rectangle |
| Geometry.PassChildrenBounds | app/src/main/java/com/eks/paginggridlayoutmanager/layoutmanager/PagerGridLayoutManager.kt:241-262 | with the window cached, every attached child is laid out at its frame minus offset plus padding |
| GridLayout.PagerGridLayoutManager.constructor | app/src/main/java/com/eks/paginggridlayoutmanager/layoutmanager/PagerGridLayoutManager.kt:31-96 | a fresh manager: zero offsets, bounds, item size and items, empty cache, page record (-1, -1), continuous scroll on, selection in scrolling on; requires at least one row and one column |
| GridLayout.PagerGridLayoutManager.FindNextPageFirstPos | app/src/main/java/com/eks/paginggridlayoutmanager/layoutmanager/PagerGridLayoutManager.kt:573-580 | with items and a recorded page from -1, the first position of page `min(lastPageIndex + 1, pages - 1)`: an existing position at a page start |
| GridLayout.PagerGridLayoutManager.FindPrePageFirstPos | app/src/main/java/com/eks/paginggridlayoutmanager/layoutmanager/PagerGridLayoutManager.kt:587-594 | with items and a recorded page up to the page count, the first position of page `max(lastPageIndex - 1, 0)`: an existing position at a page start |
| GridLayout.PagerGridLayoutManager.FirstPositionOfPage | app/src/main/java/com/eks/paginggridlayoutmanager/layoutmanager/PagerGridLayoutManager.kt:573-594 | the first position of an existing page exists and sits on that page |
| GridLayout.PagerGridLayoutManager.TotalPageCount | app/src/main/java/com/eks/paginggridlayoutmanager/layoutmanager/PagerGridLayoutManager.kt:422-430 | no pages without items; otherwise the least page count holding every item |
| GridLayout.PagerGridLayoutManager.PageIndexByOffset | app/src/main/java/com/eks/paginggridlayoutmanager/layoutmanager/PagerGridLayoutManager.kt:447-472 | page 0 at or before the start; otherwise the page whose start is within half a page of the offset, the lower page winning a tie |
| GridLayout.PagerGridLayoutManager.PageIndex | app/src/main/java/com/eks/paginggridlayoutmanager/layoutmanager/PagerGridLayoutManager.kt:479-504 | page 0 at or before the start; otherwise the floor page the offset has entered |
| GridLayout.PagerGridLayoutManager.GetPageIndexByPos | app/src/main/java/com/eks/paginggridlayoutmanager/layoutmanager/PagerGridLayoutManager.kt:438-440 | a non-negative position lies in the range of positions of the page returned |
| GridLayout.PagerGridLayoutManager.GetPageLeftTopByPosition | app/src/main/java/com/eks/paginggridlayoutmanager/layoutmanager/PagerGridLayoutManager.kt:631-642 | 0 across the scrolling axis; along it, the start of the page whose positions hold `pos` |
| GridLayout.PagerGridLayoutManager.GetSnapOffset | app/src/main/java/com/eks/paginggridlayoutmanager/layoutmanager/PagerGridLayoutManager.kt:617-623 | adding the vector to the offset gives 0 across the scrolling axis and, along it, the start of the page holding `pos` |
| GridLayout.PagerGridLayoutManager.DisplayRect | app/src/main/java/com/eks/paginggridlayoutmanager/layoutmanager/PagerGridLayoutManager.kt:205-210 | the viewport grown by one item on each side, clipped to the scrollable area: exactly their common pixels when they meet, the grown viewport otherwise |
| GridLayout.PagerGridLayoutManager.SnapOffsetLandsOnPage | app/src/main/java/com/eks/paginggridlayoutmanager/layoutmanager/PagerGridLayoutManager.kt:617-642 | after layout, scrolling by `getSnapOffset(pos)` is never clamped and ends on the top-left corner of the page of `pos` |
| GridLayout.PagerGridLayoutManager.SetPageCount | app/src/main/java/com/eks/paginggridlayoutmanager/layoutmanager/PagerGridLayoutManager.kt:675-682 | record and events follow `PageEmitter.SetPageCount` |
| GridLayout.PagerGridLayoutManager.SetPageIndex | app/src/main/java/com/eks/paginggridlayoutmanager/layoutmanager/PagerGridLayoutManager.kt:690-706 | record and events follow `PageEmitter.SetPageIndex` |
| GridLayout.PagerGridLayoutManager.SetChangeSelectInScrolling | app/src/main/java/com/eks/paginggridlayoutmanager/layoutmanager/PagerGridLayoutManager.kt:713-715 | stores the flag |
| GridLayout.PagerGridLayoutManager.SetPageListener | app/src/main/java/com/eks/paginggridlayoutmanager/layoutmanager/PagerGridLayoutManager.kt:851-853 | stores whether a listener is set |
| GridLayout.PagerGridLayoutManager.RegisterOnPageChangeCallback | app/src/main/java/com/eks/paginggridlayoutmanager/layoutmanager/PagerGridLayoutManager.kt:873-875 | stores whether a callback is set |
| GridLayout.PagerGridLayoutManager.OnAttachedToWindow | app/src/main/java/com/eks/paginggridlayoutmanager/layoutmanager/PagerGridLayoutManager.kt:100-103 | the manager knows its RecyclerView |
| GridLayout.PagerGridLayoutManager.SetOrientationType | app/src/main/java/com/eks/paginggridlayoutmanager/layoutmanager/PagerGridLayoutManager.kt:724-737 | always returns its argument at once and changes nothing |
| GridLayout.PagerGridLayoutManager.GetItemFrameByPosition | app/src/main/java/com/eks/paginggridlayoutmanager/layoutmanager/PagerGridLayoutManager.kt:372-401 | a cached frame is returned unchanged; otherwise the computed frame is returned and cached; the cache only grows and stays coherent |
| GridLayout.PagerGridLayoutManager.PrefillFrames | app/src/main/java/com/eks/paginggridlayoutmanager/layoutmanager/PagerGridLayoutManager.kt:161-163 | afterwards positions 0 until `count` are cached; earlier entries kept |
| GridLayout.PagerGridLayoutManager.RecycleAndFillItems | app/src/main/java/com/eks/paginggridlayoutmanager/layoutmanager/PagerGridLayoutManager.kt:197-232 | pre-layout changes nothing; otherwise the window is cached and the children are exactly the pass's planned children |
| GridLayout.PagerGridLayoutManager.FillWindow | app/src/main/java/com/eks/paginggridlayoutmanager/layoutmanager/PagerGridLayoutManager.kt:204-231 | detaches all children, then the children are the planned ones for the direction |
| GridLayout.PagerGridLayoutManager.AddOrRemove | app/src/main/java/com/eks/paginggridlayoutmanager/layoutmanager/PagerGridLayoutManager.kt:241-262 | caches the frame of `i` and appends it as `Placement(i, frame - offset + padding)` exactly when it meets the display rectangle |
| GridLayout.PagerGridLayoutManager.FillForward | app/src/main/java/com/eks/paginggridlayoutmanager/layoutmanager/PagerGridLayoutManager.kt:222-226 | the forward loop attaches what the forward pass over the window plans |
| GridLayout.PagerGridLayoutManager.FillBackward | app/src/main/java/com/eks/paginggridlayoutmanager/layoutmanager/PagerGridLayoutManager.kt:227-230 | the backward loop attaches what the backward pass over the window plans |
| GridLayout.PagerGridLayoutManager.OnLayoutChildren | app/src/main/java/com/eks/paginggridlayoutmanager/layoutmanager/PagerGridLayoutManager.kt:113-174 | no-op for pre-layout or unchanged structure; without items no children and 0 pages on page 0; otherwise reports pages, sets bounds, pulls offsets back, fixes the item size, caches two pages and lays the window out forward |
| GridLayout.PagerGridLayoutManager.LayoutItems | app/src/main/java/com/eks/paginggridlayoutmanager/layoutmanager/PagerGridLayoutManager.kt:131-173 | the geometry of a non-empty layout pass: bounds of (pages - 1) pages, offset clamped, item size fixed, two pages cached, window laid out forward |
| GridLayout.PagerGridLayoutManager.ReportPages | app/src/main/java/com/eks/paginggridlayoutmanager/layoutmanager/PagerGridLayoutManager.kt:119-129 | the combined `setPageCount` then `setPageIndex(.., false)` report |
| GridLayout.PagerGridLayoutManager.UpdateScrollBounds | app/src/main/java/com/eks/paginggridlayoutmanager/layoutmanager/PagerGridLayoutManager.kt:131-148 | the active axis may scroll (pages - 1) pages, the other 0; an offset past the new bound is pulled back onto it |
| GridLayout.PagerGridLayoutManager.FixItemSize | app/src/main/java/com/eks/paginggridlayoutmanager/layoutmanager/PagerGridLayoutManager.kt:152-157 | an unset item size becomes the viewport cell size; a set one is kept |
| GridLayout.PagerGridLayoutManager.OnLayoutCompleted | app/src/main/java/com/eks/paginggridlayoutmanager/layoutmanager/PagerGridLayoutManager.kt:181-187 | outside pre-layout, the page count and the nearest page are reported again |
| GridLayout.PagerGridLayoutManager.ConsumeHorizontal | app/src/main/java/com/eks/paginggridlayoutmanager/layoutmanager/PagerGridLayoutManager.kt:277-284 | the consumed delta is `ClampDelta` of the request and the offset moves by it |
| GridLayout.PagerGridLayoutManager.ConsumeVertical | app/src/main/java/com/eks/paginggridlayoutmanager/layoutmanager/PagerGridLayoutManager.kt:334-341 | the same on the vertical axis |
| GridLayout.PagerGridLayoutManager.ReportPageScrolled | app/src/main/java/com/eks/paginggridlayoutmanager/layoutmanager/PagerGridLayoutManager.kt:286-309 | a non-zero move reports `onPageScrolled` with the floor page and the pixel offset into it, when a callback is set |
| GridLayout.PagerGridLayoutManager.ScrollHorizontallyBy | app/src/main/java/com/eks/paginggridlayoutmanager/layoutmanager/PagerGridLayoutManager.kt:272-319 | consumes the clamped delta, reports the page while scrolling and `onPageScrolled`, and re-lays out the window forward for a positive move, backward otherwise |
| GridLayout.PagerGridLayoutManager.ScrollVerticallyBy | app/src/main/java/com/eks/paginggridlayoutmanager/layoutmanager/PagerGridLayoutManager.kt:329-350 | the same vertically, without `onPageScrolled` |
| GridLayout.PagerGridLayoutManager.AfterScroll | app/src/main/java/com/eks/paginggridlayoutmanager/layoutmanager/PagerGridLayoutManager.kt:285-318 | the page report, the scrolled report and the recycle pass of the scroll methods |
| GridLayout.PagerGridLayoutManager.OnScrollStateChanged | app/src/main/java/com/eks/paginggridlayoutmanager/layoutmanager/PagerGridLayoutManager.kt:357-363 | records the state; at rest the nearest page is reported |
| GridLayout.PagerGridLayoutManager.ScrollToPage | app/src/main/java/com/eks/paginggridlayoutmanager/layoutmanager/PagerGridLayoutManager.kt:822-845 | an index outside `[0, mLastPageCount)` or no RecyclerView is logged and changes nothing; otherwise scrolls by the distance to the page's corner and reports the page; after layout the offset is exactly that corner |
| GridLayout.PagerGridLayoutManager.JumpToAcceptedPage | app/src/main/java/com/eks/paginggridlayoutmanager/layoutmanager/PagerGridLayoutManager.kt:834-844 | an accepted jump lands on the page corner and records the page |
| GridLayout.PagerGridLayoutManager.ScrollAndSettle | app/src/main/java/com/eks/paginggridlayoutmanager/layoutmanager/PagerGridLayoutManager.kt:843-844 | `scrollBy(delta)` along the active axis followed by `setPageIndex(page, false)` |
| GridLayout.PagerGridLayoutManager.ScrollActiveBy | app/src/main/java/com/eks/paginggridlayoutmanager/layoutmanager/PagerGridLayoutManager.kt:843 | a non-zero `scrollBy` reaches the active axis's scroll method; zero does nothing |
| GridLayout.PagerGridLayoutManager.JumpTargetInBounds | app/src/main/java/com/eks/paginggridlayoutmanager/layoutmanager/PagerGridLayoutManager.kt:836-841 | the corner of an existing page lies within the scroll bounds |
| GridLayout.PagerGridLayoutManager.ScrollToPosition | app/src/main/java/com/eks/paginggridlayoutmanager/layoutmanager/PagerGridLayoutManager.kt:798-801 | jumps to the page of the position |
| GridLayout.PagerGridLayoutManager.PrePage | app/src/main/java/com/eks/paginggridlayoutmanager/layoutmanager/PagerGridLayoutManager.kt:806-808 | jumps to the page before the nearest one |
| GridLayout.PagerGridLayoutManager.NextPage | app/src/main/java/com/eks/paginggridlayoutmanager/layoutmanager/PagerGridLayoutManager.kt:813-815 | jumps to the page after the nearest one |
| GridLayout.PagerGridLayoutManager.SmoothScrollToPage | app/src/main/java/com/eks/paginggridlayoutmanager/layoutmanager/PagerGridLayoutManager.kt:768-795 | refused like a jump, with nothing moved or started; otherwise starts a smooth scroll to the page's first position, after a full `scrollToPage` jump (page record, events, children, errors) to three pages short of a target more than three pages away, and no move for a nearer target |
| GridLayout.PagerGridLayoutManager.SmoothScrollAccepted | app/src/main/java/com/eks/paginggridlayoutmanager/layoutmanager/PagerGridLayoutManager.kt:781-794 | an accepted `smoothScrollToPage`: a target within three pages moves nothing, a farther one is the full `scrollToPage` jump to three pages short of it; the smooth scroller's target is the page's first position |
| GridLayout.PagerGridLayoutManager.JumpCloseTo | app/src/main/java/com/eks/paginggridlayoutmanager/layoutmanager/PagerGridLayoutManager.kt:782-789 | within three pages nothing moves; farther, a jump to three pages short of the target, landing exactly there after layout |
| GridLayout.PagerGridLayoutManager.SmoothScrollToPosition | app/src/main/java/com/eks/paginggridlayoutmanager/layoutmanager/PagerGridLayoutManager.kt:740-747 | `smoothScrollToPage` for the page of the position: a page out of range or no attached view is logged with nothing moved or started; otherwise a smooth scroll to the page's first position, after a full `scrollToPage` jump to three pages short of a distant page |
| GridLayout.PagerGridLayoutManager.SmoothPrePage | app/src/main/java/com/eks/paginggridlayoutmanager/layoutmanager/PagerGridLayoutManager.kt:752-754 | `smoothScrollToPage` for the page before the nearest one: both refusals logged with nothing moved; otherwise a smooth scroll with no jump |
| GridLayout.PagerGridLayoutManager.SmoothNextPage | app/src/main/java/com/eks/paginggridlayoutmanager/layoutmanager/PagerGridLayoutManager.kt:759-761 | `smoothScrollToPage` for the page after the nearest one: both refusals logged with nothing moved; otherwise a smooth scroll with no jump |
| GridLayout.PagerGridLayoutManager.FindSnapView | app/src/main/java/com/eks/paginggridlayoutmanager/layoutmanager/PagerGridLayoutManager.kt:649-664 | the focused child; none without children; else the child at the first position of the nearest page, else the first child |
| SnapHelper.FindTargetSnapPosition | app/src/main/java/com/eks/paginggridlayoutmanager/layoutmanager/PagerGridSnapHelper.kt:73-94 | other managers: -1; on the active axis a velocity above the threshold targets `findNextPageFirstPos`, below minus the threshold `findPrePageFirstPos`, otherwise -1 |
| SnapHelper.TargetIgnoresCrossAxis | app/src/main/java/com/eks/paginggridlayoutmanager/layoutmanager/PagerGridSnapHelper.kt:78-91 | the velocity off the scrolling axis never changes the target |
| SnapHelper.TargetIsPageStart | app/src/main/java/com/eks/paginggridlayoutmanager/layoutmanager/PagerGridSnapHelper.kt:73-94 | with items and a recorded page in range, a target is found iff the active velocity exceeds the threshold in magnitude, and it is an existing page start |
| SnapHelper.OnFling | app/src/main/java/com/eks/paginggridlayoutmanager/layoutmanager/PagerGridSnapHelper.kt:103-109 | consumed iff a manager and an adapter exist, some axis is faster than the threshold and a target is found; then the smooth scroll heads for that target |
| SnapHelper.SnapFromFling | app/src/main/java/com/eks/paginggridlayoutmanager/layoutmanager/PagerGridSnapHelper.kt:119-134 | consumed iff a target other than -1 is found, and then scrolls to it |
| SnapHelper.CrossAxisFlingNotConsumed | app/src/main/java/com/eks/paginggridlayoutmanager/layoutmanager/PagerGridSnapHelper.kt:103-109 | a fling fast only across the scrolling axis is not consumed |
| SnapHelper.PagingFlingConsumed | app/src/main/java/com/eks/paginggridlayoutmanager/layoutmanager/PagerGridSnapHelper.kt:103-134 | for the paging manager with items, a fling is consumed iff it is fast on the active axis, and it scrolls to an existing page start |
| SnapHelper.CalculateDistanceToFinalSnap | app/src/main/java/com/eks/paginggridlayoutmanager/layoutmanager/PagerGridSnapHelper.kt:39-49 | the paging manager's `getSnapOffset(pos)`; (0, 0) for other managers |
| SnapHelper.SnapDistanceLandsOnPage | app/src/main/java/com/eks/paginggridlayoutmanager/layoutmanager/PagerGridSnapHelper.kt:39-49 | after layout, moving by the snap distance is unclamped and ends at `(page*usableWidth, 0)` (horizontal) or `(0, page*usableHeight)` (vertical) |
| SnapHelper.FindSnapView | app/src/main/java/com/eks/paginggridlayoutmanager/layoutmanager/PagerGridSnapHelper.kt:57-62 | other managers: none; the paging manager's choice otherwise |
| PagerView.CodesDistinct | app/src/main/java/com/eks/pagerrecyclerview/PagerRecyclerView.kt:277-292 | the four `DRAGGING_*` codes are pairwise distinct |
| PagerView.ReleaseDecision | app/src/main/java/com/eks/pagerrecyclerview/PagerRecyclerView.kt:115-151 | no drag: no decision; left drag past the slop: back, within it: right-reset; right drag past the slop: next, within it: left-reset |
| PagerView.ReleaseTurnsPastSlop | app/src/main/java/com/eks/pagerrecyclerview/PagerRecyclerView.kt:122-150 | a release turns the page iff the drag passes the slop and resets iff it moved within it; mirrored drags take mirrored decisions |
| PagerView.GetPositionByPage | app/src/main/java/com/eks/pagerrecyclerview/PagerRecyclerView.kt:229 | the first position of an existing page is a position on that page, at its first slot |
| PagerView.TargetPage | app/src/main/java/com/eks/pagerrecyclerview/PagerRecyclerView.kt:189-207 | a reset stays on the current page, a turn moves one page, forward only for a forward turn |
| PagerView.TurnTarget | app/src/main/java/com/eks/pagerrecyclerview/PagerRecyclerView.kt:189-207 | each target that is a position lies on the decided page: at its first slot, or its last slot for a forward turn |
| PagerView.BackFromFirstPageUnclamped | app/src/main/java/com/eks/pagerrecyclerview/PagerRecyclerView.kt:191-193 | turning back from page 0 targets `-pageSize`: targets are not clamped |
| PagerView.DownCurrentPage | app/src/main/java/com/eks/pagerrecyclerview/PagerRecyclerView.kt:168-181 | the last page when the last completely visible item is the last item; else the truncating quotient of the first visible position, or the division error for a zero page size |
| PagerView.DownPageHoldsFirstVisible | app/src/main/java/com/eks/pagerrecyclerview/PagerRecyclerView.kt:177-180 | away from the end the current page is the page that holds the first completely visible item |
| PagerView.NoVisibleItemIsPageZero | app/src/main/java/com/eks/pagerrecyclerview/PagerRecyclerView.kt:179 | with no completely visible item (-1) and pages larger than one, the page is 0 by truncation |
| PagerView.PositionChangedFires | app/src/main/java/com/eks/pagerrecyclerview/PagerRecyclerView.kt:219-224 | the position-listener condition never holds |
| PagerView.InitPageCount | app/src/main/java/com/eks/pagerrecyclerview/PagerRecyclerView.kt:234-243 | a zero page size throws; a nonzero count is kept; a zero count becomes the ROUND_CEILING quotient, bracketed for either sign of page size |
| PagerView.PageCountSettles | app/src/main/java/com/eks/pagerrecyclerview/PagerRecyclerView.kt:238-242 | once the count is nonzero, later item counts never change it; a count computed from 0 is the ceiling quotient for either sign of page size |
| PagerView.EmptyAdapterKeepsZero | app/src/main/java/com/eks/pagerrecyclerview/PagerRecyclerView.kt:238-242 | with no items and any nonzero page size the count stays 0 |
| PagerView.PagerRecyclerView.constructor | app/src/main/java/com/eks/pagerrecyclerview/PagerRecyclerView.kt:27-83 | the initial field values: pageSize, pageCount, currentPage, lastState and dragX 0, needResetPosition -1, nothing pending |
| PagerView.PagerRecyclerView.SetPageSize | app/src/main/java/com/eks/pagerrecyclerview/PagerRecyclerView.kt:26-27 | stores the page size |
| PagerView.PagerRecyclerView.SetOnPositionChangedListener | app/src/main/java/com/eks/pagerrecyclerview/PagerRecyclerView.kt:262-264 | a listener is set |
| PagerView.PagerRecyclerView.OnScrolled | app/src/main/java/com/eks/pagerrecyclerview/PagerRecyclerView.kt:85-88 | `dragX` grows by `dx` |
| PagerView.PagerRecyclerView.OnInterceptTouchEvent | app/src/main/java/com/eks/pagerrecyclerview/PagerRecyclerView.kt:90-100 | a press resets `dragX` and sets the current page by `DownCurrentPage`, or reports the division error with the page unchanged; other actions change nothing |
| PagerView.PagerRecyclerView.OnTouchEvent | app/src/main/java/com/eks/pagerrecyclerview/PagerRecyclerView.kt:103-154 | release or cancel stops the scroll and, when `ReleaseDecision` decides, replaces the pending decision; otherwise nothing changes |
| PagerView.PagerRecyclerView.TroggleTurning | app/src/main/java/com/eks/pagerrecyclerview/PagerRecyclerView.kt:186-188 | the new decision replaces any pending one: exactly one, the latest, is pending |
| PagerView.PagerRecyclerView.RunPending | app/src/main/java/com/eks/pagerrecyclerview/PagerRecyclerView.kt:188-209 | the pending decision runs once: a turn smooth-scrolls to its target; a reset reports idle, stores the current page's first position in `needResetPosition` and jumps there; the listener never fires |
| PagerView.PagerRecyclerView.OnScrollStateChanged | app/src/main/java/com/eks/pagerrecyclerview/PagerRecyclerView.kt:217-227 | always records the new state; the position listener is never told |
| PagerView.PagerRecyclerView.InitPageCounts | app/src/main/java/com/eks/pagerrecyclerview/PagerRecyclerView.kt:234-243 | follows `InitPageCount`: throws for a zero page size, otherwise computes the count only while it is 0 |

## Left out

- Floating point: the `onPageScrolled` fraction (only the page and the pixel offset are kept), `computeScrollVectorForPosition`'s `PointF`, and `PagerGridSmoothScroller`'s speed and duration (`calculateSpeedPerPixel`, `calculateTimeForScrolling`, `onTargetFound`). A started smooth scroll is logged by its target position only.
- 32-bit arithmetic. Kotlin `Int` overflow is not modelled, including `abs(Int.MIN_VALUE)` and `-threshold` in the snap helper and `BigDecimal.toInt()` in `initPageCounts`.
- `onMeasure` and `generateDefaultLayoutParams`: host measurement plumbing. Layout-parameter margins are taken as 0.
- `widthUsed` / `heightUsed` and `measureChildWithMargins`: they only feed child measurement.
- The eager attach of the first page's views in `onLayoutChildren` (`offsetX == 0 && offsetY == 0`). The recycle pass that follows detaches every view and attaches the window anew, so only that pass is modelled.
- `offsetChildrenHorizontal` / `offsetChildrenVertical`: the recycle pass that follows re-lays out every child.
- The orientation switch after `setOrientationType`'s guard: it is unreachable.
- A change of the viewport size. Usable width and height are fixed at construction. The source reads them live and never clears the frame cache.
- `RecyclerView.State.isPreLayout` during scrolling: scroll passes are taken as real layout passes.
- `PagerConfig` (not part of this model) and `setFlingThreshold`: the threshold is a parameter of the snap decisions.
- `attachToRecyclerView` and `createSnapScroller`: their only effect is whether a RecyclerView, and with it a smooth scroller, is available. That is the `SnapHelper.Host` parameter.
- Handler timing. The 100 ms `postDelayed` is the pending slot plus `RunPending`. `MotionEvent` decoding is a `TouchAction` parameter. `ViewConfiguration`'s slop is a constructor parameter.
- `dragX` is a Kotlin `Float` summed from `Int` deltas; it is modelled as an integer.
- `upX` and `diffX` in `PagerRecyclerView`: never read.
- `setLayoutManager`'s cast, which throws for a manager that is not a `GridLayoutManager`.
- The `super` calls and the Boolean results that `onInterceptTouchEvent` / `onTouchEvent` pass through from RecyclerView.
- `stopScroll` is logged as a count only. In Android it also sets the scroll state to idle, which re-enters `onScrollStateChanged` and sets `lastState`; here that state change reaches the model only when the host calls `OnScrollStateChanged`. No result depends on it, because the position-changed condition never holds.
- Reassigning `rows`, `columns` or `orientation` after construction: they are public `var`s in the source, but here they are fixed at construction (a reassignment would leave `onePageSize` stale while frames and the default item size read the new values).
- The commented-out `PagingRecyclerView.kt`, the activities, `MainAdapter.kt` and `SystemUtil.kt`: they hold no live paging logic.
- GridLayout.PagerGridLayoutManager.FindNextPageFirstPos: the result is stated only when there are items and the recorded page is at least -1. Otherwise the source returns an unclamped multiple of the page size, which the contract leaves unstated.
- GridLayout.PagerGridLayoutManager.FindPrePageFirstPos: the result is stated only when there are items and the recorded page is at most the page count.
- GridLayout.PagerGridLayoutManager.JumpCloseTo: the exact landing offset is stated only after a layout pass has set the bounds, and for a backward jump only when the landing page exists. The full effect is still stated through `JumpedTo`.
- SnapHelper.TargetIsPageStart: proved only for a non-negative threshold and a recorded page within `[-1, pages]`.
