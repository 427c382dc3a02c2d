/**
 * Geometry of the paged grid: Android's integer rectangles, the frame of an
 * item, the origin of a page, the scroll clamp and the materialisation
 * window of a recycle pass. Everything here is a pure function of its
 * arguments; the layout manager class feeds it its fields.
 */
module Geometry {
  import opened PageMath

  /** `PagerGridLayoutManager.VERTICAL` (0) and `HORIZONTAL` (1). */
  datatype Orientation = Vertical | Horizontal

  /** An `android.graphics.Rect`: left/top inclusive, right/bottom exclusive. */
  datatype Rect = Rect(left: int, top: int, right: int, bottom: int)

  /** A two-component `IntArray` (x, y). */
  datatype Vec = Vec(x: int, y: int)

  /** A pixel of a rectangle: left/top inclusive, right/bottom exclusive. */
  predicate Contains(r: Rect, x: int, y: int) {
    r.left <= x < r.right && r.top <= y < r.bottom
  }

  predicate NonEmpty(r: Rect) {
    r.left < r.right && r.top < r.bottom
  }

  /**
   * `Rect.intersects(a, b)`: holds whenever the two rectangles share a
   * pixel, and for two non-empty rectangles only then, the pixel at the
   * larger left and the larger top being shared. Like Android's, the test
   * does not check emptiness, so an empty rectangle may "intersect".
   */
  predicate Intersects(a: Rect, b: Rect): (r: bool)
    ensures r && NonEmpty(a) && NonEmpty(b) ==>
              Contains(a, Max(a.left, b.left), Max(a.top, b.top)) &&
              Contains(b, Max(a.left, b.left), Max(a.top, b.top))
    ensures forall x, y :: Contains(a, x, y) && Contains(b, x, y) ==> r
  {
    a.left < b.right && b.left < a.right && a.top < b.bottom && b.top < a.bottom
  }

  /** A zero-width rectangle inside another one still "intersects" it. */
  lemma EmptyRectIntersects()
    ensures !NonEmpty(Rect(3, 0, 3, 10)) && Intersects(Rect(3, 0, 3, 10), Rect(0, 0, 10, 10))
  {
  }

  predicate Within(inner: Rect, outer: Rect) {
    outer.left <= inner.left && inner.right <= outer.right &&
    outer.top <= inner.top && inner.bottom <= outer.bottom
  }

  /**
   * `a.intersect(b.left, b.top, b.right, b.bottom)`: when the rectangles
   * intersect, `a` is clipped to their common part; otherwise `a` is left as
   * it was.
   */
  function Intersect(a: Rect, b: Rect): (r: Rect)
    ensures !Intersects(a, b) ==> r == a
    ensures Intersects(a, b) ==> Within(r, a) && Within(r, b)
  {
    if Intersects(a, b) then
      Rect(Max(a.left, b.left), Max(a.top, b.top), Min(a.right, b.right), Min(a.bottom, b.bottom))
    else a
  }

  /** The clipped rectangle is the largest one inside both rectangles. */
  lemma IntersectIsLargest(a: Rect, b: Rect, c: Rect)
    requires Intersects(a, b) && Within(c, a) && Within(c, b)
    ensures Within(c, Intersect(a, b))
  {
  }

  function Translate(r: Rect, dx: int, dy: int): Rect {
    Rect(r.left + dx, r.top + dy, r.right + dx, r.bottom + dy)
  }

  /** The fixed configuration of the grid: rows x columns per page, one scroll axis. */
  datatype GridSpec = GridSpec(rows: int, columns: int, orientation: Orientation,
                               usableWidth: int, usableHeight: int)
  {
    predicate Valid() { rows >= 1 && columns >= 1 }

    function OnePageSize(): (n: int)
      requires Valid()
      ensures n >= rows && n >= columns
    {
      MulMonotone(1, rows, columns, columns);
      MulMonotone(rows, rows, 1, columns);
      rows * columns
    }
  }

  lemma MulMonotone(a: int, b: int, c: int, d: int)
    requires 0 <= a <= b && 0 <= c <= d
    ensures a * c <= b * d
  {
    assert a * c <= b * c;
    assert b * c <= b * d;
  }

  /** Row and column of a position inside its page. */
  function CellRow(g: GridSpec, pos: int): int
    requires g.Valid()
  {
    Quot(Rem(pos, g.OnePageSize()), g.columns)
  }

  function CellColumn(g: GridSpec, pos: int): int
    requires g.Valid()
  {
    Rem(pos, g.OnePageSize()) - CellRow(g, pos) * g.columns
  }

  /**
   * `coord` is the start of a page along an axis whose pages are `extent`
   * long, and that page holds position `pos` when a page has `n` positions.
   */
  predicate PageStartHolding(coord: int, extent: int, n: int, pos: int)
    requires 0 < extent
  {
    coord % extent == 0 && (coord / extent) * n <= pos < (coord / extent) * n + n
  }

  /**
   * The top-left corner of the page that holds `pos` (`getPageLeftTopByPosition`):
   * 0 across the scrolling axis, and along it the start of the page that
   * holds `pos`.
   */
  function PageLeftTop(g: GridSpec, pos: int): (corner: Vec)
    requires g.Valid()
    ensures g.orientation == Horizontal ==> corner.y == 0
    ensures g.orientation == Vertical ==> corner.x == 0
    ensures g.orientation == Horizontal && 0 <= pos && 0 < g.usableWidth ==>
              PageStartHolding(corner.x, g.usableWidth, g.OnePageSize(), pos)
    ensures g.orientation == Vertical && 0 <= pos && 0 < g.usableHeight ==>
              PageStartHolding(corner.y, g.usableHeight, g.OnePageSize(), pos)
  {
    var page := PageIndexByPos(pos, g.OnePageSize());
    if g.orientation == Horizontal then
      PageCorner(pos, g.OnePageSize(), g.usableWidth);
      Vec(page * g.usableWidth, 0)
    else
      PageCorner(pos, g.OnePageSize(), g.usableHeight);
      Vec(0, page * g.usableHeight)
  }

  lemma PageCorner(pos: int, n: int, extent: int)
    requires 0 < n
    ensures 0 <= pos && 0 < extent ==> PageStartHolding(PageIndexByPos(pos, n) * extent, extent, n, pos)
  {
    if 0 <= pos && 0 < extent {
      var page := PageIndexByPos(pos, n);
      PageIndexByPosBracket(pos, n);
      FloorUnique(page * extent, extent, page, 0);
    }
  }

  /** `getItemFrameByPosition` without its cache. */
  function ItemFrame(g: GridSpec, itemWidth: int, itemHeight: int, pos: int): (r: Rect)
    requires g.Valid()
    ensures r.right - r.left == itemWidth && r.bottom - r.top == itemHeight
  {
    var origin := PageLeftTop(g, pos);
    var x := origin.x + CellColumn(g, pos) * itemWidth;
    var y := origin.y + CellRow(g, pos) * itemHeight;
    Rect(x, y, x + itemWidth, y + itemHeight)
  }

  /**
   * Every non-negative position splits into a page, a row and a column in
   * range, and is recovered from them.
   */
  lemma {:induction false} CellDecomposition(g: GridSpec, pos: int)
    requires g.Valid() && 0 <= pos
    ensures var page := PageIndexByPos(pos, g.OnePageSize());
            var row := CellRow(g, pos);
            var col := CellColumn(g, pos);
            0 <= page && 0 <= row < g.rows && 0 <= col < g.columns &&
            pos == page * g.OnePageSize() + row * g.columns + col
  {
    var n := g.OnePageSize();
    var pagePos := Rem(pos, n);
    QuotBracket(pagePos, g.columns);
    var row := Quot(pagePos, g.columns);
    if row >= g.rows {
      MulMonotone(g.rows, row, g.columns, g.columns);
      assert false;
    }
  }

  /** The inverse direction: a page, row and column in range name exactly one position. */
  lemma {:induction false} CellOfPosition(g: GridSpec, page: int, row: int, col: int)
    requires g.Valid() && 0 <= page && 0 <= row < g.rows && 0 <= col < g.columns
    ensures var pos := page * g.OnePageSize() + row * g.columns + col;
            PageIndexByPos(pos, g.OnePageSize()) == page &&
            CellRow(g, pos) == row && CellColumn(g, pos) == col
  {
    var n := g.OnePageSize();
    var inPage := row * g.columns + col;
    MulStep(row, g.rows, g.columns);
    MulMonotone(0, row, 0, g.columns);
    MulMonotone(0, page, 0, n);
    var pos := page * n + inPage;
    FloorUnique(pos, n, page, inPage);
    assert Quot(pos, n) == page;
    assert Rem(pos, n) == inPage;
    FloorUnique(inPage, g.columns, row, col);
  }

  lemma MulStep(x: int, y: int, b: int)
    requires x < y && 0 < b
    ensures x * b + b <= y * b
  {
    assert (y - x) * b >= b by { MulMonotone(1, y - x, b, b); }
  }

  /**
   * A frame lies inside the page strip of its position when the item size
   * fits the page (`columns * itemWidth <= usableWidth`, and so on).
   */
  lemma FrameInsidePage(g: GridSpec, itemWidth: int, itemHeight: int, pos: int)
    requires g.Valid() && 0 <= pos && 0 <= itemWidth && 0 <= itemHeight
    requires g.columns * itemWidth <= g.usableWidth && g.rows * itemHeight <= g.usableHeight
    ensures var page := PageIndexByPos(pos, g.OnePageSize());
            var f := ItemFrame(g, itemWidth, itemHeight, pos);
            var o := PageLeftTop(g, pos);
            Within(f, Rect(o.x, o.y, o.x + g.usableWidth, o.y + g.usableHeight))
  {
    CellDecomposition(g, pos);
    var row := CellRow(g, pos);
    var col := CellColumn(g, pos);
    MulMonotone(col + 1, g.columns, itemWidth, itemWidth);
    MulMonotone(row + 1, g.rows, itemHeight, itemHeight);
    MulMonotone(0, col, 0, itemWidth);
    MulMonotone(0, row, 0, itemHeight);
    assert (col + 1) * itemWidth == col * itemWidth + itemWidth;
    assert (row + 1) * itemHeight == row * itemHeight + itemHeight;
    var f := ItemFrame(g, itemWidth, itemHeight, pos);
    var o := PageLeftTop(g, pos);
    assert f.left == o.x + col * itemWidth && f.top == o.y + row * itemHeight;
  }

  /** The default item size (`usableWidth / columns`, `usableHeight / rows`) fits the page. */
  lemma DefaultItemSizeFits(g: GridSpec)
    requires g.Valid() && 0 <= g.usableWidth && 0 <= g.usableHeight
    ensures var w := Quot(g.usableWidth, g.columns);
            var h := Quot(g.usableHeight, g.rows);
            0 <= w && 0 <= h && g.columns * w <= g.usableWidth && g.rows * h <= g.usableHeight
  {
  }

  /** Two positions on the same page occupy different cells, hence disjoint frames. */
  lemma {:induction false} FramesDisjointSamePage(g: GridSpec, itemWidth: int, itemHeight: int, p: int, q: int)
    requires g.Valid() && 0 <= p && 0 <= q && p != q && 0 < itemWidth && 0 < itemHeight
    requires PageIndexByPos(p, g.OnePageSize()) == PageIndexByPos(q, g.OnePageSize())
    ensures !Intersects(ItemFrame(g, itemWidth, itemHeight, p), ItemFrame(g, itemWidth, itemHeight, q))
  {
    CellDecomposition(g, p);
    CellDecomposition(g, q);
    var pr, pc := CellRow(g, p), CellColumn(g, p);
    var qr, qc := CellRow(g, q), CellColumn(g, q);
    var o := PageLeftTop(g, p);
    assert o == PageLeftTop(g, q);
    if pr < qr {
      MulStep(pr, qr, itemHeight);
    } else if qr < pr {
      MulStep(qr, pr, itemHeight);
    } else if pc < qc {
      MulStep(pc, qc, itemWidth);
    } else {
      assert qc < pc;
      MulStep(qc, pc, itemWidth);
    }
  }

  /** Frames on an earlier page end before the frames of a later page begin. */
  lemma {:induction false} FramesDisjointAcrossPages(g: GridSpec, itemWidth: int, itemHeight: int, p: int, q: int)
    requires g.Valid() && 0 <= p && 0 <= q && 0 < itemWidth && 0 < itemHeight
    requires g.columns * itemWidth <= g.usableWidth && g.rows * itemHeight <= g.usableHeight
    requires PageIndexByPos(p, g.OnePageSize()) < PageIndexByPos(q, g.OnePageSize())
    ensures !Intersects(ItemFrame(g, itemWidth, itemHeight, p), ItemFrame(g, itemWidth, itemHeight, q))
  {
    var n := g.OnePageSize();
    var lo, hi := PageIndexByPos(p, n), PageIndexByPos(q, n);
    var fp, fq := ItemFrame(g, itemWidth, itemHeight, p), ItemFrame(g, itemWidth, itemHeight, q);
    FrameInsidePage(g, itemWidth, itemHeight, p);
    FrameInsidePage(g, itemWidth, itemHeight, q);
    if g.orientation == Horizontal {
      assert 0 < g.usableWidth by { MulMonotone(1, g.columns, 1, itemWidth); }
      MulStep(lo, hi, g.usableWidth);
      assert fp.right <= lo * g.usableWidth + g.usableWidth;
      assert hi * g.usableWidth <= fq.left;
    } else {
      assert 0 < g.usableHeight by { MulMonotone(1, g.rows, 1, itemHeight); }
      MulStep(lo, hi, g.usableHeight);
      assert fp.bottom <= lo * g.usableHeight + g.usableHeight;
      assert hi * g.usableHeight <= fq.top;
    }
  }

  /**
   * Frames of two distinct positions never overlap when items have a
   * positive size that fits the page.
   */
  lemma {:induction false} FramesDisjoint(g: GridSpec, itemWidth: int, itemHeight: int, p: int, q: int)
    requires g.Valid() && 0 <= p && 0 <= q && p != q && 0 < itemWidth && 0 < itemHeight
    requires g.columns * itemWidth <= g.usableWidth && g.rows * itemHeight <= g.usableHeight
    ensures !Intersects(ItemFrame(g, itemWidth, itemHeight, p), ItemFrame(g, itemWidth, itemHeight, q))
  {
    var n := g.OnePageSize();
    if PageIndexByPos(p, n) == PageIndexByPos(q, n) {
      FramesDisjointSamePage(g, itemWidth, itemHeight, p, q);
    } else if PageIndexByPos(p, n) < PageIndexByPos(q, n) {
      FramesDisjointAcrossPages(g, itemWidth, itemHeight, p, q);
    } else {
      FramesDisjointAcrossPages(g, itemWidth, itemHeight, q, p);
    }
  }

  /** Every frame in `frames` is its position's frame for the given item size. */
  ghost predicate FramesCoherent(g: GridSpec, itemWidth: int, itemHeight: int, frames: map<int, Rect>)
    requires g.Valid()
  {
    forall p {:trigger ItemFrame(g, itemWidth, itemHeight, p)} :: p in frames ==> frames[p] == ItemFrame(g, itemWidth, itemHeight, p)
  }

  /**
   * The delta `scrollHorizontallyBy` / `scrollVerticallyBy` consumes: the
   * requested delta, cut so that the new offset does not leave [0, maxScroll].
   */
  function ClampDelta(offset: int, maxScroll: int, delta: int): (r: int)
    ensures 0 <= offset <= maxScroll ==> 0 <= offset + r <= maxScroll
    ensures 0 <= offset + delta <= maxScroll ==> r == delta
    ensures offset + delta > maxScroll ==> offset + r == maxScroll
    ensures 0 <= maxScroll && offset + delta < 0 ==> offset + r == 0
  {
    var newOffset := offset + delta;
    if newOffset > maxScroll then maxScroll - offset
    else if newOffset < 0 then 0 - offset
    else delta
  }

  /** The half-open range of positions a recycle pass visits. */
  datatype Span = Span(start: int, stop: int)

  /**
   * `recycleAndFillItems`' window: from two pages before the current page to
   * four pages later, cut to [0, itemCount).
   */
  function Window(pageIndex: int, onePageSize: int, itemCount: int): (w: Span)
    requires onePageSize > 0
    ensures 0 <= w.start && w.stop <= itemCount && w.stop <= w.start + 4 * onePageSize
  {
    var startPos := pageIndex * onePageSize - onePageSize * 2;
    var start := if startPos < 0 then 0 else startPos;
    var stopPos := start + onePageSize * 4;
    Span(start, if stopPos > itemCount then itemCount else stopPos)
  }

  /**
   * The window always holds every existing item of the current page, of the
   * two pages before it and of the page after it.
   */
  lemma WindowCoversNearbyPages(pageIndex: int, onePageSize: int, itemCount: int, p: int)
    requires onePageSize > 0 && 0 <= pageIndex
    requires 0 <= p < itemCount
    requires (pageIndex - 2) * onePageSize <= p < (pageIndex + 2) * onePageSize
    ensures var w := Window(pageIndex, onePageSize, itemCount); w.start <= p < w.stop
  {
    var w := Window(pageIndex, onePageSize, itemCount);
    if pageIndex * onePageSize - onePageSize * 2 < 0 {
      assert pageIndex < 2 by {
        if pageIndex >= 2 { MulMonotone(2, pageIndex, onePageSize, onePageSize); }
      }
      MulMonotone(pageIndex + 2, 4, onePageSize, onePageSize);
    }
  }

  /** Every position of `w` has an entry in `frames`. */
  ghost predicate Covers(frames: map<int, Rect>, w: Span) {
    forall p :: w.start <= p < w.stop ==> p in frames
  }

  /** The positions of a span in the order a pass visits them. */
  function Traversal(w: Span, forward: bool): (order: seq<int>)
    ensures forall p :: p in order <==> w.start <= p < w.stop
    ensures |order| == if w.stop <= w.start then 0 else w.stop - w.start
    decreases w.stop - w.start
  {
    if w.stop <= w.start then []
    else if forward then Traversal(Span(w.start, w.stop - 1), true) + [w.stop - 1]
    else Traversal(Span(w.start + 1, w.stop), false) + [w.start]
  }

  /** The `i`-th visited position: counted up from the start, or down from the stop. */
  lemma {:induction false} TraversalAt(w: Span, forward: bool, i: int)
    requires 0 <= i < |Traversal(w, forward)|
    ensures Traversal(w, forward)[i] == (if forward then w.start + i else w.stop - 1 - i)
    decreases w.stop - w.start
  {
    if forward {
      var rest := Traversal(Span(w.start, w.stop - 1), true);
      if i < |rest| {
        TraversalAt(Span(w.start, w.stop - 1), true, i);
      }
    } else {
      var rest := Traversal(Span(w.start + 1, w.stop), false);
      if i < |rest| {
        TraversalAt(Span(w.start + 1, w.stop), false, i);
      }
    }
  }

  /** A forward pass visits positions in increasing order, a backward pass in decreasing order. */
  lemma TraversalOrdered(w: Span, forward: bool, i: int, j: int)
    requires 0 <= i < j < |Traversal(w, forward)|
    ensures var order := Traversal(w, forward);
            if forward then order[i] < order[j] else order[i] > order[j]
  {
    TraversalAt(w, forward, i);
    TraversalAt(w, forward, j);
  }

  /** A child view laid out at adapter position `pos` with the given bounds. */
  datatype Placement = Placement(pos: int, bounds: Rect)

  function Positions(children: seq<Placement>): (ps: seq<int>)
    ensures |ps| == |children| && forall i :: 0 <= i < |children| ==> ps[i] == children[i].pos
  {
    seq(|children|, i requires 0 <= i < |children| => children[i].pos)
  }

  /** What visiting `p` attaches: its child, when its frame meets the display rectangle. */
  function Attached(p: int, display: Rect, frames: map<int, Rect>, dx: int, dy: int): seq<Placement> {
    if p in frames && Intersects(display, frames[p]) then [Placement(p, Translate(frames[p], dx, dy))] else []
  }

  /**
   * The children a recycle pass attaches: the positions of `order` whose
   * frame meets the display rectangle, in visiting order, each placed at its
   * frame shifted by (dx, dy). (A pass caches every position before it looks
   * at it, so a position without a frame does not occur; it is not attached.)
   */
  function LaidOut(order: seq<int>, display: Rect, frames: map<int, Rect>, dx: int, dy: int): seq<Placement>
  {
    if order == [] then []
    else LaidOut(order[..|order| - 1], display, frames, dx, dy) + Attached(order[|order| - 1], display, frames, dx, dy)
  }

  /** The children of a pass over `w` in direction `forward`, by recursion on the span. */
  function PassChildren(w: Span, forward: bool, display: Rect, frames: map<int, Rect>, dx: int, dy: int): seq<Placement>
    decreases w.stop - w.start
  {
    if w.stop <= w.start then []
    else if forward then
      PassChildren(Span(w.start, w.stop - 1), true, display, frames, dx, dy) + Attached(w.stop - 1, display, frames, dx, dy)
    else
      PassChildren(Span(w.start + 1, w.stop), false, display, frames, dx, dy) + Attached(w.start, display, frames, dx, dy)
  }

  /** A pass over `w` lays out its traversal. */
  lemma {:induction false} PassChildrenIsLaidOut(w: Span, forward: bool, display: Rect, frames: map<int, Rect>, dx: int, dy: int)
    ensures PassChildren(w, forward, display, frames, dx, dy) == LaidOut(Traversal(w, forward), display, frames, dx, dy)
    decreases w.stop - w.start
  {
    if w.start < w.stop {
      var rest := if forward then Span(w.start, w.stop - 1) else Span(w.start + 1, w.stop);
      var p := if forward then w.stop - 1 else w.start;
      PassChildrenIsLaidOut(rest, forward, display, frames, dx, dy);
      var order := Traversal(w, forward);
      assert order == Traversal(rest, forward) + [p];
      assert order[..|order| - 1] == Traversal(rest, forward);
      assert PassChildren(w, forward, display, frames, dx, dy) ==
             PassChildren(rest, forward, display, frames, dx, dy) + Attached(p, display, frames, dx, dy);
    }
  }

  /** Exactly the visited positions whose frame meets the display rectangle are attached. */
  lemma {:induction false} LaidOutMembers(order: seq<int>, display: Rect, frames: map<int, Rect>, dx: int, dy: int, p: int)
    requires forall q :: q in order ==> q in frames
    ensures p in Positions(LaidOut(order, display, frames, dx, dy)) <==> p in order && Intersects(display, frames[p])
  {
    if order != [] {
      var init := order[..|order| - 1];
      var last := order[|order| - 1];
      assert order == init + [last];
      LaidOutMembers(init, display, frames, dx, dy, p);
      var rest := LaidOut(init, display, frames, dx, dy);
      if Intersects(display, frames[last]) {
        var c := Placement(last, Translate(frames[last], dx, dy));
        assert LaidOut(order, display, frames, dx, dy) == rest + [c];
        assert Positions(rest + [c]) == Positions(rest) + [last];
      } else {
        assert LaidOut(order, display, frames, dx, dy) == rest;
      }
    }
  }

  /** Every child sits at the frame of its position shifted by (dx, dy). */
  ghost predicate PlacedAtFrames(cs: seq<Placement>, frames: map<int, Rect>, dx: int, dy: int) {
    forall i :: 0 <= i < |cs| ==> cs[i].pos in frames && cs[i].bounds == Translate(frames[cs[i].pos], dx, dy)
  }

  /** Every attached child sits at its cached frame shifted by (dx, dy). */
  lemma {:induction false} LaidOutBounds(order: seq<int>, display: Rect, frames: map<int, Rect>, dx: int, dy: int)
    requires forall q :: q in order ==> q in frames
    ensures PlacedAtFrames(LaidOut(order, display, frames, dx, dy), frames, dx, dy)
  {
    if order != [] {
      var init := order[..|order| - 1];
      var last := order[|order| - 1];
      assert last in order;
      LaidOutBounds(init, display, frames, dx, dy);
      var rest := LaidOut(init, display, frames, dx, dy);
      if Intersects(display, frames[last]) {
        var c := Placement(last, Translate(frames[last], dx, dy));
        assert LaidOut(order, display, frames, dx, dy) == rest + [c];
        assert forall i :: 0 <= i < |rest| ==> (rest + [c])[i] == rest[i];
      }
    }
  }

  /**
   * A pass depends only on the frames of the positions it visits: a cache
   * that grew elsewhere gives the same children.
   */
  lemma {:induction false} PassChildrenFramesAgree(w: Span, forward: bool, display: Rect, f1: map<int, Rect>, f2: map<int, Rect>, dx: int, dy: int)
    requires forall q :: w.start <= q < w.stop ==> q in f1 && q in f2 && f1[q] == f2[q]
    ensures PassChildren(w, forward, display, f1, dx, dy) == PassChildren(w, forward, display, f2, dx, dy)
    decreases w.stop - w.start
  {
    if w.start < w.stop {
      PassChildrenFramesAgree(if forward then Span(w.start, w.stop - 1) else Span(w.start + 1, w.stop),
                              forward, display, f1, f2, dx, dy);
    }
  }

  /** A pass over a cached span attaches exactly its positions whose frame meets the display. */
  lemma PassChildrenMembers(w: Span, forward: bool, display: Rect, frames: map<int, Rect>, dx: int, dy: int, p: int)
    requires Covers(frames, w)
    ensures p in Positions(PassChildren(w, forward, display, frames, dx, dy)) <==>
              w.start <= p < w.stop && Intersects(display, frames[p])
  {
    PassChildrenIsLaidOut(w, forward, display, frames, dx, dy);
    LaidOutMembers(Traversal(w, forward), display, frames, dx, dy, p);
  }

  /** Every child of a pass over a cached span sits at its frame shifted by (dx, dy). */
  lemma PassChildrenBounds(w: Span, forward: bool, display: Rect, frames: map<int, Rect>, dx: int, dy: int)
    requires Covers(frames, w)
    ensures PlacedAtFrames(PassChildren(w, forward, display, frames, dx, dy), frames, dx, dy)
  {
    PassChildrenIsLaidOut(w, forward, display, frames, dx, dy);
    LaidOutBounds(Traversal(w, forward), display, frames, dx, dy);
  }
}
