/**
 * Integer page arithmetic of the paged grid layout manager and of the pager
 * recycler view. Kotlin's `Int` division truncates toward zero, whereas
 * Dafny's `/` and `%` are Euclidean; `Quot` and `Rem` model Kotlin's
 * operators wherever an operand may be negative.
 */
module PageMath {

  function Abs(a: int): nat { if a < 0 then -a else a }

  function Max(a: int, b: int): int { if a < b then b else a }

  function Min(a: int, b: int): int { if a < b then a else b }

  /** Euclidean division by a positive divisor brackets the dividend. */
  lemma DivBounds(a: int, b: int)
    requires 0 < b
    ensures (a / b) * b <= a < (a / b) * b + b
    ensures 0 <= a ==> 0 <= a / b
  {
  }

  /** Kotlin `a / b`: the exact quotient rounded toward zero. */
  function Quot(a: int, b: int): (q: int)
    requires b != 0
    ensures 0 <= a && 0 < b ==> q == a / b && 0 <= q
    ensures a < 0 && 0 < b ==> q <= 0
    ensures 0 <= a && b < 0 ==> q <= 0
    ensures a < 0 && b < 0 ==> 0 <= q
  {
    if b > 0 then
      if a >= 0 then DivBounds(a, b); a / b
      else DivBounds(-a, b); -((-a) / b)
    else if a >= 0 then DivBounds(a, -b); -(a / (-b))
    else DivBounds(-a, -b); (-a) / (-b)
  }

  /**
   * The truncated quotient brackets the dividend: `Quot(a, b) * b` lies
   * between zero and `a`, less than one divisor away from `a`, for either
   * sign of the divisor.
   */
  lemma QuotBracket(a: int, b: int)
    requires b != 0
    ensures 0 < b && 0 <= a ==> Quot(a, b) * b <= a < Quot(a, b) * b + b
    ensures 0 < b && a < 0 ==> Quot(a, b) * b - b < a <= Quot(a, b) * b
    ensures b < 0 && 0 <= a ==> Quot(a, b) * b <= a < Quot(a, b) * b - b
    ensures b < 0 && a < 0 ==> Quot(a, b) * b + b < a <= Quot(a, b) * b
  {
    DivBounds(Abs(a), Abs(b));
    QuotTimesDivisor(a, b);
  }

  /** `Quot(a, b) * b` is the multiple of |b| that truncating |a| gives, with the sign of `a`. */
  lemma QuotTimesDivisor(a: int, b: int)
    requires b != 0
    ensures Quot(a, b) * b == if a < 0 then -((Abs(a) / Abs(b)) * Abs(b)) else (Abs(a) / Abs(b)) * Abs(b)
  {
    var d := Abs(a) / Abs(b);
    if b > 0 && a >= 0 {
      assert Quot(a, b) == d;
    } else if b > 0 {
      assert Quot(a, b) == -d;
      assert (-d) * b == -(d * b);
    } else if a >= 0 {
      assert Quot(a, b) == -d;
      assert (-d) * b == d * (-b);
    } else {
      assert Quot(a, b) == d;
      assert d * b == -(d * (-b));
    }
  }

  /**
   * Kotlin `a % b`: the remainder takes the sign of the dividend, is smaller
   * than the divisor in magnitude, and agrees with Dafny's `%` for a
   * non-negative dividend and a positive divisor.
   */
  function Rem(a: int, b: int): (r: int)
    requires b != 0
    ensures 0 <= a ==> 0 <= r < Abs(b)
    ensures a < 0 ==> r <= 0 && -r < Abs(b)
    ensures 0 <= a && 0 < b ==> r == a % b
  {
    QuotBracket(a, b);
    if 0 <= a && 0 < b then FloorUnique(a, b, Quot(a, b), a - Quot(a, b) * b); a - Quot(a, b) * b
    else a - Quot(a, b) * b
  }

  /** The only multiple of a positive `b` strictly between -b and b is 0. */
  lemma ZeroMultiple(x: int, b: int)
    requires 0 < b && -b < x * b < b
    ensures x == 0
  {
    if x >= 1 {
      MulAtLeast(x, b);
    } else if x <= -1 {
      MulAtLeast(-x, b);
    }
  }

  lemma MulAtLeast(x: int, b: int)
    requires 1 <= x && 0 < b
    ensures x * b >= b
  {
    var k := x - 1;
    assert 0 <= k * b by { NonNegProduct(k, b); }
    assert x * b == k * b + b;
  }

  lemma NonNegProduct(x: int, y: int)
    requires 0 <= x && 0 <= y
    ensures 0 <= x * y
  {
  }

  /** Division by a positive `b` is determined by quotient and remainder. */
  lemma FloorUnique(a: int, b: int, q: int, r: int)
    requires 0 < b && 0 <= r < b && a == q * b + r
    ensures a / b == q && a % b == r
  {
    DivBounds(a, b);
    assert (a / b - q) * b == r - a % b;
    ZeroMultiple(a / b - q, b);
  }

  /**
   * `totalPageCount`: no pages for an empty (or negative) item count,
   * otherwise the integer ceiling of itemCount / onePageSize.
   */
  function TotalPageCount(itemCount: int, onePageSize: int): (r: int)
    requires onePageSize > 0
    ensures itemCount <= 0 ==> r == 0
    ensures itemCount > 0 ==> r >= 1
  {
    if itemCount <= 0 then 0
    else
      var totalCount := itemCount / onePageSize;
      if itemCount % onePageSize != 0 then totalCount + 1 else totalCount
  }

  /** Every item fits on the pages counted, and the last page is not empty. */
  lemma TotalPageCountBracket(itemCount: int, onePageSize: int)
    requires onePageSize > 0 && itemCount > 0
    ensures var r := TotalPageCount(itemCount, onePageSize);
            (r - 1) * onePageSize < itemCount <= r * onePageSize
  {
    DivBounds(itemCount, onePageSize);
  }

  /** `getPageIndexByPos`: the page a position falls on. */
  function PageIndexByPos(pos: int, onePageSize: int): (page: int)
    requires onePageSize > 0
    ensures 0 <= pos ==> 0 <= page
  {
    Quot(pos, onePageSize)
  }

  /** A non-negative position lies within its page's range of positions. */
  lemma PageIndexByPosBracket(pos: int, onePageSize: int)
    requires onePageSize > 0 && 0 <= pos
    ensures var page := PageIndexByPos(pos, onePageSize);
            page * onePageSize <= pos < page * onePageSize + onePageSize
  {
    QuotBracket(pos, onePageSize);
  }

  /**
   * `pageIndexByOffset`: the page nearest to a scroll offset along an axis of
   * the given page extent; the lower page wins a tie. Zero when the offset or
   * the extent is not positive.
   */
  function PageIndexByOffset(offset: int, extent: int): (page: int)
    ensures offset <= 0 || extent <= 0 ==> page == 0
    ensures 0 <= page
  {
    if offset <= 0 || extent <= 0 then 0
    else
      var pageIndex := offset / extent;
      if offset % extent > extent / 2 then pageIndex + 1 else pageIndex
  }

  /** The nearest page: the offset is within half a page of its start. */
  lemma PageIndexByOffsetNearest(offset: int, extent: int)
    requires offset > 0 && extent > 0
    ensures var page := PageIndexByOffset(offset, extent);
            page * extent - (extent - extent / 2) < offset <= page * extent + extent / 2
  {
    DivBounds(offset, extent);
  }

  /**
   * The `pageIndex` getter: written like `PageIndexByOffset` but with a
   * round-up test (`remainder > extent`) that no remainder can pass, so the
   * result is the floor page.
   */
  function PageIndexFloor(offset: int, extent: int): (page: int)
    ensures offset <= 0 || extent <= 0 ==> page == 0
    ensures 0 <= page
  {
    if offset <= 0 || extent <= 0 then 0
    else
      var pageIndex := offset / extent;
      if offset % extent > extent then pageIndex + 1 else pageIndex
  }

  /** The floor page: the offset lies within the page it has entered. */
  lemma PageIndexFloorBracket(offset: int, extent: int)
    requires offset > 0 && extent > 0
    ensures var page := PageIndexFloor(offset, extent);
            page * extent <= offset < page * extent + extent
  {
    DivBounds(offset, extent);
  }

  /**
   * `BigDecimal(a).divide(BigDecimal(b), ROUND_CEILING)`: the exact quotient
   * rounded toward positive infinity, that is the least `c` with
   * `a <= c * b` for a positive divisor, and with `c * b <= a` for a
   * negative one.
   */
  function CeilDiv(a: int, b: int): (c: int)
    requires b != 0
    ensures 0 < b ==> c * b - b < a <= c * b
    ensures b < 0 ==> c * b <= a < c * b - b
  {
    if b > 0 then
      DivBounds(-a, b);
      assert -((-a) / b) * b == -(((-a) / b) * b);
      -((-a) / b)
    else
      DivBounds(a, -b);
      assert -(a / (-b)) * b == (a / (-b)) * (-b);
      -(a / (-b))
  }
}
