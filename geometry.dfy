/** Integer geometry of the shape tools: the rectangle/square extent and the
    polygon side count. Pointer positions are canvas pixels. */
module Geometry {

  /** A pointer position in canvas pixels. */
  datatype Point = Point(x: int, y: int)

  /** Width and height handed to the rectangle primitive; either may be negative
      when the drag goes left or up. */
  datatype Extent = Extent(w: int, h: int)

  const Int32Min: int := -0x8000_0000
  const Int32Bound: int := 0x8000_0000
  const TwoTo32: int := 0x1_0000_0000

  /** Fewest sides a polygon is drawn with. */
  const MinPolygonSides: int := 3

  function Abs(n: int): nat
  {
    if n < 0 then -n else n
  }

  function Max(a: int, b: int): int
  {
    if a < b then b else a
  }

  /** `Math.sign(d || 1)`: the direction of a drag delta, a zero delta counting
      as positive. */
  function DragSign(d: int): (r: int)
    ensures r == 1 || r == -1
    ensures r == -1 <==> d < 0
  {
    if d < 0 then -1 else 1
  }

  /** The extent drawRect passes to `rect` for a drag from `a` to `b`. In square
      mode both sides get the larger magnitude, each keeping the direction of
      its own delta; otherwise the extent is the delta itself. The origin of the
      rectangle is always `a`. */
  function RectExtent(a: Point, b: Point, square: bool): (e: Extent)
    ensures !square ==> e.w == b.x - a.x && e.h == b.y - a.y
    ensures square ==> Abs(e.w) == Abs(e.h) == Max(Abs(b.x - a.x), Abs(b.y - a.y))
    ensures square ==> (e.w < 0 <==> b.x < a.x) && (e.h < 0 <==> b.y < a.y)
  {
    var w := b.x - a.x;
    var h := b.y - a.y;
    if square then
      var s := Max(Abs(w), Abs(h));
      Extent(s * DragSign(w), s * DragSign(h))
    else
      Extent(w, h)
  }

  /** A square drawn in square mode always covers the point it was dragged to:
      the far corner lies at or beyond the cursor in both directions. */
  lemma SquareCoversCursor(a: Point, b: Point)
    ensures var e := RectExtent(a, b, true);
      (a.x <= b.x ==> b.x <= a.x + e.w) && (b.x < a.x ==> a.x + e.w <= b.x) &&
      (a.y <= b.y ==> b.y <= a.y + e.h) && (b.y < a.y ==> a.y + e.h <= b.y)
  {
  }

  /** A vertical drag from (10,10) to (10,40) in square mode gives a 30 by 30
      square: the zero width snaps to the height's magnitude and counts as
      positive. */
  lemma SquareFromVerticalDrag()
    ensures RectExtent(Point(10, 10), Point(10, 40), true) == Extent(30, 30)
  {
  }

  /** JavaScript's `n | 0` on an integral number: wrap to a signed 32-bit value. */
  function ToInt32(n: int): (r: int)
    ensures Int32Min <= r < Int32Bound
    ensures (n - r) % TwoTo32 == 0
    ensures Int32Min <= n < Int32Bound ==> r == n
  {
    var m := n % TwoTo32;
    if m >= Int32Bound then m - TwoTo32 else m
  }

  /** `Math.max(3, sides | 0)`: the number of sides drawPolygon actually draws. */
  function PolygonSides(sides: int): (n: nat)
    ensures n >= MinPolygonSides
    ensures MinPolygonSides <= sides < Int32Bound ==> n == sides
    ensures Int32Min <= sides <= MinPolygonSides ==> n == MinPolygonSides
  {
    Max(MinPolygonSides, ToInt32(sides))
  }
}
