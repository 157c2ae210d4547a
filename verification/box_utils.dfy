/** Bounding-box geometry on integer pixel coordinates. */
module BoxUtils {

  /** An axis-aligned box `(x1, y1, x2, y2)`: top-left and bottom-right corners. */
  datatype Box = Box(x1: int, y1: int, x2: int, y2: int)

  /** A point of the image plane. */
  datatype Point = Point(x: int, y: int)

  /** Python's `int(n / 2)`: true division followed by truncation toward zero.
      This differs from Dafny's `n / 2` (which rounds toward minus infinity
      for a divisor of 2) exactly when `n` is negative and odd. */
  function HalfTowardZero(n: int): (r: int)
    ensures 0 <= n ==> 0 <= 2 * r <= n < 2 * r + 2
    ensures n < 0 ==> 2 * r - 2 < n <= 2 * r <= 0
  {
    if n >= 0 then n / 2 else -((-n) / 2)
  }

  /** The integer centre of a box: on each axis, the midpoint rounded toward zero. */
  function CenterOfBox(b: Box): (c: Point)
    ensures b.x1 <= b.x2 ==> b.x1 <= c.x <= b.x2
    ensures b.y1 <= b.y2 ==> b.y1 <= c.y <= b.y2
    ensures 0 <= b.x1 + b.x2 ==> 0 <= 2 * c.x <= b.x1 + b.x2 < 2 * c.x + 2
    ensures b.x1 + b.x2 < 0 ==> 2 * c.x - 2 < b.x1 + b.x2 <= 2 * c.x <= 0
    ensures 0 <= b.y1 + b.y2 ==> 0 <= 2 * c.y <= b.y1 + b.y2 < 2 * c.y + 2
    ensures b.y1 + b.y2 < 0 ==> 2 * c.y - 2 < b.y1 + b.y2 <= 2 * c.y <= 0
  {
    Point(HalfTowardZero(b.x1 + b.x2), HalfTowardZero(b.y1 + b.y2))
  }

  /** The horizontal extent of a box. */
  function BoxWidth(b: Box): (w: int)
    ensures 0 <= w <==> b.x1 <= b.x2
    ensures b.x1 + w == b.x2
  {
    b.x2 - b.x1
  }

  /** The box moved by `(dx, dy)`. */
  function Translate(b: Box, dx: int, dy: int): Box
  {
    Box(b.x1 + dx, b.y1 + dy, b.x2 + dx, b.y2 + dy)
  }

  /** Width is a horizontal distance: moving the box leaves it unchanged. */
  lemma WidthTranslationInvariant(b: Box, dx: int, dy: int)
    ensures BoxWidth(Translate(b, dx, dy)) == BoxWidth(b)
  {
  }

  /** Halving rounds toward zero, not toward minus infinity: the two
      roundings disagree on every negative odd sum, e.g. `-3`. */
  lemma HalfTowardZeroIsNotFloor(k: nat)
    ensures HalfTowardZero(-(2 * k + 1)) == -(k as int)
    ensures (-(2 * k + 1)) / 2 == -(k as int) - 1
  {
  }

  /** Rounding toward zero treats both sides of the origin alike: mirroring
      a box through the origin mirrors its centre. (Rounding toward minus
      infinity would not: the centre of `(0, 0, 1, 1)` is `(0, 0)`, that of
      `(-1, -1, 0, 0)` would be `(-1, -1)`.) */
  lemma CenterOfMirroredBox(b: Box)
    ensures var c := CenterOfBox(b);
            CenterOfBox(Box(-b.x2, -b.y2, -b.x1, -b.y1)) == Point(-c.x, -c.y)
  {
  }

  /** A degenerate box (a single pixel) is its own centre, on either side of the origin. */
  lemma CenterOfPointBox(x: int, y: int)
    ensures CenterOfBox(Box(x, y, x, y)) == Point(x, y)
  {
  }
}
