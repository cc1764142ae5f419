/**
  `java.awt.Point` and `java.awt.Rectangle` as values, and the integer arithmetic the
  game borrows from Java: truncating division and the overlap test of `Rectangle`.
  Coordinates are unbounded integers; the game's values are map-sized, far from the
  32-bit limits where Java's arithmetic would wrap.
*/
module Geometry {

  datatype Point = Point(x: int, y: int)

  /** A rectangle as `java.awt.Rectangle` keeps it: top-left corner and size. */
  datatype Rect = Rect(x: int, y: int, width: int, height: int)

  function Abs(n: int): nat {
    if n < 0 then -n else n
  }

  /** `Math.max` and `Math.min` on `int`. */
  function Max(a: int, b: int): int { if a < b then b else a }
  function Min(a: int, b: int): int { if a < b then a else b }

  /** `b` lies between `a` and `c`, in either order. */
  predicate Between(a: int, b: int, c: int) {
    (a <= b <= c) || (c <= b <= a)
  }

  /**
    Java's `a / b` on `int`: the quotient rounded toward zero (Dafny's `/` rounds
    toward negative infinity for a positive divisor).
  */
  function TruncDiv(a: int, b: int): int
    requires b != 0
  {
    if a >= 0 && b > 0 then a / b
    else if a >= 0 then -(a / -b)
    else if b > 0 then -(-a / b)
    else -a / -b
  }

  /**
    `Rectangle.intersects`: both rectangles have positive width and height and their
    interiors overlap (touching edges do not count).
  */
  predicate Intersects(a: Rect, b: Rect) {
    && a.width > 0 && a.height > 0 && b.width > 0 && b.height > 0
    && b.x + b.width > a.x && b.y + b.height > a.y
    && a.x + a.width > b.x && a.y + a.height > b.y
  }

  /** `Rectangle.contains(px, py)` for a point inside a rectangle of positive size. */
  predicate ContainsPoint(r: Rect, px: int, py: int) {
    r.x <= px < r.x + r.width && r.y <= py < r.y + r.height
  }

  /** Overlap is exactly a common pixel of the two rectangles. */
  lemma IntersectsIffCommonPixel(a: Rect, b: Rect)
    ensures Intersects(a, b) <==>
              exists px, py :: ContainsPoint(a, px, py) && ContainsPoint(b, px, py)
  {
    if Intersects(a, b) {
      var px := if a.x < b.x then b.x else a.x;
      var py := if a.y < b.y then b.y else a.y;
      assert ContainsPoint(a, px, py) && ContainsPoint(b, px, py);
    }
  }

  /**
    `Point.distance(p, q) > 100`. The distance is the correctly rounded square root of
    the squared distance, which exceeds 100 exactly when the squared distance exceeds
    10000 (both are integers here).
  */
  predicate FartherThan100(p: Point, q: Point) {
    (p.x - q.x) * (p.x - q.x) + (p.y - q.y) * (p.y - q.y) > 10000
  }
}
