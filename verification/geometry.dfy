/** Points, rectangles and segments of the diagram plane.
    x grows to the right and y grows downward, as in the layout the routes are drawn on.
    Coordinates are exact reals; the floating-point arithmetic of the Python code is not modelled. */
module Geometry {

  datatype Point = Point(x: real, y: real)

  /** A box's rectangle (x1, y1, x2, y2): top-left and bottom-right corners. */
  datatype Rect = Rect(x1: real, y1: real, x2: real, y2: real)

  /** An ordered pair of points; the segment type itself belongs to a collaborator. */
  datatype Segment = Segment(a: Point, b: Point)

  /** The layout axis of a box: the direction along which its children are placed. */
  datatype Axis = Horizontal | Vertical

  /** A rectangle with positive width and height. */
  predicate Proper(r: Rect) {
    r.x1 < r.x2 && r.y1 < r.y2
  }

  /** A rectangle whose corners are in order, possibly flat. */
  predicate Ordered(r: Rect) {
    r.x1 <= r.x2 && r.y1 <= r.y2
  }

  function MidX(r: Rect): real { (r.x1 + r.x2) / 2.0 }

  function MidY(r: Rect): real { (r.y1 + r.y2) / 2.0 }

  function Center(r: Rect): (c: Point)
    ensures Proper(r) ==> r.x1 < c.x < r.x2 && r.y1 < c.y < r.y2
  {
    Point(MidX(r), MidY(r))
  }

  /** p lies on one of the four sides of r. */
  predicate OnBoundary(p: Point, r: Rect) {
    || ((p.x == r.x1 || p.x == r.x2) && r.y1 <= p.y <= r.y2)
    || ((p.y == r.y1 || p.y == r.y2) && r.x1 <= p.x <= r.x2)
  }

  /** p lies in r extended by a margin m on every side. */
  predicate WithinMargin(p: Point, r: Rect, m: real) {
    r.x1 - m <= p.x <= r.x2 + m && r.y1 - m <= p.y <= r.y2 + m
  }

  /** The segment from p to q is horizontal or vertical. */
  predicate AxisAligned(p: Point, q: Point) {
    p.x == q.x || p.y == q.y
  }

  /** Every leg of the polyline is horizontal or vertical. */
  predicate Orthogonal(ps: seq<Point>) {
    forall i :: 0 <= i < |ps| - 1 ==> AxisAligned(ps[i], ps[i + 1])
  }

  function Abs(v: real): (r: real)
    ensures r >= 0.0 && (r == v || r == -v)
  {
    if v < 0.0 then -v else v
  }

  /** The square of the Euclidean distance. The Python code compares `sqrt` of this value
      with another such value; the square root is strictly increasing on non-negative reals
      (`SquareOrder`), so comparing the squares gives the same answers. */
  function Dist2(p: Point, q: Point): (d: real)
    ensures d >= 0.0
    ensures p == q ==> d == 0.0
  {
    (q.x - p.x) * (q.x - p.x) + (q.y - p.y) * (q.y - p.y)
  }

  /** The distance does not depend on the direction it is measured in. */
  lemma Dist2Symmetric(p: Point, q: Point)
    ensures Dist2(p, q) == Dist2(q, p)
  {
    var dx, dy := q.x - p.x, q.y - p.y;
    assert (-dx) * (-dx) == dx * dx;
    assert (-dy) * (-dy) == dy * dy;
  }

  /** The product of two positive numbers is positive. */
  lemma ProductPositive(a: real, b: real)
    requires a > 0.0 && b > 0.0
    ensures a * b > 0.0
  {
    assert a * b > 0.0 * b;
  }

  /** The point of [c1, c2] nearest to p; c1 wins ties, as `min` keeps the first minimum. */
  function Nearer(p: Point, c1: Point, c2: Point): (c: Point)
    ensures c == c1 || c == c2
    ensures Dist2(p, c) <= Dist2(p, c1) && Dist2(p, c) <= Dist2(p, c2)
    ensures c == c2 ==> c1 == c2 || Dist2(p, c2) < Dist2(p, c1)
  {
    if Dist2(p, c1) <= Dist2(p, c2) then c1 else c2
  }

  /** Multiplying by a positive number keeps the order. */
  lemma ProductOrder(a: real, b: real, c: real)
    requires a <= b && c > 0.0
    ensures a * c <= b * c
  {
    if a < b {
      ProductPositive(b - a, c);
      assert b * c - a * c == (b - a) * c;
    }
  }

  /** Two non-negative numbers are ordered as their squares are: comparing distances or
      their squares gives the same answer. */
  lemma SquareOrder(a: real, b: real)
    requires a >= 0.0 && b >= 0.0
    ensures a <= b <==> a * a <= b * b
    ensures a == b <==> a * a == b * b
  {
    if a < b {
      ProductPositive(b - a, b + a);
      assert b * b - a * a == (b - a) * (b + a);
    } else if b < a {
      ProductPositive(a - b, a + b);
      assert a * a - b * b == (a - b) * (a + b);
    }
  }
}
