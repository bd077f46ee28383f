/**
 * Exact-real two-dimensional vectors, standing in for the rendering
 * library's `Vector2` (add, scale, sub, magnitude).
 */
module Geometry {

  datatype Point = Point(x: real, y: real)

  function Add(p: Point, q: Point): Point {
    Point(p.x + q.x, p.y + q.y)
  }

  function Sub(p: Point, q: Point): Point {
    Point(p.x - q.x, p.y - q.y)
  }

  function Scale(p: Point, k: real): Point {
    Point(k * p.x, k * p.y)
  }

  function Abs(r: real): real {
    if r < 0.0 then -r else r
  }

  /** A vector along one of the two axes. */
  predicate OnAxis(v: Point) {
    v.x == 0.0 || v.y == 0.0
  }

  /**
   * The Euclidean length of a vector. Exact reals have no square root, so
   * the magnitude is defined only for vectors along an axis, where it is
   * the absolute value of the non-zero coordinate.
   */
  function Magnitude(v: Point): (m: real)
    requires OnAxis(v)
    ensures m >= 0.0
    ensures m == 0.0 <==> v == Point(0.0, 0.0)
  {
    if v.x == 0.0 then Abs(v.y) else Abs(v.x)
  }

  /** On an axis the magnitude is the Euclidean length: its square is x^2 + y^2. */
  lemma MagnitudeIsEuclidean(v: Point)
    requires OnAxis(v)
    ensures Magnitude(v) * Magnitude(v) == v.x * v.x + v.y * v.y
  {
    if v.x == 0.0 {
      assert Abs(v.y) * Abs(v.y) == v.y * v.y;
    } else {
      assert v.y == 0.0;
      assert Abs(v.x) * Abs(v.x) == v.x * v.x;
    }
  }

  /** Two points joined by a horizontal or vertical segment. */
  predicate AxisAligned(p: Point, q: Point) {
    p.x == q.x || p.y == q.y
  }

  /** The distance from `q` to `p`, written `p.sub(q).magnitude` in the scene. */
  function Dist(p: Point, q: Point): (d: real)
    requires AxisAligned(p, q)
    ensures d >= 0.0
    ensures d == 0.0 <==> p == q
  {
    Magnitude(Sub(p, q))
  }
}
