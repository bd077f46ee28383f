/**
 * Polyline length and the conversion of lengths and radii into animation
 * durations at the scene's fixed drawing speed.
 */
module Timing {
  import opened Geometry
  import opened Constants

  /** Every pair of consecutive points is joined by an axis-parallel piece. */
  predicate Rectilinear(points: seq<Point>) {
    forall i :: 1 <= i < |points| ==> AxisAligned(points[i - 1], points[i])
  }

  /** A piece of a rectilinear polyline is rectilinear. */
  lemma RectilinearSlice(points: seq<Point>, lo: nat, hi: nat)
    requires Rectilinear(points)
    requires lo <= hi <= |points|
    ensures Rectilinear(points[lo..hi])
  {
    var piece := points[lo..hi];
    forall i | 1 <= i < hi - lo ensures AxisAligned(piece[i - 1], piece[i]) {
      assert AxisAligned(points[lo + i - 1], points[lo + i]);
    }
  }

  /**
   * The length of the first i points of a polyline: the sum of the
   * distances between consecutive points among them.
   */
  function PathLengthTo(points: seq<Point>, i: nat): (len: real)
    requires Rectilinear(points)
    requires i <= |points|
    ensures len >= 0.0
  {
    if i < 2 then 0.0 else PathLengthTo(points, i - 1) + Dist(points[i - 2], points[i - 1])
  }

  /** The sum of the distances between consecutive points of a polyline. */
  function PathLength(points: seq<Point>): (len: real)
    requires Rectilinear(points)
    ensures len >= 0.0
  {
    PathLengthTo(points, |points|)
  }

  /** A two-point polyline is as long as the distance between its points. */
  lemma TwoPointLength(p: Point, q: Point)
    requires AxisAligned(p, q)
    ensures Rectilinear([p, q])
    ensures PathLength([p, q]) == Dist(p, q)
  {
    assert PathLengthTo([p, q], 1) == 0.0;
  }

  /** The first i points have length zero exactly when they all coincide. */
  lemma {:induction false} PathLengthToZero(points: seq<Point>, i: nat)
    requires Rectilinear(points)
    requires i <= |points|
    ensures PathLengthTo(points, i) == 0.0 <==> forall j :: 0 <= j < i ==> points[j] == points[0]
  {
    if i >= 2 {
      PathLengthToZero(points, i - 1);
      if PathLengthTo(points, i) == 0.0 {
        assert PathLengthTo(points, i - 1) == 0.0 && points[i - 2] == points[i - 1];
      }
    }
  }

  /** A polyline has length zero exactly when all its points coincide; so fewer than two points have length zero. */
  lemma PathLengthZero(points: seq<Point>)
    requires Rectilinear(points)
    ensures PathLength(points) == 0.0 <==> forall i :: 0 <= i < |points| ==> points[i] == points[0]
    ensures |points| < 2 ==> PathLength(points) == 0.0
  {
    PathLengthToZero(points, |points|);
  }

  /** The first i points of a polyline are as long as the polyline cut after them. */
  lemma {:induction false} PathLengthToPrefix(points: seq<Point>, i: nat, n: nat)
    requires Rectilinear(points)
    requires i <= n <= |points|
    ensures Rectilinear(points[..n])
    ensures PathLengthTo(points[..n], i) == PathLengthTo(points, i)
  {
    RectilinearSlice(points, 0, n);
    assert points[..n] == points[0..n];
    if i >= 2 {
      PathLengthToPrefix(points, i - 1, n);
    }
  }

  /** The points from k on, counted m at a time, add their length to that of the first k + 1. */
  lemma {:induction false} PathLengthToSuffix(points: seq<Point>, k: nat, m: nat)
    requires Rectilinear(points)
    requires 1 <= m && k + m <= |points|
    ensures Rectilinear(points[k..])
    ensures PathLengthTo(points, k + 1) + PathLengthTo(points[k..], m) == PathLengthTo(points, k + m)
  {
    RectilinearSlice(points, k, |points|);
    assert points[k..] == points[k..|points|];
    if m >= 2 {
      PathLengthToSuffix(points, k, m - 1);
      assert points[k..][m - 2] == points[k + m - 2] && points[k..][m - 1] == points[k + m - 1];
    }
  }

  /**
   * Length is additive: cutting a polyline at its k-th point splits its
   * length into the lengths of the two pieces.
   */
  lemma PathLengthSplit(points: seq<Point>, k: nat)
    requires Rectilinear(points)
    requires k < |points|
    ensures Rectilinear(points[..k + 1]) && Rectilinear(points[k..])
    ensures PathLength(points[..k + 1]) + PathLength(points[k..]) == PathLength(points)
  {
    PathLengthToPrefix(points, k + 1, k + 1);
    PathLengthToSuffix(points, k, |points| - k);
  }

  /**
   * line_length: walks the points from the second on, adding the distance
   * from each point back to its predecessor.
   */
  method LineLength(points: seq<Point>) returns (len: real)
    requires Rectilinear(points)
    ensures len == PathLength(points)
  {
    var nPoints := |points|;
    len := 0.0;
    var i := 1;
    while i < nPoints
      invariant nPoints == 0 || i <= nPoints
      invariant len == PathLengthTo(points, if nPoints == 0 then 0 else i)
    {
      var start := points[i];
      var stop := points[i - 1];
      assert AxisAligned(stop, start);
      len := len + Magnitude(Sub(stop, start));
      i := i + 1;
    }
  }

  /** line_draw_time: the time to draw a polyline at SPEED. */
  function LineDrawTime(points: seq<Point>): (t: real)
    requires Rectilinear(points)
    ensures t >= 0.0
    ensures t == 0.0 <==> PathLength(points) == 0.0
    ensures t * SPEED == PathLength(points)
  {
    PathLength(points) / SPEED
  }

  /** A longer polyline never takes less time to draw, and a strictly longer one takes longer. */
  lemma LineDrawTimeMonotone(p: seq<Point>, q: seq<Point>)
    requires Rectilinear(p) && Rectilinear(q)
    ensures PathLength(p) <= PathLength(q) ==> LineDrawTime(p) <= LineDrawTime(q)
    ensures PathLength(p) < PathLength(q) ==> LineDrawTime(p) < LineDrawTime(q)
  {
  }

  /**
   * circle_draw_time: the time to sweep a quarter of the circle of the
   * given radius at SPEED. `pi` stands for Math.PI.
   */
  function CircleDrawTime(pi: real, radius: real): (t: real)
    requires pi > 0.0
    ensures radius >= 0.0 ==> t >= 0.0
    ensures t == 0.0 <==> radius == 0.0
    ensures t * SPEED == pi * radius / 2.0
  {
    (2.0 * pi * radius) / (SPEED * 4.0)
  }

  /** The quarter-arc time is linear in the radius. */
  lemma CircleDrawTimeLinear(pi: real, r1: real, r2: real, k: real)
    requires pi > 0.0
    ensures CircleDrawTime(pi, r1 + r2) == CircleDrawTime(pi, r1) + CircleDrawTime(pi, r2)
    ensures CircleDrawTime(pi, k * r1) == k * CircleDrawTime(pi, r1)
    ensures r1 <= r2 ==> CircleDrawTime(pi, r1) <= CircleDrawTime(pi, r2)
  {
    if r1 <= r2 {
      assert CircleDrawTime(pi, r2) - CircleDrawTime(pi, r1) == CircleDrawTime(pi, r2 - r1);
    }
  }

  /**
   * An arc whose radius is a polyline's length takes pi/2 times as long as
   * that polyline: a quarter circle is pi/2 radii long.
   */
  lemma QuarterArcTime(pi: real, points: seq<Point>)
    requires pi > 0.0
    requires Rectilinear(points)
    ensures CircleDrawTime(pi, PathLength(points)) == (pi / 2.0) * LineDrawTime(points)
  {
  }
}
