/**
 * The golden spiral: the sign pattern that turns it, the generator of its
 * axis-parallel segments (golden_lines) and of one quarter-arc per segment
 * (golden_circles).
 *
 * Segments and arcs are plain records returned in generation order; index
 * n - 1 of the result is the reference slot n - 1 the scene fills.
 */
module Spiral {
  import opened Options
  import opened Geometry
  import opened Constants
  import opened Timing
  import Palette

  /** A line node as the scene creates it: its points, stroke colour, stroke width and drawn fraction. */
  datatype Line = Line(points: seq<Point>, stroke: string, lineWidth: real, end: real)

  /**
   * A circle node as the scene creates it: centre (x, y), width and height
   * (twice the radius), stroke, stroke width and the angles in degrees
   * between which its outline is drawn.
   */
  datatype Circle = Circle(
    x: real, y: real, width: real, height: real,
    stroke: string, lineWidth: real, startAngle: real, endAngle: real)

  /** The radius the scene reads back from a circle, height / 2. */
  function Radius(c: Circle): real {
    c.height / 2.0
  }

  // ---------------------------------------------------------------------
  // sign

  /** Math.pow(-1, k) for a whole exponent k: k factors of -1. */
  function NegOnePow(k: nat): (r: real)
    ensures r == 1.0 || r == -1.0
  {
    if k == 0 then 1.0 else -NegOnePow(k - 1)
  }

  /** (-1)^k is +1 for even k and -1 for odd k. */
  lemma {:induction false} NegOnePowParity(k: nat)
    ensures NegOnePow(k) == (if k % 2 == 0 then 1.0 else -1.0)
  {
    if k > 0 {
      NegOnePowParity(k - 1);
    }
  }

  /** sign(n) = (-1)^n * (-1)^floor(n / 2). */
  function Sign(n: nat): (s: real)
    ensures s == 1.0 || s == -1.0
  {
    NegOnePowParity(n);
    NegOnePowParity(n / 2);
    NegOnePow(n) * NegOnePow(n / 2)
  }

  /** The sign is +1 exactly on the residues 0 and 3 modulo 4. */
  lemma SignByResidue(n: nat)
    ensures Sign(n) == (if n % 4 == 0 || n % 4 == 3 then 1.0 else -1.0)
  {
    NegOnePowParity(n);
    NegOnePowParity(n / 2);
  }

  /** Two steps on, the sign flips. */
  lemma SignFlips(n: nat)
    ensures Sign(n + 2) == -Sign(n)
  {
    assert (n + 2) / 2 == n / 2 + 1;
    NegOnePowParity(n);
    NegOnePowParity(n + 2);
    NegOnePowParity(n / 2);
    NegOnePowParity(n / 2 + 1);
  }

  /** Four steps on, the sign is back: the pattern has period 4. */
  lemma SignTurns(n: nat)
    ensures Sign(n + 4) == Sign(n)
  {
    SignFlips(n);
    SignFlips(n + 2);
  }

  /** For n = 1 .. 8 the signs are -, -, +, +, -, -, +, +. */
  lemma SignPattern()
    ensures [Sign(1), Sign(2), Sign(3), Sign(4), Sign(5), Sign(6), Sign(7), Sign(8)]
         == [-1.0, -1.0, 1.0, 1.0, -1.0, -1.0, 1.0, 1.0]
  {
    SignByResidue(1); SignByResidue(2); SignByResidue(3); SignByResidue(4);
    SignByResidue(5); SignByResidue(6); SignByResidue(7); SignByResidue(8);
  }

  // ---------------------------------------------------------------------
  // golden_lines
  //
  // The specification functions take z = a + b, the starting height a and
  // the two golden-section fractions `alpha` and `beta` as parameters;
  // golden_lines uses ALPHA and BETA, that is Alpha(phi) and Beta(phi).

  /**
   * c moved by s * d along the x axis when `alongX` holds and along the y
   * axis otherwise: every step and every segment of the spiral is such a
   * move, s its sign and d its extent.
   */
  function Shift(c: Point, alongX: bool, s: real, d: real): Point {
    if alongX then Point(c.x + s * d, c.y) else Point(c.x, c.y + s * d)
  }

  /**
   * The scene's move: the unit vector (n % 2, (n + 1) % 2), or the other
   * axis ((n + 1) % 2, n % 2), scaled by s, then by d, and added to c, is a
   * shift by s * d, along x for odd n (for even n with the other axis).
   */
  lemma AxisMove(c: Point, n: nat, s: real, d: real)
    ensures Add(c, Scale(Scale(Point((n % 2) as real, ((n + 1) % 2) as real), s), d))
         == Shift(c, n % 2 == 1, s, d)
    ensures Add(c, Scale(Scale(Point(((n + 1) % 2) as real, (n % 2) as real), s), d))
         == Shift(c, n % 2 == 0, s, d)
  {
    if n % 2 == 1 {
      assert (n + 1) % 2 == 0;
    } else {
      assert (n + 1) % 2 == 1;
    }
  }

  /**
   * A shift with sign +1 or -1 is an axis-parallel piece exactly |d| long
   * that keeps the other coordinate.
   */
  lemma ShiftPiece(c: Point, alongX: bool, s: real, d: real)
    requires s == 1.0 || s == -1.0
    ensures alongX ==> Shift(c, alongX, s, d).y == c.y
    ensures !alongX ==> Shift(c, alongX, s, d).x == c.x
    ensures AxisAligned(c, Shift(c, alongX, s, d))
    ensures Dist(c, Shift(c, alongX, s, d)) == Abs(d)
  {
    var e := Shift(c, alongX, s, d);
    if alongX {
      assert Sub(c, e) == Point(-(s * d), 0.0);
    } else {
      assert Sub(c, e) == Point(0.0, -(s * d));
    }
    if s == 1.0 {
      assert s * d == d;
    } else {
      assert s * d == -d;
    }
  }

  /** How far step n (n >= 1) moves the running point: z * beta * alpha^(n - 1). */
  function Advance(z: real, alpha: real, beta: real, n: nat): real
    requires n >= 1
  {
    z * beta * Pow(alpha, n - 1)
  }

  /** The signed extent of segment n before its sign is applied: z * alpha^n. */
  function Reach(z: real, alpha: real, n: nat): real {
    z * Pow(alpha, n)
  }

  /**
   * The running point x_1 after n steps: it starts at (z, a) and step n
   * moves it by sign(n) * Advance(n), along x for odd n and along y for
   * even n.
   */
  function Corner(z: real, a: real, alpha: real, beta: real, n: nat): Point {
    if n == 0 then Point(z, a)
    else Shift(Corner(z, a, alpha, beta, n - 1), n % 2 == 1, Sign(n), Advance(z, alpha, beta, n))
  }

  /**
   * The end x_2 of segment n: sign(n + 1) * Reach(n) away from x_1, along y
   * for odd n and along x for even n.
   */
  function SegmentEnd(z: real, a: real, alpha: real, beta: real, n: nat): Point {
    Shift(Corner(z, a, alpha, beta, n), n % 2 == 0, Sign(n + 1), Reach(z, alpha, n))
  }

  /** The line node golden_lines(a, b, ...) creates in step n: white, undrawn, from x_1 to x_2. */
  function SpiralLine(a: real, b: real, alpha: real, beta: real, n: nat): Line {
    Line([Corner(a + b, a, alpha, beta, n), SegmentEnd(a + b, a, alpha, beta, n)],
         Palette.WHITE, LINE_WIDTH, 0.0)
  }

  /** The length of a rectilinear line node. */
  function Length(line: Line): real
    requires Rectilinear(line.points)
  {
    PathLength(line.points)
  }

  /**
   * Segment n is a two-point polyline, vertical for odd n and horizontal
   * for even n, and |Reach(n)| long.
   */
  lemma SpiralLineReach(a: real, b: real, alpha: real, beta: real, n: nat)
    ensures |SpiralLine(a, b, alpha, beta, n).points| == 2
    ensures n % 2 == 1 ==> (SpiralLine(a, b, alpha, beta, n).points[0].x == SpiralLine(a, b, alpha, beta, n).points[1].x)
    ensures n % 2 == 0 ==> (SpiralLine(a, b, alpha, beta, n).points[0].y == SpiralLine(a, b, alpha, beta, n).points[1].y)
    ensures Rectilinear(SpiralLine(a, b, alpha, beta, n).points)
    ensures Length(SpiralLine(a, b, alpha, beta, n)) == Abs(Reach(a + b, alpha, n))
  {
    var c := Corner(a + b, a, alpha, beta, n);
    var e := SegmentEnd(a + b, a, alpha, beta, n);
    ShiftPiece(c, n % 2 == 0, Sign(n + 1), Reach(a + b, alpha, n));
    TwoPointLength(c, e);
  }

  /** For a positive alpha, |z * alpha^n| is |z| * alpha^n. */
  lemma ReachAbs(z: real, alpha: real, n: nat)
    requires alpha > 0.0
    ensures Abs(Reach(z, alpha, n)) == Abs(z) * Pow(alpha, n)
  {
    PowPositive(alpha, n);
    var p := Pow(alpha, n);
    assert Reach(z, alpha, n) == z * p;
    if z >= 0.0 {
      assert z * p >= 0.0;
    } else {
      assert z * p < 0.0;
    }
  }

  /** Segment n + 1 reaches alpha times as far as segment n, for a positive alpha. */
  lemma {:induction false} ReachShrinks(z: real, alpha: real, n: nat)
    requires alpha > 0.0
    ensures Abs(Reach(z, alpha, n + 1)) == alpha * Abs(Reach(z, alpha, n))
  {
    var p := Pow(alpha, n);
    assert Reach(z, alpha, n + 1) == alpha * (z * p);
    if z * p >= 0.0 {
      assert alpha * (z * p) >= 0.0;
    } else {
      assert alpha * (z * p) < 0.0;
    }
  }

  /** In a run of segments 1, 2, ..., each line is alpha times as long as the one before. */
  lemma LinesShrink(lines: seq<Line>, z: real, alpha: real)
    requires alpha > 0.0
    requires forall k :: 0 <= k < |lines| ==>
      Rectilinear(lines[k].points) && Length(lines[k]) == Abs(Reach(z, alpha, k + 1))
    ensures forall k :: 0 < k < |lines| ==> Length(lines[k]) == alpha * Length(lines[k - 1])
  {
    forall k | 0 < k < |lines|
      ensures Length(lines[k]) == alpha * Length(lines[k - 1])
    {
      ReachShrinks(z, alpha, k);
    }
  }

  /**
   * Going the fraction beta of the way along segment n's shift is step
   * n + 1's shift: beta * Reach(n) == Advance(n + 1).
   */
  lemma ShiftFraction(c: Point, alongX: bool, s: real, z: real, alpha: real, beta: real, n: nat)
    ensures Add(c, Scale(Sub(Shift(c, alongX, s, Reach(z, alpha, n)), c), beta))
         == Shift(c, alongX, s, Advance(z, alpha, beta, n + 1))
  {
    var q := Pow(alpha, n);
    assert Reach(z, alpha, n) == z * q;
    assert Advance(z, alpha, beta, n + 1) == z * beta * q;
    assert beta * (s * (z * q)) == s * (z * beta * q);
  }

  /**
   * Segment n + 1 starts on segment n, at the fraction beta of its length
   * from its start: the spiral's turning points cut each segment in the
   * golden section.
   */
  lemma SpiralTurnsOnPrevious(z: real, a: real, alpha: real, beta: real, n: nat)
    ensures Corner(z, a, alpha, beta, n + 1)
         == Add(Corner(z, a, alpha, beta, n),
                Scale(Sub(SegmentEnd(z, a, alpha, beta, n), Corner(z, a, alpha, beta, n)), beta))
  {
    ShiftFraction(Corner(z, a, alpha, beta, n), n % 2 == 0, Sign(n + 1), z, alpha, beta, n);
    assert ((n + 1) % 2 == 1) == (n % 2 == 0);
  }

  /** Segment 1 of the spiral from (z, a), z = a + b: a step left, then down. */
  lemma FirstSegmentPoints(a: real, b: real, alpha: real, beta: real)
    ensures Corner(a + b, a, alpha, beta, 1) == Point((a + b) - (a + b) * beta, a)
    ensures SegmentEnd(a + b, a, alpha, beta, 1) == Point((a + b) - (a + b) * beta, a - (a + b) * alpha)
  {
    SignByResidue(1);
    SignByResidue(2);
    assert Advance(a + b, alpha, beta, 1) == (a + b) * beta;
    assert Reach(a + b, alpha, 1) == (a + b) * alpha;
  }

  /** Segment 2 of the spiral from (z, a), z = a + b: a step down, then right. */
  lemma SecondSegmentPoints(a: real, b: real, alpha: real, beta: real)
    ensures Corner(a + b, a, alpha, beta, 2) == Point((a + b) - (a + b) * beta, a - (a + b) * beta * alpha)
    ensures SegmentEnd(a + b, a, alpha, beta, 2)
         == Point((a + b) - (a + b) * beta + (a + b) * (alpha * alpha), a - (a + b) * beta * alpha)
  {
    FirstSegmentPoints(a, b, alpha, beta);
    SignByResidue(2);
    SignByResidue(3);
    assert Advance(a + b, alpha, beta, 2) == (a + b) * beta * alpha;
    assert Reach(a + b, alpha, 2) == (a + b) * (alpha * alpha);
  }

  /** The golden-section arithmetic that places segments 1 and 2. */
  lemma SectionArithmetic(a: real, b: real, alpha: real, beta: real)
    requires alpha + beta == 1.0
    requires a == alpha * Z && b == beta * Z
    ensures (a + b) - (a + b) * beta == a
    ensures a - (a + b) * alpha == 0.0
    ensures beta == alpha * alpha ==> a - (a + b) * beta * alpha == b
    ensures beta == alpha * alpha ==> (a + b) - (a + b) * beta + (a + b) * (alpha * alpha) == Z
  {
    assert a + b == Z;
  }

  /**
   * Called with a = alpha * Z and b = beta * Z where alpha + beta == 1, the
   * first segment runs from (a, a) to (a, 0).
   */
  lemma FirstSegmentAt(a: real, b: real, alpha: real, beta: real)
    requires alpha + beta == 1.0
    requires a == alpha * Z && b == beta * Z
    ensures SpiralLine(a, b, alpha, beta, 1).points == [Point(a, a), Point(a, 0.0)]
  {
    FirstSegmentPoints(a, b, alpha, beta);
    SectionArithmetic(a, b, alpha, beta);
  }

  /**
   * Called with the golden parts A and B, the first segment runs from
   * (A, A) to (A, 0): the divider that cuts the square A x A off the Z x A
   * rectangle.
   */
  lemma FirstSegment(phi: real)
    requires phi > 0.0
    ensures SpiralLine(A(phi), B(phi), Alpha(phi), Beta(phi), 1).points
         == [Point(A(phi), A(phi)), Point(A(phi), 0.0)]
  {
    FirstSegmentAt(A(phi), B(phi), Alpha(phi), Beta(phi));
  }

  /**
   * When beta == alpha^2 as well, the second segment runs from (a, b) to
   * (Z, b).
   */
  lemma SecondSegmentAt(a: real, b: real, alpha: real, beta: real)
    requires alpha + beta == 1.0
    requires beta == alpha * alpha
    requires a == alpha * Z && b == beta * Z
    ensures SpiralLine(a, b, alpha, beta, 2).points == [Point(a, b), Point(Z, b)]
  {
    SecondSegmentPoints(a, b, alpha, beta);
    SectionArithmetic(a, b, alpha, beta);
  }

  /**
   * With the golden ratio, the second segment runs from (A, B) to (Z, B):
   * the divider that cuts the square B x B off the remaining B x A
   * rectangle.
   */
  lemma SecondSegment(phi: real)
    requires IsGoldenRatio(phi)
    ensures SpiralLine(A(phi), B(phi), Alpha(phi), Beta(phi), 2).points
         == [Point(A(phi), B(phi)), Point(Z, B(phi))]
  {
    GoldenFractions(phi);
    SecondSegmentAt(A(phi), B(phi), Alpha(phi), Beta(phi));
  }

  /** A run of consecutive segments from 1 on: segment n is |Reach(n)| long. */
  lemma SpiralLinesReach(lines: seq<Line>, a: real, b: real, alpha: real, beta: real)
    requires forall k :: 0 <= k < |lines| ==> lines[k] == SpiralLine(a, b, alpha, beta, k + 1)
    ensures forall k :: 0 <= k < |lines| ==>
      Rectilinear(lines[k].points) && Length(lines[k]) == Abs(Reach(a + b, alpha, k + 1))
  {
    forall k | 0 <= k < |lines|
      ensures Rectilinear(lines[k].points) && Length(lines[k]) == Abs(Reach(a + b, alpha, k + 1))
    {
      SpiralLineReach(a, b, alpha, beta, k + 1);
    }
  }

  /**
   * Proof step of GoldenLines: the node built from the loop's x_1 and x_2
   * is segment n. Proved apart so that the loop body does not unfold
   * SpiralLine in its own, larger context.
   */
  lemma SpiralLineOf(a: real, b: real, z: real, alpha: real, beta: real, n: nat, c: Point, e: Point)
    requires z == a + b
    requires c == Corner(z, a, alpha, beta, n)
    requires e == SegmentEnd(z, a, alpha, beta, n)
    ensures Line([c, e], Palette.WHITE, LINE_WIDTH, 0.0) == SpiralLine(a, b, alpha, beta, n)
  {
  }

  /** Segments 1 .. m of the spiral, in generation order. */
  function SpiralLines(a: real, b: real, alpha: real, beta: real, m: nat): (lines: seq<Line>)
    ensures |lines| == m
  {
    if m == 0 then [] else SpiralLines(a, b, alpha, beta, m - 1) + [SpiralLine(a, b, alpha, beta, m)]
  }

  /** Slot k of the first m segments holds segment k + 1. */
  lemma {:induction false} SpiralLinesAt(a: real, b: real, alpha: real, beta: real, m: nat)
    ensures forall k :: 0 <= k < m ==> SpiralLines(a, b, alpha, beta, m)[k] == SpiralLine(a, b, alpha, beta, k + 1)
  {
    if m > 0 {
      SpiralLinesAt(a, b, alpha, beta, m - 1);
      var prev := SpiralLines(a, b, alpha, beta, m - 1);
      assert SpiralLines(a, b, alpha, beta, m) == prev + [SpiralLine(a, b, alpha, beta, m)];
    }
  }

  /**
   * golden_lines(a, b, group, line_refs) with |line_refs| = slots: one
   * white, undrawn, axis-parallel line per slot, segment n - 1 in slot
   * n - 1, |a + b| * ALPHA^n long.
   */
  method GoldenLines(a: real, b: real, phi: real, slots: nat) returns (lines: seq<Line>)
    requires phi > 0.0
    ensures |lines| == slots
    ensures forall k :: 0 <= k < slots ==> lines[k] == SpiralLine(a, b, Alpha(phi), Beta(phi), k + 1)
    ensures forall k :: 0 <= k < slots ==>
      && Rectilinear(lines[k].points)
      && Length(lines[k]) == Abs(Reach(a + b, Alpha(phi), k + 1))
  {
    var z := a + b;
    var l := slots;
    var alpha, beta := Alpha(phi), Beta(phi);
    var x1 := Point(z, a);
    var x2: Point;
    lines := [];
    for n := 1 to l + 1
      invariant x1 == Corner(z, a, alpha, beta, n - 1)
      invariant |lines| == n - 1
      invariant lines == SpiralLines(a, b, alpha, beta, n - 1)
    {
      var vecBase := Point((n % 2) as real, ((n + 1) % 2) as real);
      var vecSigned := Scale(vecBase, Sign(n));
      var stride := Advance(z, alpha, beta, n);
      var vecScaled := Scale(vecSigned, stride);
      ghost var start := x1;
      x1 := Add(x1, vecScaled);
      assert x1 == Corner(z, a, alpha, beta, n) by {
        AxisMove(start, n, Sign(n), stride);
      }

      vecBase := Point(((n + 1) % 2) as real, (n % 2) as real);
      vecSigned := Scale(vecBase, Sign(n + 1));
      var reach := Reach(z, alpha, n);
      vecScaled := Scale(vecSigned, reach);
      x2 := Add(x1, vecScaled);
      assert x2 == SegmentEnd(z, a, alpha, beta, n) by {
        AxisMove(x1, n, Sign(n + 1), reach);
      }

      var line := Line([x1, x2], Palette.WHITE, LINE_WIDTH, 0.0);
      SpiralLineOf(a, b, z, alpha, beta, n, x1, x2);
      lines := lines + [line];
    }
    SpiralLinesAt(a, b, alpha, beta, l);
    SpiralLinesReach(lines, a, b, Alpha(phi), Beta(phi));
  }

  // ---------------------------------------------------------------------
  // golden_circles

  /** The angle, in degrees, at which arc i starts: 180 + 90 * i. */
  function ArcStartAngle(i: nat): real {
    180.0 + 90.0 * i as real
  }

  /**
   * The circle golden_circles makes for line i: centred at the line's first
   * point, as wide and high as twice its length, white, with start and end
   * angle both ArcStartAngle(i), so that nothing is drawn yet.
   */
  predicate ArcOf(c: Circle, line: Line, i: nat)
    requires Rectilinear(line.points)
  {
    && |line.points| > 0
    && c.x == line.points[0].x && c.y == line.points[0].y
    && c.width == c.height && Radius(c) == Length(line)
    && c.stroke == Palette.WHITE && c.lineWidth == LINE_WIDTH
    && c.startAngle == ArcStartAngle(i) && c.endAngle == c.startAngle
  }

  /**
   * golden_circles: one arc per line, in the lines' order. A line without
   * points makes the scene fail when it reads the first point; the model
   * then returns None.
   */
  method GoldenCircles(lines: seq<Line>) returns (circles: Option<seq<Circle>>)
    requires forall i :: 0 <= i < |lines| ==> Rectilinear(lines[i].points)
    ensures circles.Some? <==> forall i :: 0 <= i < |lines| ==> |lines[i].points| > 0
    ensures circles.Some? ==>
      && |circles.value| == |lines|
      && forall i :: 0 <= i < |lines| ==> ArcOf(circles.value[i], lines[i], i)
  {
    var made: seq<Circle> := [];
    for i := 0 to |lines|
      invariant |made| == i
      invariant forall j :: 0 <= j < i ==> ArcOf(made[j], lines[j], j)
    {
      var l := lines[i];
      var ll := LineLength(l.points);
      var points := l.points;
      if |points| == 0 {
        return None;
      }
      made := made + [Circle(points[0].x, points[0].y, ll * 2.0, ll * 2.0, Palette.WHITE, LINE_WIDTH,
                             180.0 + 90.0 * i as real, 180.0 + 90.0 * i as real)];
    }
    circles := Some(made);
  }

  /** With the golden parts, segment n reaches Z * ALPHA^n, a positive extent. */
  lemma GoldenReach(phi: real, n: nat)
    requires phi > 0.0
    ensures Abs(Reach(A(phi) + B(phi), Alpha(phi), n)) == Reach(Z, Alpha(phi), n) > 0.0
  {
    PowPositive(Alpha(phi), n);
    assert A(phi) + B(phi) == Z;
  }

  /**
   * The scene's setup, golden_lines(A, B, ...) then golden_circles on its
   * eight line slots: eight lines and eight arcs, the first line the
   * divider of the Z x A rectangle, arc i centred on the start of line i
   * with radius Z * ALPHA^(i + 1), the length of line i.
   */
  method Build(phi: real) returns (lines: seq<Line>, circles: seq<Circle>)
    requires phi > 0.0
    ensures |lines| == |circles| == 8
    ensures lines[0].points == [Point(A(phi), A(phi)), Point(A(phi), 0.0)]
    ensures forall i :: 0 <= i < 8 ==>
      && lines[i] == SpiralLine(A(phi), B(phi), Alpha(phi), Beta(phi), i + 1)
      && Rectilinear(lines[i].points)
      && ArcOf(circles[i], lines[i], i)
      && Radius(circles[i]) == Reach(Z, Alpha(phi), i + 1)
  {
    lines := GoldenLines(A(phi), B(phi), phi, 8);
    var made := GoldenCircles(lines);
    circles := made.value;
    FirstSegment(phi);
    forall i | 0 <= i < 8
      ensures Radius(circles[i]) == Reach(Z, Alpha(phi), i + 1)
    {
      GoldenReach(phi, i + 1);
    }
  }

  // ---------------------------------------------------------------------
  // The arc reveal

  /**
   * The end angle the reveal drives arc i to: the literal 270 for the
   * first arc, 270 + 90 * i for the others.
   */
  function RevealEndAngle(i: nat): (e: real)
    ensures e - ArcStartAngle(i) == 90.0
  {
    if i == 0 then 270.0 else 270.0 + 90.0 * i as real
  }

  /** The first arc's end angle 270 is the general 270 + 90 * i at i = 0. */
  lemma RevealSweepsQuarter(i: nat)
    ensures RevealEndAngle(i) == 270.0 + 90.0 * i as real
  {
  }
}
