# Golden spiral: geometry, timing and palette

A model of the helpers behind the golden-canvas "rectangles" scene. The
scene draws a Z x A rectangle (Z = 900) and cuts it again and again by the
golden section. Each cut is an axis-parallel line segment. Together the
segments form a rectangular spiral that turns a quarter-turn every step. A
quarter-circle arc is then laid over each segment.

The model covers:

- the configuration constants: the golden ratio PHI, the fractions ALPHA
  and BETA, the parts A and B of Z, the stroke width and the drawing speed
  (`constants.dfy`);
- `sign`, the sign pattern that turns the spiral, and `golden_lines`, the
  loop that generates the segments (`spiral.dfy`);
- `golden_circles`, the loop that builds one zero-sweep arc per segment,
  and the end angles the scene later drives each arc to (`spiral.dfy`);
- `line_length`, `line_draw_time` and `circle_draw_time`. These turn a
  polyline's length or an arc's radius into an animation duration at a
  fixed speed (`timing.dfy`, using the vectors of `geometry.dfy`);
- `to_rgb`, `to_tex_rgb` and `map_nested_color_list`, and the palettes
  `CLR` and `CLRT` built from them (`palette.dfy`).

Numbers are exact reals. PHI is irrational and Dafny's reals have no
square root, so the golden ratio is a parameter `phi`. Facts that need the
golden ratio require `IsGoldenRatio(phi)`, that is phi > 0 and
phi * phi == phi + 1. Among positive reals this holds only for
(1 + sqrt 5) / 2. Math.PI is likewise a positive parameter `pi`.

The loops of `golden_lines`, `golden_circles` and `line_length` are
methods with loops. They return sequences of segment and arc records
instead of adding nodes to the scene graph. Slot n - 1 of the result is
the reference slot n - 1 the scene fills. Each method is proved against a
specification function or predicate:

- `Corner` and `SegmentEnd` give where step n puts the running point
  `x_1` and the segment end `x_2` (`GoldenLines`);
- `ArcOf` says which circle belongs to line i: centre, radius, colour,
  width and angles (`GoldenCircles`);
- `PathLength` is the sum of the distances between consecutive points
  (`LineLength`).

The properties of these functions are proved as lemmas.

The sign pattern follows the code: `sign(n) = (-1)^n * (-1)^floor(n/2)`
gives -, -, +, +, -, -, +, + for n = 1 .. 8.

## Model

| member | source | states |
|---|---|---|
| Constants.Alpha | src/scenes/rectangles.tsx:67-68 | ALPHA = PHI / (1 + PHI) lies strictly between 0 and 1 |
| Constants.Beta | src/scenes/rectangles.tsx:67-69 | BETA = 1 / (1 + PHI) lies strictly between 0 and 1, and ALPHA + BETA == 1 |
| Constants.A | src/scenes/rectangles.tsx:68-71 | A = ALPHA * Z is a proper part of Z |
| Constants.B | src/scenes/rectangles.tsx:67-72 | B = BETA * Z is a proper part of Z, and A + B == Z |
| Constants.PartsRatio | src/scenes/rectangles.tsx:67-72 | for every positive phi, A / B == phi and ALPHA == phi * BETA |
| Constants.GoldenProportion | src/scenes/rectangles.tsx:67-72 | (A + B) / A == A / B holds exactly when phi is the golden ratio; both sides are then phi. This is the proportion the scene's labels display |
| Constants.Pow | src/scenes/rectangles.tsx:91-96 | Math.pow with a whole exponent, x multiplied n times; its sign is stated by PowPositive |
| Constants.PowPositive | src/scenes/rectangles.tsx:91-96 | a positive base to any whole power is positive, so ALPHA^n never flips a step's or a segment's direction |
| Constants.GoldenFractions | src/scenes/rectangles.tsx:67-69 | with the golden ratio, ALPHA == PHI - 1 and BETA == ALPHA^2 |
| Geometry.Magnitude | src/scenes/rectangles.tsx:141 | the magnitude of an axis-parallel vector is non-negative and zero only for the zero vector |
| Geometry.MagnitudeIsEuclidean | src/scenes/rectangles.tsx:141 | on an axis the magnitude squared is x^2 + y^2, the Euclidean length |
| Geometry.Dist | src/scenes/rectangles.tsx:141 | the distance between two axis-aligned points is non-negative and zero exactly when they coincide |
| Timing.PathLength | src/scenes/rectangles.tsx:132-144 | the sum of consecutive distances is never negative |
| Timing.PathLengthZero | src/scenes/rectangles.tsx:132-144 | a polyline has length zero exactly when all its points coincide; fewer than two points have length zero |
| Timing.TwoPointLength | src/scenes/rectangles.tsx:138-142 | a two-point polyline is as long as the distance between its points |
| Timing.PathLengthSplit | src/scenes/rectangles.tsx:138-142 | length is additive: cutting a polyline at a point splits its length into the lengths of the two pieces |
| Timing.LineLength | src/scenes/rectangles.tsx:132-144 | the loop's total equals the sum of the distances between consecutive points |
| Timing.LineDrawTime | src/scenes/rectangles.tsx:146-149 | the draw time is non-negative, zero exactly when the length is zero, and time * SPEED == length |
| Timing.LineDrawTimeMonotone | src/scenes/rectangles.tsx:146-149 | a longer polyline never takes less time, and a strictly longer one takes strictly longer |
| Timing.CircleDrawTime | src/scenes/rectangles.tsx:151-153 | the quarter-arc time is non-negative for a non-negative radius, zero exactly for radius zero, and time * SPEED == pi * r / 2 |
| Timing.CircleDrawTimeLinear | src/scenes/rectangles.tsx:151-153 | the quarter-arc time is additive and homogeneous in the radius, and monotone |
| Timing.QuarterArcTime | src/scenes/rectangles.tsx:146-153 | an arc whose radius is a polyline's length takes pi/2 times that polyline's draw time |
| Spiral.NegOnePow | src/scenes/rectangles.tsx:78 | Math.pow(-1, k) for a whole k is +1 or -1 |
| Spiral.NegOnePowParity | src/scenes/rectangles.tsx:78 | Math.pow(-1, k) is +1 for even k and -1 for odd k |
| Spiral.Sign | src/scenes/rectangles.tsx:77-79 | sign(n) is +1 or -1 |
| Spiral.SignByResidue | src/scenes/rectangles.tsx:77-79 | sign(n) is +1 exactly when n mod 4 is 0 or 3 |
| Spiral.SignFlips | src/scenes/rectangles.tsx:77-79 | sign(n + 2) == -sign(n) |
| Spiral.SignTurns | src/scenes/rectangles.tsx:77-79 | sign has period 4 |
| Spiral.SignPattern | src/scenes/rectangles.tsx:77-79 | for n = 1 .. 8 the signs are -, -, +, +, -, -, +, + |
| Spiral.Shift | src/scenes/rectangles.tsx:89-97 | a move of a point along one axis; AxisMove states that the loop's vector arithmetic is such a move and ShiftPiece how long it is |
| Spiral.Advance | src/scenes/rectangles.tsx:91 | step n's extent z * BETA * ALPHA^(n - 1); ShiftFraction relates it to the segment before |
| Spiral.Reach | src/scenes/rectangles.tsx:96 | segment n's extent z * ALPHA^n; ReachAbs, ReachShrinks and GoldenReach state its size |
| Spiral.Corner | src/scenes/rectangles.tsx:85-92 | the running point x_1 after n steps, starting at (z, a); GoldenLines keeps it as its loop invariant, SpiralTurnsOnPrevious and FirstSegmentPoints place it |
| Spiral.SegmentEnd | src/scenes/rectangles.tsx:94-97 | the end x_2 of segment n; SpiralLineReach states that it lies on an axis through x_1, abs(z * ALPHA^n) away |
| Spiral.SpiralLine | src/scenes/rectangles.tsx:99-106 | the line node of step n, white, LINE_WIDTH wide and undrawn; its shape and length are stated by SpiralLineReach and LinesShrink |
| Spiral.SpiralLines | src/scenes/rectangles.tsx:88-107 | the nodes of steps 1 .. m in the order the loop adds them: exactly m lines |
| Spiral.SpiralLinesAt | src/scenes/rectangles.tsx:88-107 | slot k of the nodes of steps 1 .. m holds segment k + 1 |
| Spiral.AxisMove | src/scenes/rectangles.tsx:89-97 | the loop's vector arithmetic (unit axis vector, scaled by the sign, then by the extent, then added) is a move along x for odd n and along y for even n in the first half-step, and the other way round in the second |
| Spiral.ShiftPiece | src/scenes/rectangles.tsx:94-97 | a move by +-d along one axis keeps the other coordinate and spans exactly abs(d) |
| Spiral.SpiralLineReach | src/scenes/rectangles.tsx:94-105 | segment n has two points, is vertical for odd n and horizontal for even n, and is abs(z * ALPHA^n) long |
| Spiral.ReachAbs | src/scenes/rectangles.tsx:96 | for a positive ALPHA, abs(z * ALPHA^n) == abs(z) * ALPHA^n |
| Spiral.ReachShrinks | src/scenes/rectangles.tsx:96 | segment n + 1 reaches ALPHA times as far as segment n |
| Spiral.LinesShrink | src/scenes/rectangles.tsx:88-97 | in a run of segments 1, 2, ..., each line is ALPHA times as long as the one before |
| Spiral.ShiftFraction | src/scenes/rectangles.tsx:90-96 | going the fraction BETA along segment n's move is step n + 1's move |
| Spiral.SpiralTurnsOnPrevious | src/scenes/rectangles.tsx:88-97 | segment n + 1 starts on segment n, at the fraction BETA of its length: every turning point cuts a segment in the golden section |
| Spiral.FirstSegmentPoints | src/scenes/rectangles.tsx:82-97 | from (z, a), segment 1 runs from (z - z * BETA, a) to (z - z * BETA, a - z * ALPHA) |
| Spiral.SecondSegmentPoints | src/scenes/rectangles.tsx:82-97 | segment 2 runs from (z - z * BETA, a - z * BETA * ALPHA) to (z - z * BETA + z * ALPHA^2, a - z * BETA * ALPHA) |
| Spiral.SectionArithmetic | src/scenes/rectangles.tsx:67-72 | the golden-section identities that place segments 1 and 2 at the parts A and B |
| Spiral.FirstSegmentAt | src/scenes/rectangles.tsx:82-97 | with a = ALPHA * Z and b = BETA * Z, segment 1 runs from (a, a) to (a, 0) |
| Spiral.FirstSegment | src/scenes/rectangles.tsx:223 | golden_lines(A, B, ...) makes the first segment run from (A, A) to (A, 0), the divider of the Z x A rectangle |
| Spiral.SecondSegmentAt | src/scenes/rectangles.tsx:82-97 | when also BETA == ALPHA^2, segment 2 runs from (a, b) to (Z, b) |
| Spiral.SecondSegment | src/scenes/rectangles.tsx:223 | with the golden ratio, the second segment runs from (A, B) to (Z, B), the divider that cuts the B x B square off the B x A rectangle |
| Spiral.SpiralLinesReach | src/scenes/rectangles.tsx:88-107 | in a run of consecutive segments from 1 on, each is rectilinear and segment n is abs(z * ALPHA^n) long |
| Spiral.GoldenLines | src/scenes/rectangles.tsx:81-108 | golden_lines emits exactly one segment per slot, segment n in slot n - 1, each a white undrawn axis-parallel line abs(z) * ALPHA^n long |
| Spiral.ArcStartAngle | src/scenes/rectangles.tsx:125-126 | circle i starts and ends at 180 + 90 * i degrees; RevealEndAngle states that the reveal ends 90 degrees past it |
| Spiral.ArcOf | src/scenes/rectangles.tsx:116-127 | the circle built for line i: centred at its first point, width == height == twice its length, white, LINE_WIDTH wide, with zero sweep at 180 + 90 * i; GoldenCircles is stated with it |
| Spiral.GoldenCircles | src/scenes/rectangles.tsx:110-130 | golden_circles emits one arc per line, in order, centred at the line's first point, with radius the line's length and start angle == end angle == 180 + 90 * i; it fails exactly when some line has no points |
| Spiral.GoldenReach | src/scenes/rectangles.tsx:70-72 | with the golden parts, segment n reaches Z * ALPHA^n, a positive extent |
| Spiral.Build | src/scenes/rectangles.tsx:223-224 | the scene's setup makes eight lines and eight arcs, the first line the divider of the Z x A rectangle, arc i of radius Z * ALPHA^(i + 1), the length of line i |
| Spiral.RevealEndAngle | src/scenes/rectangles.tsx:483-489 | the end angle the reveal drives arc i to (270 for arc 0, 270 + 90 * i after) is 90 degrees past the arc's start angle |
| Spiral.RevealSweepsQuarter | src/scenes/rectangles.tsx:483-489 | the reveal's end angle is 270 + 90 * i for every arc: the literal 270 the first arc gets at :483 is the general formula of :488 at i = 0 |
| Palette.DigitChar | src/scenes/rectangles.tsx:30 | a digit value below 10 is written as a decimal digit character |
| Palette.Decimal | src/scenes/rectangles.tsx:30 | a component's numeral is a non-empty string of digits with no leading zero |
| Palette.DecimalRoundTrip | src/scenes/rectangles.tsx:30 | the numeral reads back to the same number |
| Palette.DecimalNoComma | src/scenes/rectangles.tsx:30 | a numeral contains no comma |
| Palette.Join | src/scenes/rectangles.tsx:30 | arr.toString() is empty exactly for the empty array; JoinRoundTrip states that it reads back to the same components |
| Palette.ParseFieldsJoin | src/scenes/rectangles.tsx:30 | a non-empty comma-joined list of numerals reads back field by field to the same components |
| Palette.JoinRoundTrip | src/scenes/rectangles.tsx:30 | arr.toString() on natural numbers keeps every component in order: it reads back to the same list |
| Palette.WrapRoundTrip | src/scenes/rectangles.tsx:29-35 | a prefix, the joined components and a suffix read back to the same components |
| Palette.ToRgb | src/scenes/rectangles.tsx:29-31 | to_rgb wraps arr.toString() in "rgb(" and ")"; stated by RgbRoundTrip, WhiteColour and GreyColour |
| Palette.ToTexRgb | src/scenes/rectangles.tsx:33-35 | to_tex_rgb wraps arr.toString() in "\color[RGB]{" and "}"; stated by TexRgbRoundTrip, TexWhite and TexGrey |
| Palette.RgbRoundTrip | src/scenes/rectangles.tsx:29-31 | to_rgb yields "rgb(" ... ")" that reads back to the same triple, so distinct colours get distinct strings |
| Palette.TexRgbRoundTrip | src/scenes/rectangles.tsx:33-35 | to_tex_rgb yields "\color[RGB]{" ... "}" that reads back to the same triple, so distinct colours get distinct strings |
| Palette.Rendered | src/scenes/rectangles.tsx:42 | the first map, fn applied to every colour; MapNestedColorListValues states where each rendering ends up |
| Palette.Lettered | src/scenes/rectangles.tsx:43 | the second map, each rendering paired with the key of its position; MapNestedColorListKeys states the keys |
| Palette.Reduce | src/scenes/rectangles.tsx:44-47 | the reduce into a dictionary, a later key overwriting an earlier one; stated by ReduceKeys, ReduceLast and ReduceUntouched |
| Palette.ReduceKeys | src/scenes/rectangles.tsx:44-47 | the reduce holds exactly the keys it started with and those of the pairs it stored |
| Palette.ReduceLast | src/scenes/rectangles.tsx:44-47 | a key not repeated later holds the value stored with it |
| Palette.ReduceUntouched | src/scenes/rectangles.tsx:44-47 | a key no pair mentions keeps its starting value |
| Palette.KeyOf | src/scenes/rectangles.tsx:43 | String.fromCharCode(65 + i), kept modulo 2^16; stated by KeyOfDistinct, KeySetSize and EightLetters |
| Palette.KeyOfDistinct | src/scenes/rectangles.tsx:43 | String.fromCharCode(65 + i) differs for positions less than 2^16 apart |
| Palette.KeySetSize | src/scenes/rectangles.tsx:43 | the first n keys, n <= 2^16, are n distinct keys |
| Palette.MapNestedColorList | src/scenes/rectangles.tsx:38-47 | map, map and reduce into a dictionary; stated by MapNestedColorListKeys, MapNestedColorListValues and MapNestedColorListSize |
| Palette.MapNestedColorListKeys | src/scenes/rectangles.tsx:38-47 | the dictionary's keys are exactly the letters of the list positions |
| Palette.MapNestedColorListValues | src/scenes/rectangles.tsx:38-47 | position i's colour is stored, rendered by fn, under its own letter, unless a colour 2^16 places later overwrites it |
| Palette.MapNestedColorListSize | src/scenes/rectangles.tsx:38-47 | up to 2^16 colours, nothing is overwritten: one entry per colour |
| Palette.EightLetters | src/scenes/rectangles.tsx:43 | the first eight keys are 'A' to 'H' |
| Palette.CatPalette | src/scenes/rectangles.tsx:49-59 | the constants CAT and TEX_CAT: CLR.CAT and CLRT.CAT have keys exactly 'A' to 'H', eight entries each, entry i the rendering of the i-th categorical colour |
| Palette.WhiteJoin | src/scenes/rectangles.tsx:14 | white's components are written "255,255,255" |
| Palette.GreyJoin | src/scenes/rectangles.tsx:15 | grey's components are written "128,128,128" |
| Palette.WhiteColour | src/scenes/rectangles.tsx:49-53 | the constant WHITE: CLR.WHITE is "rgb(255,255,255)" |
| Palette.GreyColour | src/scenes/rectangles.tsx:49-53 | the constant GREY: CLR.GREY is "rgb(128,128,128)" |
| Palette.TexWhite | src/scenes/rectangles.tsx:55-59 | the constant TEX_WHITE: CLRT.WHITE is "\color[RGB]{255,255,255}" |
| Palette.TexGrey | src/scenes/rectangles.tsx:55-59 | the constant TEX_GREY: CLRT.GREY is "\color[RGB]{128,128,128}" |

## Left out

- The scene script (src/scenes/rectangles.tsx:155-514) is not modelled. It is a generator of tweens, `all` and `waitFor` whose meaning lives in the Motion Canvas library. The model keeps only the setup calls at :223-224 (`Build`) and the end angles of the arc reveal at :483-489 (`RevealEndAngle`). Two details of the script are not modelled. The bulk redraw at :461 gives every line the draw time of REF_LINE_1, not its own. The final fade at :492-511 leaves the circles visible.
- Scene-graph construction is not modelled: the JSX `Line`, `Circle`, `Latex` and `Text` nodes, their refs, and the hand-placed outline lines at :226-318. `golden_lines` and `golden_circles` return records instead of adding nodes to a group.
- Reading points back from engine nodes (`points.context.raw()`) and `console.log` are not modelled. The methods take the points as values.
- IEEE floating point is not modelled: `Math.sqrt`, `Math.pow`, `Math.PI`, `Vector2.magnitude` and their rounding. PHI and pi are exact parameters.
- src/project.ts is not part of this model. It only bootstraps the project.
- Geometry.Magnitude: defined only for vectors along an axis, because exact reals have no square root. Every segment the spiral produces is axis-parallel.
- Geometry.Dist: defined only for axis-aligned point pairs, for the same reason.
- Timing.PathLength: requires a rectilinear polyline, so the general Euclidean length of a slanted polyline is not modelled.
- Timing.LineLength: requires a rectilinear polyline, as PathLength does.
- Timing.LineDrawTime: requires a rectilinear polyline, as PathLength does.
- Spiral.GoldenCircles: requires rectilinear lines, as PathLength does. On a line without points the source fails with a TypeError after it has already added the earlier circles to the group. The model returns None and drops those earlier circles.
- Palette.ToRgb: components are natural numbers. The source's `toString` writes negative and fractional numbers too, and those are not modelled. The rendering matches JavaScript only for components up to 2^53; above that JavaScript writes the shortest digits of the nearest double, and from 10^21 on an exponent form. The scene's components are all below 256.
- Palette.ToTexRgb: components are natural numbers written in plain decimal, as in ToRgb, so it matches JavaScript only for components up to 2^53.
- Palette.Join: writes every natural number in plain decimal; JavaScript's `toString` does so only up to 2^53.
- Palette.Decimal: the plain decimal numeral of any natural number; JavaScript's Number#toString agrees only up to 2^53, and uses an exponent form from 10^21 on.
- TEX_HEIGHT (src/scenes/rectangles.tsx:65) is not modelled. Only the `Latex` nodes of the scene script read it, and those nodes are left out.
- Palette.MapNestedColorList: the rendering function is a pure Dafny function. A `fn` with side effects is not modelled.
