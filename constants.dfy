/**
 * The scene's configuration constants: the golden ratio, the two
 * golden-section fractions, the overall size Z with its golden parts A and
 * B, the stroke width and the drawing speed.
 *
 * The golden ratio is irrational and exact reals have no square root, so
 * it is a parameter `phi` of every definition that uses it. Every fact
 * below holds for any positive `phi`, except where `IsGoldenRatio(phi)`
 * (phi * phi == phi + 1, which characterises (1 + sqrt 5) / 2 among the
 * positive reals) is required.
 */
module Constants {

  const LINE_WIDTH: real := 8.0
  const Z: real := 900.0
  const SPEED: real := 500.0

  predicate IsGoldenRatio(phi: real) {
    phi > 0.0 && phi * phi == phi + 1.0
  }

  /** ALPHA = PHI / (1 + PHI), the larger golden-section fraction. */
  function Alpha(phi: real): (alpha: real)
    requires phi > 0.0
    ensures 0.0 < alpha < 1.0
  {
    phi / (1.0 + phi)
  }

  /** BETA = 1 / (1 + PHI), the smaller golden-section fraction. */
  function Beta(phi: real): (beta: real)
    requires phi > 0.0
    ensures 0.0 < beta < 1.0
    ensures Alpha(phi) + beta == 1.0
  {
    1.0 / (1.0 + phi)
  }

  /** A = ALPHA * Z, the larger part of Z. */
  function A(phi: real): (a: real)
    requires phi > 0.0
    ensures 0.0 < a < Z
  {
    Alpha(phi) * Z
  }

  /** B = BETA * Z, the smaller part of Z. */
  function B(phi: real): (b: real)
    requires phi > 0.0
    ensures 0.0 < b < Z
    ensures A(phi) + b == Z
  {
    Beta(phi) * Z
  }

  /** The two parts are in the ratio phi, whatever positive phi is. */
  lemma PartsRatio(phi: real)
    requires phi > 0.0
    ensures A(phi) / B(phi) == phi
    ensures Alpha(phi) == phi * Beta(phi)
  {
    var s := 1.0 + phi;
    assert Alpha(phi) == phi * (1.0 / s);
    assert A(phi) == phi * B(phi);
  }

  /**
   * The proportion the scene's labels display, (A + B) / A == A / B, holds
   * exactly when phi is the golden ratio; both sides are then phi.
   */
  lemma GoldenProportion(phi: real)
    requires phi > 0.0
    ensures (A(phi) + B(phi)) / A(phi) == A(phi) / B(phi) <==> IsGoldenRatio(phi)
    ensures IsGoldenRatio(phi) ==> (A(phi) + B(phi)) / A(phi) == phi
  {
    PartsRatio(phi);
    var s := 1.0 + phi;
    assert (A(phi) + B(phi)) / A(phi) == s / phi by {
      assert A(phi) + B(phi) == Z;
      assert A(phi) == (phi / s) * Z;
    }
    assert s / phi == phi <==> s == phi * phi;
  }

  /** With the golden ratio, ALPHA = PHI - 1 and BETA = ALPHA * ALPHA. */
  lemma GoldenFractions(phi: real)
    requires IsGoldenRatio(phi)
    ensures Alpha(phi) == phi - 1.0
    ensures Beta(phi) == Alpha(phi) * Alpha(phi)
  {
    var s := 1.0 + phi;
    assert s == phi * phi;
    assert Alpha(phi) * phi == 1.0 by {
      assert Alpha(phi) * s == phi;
    }
    assert Alpha(phi) == phi - 1.0 by {
      assert (phi - 1.0) * phi == 1.0;
    }
    assert Beta(phi) * phi * phi == 1.0 by {
      assert Beta(phi) * s == 1.0;
    }
  }

  /** Math.pow(x, n) for a natural exponent. */
  function Pow(x: real, n: nat): real {
    if n == 0 then 1.0 else x * Pow(x, n - 1)
  }

  lemma {:induction false} PowPositive(x: real, n: nat)
    requires x > 0.0
    ensures Pow(x, n) > 0.0
  {
    if n > 0 {
      PowPositive(x, n - 1);
    }
  }
}
