/**
 * Constants of the kinematic bicycle model and the fitted reference path.
 *
 * The trigonometric functions are not modelled: they are passed around as a
 * `Trig` value, so every fact proved here holds whatever they compute.
 */
module Kinematics {

  /** `sin`, `cos` and `atan` as the evaluator and the predictor call them. */
  datatype Trig = Trig(sin: real -> real, cos: real -> real, atan: real -> real)

  /** Distance from the front axle to the centre of gravity. */
  const Lf: real := 2.67

  /** Duration of one step of the horizon, in seconds. */
  const Dt: real := 0.1

  /** The square `pow(x, 2)`, which is never negative. */
  function Sq(x: real): (r: real)
    ensures r >= 0.0
  {
    x * x
  }

  /** A square is zero exactly when its base is. */
  lemma SqZeroIff(x: real)
    ensures Sq(x) == 0.0 <==> x == 0.0
  {
    if x != 0.0 {
      SqPositive(x);
    }
  }

  /** The square of a non-zero value is positive. */
  lemma SqPositive(x: real)
    requires x != 0.0
    ensures Sq(x) > 0.0
  {
    calc {
      Sq(x);
      x * x;
    > { assert x * x > 0.0; }
      0.0;
    }
  }

  /** A sum of three squares with positive weights is zero exactly when each base is. */
  lemma WeightedSquaresZeroIff(wa: real, a: real, wb: real, b: real, wc: real, c: real)
    requires wa > 0.0 && wb > 0.0 && wc > 0.0
    ensures wa * Sq(a) + wb * Sq(b) + wc * Sq(c) == 0.0 <==> a == 0.0 && b == 0.0 && c == 0.0
  {
    SqZeroIff(a);
    SqZeroIff(b);
    SqZeroIff(c);
    assert wa * Sq(a) >= 0.0 && wb * Sq(b) >= 0.0 && wc * Sq(c) >= 0.0;
    if a != 0.0 {
      assert wa * Sq(a) > 0.0;
    }
    if b != 0.0 {
      assert wb * Sq(b) > 0.0;
    }
    if c != 0.0 {
      assert wc * Sq(c) > 0.0;
    }
  }

  /** Height of the fitted cubic `coeffs` at `x`; in Horner form it is the same polynomial. */
  function PathHeight(coeffs: seq<real>, x: real): (r: real)
    requires |coeffs| >= 4
    ensures r == coeffs[0] + x * (coeffs[1] + x * (coeffs[2] + x * coeffs[3]))
  {
    coeffs[0] + coeffs[1] * x + coeffs[2] * Sq(x) + coeffs[3] * (x * x * x)
  }

  /**
   * The slope whose arctangent the evaluator takes as the desired heading.
   * As written it uses `coeffs[3]` in both the linear and the quadratic term.
   */
  function HeadingSlope(coeffs: seq<real>, x: real): (r: real)
    requires |coeffs| >= 4
    ensures r == PathSlope(coeffs, x) + 2.0 * (coeffs[3] - coeffs[2]) * x
  {
    coeffs[1] + (2.0 * coeffs[3] * x) + (3.0 * coeffs[3] * Sq(x))
  }

  /** The slope of the fitted cubic, an independent reference for `HeadingSlope`. */
  function PathSlope(coeffs: seq<real>, x: real): real
    requires |coeffs| >= 4
  {
    coeffs[1] + 2.0 * coeffs[2] * x + 3.0 * coeffs[3] * Sq(x)
  }

  /**
   * `PathSlope` is the derivative of `PathHeight`: the difference quotient
   * over any step `h` is `PathSlope` plus terms that vanish with `h`.
   */
  lemma PathSlopeIsDerivative(coeffs: seq<real>, x: real, h: real)
    requires |coeffs| >= 4
    ensures PathHeight(coeffs, x + h) - PathHeight(coeffs, x)
         == h * (PathSlope(coeffs, x) + h * (coeffs[2] + 3.0 * coeffs[3] * x) + h * h * coeffs[3])
  {
    var c0, c1, c2, c3 := coeffs[0], coeffs[1], coeffs[2], coeffs[3];
    assert Sq(x + h) == Sq(x) + 2.0 * x * h + h * h;
    assert (x + h) * (x + h) * (x + h) == x * x * x + 3.0 * x * x * h + 3.0 * x * h * h + h * h * h;
  }

  /**
   * The slope used for the desired heading agrees with the slope of the path
   * only at `x = 0` or when the quadratic and cubic coefficients coincide.
   */
  lemma HeadingSlopeMatchesPathIff(coeffs: seq<real>, x: real)
    requires |coeffs| >= 4
    ensures HeadingSlope(coeffs, x) == PathSlope(coeffs, x) <==> (x == 0.0 || coeffs[2] == coeffs[3])
  {
    assert HeadingSlope(coeffs, x) - PathSlope(coeffs, x) == 2.0 * (coeffs[3] - coeffs[2]) * x;
    if x != 0.0 && coeffs[2] != coeffs[3] {
      assert (coeffs[3] - coeffs[2]) * x != 0.0;
    }
  }

  /**
   * The heading increment of one step, written `v * delta / Lf * dt` by the
   * evaluator and `v / Lf * delta * dt` by the predictor, is the same value.
   */
  lemma HeadingIncrementAgrees(v: real, delta: real, dt: real)
    ensures v * delta / Lf * dt == v / Lf * delta * dt
  {
    calc {
      v * delta / Lf * dt;
      (v / Lf) * delta * dt;
    }
  }
}
