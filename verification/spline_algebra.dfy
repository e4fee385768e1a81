/**
 * Algebraic identities behind the cubic spline coefficients of
 * set_1d_cubic_params (src/rpolator.c), in exact real arithmetic.
 * On an interval of width h from node value a0 to a1, with second-derivative
 * halves c0 and c1 at its ends, the routine takes
 *   b = (a1 - a0) / h - h (c1 + 2 c0) / 3   and   d = (c1 - c0) / (3 h).
 */
module SplineAlgebra {

  /** The linear coefficient the routine derives for one interval. */
  function SlopeCoefficient(a0: real, a1: real, c0: real, c1: real, h: real): real
    requires h != 0.0
  {
    (a1 - a0) / h - h * (c1 + 2.0 * c0) / 3.0
  }

  /** The cubic coefficient the routine derives for one interval. */
  function CubicCoefficient(c0: real, c1: real, h: real): real
    requires h != 0.0
  {
    (c1 - c0) / (3.0 * h)
  }

  /** The cubic reaches a1 at the right end of the interval, whatever c0 and c1 are. */
  lemma RightEndValue(a0: real, a1: real, c0: real, c1: real, h: real)
    requires h > 0.0
    ensures var b := SlopeCoefficient(a0, a1, c0, c1, h);
            var d := CubicCoefficient(c0, c1, h);
      a0 + b * h + c0 * h * h + d * h * h * h == a1
  {
    var b := SlopeCoefficient(a0, a1, c0, c1, h);
    var d := CubicCoefficient(c0, c1, h);
    assert (a1 - a0) / h * h == a1 - a0;
    assert b * h == (a1 - a0) - h * h * (c1 + 2.0 * c0) / 3.0;
    assert d * (3.0 * h) == c1 - c0;
    assert d * h * h * h == (c1 - c0) * h * h / 3.0 by {
      assert d * h * h * h == (d * (3.0 * h)) * h * h / 3.0;
    }
  }

  /** Half the second derivative at the right end of the interval is c1. */
  lemma RightEndCurvature(c0: real, c1: real, h: real)
    requires h > 0.0
    ensures c0 + 3.0 * CubicCoefficient(c0, c1, h) * h == c1
  {
    var d := CubicCoefficient(c0, c1, h);
    assert d * (3.0 * h) == c1 - c0;
  }

  /** The first derivative at the right end of the interval. */
  lemma RightEndSlope(a0: real, a1: real, c0: real, c1: real, h: real)
    requires h > 0.0
    ensures var b := SlopeCoefficient(a0, a1, c0, c1, h);
            var d := CubicCoefficient(c0, c1, h);
      b + 2.0 * c0 * h + 3.0 * d * h * h == (a1 - a0) / h + h * (2.0 * c1 + c0) / 3.0
  {
    var d := CubicCoefficient(c0, c1, h);
    assert d * (3.0 * h) == c1 - c0;
    assert 3.0 * d * h * h == (c1 - c0) * h by {
      assert 3.0 * d * h * h == (d * (3.0 * h)) * h;
    }
  }

  /** Right-hand side of row k of the tridiagonal system. */
  function Rhs(a0: real, a1: real, a2: real, h0: real, h1: real): real
    requires h0 != 0.0 && h1 != 0.0
  {
    3.0 * (a2 - a1) / h1 - 3.0 * (a1 - a0) / h0
  }

  /**
   * When c0, c1, c2 solve row k of the tridiagonal system, the slope at the
   * end of interval k-1 equals the slope at the start of interval k.
   */
  lemma SlopesJoin(a0: real, a1: real, a2: real, c0: real, c1: real, c2: real, h0: real, h1: real)
    requires h0 > 0.0 && h1 > 0.0
    requires h0 * c0 + 2.0 * (h0 + h1) * c1 + h1 * c2 == Rhs(a0, a1, a2, h0, h1)
    ensures var b0 := SlopeCoefficient(a0, a1, c0, c1, h0);
            var d0 := CubicCoefficient(c0, c1, h0);
      b0 + 2.0 * c0 * h0 + 3.0 * d0 * h0 * h0 == SlopeCoefficient(a1, a2, c1, c2, h1)
  {
    RightEndSlope(a0, a1, c0, c1, h0);
    var lhs := (a1 - a0) / h0 + h0 * (2.0 * c1 + c0) / 3.0;
    var rhs := (a2 - a1) / h1 - h1 * (c2 + 2.0 * c1) / 3.0;
    assert 3.0 * (rhs - lhs) == Rhs(a0, a1, a2, h0, h1) - (h0 * c0 + 2.0 * (h0 + h1) * c1 + h1 * c2);
  }

  /**
   * Forward elimination (l, M, z) followed by back substitution
   * c1 = z1 - M1 c2 solves row k of the tridiagonal system.
   */
  lemma EliminationSolvesRow(h0: real, h1: real, l1: real, m0: real, m1: real,
                             z0: real, z1: real, rhs: real, c0: real, c1: real, c2: real)
    requires l1 == 2.0 * (h1 + h0) - h0 * m0
    requires m1 * l1 == h1
    requires z1 * l1 == rhs - h0 * z0
    requires c0 == z0 - m0 * c1
    requires c1 == z1 - m1 * c2
    ensures h0 * c0 + 2.0 * (h0 + h1) * c1 + h1 * c2 == rhs
  {
    assert h0 * c0 == h0 * z0 - h0 * m0 * c1;
    assert h1 * c2 == m1 * l1 * c2;
    assert l1 * c1 + m1 * l1 * c2 == l1 * z1;
  }

  /** The pivots stay positive and the multipliers stay in [0, 1/2]. */
  lemma PivotBounds(h0: real, h1: real, m0: real)
    requires h0 > 0.0 && h1 > 0.0 && 0.0 <= m0 <= 0.5
    ensures var l1 := 2.0 * (h1 + h0) - h0 * m0;
      l1 >= 2.0 * h1 && 0.0 <= h1 / l1 <= 0.5
  {
    var l1 := 2.0 * (h1 + h0) - h0 * m0;
    assert h0 * m0 <= h0 * 0.5;
    assert h1 / l1 * l1 == h1;
  }

  /** With a zero end slope imposed, the clamped left-end row gives b = 0. */
  lemma ClampedLeftSlope(a0: real, a1: real, h: real, c1: real)
    requires h > 0.0
    ensures var rhs := 3.0 * (a1 - a0) / h;
            var z0 := rhs / (2.0 * h);
            var c0 := z0 - 0.5 * c1;
      SlopeCoefficient(a0, a1, c0, c1, h) == 0.0
  {
    var rhs := 3.0 * (a1 - a0) / h;
    var z0 := rhs / (2.0 * h);
    var c0 := z0 - 0.5 * c1;
    assert c1 + 2.0 * c0 == 2.0 * z0;
    assert z0 * (2.0 * h) == rhs;
    assert h * (2.0 * z0) / 3.0 == rhs / 3.0;
    assert rhs / 3.0 == (a1 - a0) / h;
  }

  /** With a zero end slope imposed, the clamped right-end row makes the slope vanish at the last node. */
  lemma ClampedRightSlope(a0: real, a1: real, h: real, m: real, z0: real, c1: real)
    requires h > 0.0 && 0.0 <= m <= 0.5
    requires c1 * (h * (2.0 - m)) == -3.0 * (a1 - a0) / h - h * z0
    ensures var c0 := z0 - m * c1;
            var b := SlopeCoefficient(a0, a1, c0, c1, h);
            var d := CubicCoefficient(c0, c1, h);
      b + 2.0 * c0 * h + 3.0 * d * h * h == 0.0
  {
    var c0 := z0 - m * c1;
    RightEndSlope(a0, a1, c0, c1, h);
    assert h * (2.0 * c1 + c0) == c1 * (h * (2.0 - m)) + h * z0;
    assert h * (2.0 * c1 + c0) / 3.0 == -(a1 - a0) / h;
  }
}
