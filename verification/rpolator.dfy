/**
 * Table lookup and cubic-spline interpolation (src/rpolator.c).
 * Doubles are modelled as exact reals; a table is a sequence of supporting
 * points x with values y, and n = |x|.
 */
module Rpolator {
  import opened Outcomes
  import opened SplineAlgebra

  /** One interval's polynomial a + b r + c r^2 + d r^3, with r the offset from its left node. */
  datatype CubicParams = CubicParams(a: real, b: real, c: real, d: real)

  /** The zeroed entry calloc leaves after the last interval. */
  const ZeroParams := CubicParams(0.0, 0.0, 0.0, 0.0)

  /** csx: the interval polynomial evaluated in Horner form. */
  function Csx(r: real, cp: CubicParams): (v: real)
    ensures v == cp.a + cp.b * r + cp.c * r * r + cp.d * r * r * r
  {
    ((cp.d * r + cp.c) * r + cp.b) * r + cp.a
  }

  /** First derivative of the interval polynomial at offset r. */
  function Slope(r: real, cp: CubicParams): real {
    cp.b + 2.0 * cp.c * r + 3.0 * cp.d * r * r
  }

  /** Half the second derivative of the interval polynomial at offset r. */
  function HalfCurvature(r: real, cp: CubicParams): real {
    cp.c + 3.0 * cp.d * r
  }

  ghost predicate StrictlyAscending(x: seq<real>) {
    forall i :: 0 <= i < |x| - 1 ==> x[i] < x[i + 1]
  }

  /** Each interval polynomial starts at its left node's value and ends at its right node's value. */
  ghost predicate Interpolates(x: seq<real>, y: seq<real>, csp: seq<CubicParams>) {
    && |x| == |y| && |csp| >= |x| - 1
    && forall i :: 0 <= i < |x| - 1 ==>
         csp[i].a == y[i] && Csx(x[i + 1] - x[i], csp[i]) == y[i + 1]
  }

  /** At every interior node, slope and curvature of the two adjacent polynomials agree. */
  ghost predicate SmoothJoins(x: seq<real>, csp: seq<CubicParams>)
    requires |csp| >= |x| - 1
  {
    forall i :: 1 <= i < |x| - 1 ==>
      && Slope(x[i] - x[i - 1], csp[i - 1]) == csp[i].b
      && HalfCurvature(x[i] - x[i - 1], csp[i - 1]) == csp[i].c
  }

  /** Natural spline: zero curvature at both ends of the table. */
  ghost predicate NaturalEnds(x: seq<real>, csp: seq<CubicParams>)
    requires |x| >= 2 && |csp| >= |x| - 1
  {
    var n := |x|;
    csp[0].c == 0.0 && HalfCurvature(x[n - 1] - x[n - 2], csp[n - 2]) == 0.0
  }

  /** Clamped spline: zero slope at both ends of the table. */
  ghost predicate ClampedEnds(x: seq<real>, csp: seq<CubicParams>)
    requires |x| >= 2 && |csp| >= |x| - 1
  {
    var n := |x|;
    csp[0].b == 0.0 && Slope(x[n - 1] - x[n - 2], csp[n - 2]) == 0.0
  }

  // ---------------------------------------------------------------------
  // interp
  // ---------------------------------------------------------------------

  /** Outcome of interp: the interval (ipl) and position in it (rpl), or the
      search gave up after 30 halvings and left both outputs untouched. */
  datatype Location = Located(ipl: int, rpl: real) | Exhausted

  /** The largest table for which the 30-step search is proved to succeed. */
  const MaxSearchable: nat := 0x1000_0000

  /** x lies strictly between the end points of the table, in the table's own direction. */
  predicate InsideRange(v: seq<real>, x: real)
    requires |v| >= 2
  {
    var n := |v|;
    if v[0] < v[n - 1] then v[0] < x < v[n - 1] else v[n - 1] < x < v[0]
  }

  /** Position of x between supporting points k-1 and k; 0.5 when they coincide. */
  function Fraction(v: seq<real>, x: real, k: int): real
    requires 1 <= k < |v|
  {
    if v[k] != v[k - 1] then (x - v[k - 1]) / (v[k] - v[k - 1]) else 0.5
  }

  /** A fraction of the form num / den with num between 0 and den lies in [0, 1]. */
  lemma FractionInUnit(num: real, den: real)
    requires (0.0 <= num <= den && den > 0.0) || (den <= num <= 0.0 && den < 0.0)
    ensures 0.0 <= num / den <= 1.0
  {
    var q := num / den;
    assert q * den == num;
    assert den > 0.0 ==> (q < 0.0 ==> q * den < 0.0) && (q > 1.0 ==> q * den > den);
    assert den < 0.0 ==> (q < 0.0 ==> q * den > 0.0) && (q > 1.0 ==> q * den < den);
  }

  function Pow2(k: nat): nat {
    if k == 0 then 1 else 2 * Pow2(k - 1)
  }

  lemma {:induction false} Pow2Add(a: nat, b: nat)
    ensures Pow2(a + b) == Pow2(a) * Pow2(b)
  {
    if a > 0 {
      Pow2Add(a - 1, b);
      DoubleProduct(Pow2(a - 1), Pow2(b));
    }
  }

  lemma DoubleProduct(p: int, q: int)
    ensures 2 * (p * q) == (2 * p) * q
  {
  }

  /** How many ceiling halvings take m down to 1. */
  function CeilLog2(m: nat): nat
    requires m >= 1
  {
    if m == 1 then 0 else 1 + CeilLog2((m + 1) / 2)
  }

  lemma {:induction false} CeilLog2Bound(m: nat, k: nat)
    requires 1 <= m <= Pow2(k)
    ensures CeilLog2(m) <= k
  {
    if m > 1 {
      CeilLog2Bound((m + 1) / 2, k - 1);
    }
  }

  /** Iterations the search still needs at step width m and distance dist from the target. */
  function Budget(m: nat, dist: nat): nat
    requires m >= 1
  {
    if m == 1 then dist + 1 else CeilLog2(m) + 2
  }

  /** Adjacent strict ascent gives strict ascent between any two points. */
  lemma {:induction false} AscendingPair(v: seq<real>, i: int, j: int)
    requires StrictlyAscending(v)
    requires 0 <= i < j < |v|
    ensures v[i] < v[j]
    decreases j - i
  {
    if i + 1 < j {
      AscendingPair(v, i + 1, j);
    }
  }

  /** Inside an ascending table, x has a bracketing interval. */
  lemma {:induction false} BracketExists(v: seq<real>, x: real, hi: int) returns (t: int)
    requires 1 <= hi < |v|
    requires v[0] < x <= v[hi]
    ensures 1 <= t <= hi && v[t - 1] < x <= v[t]
    decreases hi
  {
    if v[hi - 1] < x {
      t := hi;
    } else {
      t := BracketExists(v, x, hi - 1);
    }
  }

  function Abs(k: int): nat {
    if k < 0 then -k else k
  }

  /**
   * One unsuccessful probe of the search at j = clamp(l, 1, n-1) moves l
   * towards the bracketing interval t, staying within the halved step width,
   * and uses up one unit of the budget.
   */
  lemma SearchStep(v: seq<real>, x: real, t: int, l: int, m: nat, j: int)
    requires StrictlyAscending(v) && |v| >= 2
    requires 1 <= t <= |v| - 1 && v[t - 1] < x <= v[t]
    requires m >= 1 && Abs(t - l) <= m
    requires j == (if l < 1 then 1 else if l > |v| - 1 then |v| - 1 else l)
    requires !(x >= v[j - 1] && x <= v[j])
    ensures var m' := (m + 1) / 2;
            var l' := if x > v[j - 1] then l + m' else l - m';
      Abs(t - l') <= m' && Budget(m', Abs(t - l')) < Budget(m, Abs(t - l))
  {
    if j < t {
      AscendingPair(v, j - 1, t - 1);
    } else if t < j - 1 {
      AscendingPair(v, t, j - 1);
    }
    if m > 1 {
      assert CeilLog2(m) == 1 + CeilLog2((m + 1) / 2);
    }
  }

  /** A table of at most MaxSearchable points needs at most 29 probes. */
  lemma SearchBudget(n: nat)
    requires 2 <= n <= MaxSearchable
    ensures CeilLog2((n + 1) / 2) + 2 <= 29
  {
    Pow2Add(9, 18);
    Pow2Add(9, 9);
    assert Pow2(9) == 512;
    CeilLog2Bound((n + 1) / 2, 27);
  }

  /** rpl once the probe at j succeeds: the position of x between points j-1 and j. */
  function Rpl(v: seq<real>, x: real, lm: int, j: int): (rpl: real)
    requires |v| >= 2 && (lm == 0 || lm == 1) && 1 <= j <= |v| - 1
    requires Probe(v, x, lm, j)
    ensures rpl == Fraction(v, x, j) && 0.0 <= rpl <= 1.0
  {
    if v[j] != v[j - 1] then
      FractionInUnit(x - v[j - 1], v[j] - v[j - 1]);
      (x - v[j - 1]) / (v[j] - v[j - 1])
    else 0.5
  }

  /** The probe interp settles on: supporting point j brackets x in the table's direction. */
  predicate Probe(v: seq<real>, x: real, lm: int, j: int)
    requires |v| >= 2 && (lm == 0 || lm == 1) && 1 <= j <= |v| - 1
  {
    x >= v[j + lm - 1] && x <= v[j - lm]
  }

  /**
   * The search loop of interp: at most 30 probes, starting in the middle of
   * the table with a step width halved (rounding up) after each miss.
   * lm is 0 for an ascending and 1 for a descending table.
   */
  method Search(x: real, v: seq<real>, lm: int) returns (loc: Location)
    requires |v| >= 2 && (lm == 0 || lm == 1)
    ensures loc.Located? ==> 1 <= loc.ipl <= |v| - 1 && Probe(v, x, lm, loc.ipl)
    ensures loc.Located? ==> loc.rpl == Fraction(v, x, loc.ipl) && 0.0 <= loc.rpl <= 1.0
    ensures lm == 0 && StrictlyAscending(v) && |v| <= MaxSearchable && v[0] < x < v[|v| - 1]
            ==> loc.Located?
  {
    var n := |v|;
    // the interval the search must find when the table strictly ascends
    ghost var searchable := lm == 0 && StrictlyAscending(v) && n <= MaxSearchable && v[0] < x < v[n - 1];
    ghost var t := 1;
    if searchable {
      t := BracketExists(v, x, n - 1);
      SearchBudget(n);
    }

    var l := (n + 1) / 2 - 1;
    var m := (n + 1) / 2;
    var i := 1;
    while i <= 30
      invariant 1 <= i <= 31
      invariant m >= 1
      invariant searchable ==> 1 <= t <= n - 1 && v[t - 1] < x <= v[t]
      invariant searchable ==> Abs(t - l) <= m && Budget(m, Abs(t - l)) <= 31 - i
    {
      var j := l;
      if j < 1 {
        j := 1;
      }
      if j > n - 1 {
        j := n - 1;
      }
      if x >= v[j + lm - 1] && x <= v[j - lm] {
        return Located(j, Rpl(v, x, lm, j));
      }
      if searchable {
        SearchStep(v, x, t, l, m, j);
      }
      m := (m + 1) / 2;
      if x > v[j - 1] {
        l := l + (1 - 2 * lm) * m;
      } else {
        l := l - (1 - 2 * lm) * m;
      }
      i := i + 1;
    }
    return Exhausted;
  }

  /**
   * interp: locate x in a monotonic table. Points at or beyond an end of the
   * table get that end's interval, with rpl 0 at the first and 1 at the last
   * point; inside, the binary search brackets x.
   */
  method Interp(x: real, v: seq<real>) returns (loc: Location)
    requires |v| >= 2
    ensures v[0] < v[|v| - 1] && x <= v[0] ==> loc == Located(1, 0.0)
    ensures v[0] < v[|v| - 1] && v[0] < x && x >= v[|v| - 1] ==> loc == Located(|v| - 1, 1.0)
    ensures v[0] >= v[|v| - 1] && x >= v[0] ==> loc == Located(1, 0.0)
    ensures v[0] >= v[|v| - 1] && x < v[0] && x <= v[|v| - 1] ==> loc == Located(|v| - 1, 1.0)
    ensures loc.Located? ==> 1 <= loc.ipl <= |v| - 1 && 0.0 <= loc.rpl <= 1.0
    ensures loc.Located? && InsideRange(v, x) ==> loc.rpl == Fraction(v, x, loc.ipl)
    ensures loc.Located? && InsideRange(v, x) && v[0] < v[|v| - 1] ==> v[loc.ipl - 1] <= x <= v[loc.ipl]
    ensures loc.Located? && InsideRange(v, x) && v[0] >= v[|v| - 1] ==> v[loc.ipl] <= x <= v[loc.ipl - 1]
    ensures StrictlyAscending(v) && |v| <= MaxSearchable ==> loc.Located?
  {
    var n := |v|;
    if v[0] < v[n - 1] {
      if x <= v[0] {
        return Located(1, 0.0);
      } else if x >= v[n - 1] {
        return Located(n - 1, 1.0);
      }
      loc := Search(x, v, 0);
    } else {
      if x >= v[0] {
        return Located(1, 0.0);
      } else if x <= v[n - 1] {
        return Located(n - 1, 1.0);
      }
      if StrictlyAscending(v) {
        AscendingPair(v, 0, n - 1);
      }
      loc := Search(x, v, 1);
    }
  }

  // ---------------------------------------------------------------------
  // set_1d_cubic_params
  // ---------------------------------------------------------------------

  /** All interval widths are positive. */
  ghost predicate PositiveWidths(h: seq<real>) {
    forall k :: 0 <= k < |h| ==> h[k] > 0.0
  }

  /** Row k of the forward elimination: pivot l[k], multiplier M[k], reduced right-hand side z[k]. */
  ghost predicate EliminationRow(h: seq<real>, A: seq<real>, l: seq<real>, M: seq<real>, z: seq<real>, k: int)
    requires 1 <= k < |h| && |A| > k && |l| > k && |M| > k && |z| > k
  {
    && l[k] == 2.0 * (h[k] + h[k - 1]) - h[k - 1] * M[k - 1]
    && M[k] * l[k] == h[k]
    && z[k] * l[k] == A[k] - h[k - 1] * z[k - 1]
  }

  /** The forward sweep of set_1d_cubic_params over rows 1 .. n-2, from the given first row. */
  method ForwardSweep(h: seq<real>, A: seq<real>, l0: real, m0: real, z0: real)
    returns (l: seq<real>, M: seq<real>, z: seq<real>)
    requires |h| >= 1 && |A| == |h| + 1 && PositiveWidths(h)
    requires l0 > 0.0 && 0.0 <= m0 <= 0.5
    ensures |l| == |M| == |z| == |h|
    ensures l[0] == l0 && M[0] == m0 && z[0] == z0
    ensures forall k :: 0 <= k < |h| ==> l[k] > 0.0 && 0.0 <= M[k] <= 0.5
    ensures forall k :: 1 <= k < |h| ==> EliminationRow(h, A, l, M, z, k)
  {
    l, M, z := [l0], [m0], [z0];
    var i := 1;
    while i < |h|
      invariant 1 <= i <= |h|
      invariant |l| == |M| == |z| == i
      invariant l[0] == l0 && M[0] == m0 && z[0] == z0
      invariant forall k :: 0 <= k < i ==> l[k] > 0.0 && 0.0 <= M[k] <= 0.5
      invariant forall k :: 1 <= k < i ==> EliminationRow(h, A, l, M, z, k)
    {
      var li := 2.0 * (h[i] + h[i - 1]) - h[i - 1] * M[i - 1];
      EliminationStep(h[i - 1], h[i], M[i - 1], z[i - 1], A[i]);
      var mi := h[i] / li;
      var zi := (A[i] - h[i - 1] * z[i - 1]) / li;
      ExtendRows(h, A, l, M, z, li, mi, zi);
      ExtendBounds(l, M, li, mi);
      l, M, z := l + [li], M + [mi], z + [zi];
      i := i + 1;
    }
  }

  /** One step of the forward sweep keeps the pivot positive and the multiplier in [0, 1/2]. */
  lemma EliminationStep(h0: real, h1: real, m0: real, z0: real, rhs: real)
    requires h0 > 0.0 && h1 > 0.0 && 0.0 <= m0 <= 0.5
    ensures var l1 := 2.0 * (h1 + h0) - h0 * m0;
      && l1 > 0.0 && 0.0 <= h1 / l1 <= 0.5
      && h1 / l1 * l1 == h1 && (rhs - h0 * z0) / l1 * l1 == rhs - h0 * z0
  {
    PivotBounds(h0, h1, m0);
  }

  /** Appending a positive pivot and a multiplier in [0, 1/2] keeps the bounds of the sweep. */
  lemma ExtendBounds(l: seq<real>, M: seq<real>, li: real, mi: real)
    requires |l| == |M| && forall k :: 0 <= k < |l| ==> l[k] > 0.0 && 0.0 <= M[k] <= 0.5
    requires li > 0.0 && 0.0 <= mi <= 0.5
    ensures forall k :: 0 <= k <= |l| ==> (l + [li])[k] > 0.0 && 0.0 <= (M + [mi])[k] <= 0.5
  {
  }

  /** Appending row |l| keeps the rows already eliminated. */
  lemma ExtendRows(h: seq<real>, A: seq<real>, l: seq<real>, M: seq<real>, z: seq<real>, li: real, mi: real, zi: real)
    requires 1 <= |l| == |M| == |z| < |h| && |A| == |h| + 1
    requires forall k :: 1 <= k < |l| ==> EliminationRow(h, A, l, M, z, k)
    requires var i := |l|;
      && li == 2.0 * (h[i] + h[i - 1]) - h[i - 1] * M[i - 1]
      && mi * li == h[i] && zi * li == A[i] - h[i - 1] * z[i - 1]
    ensures forall k :: 1 <= k <= |l| ==> EliminationRow(h, A, l + [li], M + [mi], z + [zi], k)
  {
    var l', M', z' := l + [li], M + [mi], z + [zi];
    forall k | 1 <= k <= |l|
      ensures EliminationRow(h, A, l', M', z', k)
    {
      if k < |l| {
        assert EliminationRow(h, A, l, M, z, k);
        assert l'[k] == l[k] && M'[k] == M[k] && z'[k] == z[k];
        assert l'[k - 1] == l[k - 1] && M'[k - 1] == M[k - 1] && z'[k - 1] == z[k - 1];
      }
    }
  }

  /** Interval k's coefficients from node values a, curvature halves c and widths h. */
  ghost predicate IntervalFits(a: seq<real>, h: seq<real>, c: seq<real>, cp: CubicParams, k: int)
    requires 0 <= k < |h| && |a| > k + 1 && |c| > k + 1 && h[k] != 0.0
  {
    cp == CubicParams(a[k], SlopeCoefficient(a[k], a[k + 1], c[k], c[k + 1], h[k]),
                      c[k], CubicCoefficient(c[k], c[k + 1], h[k]))
  }

  /** Back substitution step k: c[k] = z[k] - M[k] c[k+1]. */
  ghost predicate BackRow(M: seq<real>, z: seq<real>, c: seq<real>, k: int)
    requires 0 <= k < |M| && k < |z| && k + 1 < |c|
  {
    c[k] == z[k] - M[k] * c[k + 1]
  }

  /** The clamped last row: c[n-1] l[n-1] = A[n-1] - h[n-2] z[n-2], with l[n-1] = h[n-2] (2 - M[n-2]). */
  ghost predicate LastRowSolved(h: seq<real>, A: seq<real>, M: seq<real>, z: seq<real>, cLast: real)
    requires 1 <= |h| == |M| == |z| && |A| == |h| + 1
  {
    var m := |h| - 1;
    cLast * (h[m] * (2.0 - M[m])) == A[m + 1] - h[m] * z[m]
  }

  /**
   * The back substitution of set_1d_cubic_params: c from c[n-1] down to c[0],
   * then each interval's coefficients from its end values.
   */
  method BackSubstitution(a: seq<real>, h: seq<real>, M: seq<real>, z: seq<real>, cLast: real)
    returns (c: seq<real>, cpv: seq<CubicParams>)
    requires |h| >= 1 && |a| == |h| + 1 && |M| == |z| == |h| && PositiveWidths(h)
    ensures |c| == |a| && c[|h|] == cLast
    ensures |cpv| == |h|
    ensures forall k :: 0 <= k < |h| ==> BackRow(M, z, c, k)
    ensures forall k :: 0 <= k < |h| ==> IntervalFits(a, h, c, cpv[k], k)
  {
    var n := |a|;
    c := seq(n, _ => 0.0)[n - 1 := cLast];
    var j := n - 2;
    while j >= 0
      invariant -1 <= j <= n - 2
      invariant |c| == n && c[n - 1] == cLast
      invariant forall k :: j < k < n - 1 ==> BackRow(M, z, c, k)
    {
      var c' := c[j := z[j] - M[j] * c[j + 1]];
      forall k | j <= k < n - 1
        ensures BackRow(M, z, c', k)
      {
        if k > j {
          assert BackRow(M, z, c, k);
          assert c'[k] == c[k] && c'[k + 1] == c[k + 1];
        }
      }
      c := c';
      j := j - 1;
    }
    cpv := seq(n - 1, k requires 0 <= k < n - 1 =>
      CubicParams(a[k], SlopeCoefficient(a[k], a[k + 1], c[k], c[k + 1], h[k]),
                  c[k], CubicCoefficient(c[k], c[k + 1], h[k])));
  }

  /** Interval widths h[k] = x[k+1] - x[k] of a table. */
  function Widths(x: seq<real>): (h: seq<real>)
    requires |x| >= 1
    ensures |h| == |x| - 1
    ensures StrictlyAscending(x) ==> PositiveWidths(h)
    ensures forall k :: 0 <= k < |h| ==> h[k] == x[k + 1] - x[k]
  {
    seq(|x| - 1, k requires 0 <= k < |x| - 1 => x[k + 1] - x[k])
  }

  /** The validation loop of set_1d_cubic_params: every supporting point above its predecessor. */
  method CheckAscending(x: seq<real>) returns (ok: bool)
    ensures ok <==> StrictlyAscending(x)
  {
    var i := 0;
    while i < |x| - 1
      invariant 0 <= i <= if |x| == 0 then 0 else |x| - 1
      invariant forall k :: 0 <= k < i ==> x[k] < x[k + 1]
    {
      if x[i + 1] <= x[i] {
        return false;
      }
      i := i + 1;
    }
    return true;
  }

  /**
   * Right-hand side A of the tridiagonal system: the interior rows always,
   * the end rows only for the clamped spline (with both end slopes zero).
   */
  function SystemRhs(a: seq<real>, h: seq<real>, clamped: bool): (A: seq<real>)
    requires |h| >= 1 && |a| == |h| + 1 && PositiveWidths(h)
    ensures |A| == |a|
    ensures forall k :: 1 <= k < |h| ==> A[k] == Rhs(a[k - 1], a[k], a[k + 1], h[k - 1], h[k])
  {
    seq(|a|, k requires 0 <= k < |a| => RhsRow(a, h, clamped, k))
  }

  /** The end rows of the clamped system carry the end slopes, both zero. */
  lemma ClampedRhsEnds(a: seq<real>, h: seq<real>)
    requires |h| >= 1 && |a| == |h| + 1 && PositiveWidths(h)
    ensures h[0] > 0.0 && h[|h| - 1] > 0.0
    ensures SystemRhs(a, h, true)[0] == 3.0 * (a[1] - a[0]) / h[0] - 3.0 * 0.0
    ensures SystemRhs(a, h, true)[|h|] == 3.0 * 0.0 - 3.0 * (a[|h|] - a[|h| - 1]) / h[|h| - 1]
  {
    var A := SystemRhs(a, h, true);
    assert A[0] == RhsRow(a, h, true, 0);
    assert A[|h|] == RhsRow(a, h, true, |h|);
  }

  /** Row k of the right-hand side; the end slopes of the clamped spline are zero. */
  function RhsRow(a: seq<real>, h: seq<real>, clamped: bool, k: int): real
    requires |h| >= 1 && |a| == |h| + 1 && PositiveWidths(h) && 0 <= k < |a|
  {
    var n := |a|;
    var derivLeft, derivRight := 0.0, 0.0;
    if 1 <= k < n - 1 then
      assert h[k] > 0.0 && h[k - 1] > 0.0;
      3.0 * (a[k + 1] - a[k]) / h[k] - 3.0 * (a[k] - a[k - 1]) / h[k - 1]
    else if clamped && k == 0 then
      assert h[0] > 0.0;
      3.0 * (a[1] - a[0]) / h[0] - 3.0 * derivLeft
    else if clamped && k == n - 1 then
      assert h[n - 2] > 0.0;
      3.0 * derivRight - 3.0 * (a[n - 1] - a[n - 2]) / h[n - 2]
    else 0.0
  }

  /**
   * set_1d_cubic_params: check the table, then solve for the coefficients of
   * a natural (zero end curvature) or clamped (zero end slope) cubic spline.
   * The result has one entry per supporting point; the last stays zero.
   */
  method SetCubicParams(x: seq<real>, y: seq<real>, clamped: bool) returns (csp: Option<seq<CubicParams>>)
    requires |x| == |y|
    ensures csp.None? <==> |x| < 4 || !StrictlyAscending(x)
    ensures csp.Some? ==> |csp.value| == |x| && csp.value[|x| - 1] == ZeroParams
    ensures csp.Some? ==> Interpolates(x, y, csp.value) && SmoothJoins(x, csp.value)
    ensures csp.Some? && !clamped ==> NaturalEnds(x, csp.value)
    ensures csp.Some? && clamped ==> ClampedEnds(x, csp.value)
  {
    var n := |x|;
    if n < 4 {
      return None;
    }
    var ascending := CheckAscending(x);
    if !ascending {
      return None;
    }
    var a := y;
    var h := Widths(x);
    var A := SystemRhs(a, h, clamped);
    var l, M, z;
    if clamped {
      l, M, z := ForwardSweep(h, A, 2.0 * h[0], 0.5, A[0] / (2.0 * h[0]));
    } else {
      l, M, z := ForwardSweep(h, A, 1.0, 0.0, 0.0);
    }
    var cLast: real;
    if clamped {
      cLast := ClampedLastCurvature(h, A, M, z);
    } else {
      cLast := 0.0;
    }
    var c, cpv := BackSubstitution(a, h, M, z, cLast);
    IntervalsInterpolate(x, y, h, c, cpv);
    IntervalsJoinSmoothly(x, y, h, A, l, M, z, c, cpv);
    if clamped {
      ClampedEndsHold(x, y, h, A, M, z, c, cpv);
    } else {
      NaturalEndsHold(x, y, h, M, z, c, cpv);
    }
    csp := Some(cpv + [ZeroParams]);
    PaddingKeepsConditions(x, y, cpv, clamped);
  }

  /** The clamped last pivot h (2 - M) is positive, so dividing by it solves the last row. */
  lemma LastRowDivision(h: real, m: real, r: real)
    requires h > 0.0 && 0.0 <= m <= 0.5
    ensures r / (h * (2.0 - m)) * (h * (2.0 - m)) == r
  {
    assert h * (2.0 - m) > 0.0;
  }

  /** c[n-1] of the clamped spline, from the last row of the system. */
  function ClampedLastCurvature(h: seq<real>, A: seq<real>, M: seq<real>, z: seq<real>): (cLast: real)
    requires 1 <= |h| == |M| == |z| && |A| == |h| + 1
    requires PositiveWidths(h) && 0.0 <= M[|h| - 1] <= 0.5
    ensures LastRowSolved(h, A, M, z, cLast)
  {
    var m := |h| - 1;
    LastRowDivision(h[m], M[m], A[m + 1] - h[m] * z[m]);
    (A[m + 1] - h[m] * z[m]) / (h[m] * (2.0 - M[m]))
  }

  /** Natural ends: c[0] = z[0] - M[0] c[1] = 0 and c[n-1] = 0. */
  lemma NaturalEndsHold(x: seq<real>, y: seq<real>, h: seq<real>, M: seq<real>, z: seq<real>, c: seq<real>,
                        cpv: seq<CubicParams>)
    requires |x| == |y| >= 2 && |h| == |M| == |z| == |cpv| == |x| - 1 && |c| == |x| && PositiveWidths(h)
    requires h[|h| - 1] == x[|x| - 1] - x[|x| - 2]
    requires M[0] == 0.0 && z[0] == 0.0 && BackRow(M, z, c, 0) && c[|x| - 1] == 0.0
    requires IntervalFits(y, h, c, cpv[0], 0)
    requires forall k :: 0 <= k < |h| ==> HalfCurvature(h[k], cpv[k]) == c[k + 1]
    ensures NaturalEnds(x, cpv)
  {
    assert HalfCurvature(h[|h| - 1], cpv[|h| - 1]) == c[|x| - 1];
  }

  /** Clamped ends: the first and last rows with zero end slopes make both end slopes vanish. */
  lemma ClampedEndsHold(x: seq<real>, y: seq<real>, h: seq<real>, A: seq<real>, M: seq<real>, z: seq<real>,
                        c: seq<real>, cpv: seq<CubicParams>)
    requires |x| == |y| >= 2 && |h| == |M| == |z| == |cpv| == |x| - 1 && |c| == |A| == |x|
    requires PositiveWidths(h) && forall k :: 0 <= k < |h| ==> h[k] == x[k + 1] - x[k]
    requires A == SystemRhs(y, h, true)
    requires M[0] == 0.5 && z[0] == A[0] / (2.0 * h[0])
    requires forall k :: 0 <= k < |h| ==> BackRow(M, z, c, k)
    requires 0.0 <= M[|h| - 1] <= 0.5
    requires LastRowSolved(h, A, M, z, c[|h|])
    requires IntervalFits(y, h, c, cpv[0], 0)
    requires IntervalFits(y, h, c, cpv[|h| - 1], |h| - 1)
    ensures ClampedEnds(x, cpv)
  {
    var m := |h| - 1;
    ClampedRhsEnds(y, h);
    assert BackRow(M, z, c, 0) && BackRow(M, z, c, m);
    ClampedLeftSlope(y[0], y[1], h[0], c[1]);
    ClampedRightSlope(y[m], y[m + 1], h[m], M[m], z[m], c[m + 1]);
  }

  /** Appending the zeroed last entry leaves every condition on the intervals intact. */
  lemma PaddingKeepsConditions(x: seq<real>, y: seq<real>, cpv: seq<CubicParams>, clamped: bool)
    requires |x| >= 2 && |cpv| == |x| - 1
    requires Interpolates(x, y, cpv) && SmoothJoins(x, cpv)
    requires !clamped ==> NaturalEnds(x, cpv)
    requires clamped ==> ClampedEnds(x, cpv)
    ensures var csp := cpv + [ZeroParams];
      && |csp| == |x| && csp[|x| - 1] == ZeroParams
      && Interpolates(x, y, csp) && SmoothJoins(x, csp)
      && (!clamped ==> NaturalEnds(x, csp))
      && (clamped ==> ClampedEnds(x, csp))
  {
    var csp := cpv + [ZeroParams];
    assert forall k :: 0 <= k < |cpv| ==> csp[k] == cpv[k];
  }

  /** One interval's polynomial reaches the right node's value with the right curvature. */
  lemma IntervalEnds(a0: real, a1: real, c0: real, c1: real, h: real, cp: CubicParams)
    requires h > 0.0
    requires cp == CubicParams(a0, SlopeCoefficient(a0, a1, c0, c1, h), c0, CubicCoefficient(c0, c1, h))
    ensures Csx(h, cp) == a1 && HalfCurvature(h, cp) == c1
  {
    RightEndValue(a0, a1, c0, c1, h);
    RightEndCurvature(c0, c1, h);
  }

  /** Two neighbouring interval polynomials meet with equal slope and curvature. */
  lemma IntervalsJoin(a0: real, a1: real, a2: real, c0: real, c1: real, c2: real, h0: real, h1: real,
                      cp0: CubicParams, cp1: CubicParams)
    requires h0 > 0.0 && h1 > 0.0
    requires h0 * c0 + 2.0 * (h0 + h1) * c1 + h1 * c2 == Rhs(a0, a1, a2, h0, h1)
    requires cp0 == CubicParams(a0, SlopeCoefficient(a0, a1, c0, c1, h0), c0, CubicCoefficient(c0, c1, h0))
    requires cp1 == CubicParams(a1, SlopeCoefficient(a1, a2, c1, c2, h1), c1, CubicCoefficient(c1, c2, h1))
    ensures Slope(h0, cp0) == cp1.b && HalfCurvature(h0, cp0) == cp1.c
  {
    SlopesJoin(a0, a1, a2, c0, c1, c2, h0, h1);
    RightEndCurvature(c0, c1, h0);
  }

  /** Every interval polynomial interpolates both its nodes and ends with curvature c[k+1]. */
  lemma IntervalsInterpolate(x: seq<real>, y: seq<real>, h: seq<real>, c: seq<real>, cpv: seq<CubicParams>)
    requires |x| == |y| >= 2 && |h| == |cpv| == |x| - 1 && |c| == |x| && PositiveWidths(h)
    requires forall k :: 0 <= k < |h| ==> h[k] == x[k + 1] - x[k]
    requires forall k :: 0 <= k < |h| ==> IntervalFits(y, h, c, cpv[k], k)
    ensures Interpolates(x, y, cpv)
    ensures forall k :: 0 <= k < |h| ==> HalfCurvature(h[k], cpv[k]) == c[k + 1]
  {
    forall k | 0 <= k < |h|
      ensures cpv[k].a == y[k]
      ensures Csx(x[k + 1] - x[k], cpv[k]) == y[k + 1]
      ensures HalfCurvature(h[k], cpv[k]) == c[k + 1]
    {
      assert IntervalFits(y, h, c, cpv[k], k);
      IntervalEnds(y[k], y[k + 1], c[k], c[k + 1], h[k], cpv[k]);
    }
  }

  /** The solved curvatures make neighbouring interval polynomials join smoothly. */
  lemma IntervalsJoinSmoothly(x: seq<real>, y: seq<real>, h: seq<real>, A: seq<real>,
                              l: seq<real>, M: seq<real>, z: seq<real>, c: seq<real>, cpv: seq<CubicParams>)
    requires |x| == |y| >= 2 && |h| == |x| - 1 && PositiveWidths(h)
    requires forall k :: 0 <= k < |h| ==> h[k] == x[k + 1] - x[k]
    requires |A| == |c| == |x| && |l| == |M| == |z| == |cpv| == |h|
    requires forall k :: 1 <= k < |h| ==> A[k] == Rhs(y[k - 1], y[k], y[k + 1], h[k - 1], h[k])
    requires forall k :: 1 <= k < |h| ==> EliminationRow(h, A, l, M, z, k)
    requires forall k :: 0 <= k < |h| ==> BackRow(M, z, c, k)
    requires forall k :: 0 <= k < |h| ==> IntervalFits(y, h, c, cpv[k], k)
    ensures SmoothJoins(x, cpv)
  {
    forall k | 1 <= k < |h|
      ensures Slope(x[k] - x[k - 1], cpv[k - 1]) == cpv[k].b
      ensures HalfCurvature(x[k] - x[k - 1], cpv[k - 1]) == cpv[k].c
    {
      assert EliminationRow(h, A, l, M, z, k);
      assert BackRow(M, z, c, k - 1) && BackRow(M, z, c, k);
      EliminationSolvesRow(h[k - 1], h[k], l[k], M[k - 1], M[k], z[k - 1], z[k], A[k],
                           c[k - 1], c[k], c[k + 1]);
      assert IntervalFits(y, h, c, cpv[k - 1], k - 1);
      assert IntervalFits(y, h, c, cpv[k], k);
      IntervalsJoin(y[k - 1], y[k], y[k + 1], c[k - 1], c[k], c[k + 1], h[k - 1], h[k], cpv[k - 1], cpv[k]);
    }
  }

  // ---------------------------------------------------------------------
  // rpol_cspline
  // ---------------------------------------------------------------------

  /** Supporting points at equal spacing x[1] - x[0]. */
  ghost predicate Equidistant(x: seq<real>)
    requires |x| >= 2
  {
    forall k :: 0 <= k < |x| ==> x[k] == x[0] + (k as real) * (x[1] - x[0])
  }

  /** Interval index of the direct-access path: the truncated offset plus one, capped at n-1. */
  function EquidistantInterval(x: seq<real>, xp: real): (ipl: int)
    requires |x| >= 2 && x[1] > x[0] && x[0] <= xp
    ensures 1 <= ipl <= |x| - 1
  {
    var dxi := 1.0 / (x[1] - x[0]);
    assert dxi > 0.0 && (xp - x[0]) * dxi >= 0.0;
    var k := ((xp - x[0]) * dxi).Floor + 1;
    if k > |x| - 1 then |x| - 1 else k
  }

  /** On an equidistant table the direct-access interval brackets xp. */
  lemma EquidistantBrackets(x: seq<real>, xp: real)
    requires |x| >= 2 && x[1] > x[0] && Equidistant(x) && x[0] <= xp <= x[|x| - 1]
    ensures var k := EquidistantInterval(x, xp);
      x[k - 1] <= xp <= x[k]
  {
    var n := |x|;
    var h := x[1] - x[0];
    var q := (xp - x[0]) * (1.0 / h);
    var f := q.Floor;
    assert q * h == xp - x[0];
    assert x[n - 1] == x[0] + ((n - 1) as real) * h;
    assert q <= (n - 1) as real by {
      var e := q - (n - 1) as real;
      assert e * h == (xp - x[0]) - ((n - 1) as real) * h;
      assert e * h <= 0.0;
      assert e > 0.0 ==> e * h > 0.0;
    }
    assert 0.0 <= q by {
      assert q < 0.0 ==> q * h < 0.0;
    }
    assert (f as real) <= q < (f as real) + 1.0;
    assert 0 <= f <= n - 1;
    var k := EquidistantInterval(x, xp);
    if f + 1 <= n - 1 {
      assert k == f + 1;
      assert x[k - 1] == x[0] + (f as real) * h;
      assert x[k] == x[0] + ((f + 1) as real) * h;
      assert (f as real) * h <= q * h;
      assert q * h <= ((f + 1) as real) * h;
    } else {
      assert k == n - 1 && f == n - 1;
      assert x[k - 1] == x[0] + ((n - 2) as real) * h;
      assert ((n - 2) as real) * h <= q * h;
    }
  }

  /** Evaluating a bracketing interval's polynomial at a supporting point gives that point's value. */
  lemma BracketNodeValue(x: seq<real>, y: seq<real>, csp: seq<CubicParams>, k: int, i: int)
    requires Interpolates(x, y, csp) && StrictlyAscending(x)
    requires 1 <= k < |x| && 0 <= i < |x| && x[k - 1] <= x[i] <= x[k]
    ensures Csx(x[i] - x[k - 1], csp[k - 1]) == y[i]
  {
    if i < k - 1 {
      AscendingPair(x, i, k - 1);
    } else if i > k {
      AscendingPair(x, k, i);
    }
  }

  /**
   * rpol_cspline: the spline value at xp, found by direct access (eq) or by
   * interp; 0 for an unusable table, and outside the table 0 (clip) or the
   * value at the nearer end.
   */
  method RpolCspline(x: seq<real>, y: seq<real>, csp: Option<seq<CubicParams>>, xp: real, eq: bool, clip: bool)
    returns (yp: real)
    requires |x| == |y|
    requires csp.Some? && |x| >= 4 ==> |csp.value| >= |x| - 1
    ensures |x| < 4 || csp.None? ==> yp == 0.0
    ensures |x| >= 4 && csp.Some? && x[1] <= x[0] ==> yp == 0.0
    ensures |x| >= 4 && csp.Some? && x[1] > x[0] && xp < x[0] ==> yp == (if clip then 0.0 else y[0])
    ensures |x| >= 4 && csp.Some? && x[1] > x[0] && x[0] <= xp && xp > x[|x| - 1]
            ==> yp == (if clip then 0.0 else y[|x| - 1])
    ensures |x| >= 4 && csp.Some? && x[1] > x[0] && x[0] <= xp <= x[|x| - 1]
            ==> exists j :: 0 <= j < |x| - 1 && yp == Csx(xp - x[j], csp.value[j])
    ensures |x| >= 4 && csp.Some? && x[1] > x[0] && x[0] <= xp <= x[|x| - 1]
            && (if eq then Equidistant(x) else StrictlyAscending(x) && |x| <= MaxSearchable)
            ==> exists j :: 0 <= j < |x| - 1 && x[j] <= xp <= x[j + 1]
                            && yp == Csx(xp - x[j], csp.value[j])
    ensures |x| >= 4 && csp.Some? && x[1] > x[0] && x[0] <= xp <= x[|x| - 1]
            && (if eq then Equidistant(x) else |x| <= MaxSearchable)
            && StrictlyAscending(x) && Interpolates(x, y, csp.value)
            ==> forall i :: 0 <= i < |x| && x[i] == xp ==> yp == y[i]
  {
    var n := |x|;
    if n < 4 || csp.None? {
      return 0.0;
    }
    if x[1] <= x[0] {
      return 0.0;
    }
    if xp < x[0] {
      return if clip then 0.0 else y[0];
    } else if xp > x[n - 1] {
      return if clip then 0.0 else y[n - 1];
    }
    var ipl := 1;
    if eq {
      ipl := EquidistantInterval(x, xp);
    } else {
      var loc := Interp(xp, x);
      if loc.Located? {
        ipl := loc.ipl;
      }
    }
    var r := xp - x[ipl - 1];
    yp := Csx(r, csp.value[ipl - 1]);

    if eq && Equidistant(x) {
      EquidistantBrackets(x, xp);
    }
    ghost var bracketed := x[ipl - 1] <= xp <= x[ipl];
    if bracketed && StrictlyAscending(x) && Interpolates(x, y, csp.value) {
      forall i | 0 <= i < n && x[i] == xp
        ensures yp == y[i]
      {
        BracketNodeValue(x, y, csp.value, ipl, i);
      }
    }
  }
}
