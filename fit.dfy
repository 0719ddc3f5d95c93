/** The power-law fit extractor: it selects the (delta, m) points to fit,
    regresses log m on log delta by ordinary least squares, reports the
    coefficient of determination, and picks a fit range automatically.
    The logarithm `ln` and the exponential `exp` are parameters. The
    regression itself (`Ols`) works on the logged values in closed form. */
module Fit {
  import opened Numerics
  import opened Reductions

  /** The fit record: a failure with its reason, or the fitted exponent,
      prefactor C = exp(logC), R^2, point count and the range used. */
  datatype FitResult =
    | Failure(reason: string)
    | Success(alpha: real, c: real, logC: real, r2: real, npts: nat, fitRange: (real, real))

  const NotEnoughPoints: string := "Not enough points in fit range with m>0."

  /** The fewest points a fit is attempted on. */
  const MinPoints: nat := 5

  /** `(delta >= dmin) & (delta <= dmax) & (m > 0)`. */
  function SelectionMask(delta: seq<real>, m: seq<real>, fitRange: (real, real)): (mask: seq<bool>)
    requires |delta| == |m|
    ensures |mask| == |delta|
  {
    seq(|delta|, k requires 0 <= k < |delta| => fitRange.0 <= delta[k] && delta[k] <= fitRange.1 && 0.0 < m[k])
  }

  /** `np.log` applied entrywise. */
  function Logs(s: seq<real>, ln: real -> real): (r: seq<real>)
    ensures |r| == |s|
    ensures forall k :: 0 <= k < |s| ==> r[k] == ln(s[k])
  {
    seq(|s|, k requires 0 <= k < |s| => ln(s[k]))
  }

  /** A fitted line y = alpha * x + logC. */
  datatype Line = Line(alpha: real, logC: real)

  /** The deviations of `s` from its mean. */
  function Centered(s: seq<real>): (c: seq<real>)
    requires |s| > 0
    ensures |c| == |s|
    ensures forall k :: 0 <= k < |s| ==> c[k] == s[k] - Mean(s)
  {
    seq(|s|, k requires 0 <= k < |s| => s[k] - Mean(s))
  }

  /** `np.linalg.lstsq` on the design matrix [x, 1]: the least-squares line
      through the points (x[k], y[k]). When the x values are not all equal
      it is the unique solution; when they are, the system has rank one and
      lstsq returns the solution of least norm, mean(y) * (x0, 1) /
      (x0^2 + 1). */
  function Ols(x: seq<real>, y: seq<real>): Line
    requires |x| == |y| > 0
  {
    var cx := Centered(x);
    var sxx := Dot(cx, cx);
    if sxx != 0.0 then
      var alpha := Dot(cx, Centered(y)) / sxx;
      Line(alpha, Mean(y) - alpha * Mean(x))
    else
      var x0 := x[0];
      SqNonneg(x0);
      var w := Mean(y) / (Sq(x0) + 1.0);
      Line(x0 * w, w)
  }

  /** `y - (alpha * x + logC)` entrywise. */
  function Residuals(x: seq<real>, y: seq<real>, p: Line): (e: seq<real>)
    requires |x| == |y|
    ensures |e| == |x|
    ensures forall k :: 0 <= k < |x| ==> e[k] == y[k] - (p.alpha * x[k] + p.logC)
  {
    seq(|x|, k requires 0 <= k < |x| => y[k] - (p.alpha * x[k] + p.logC))
  }

  /** The residual sum of squares of line `p`. */
  function SsRes(x: seq<real>, y: seq<real>, p: Line): real
    requires |x| == |y|
  {
    var e := Residuals(x, y, p);
    Dot(e, e)
  }

  /** The total sum of squares; 0.0 for a single point. */
  function SsTot(y: seq<real>): real
  {
    if |y| > 1 then
      var c := Centered(y);
      Dot(c, c)
    else 0.0
  }

  /** R^2 = 1 - ss_res / ss_tot, and 1.0 by convention when ss_tot is not
      positive. */
  function RSquared(ssRes: real, ssTot: real): real
  {
    if ssTot > 0.0 then 1.0 - ssRes / ssTot else 1.0
  }

  /** The logged coordinates of the selected points, in order. */
  function SelectedLogs(delta: seq<real>, m: seq<real>, fitRange: (real, real), ln: real -> real)
    : (xy: (seq<real>, seq<real>))
    requires |delta| == |m|
    ensures |xy.0| == |xy.1| == CountTrue(SelectionMask(delta, m, fitRange))
  {
    var mask := SelectionMask(delta, m, fitRange);
    (Logs(Compress(delta, mask), ln), Logs(Compress(m, mask), ln))
  }

  /** `fit_powerlaw`: fails with a reason when fewer than five points lie
      in the closed range with m > 0; otherwise fits log m against
      log delta over exactly those points and reports how many there were
      and the range it was given. */
  function FitPowerlaw(delta: seq<real>, m: seq<real>, fitRange: (real, real), ln: real -> real, exp: real -> real)
    : (r: FitResult)
    requires |delta| == |m|
    ensures r.Failure? <==> CountTrue(SelectionMask(delta, m, fitRange)) < MinPoints
    ensures r.Failure? ==> r.reason == NotEnoughPoints
    ensures r.Success? ==>
      && r.npts == CountTrue(SelectionMask(delta, m, fitRange))
      && r.fitRange == fitRange
      && r.c == exp(r.logC)
  {
    var npts := CountTrue(SelectionMask(delta, m, fitRange));
    if npts < MinPoints then Failure(NotEnoughPoints)
    else
      var xy := SelectedLogs(delta, m, fitRange, ln);
      var p := Ols(xy.0, xy.1);
      Success(p.alpha, exp(p.logC), p.logC, RSquared(SsRes(xy.0, xy.1, p), SsTot(xy.1)), npts, fitRange)
  }

  /** The selection holds exactly the points in the closed range with a
      positive measure. */
  lemma {:induction false} SelectionExact(delta: seq<real>, m: seq<real>, fitRange: (real, real))
    requires |delta| == |m|
    ensures forall k :: 0 <= k < |delta| ==>
      (SelectionMask(delta, m, fitRange)[k] <==> fitRange.0 <= delta[k] <= fitRange.1 && 0.0 < m[k])
  {
  }

  /** Deviations from the mean sum to zero. */
  lemma {:induction false} CenteredSumZero(s: seq<real>)
    requires |s| > 0
    ensures Sum(Centered(s)) == 0.0
  {
    var ones := Ones(|s|);
    SumLinear(s, ones, Centered(s), 1.0, -Mean(s));
    SumConst(ones, 1.0);
    MeanTimesCount(Sum(s), |s| as real);
  }

  lemma {:induction false} MeanTimesCount(total: real, n: real)
    requires 0.0 < n
    ensures total - (total / n) * n == 0.0
  {
  }

  /** The mean of points on a line is the line at the mean. */
  lemma {:induction false} MeanOfLine(x: seq<real>, y: seq<real>, a: real, b: real)
    requires |x| == |y| > 0
    requires forall k :: 0 <= k < |x| ==> y[k] == a * x[k] + b
    ensures Mean(y) == a * Mean(x) + b
  {
    var ones := Ones(|x|);
    SumLinear(x, ones, y, a, b);
    SumConst(ones, 1.0);
    DivideLine(Sum(x), |x| as real, a, b);
  }

  lemma {:induction false} DivideLine(sx: real, n: real, a: real, b: real)
    requires 0.0 < n
    ensures (a * sx + b * (n * 1.0)) / n == a * (sx / n) + b
  {
    var q := sx / n;
    assert sx == q * n;
    assert a * sx + b * (n * 1.0) == (a * q + b) * n;
  }

  /** When the spread of x is zero, every x equals the first one. */
  lemma {:induction false} FlatX(x: seq<real>)
    requires |x| > 0
    requires Dot(Centered(x), Centered(x)) == 0.0
    ensures forall k :: 0 <= k < |x| ==> x[k] == Mean(x) == x[0]
  {
    DotSelf(Centered(x));
  }

  /** The spread of x is positive as soon as two x values differ. */
  lemma {:induction false} SpreadPositive(x: seq<real>, i: nat, j: nat)
    requires i < |x| && j < |x| && x[i] != x[j]
    ensures 0.0 < Dot(Centered(x), Centered(x))
  {
    DotSelf(Centered(x));
    if Dot(Centered(x), Centered(x)) == 0.0 {
      FlatX(x);
      assert false;
    }
  }

  /** The least-norm point on the line alpha * x0 + logC = ym. */
  lemma {:induction false} MinNormOnLine(x0: real, ym: real)
    ensures Sq(x0) + 1.0 > 0.0
    ensures x0 * (ym / (Sq(x0) + 1.0)) * x0 + ym / (Sq(x0) + 1.0) == ym
  {
    SqNonneg(x0);
    var w := ym / (Sq(x0) + 1.0);
    assert w * (Sq(x0) + 1.0) == ym;
    assert x0 * w * x0 + w == w * (Sq(x0) + 1.0);
  }

  /** The fitted line passes through the centroid (mean x, mean y) of the
      points. */
  lemma {:induction false} OlsThroughCentroid(x: seq<real>, y: seq<real>)
    requires |x| == |y| > 0
    ensures Ols(x, y).alpha * Mean(x) + Ols(x, y).logC == Mean(y)
  {
    var cx := Centered(x);
    if Dot(cx, cx) == 0.0 {
      FlatX(x);
      MinNormOnLine(x[0], Mean(y));
    }
  }

  lemma {:induction false} ResidualAt(yk: real, xk: real, a: real, c: real, ym: real, xm: real)
    requires a * xm + c == ym
    ensures yk - (a * xk + c) == (yk - ym) - a * (xk - xm)
  {
  }

  /** The residuals of a line through the centroid are the centred y minus
      its slope times the centred x. */
  lemma {:induction false} ResidualsCentered(x: seq<real>, y: seq<real>, p: Line)
    requires |x| == |y| > 0
    requires p.alpha * Mean(x) + p.logC == Mean(y)
    ensures IsDifference(Residuals(x, y, p), Centered(y), Centered(x), p.alpha)
  {
    var mx, my := Mean(x), Mean(y);
    forall k | 0 <= k < |x|
      ensures Residuals(x, y, p)[k] == Centered(y)[k] - p.alpha * Centered(x)[k]
    {
      ResidualAt(y[k], x[k], p.alpha, p.logC, my, mx);
    }
  }

  /** A line through the centroid whose slope solves
      alpha * Sxx == Sxy leaves residuals orthogonal to the centred x. */
  lemma {:induction false} SlopeOrthogonal(x: seq<real>, y: seq<real>, p: Line)
    requires |x| == |y| > 0
    requires p.alpha * Mean(x) + p.logC == Mean(y)
    requires p.alpha * Dot(Centered(x), Centered(x)) == Dot(Centered(x), Centered(y))
    ensures Dot(Residuals(x, y, p), Centered(x)) == 0.0
  {
    ResidualsCentered(x, y, p);
    OrthogonalAfterSlope(Residuals(x, y, p), Centered(x), Centered(y), p.alpha);
  }

  /** Removing alpha times cx from cy, where alpha is the regression slope,
      leaves a sequence orthogonal to cx. */
  lemma {:induction false} OrthogonalAfterSlope(e: seq<real>, cx: seq<real>, cy: seq<real>, alpha: real)
    requires IsDifference(e, cy, cx, alpha)
    requires alpha * Dot(cx, cx) == Dot(cx, cy)
    ensures Dot(e, cx) == 0.0
  {
    DotSub(cy, cx, e, cx, alpha);
    DotComm(cy, cx);
  }

  /** Every sequence is orthogonal to a sequence of zero norm. */
  lemma {:induction false} OrthogonalToNull(e: seq<real>, c: seq<real>)
    requires |e| == |c|
    requires Dot(c, c) == 0.0
    ensures Dot(e, c) == 0.0
  {
    DotSelf(c);
    DotConst(e, c, 0.0);
  }

  /** The two conditions that characterise a least-squares line: it
      passes through the centroid, and its slope solves
      alpha * Sxx == Sxy. */
  predicate SolvesNormal(x: seq<real>, y: seq<real>, p: Line)
    requires |x| == |y| > 0
  {
    && p.alpha * Mean(x) + p.logC == Mean(y)
    && p.alpha * Dot(Centered(x), Centered(x)) == Dot(Centered(x), Centered(y))
  }

  /** The fitted line meets both conditions, in the full-rank and in the
      rank-deficient case. */
  lemma {:induction false} OlsSolvesNormal(x: seq<real>, y: seq<real>)
    requires |x| == |y| > 0
    ensures SolvesNormal(x, y, Ols(x, y))
  {
    var cx, cy := Centered(x), Centered(y);
    OlsThroughCentroid(x, y);
    if Dot(cx, cx) != 0.0 {
      DivCancel(Dot(cx, cy), Dot(cx, cx));
    } else {
      OrthogonalToNull(cy, cx);
      DotComm(cy, cx);
    }
  }

  /** A sequence with zero sum that is orthogonal to the centred x is
      orthogonal to x itself. */
  lemma {:induction false} OrthogonalToX(e: seq<real>, x: seq<real>)
    requires |e| == |x| > 0
    requires Sum(e) == 0.0 && Dot(e, Centered(x)) == 0.0
    ensures Dot(e, x) == 0.0
  {
    var cx := Centered(x);
    var mx := Mean(x);
    var ones := Ones(|x|);
    // x as 1 * cx + mx * ones, the shape `DotLinear` takes.
    forall k | 0 <= k < |x| ensures x[k] == 1.0 * cx[k] + mx * ones[k] {
    }
    DotLinear(cx, ones, x, e, 1.0, mx);
    DotOnes(e);
    DotComm(cx, e);
    DotComm(e, x);
    CombineZeros(Dot(x, e), Dot(cx, e), Dot(ones, e), 1.0, mx);
  }

  lemma {:induction false} CombineZeros(t: real, u: real, v: real, c: real, c': real)
    requires t == c * u + c' * v
    requires u == 0.0 && v == 0.0
    ensures t == 0.0
  {
  }

  /** A line through the centroid whose residuals are orthogonal to the
      centred x satisfies both normal equations. */
  lemma {:induction false} NormalEquationsFor(x: seq<real>, y: seq<real>, p: Line)
    requires |x| == |y| > 0
    requires SolvesNormal(x, y, p)
    ensures Sum(Residuals(x, y, p)) == 0.0 && Dot(Residuals(x, y, p), x) == 0.0
  {
    var e := Residuals(x, y, p);
    var cx, cy := Centered(x), Centered(y);
    ResidualsCentered(x, y, p);
    SumSub(cy, cx, e, p.alpha);
    CenteredSumZero(x);
    CenteredSumZero(y);
    SlopeOrthogonal(x, y, p);
    OrthogonalToX(e, x);
  }

  /** The normal equations of least squares: the residuals of the fitted
      line are orthogonal to both columns of the design matrix [x, 1]. */
  lemma {:induction false} OlsNormalEquations(x: seq<real>, y: seq<real>)
    requires |x| == |y| > 0
    ensures Sum(Residuals(x, y, Ols(x, y))) == 0.0 && Dot(Residuals(x, y, Ols(x, y)), x) == 0.0
  {
    OlsSolvesNormal(x, y);
    NormalEquationsFor(x, y, Ols(x, y));
  }

  /** The residuals of line q differ from those of line p by the pointwise
      difference of the two lines (written with `1.0 *` factors, the shape
      `DotSquareOfSum` requires). */
  lemma {:induction false} ResidualShift(yk: real, xk: real, p: Line, q: Line)
    ensures yk - (q.alpha * xk + q.logC)
         == 1.0 * (yk - (p.alpha * xk + p.logC)) + 1.0 * ((p.alpha - q.alpha) * xk + (p.logC - q.logC))
  {
  }

  /** The pointwise difference between lines p and q over the x values. */
  function LineGap(x: seq<real>, p: Line, q: Line): (d: seq<real>)
    ensures |d| == |x|
    ensures forall k :: 0 <= k < |x| ==> d[k] == (p.alpha - q.alpha) * x[k] + (p.logC - q.logC)
  {
    seq(|x|, k requires 0 <= k < |x| => (p.alpha - q.alpha) * x[k] + (p.logC - q.logC))
  }

  /** The residuals of line q are those of line p plus the gap between
      them, in the `1.0 * e[k] + 1.0 * d[k]` shape of `DotSquareOfSum`. */
  lemma {:induction false} ResidualsShifted(x: seq<real>, y: seq<real>, p: Line, q: Line)
    requires |x| == |y|
    ensures forall k :: 0 <= k < |x| ==>
      Residuals(x, y, q)[k] == 1.0 * Residuals(x, y, p)[k] + 1.0 * LineGap(x, p, q)[k]
  {
    forall k | 0 <= k < |x|
      ensures Residuals(x, y, q)[k] == 1.0 * Residuals(x, y, p)[k] + 1.0 * LineGap(x, p, q)[k]
    {
      ResidualShift(y[k], x[k], p, q);
    }
  }

  /** The gap between two lines is a combination of the two columns of the
      design matrix, so it is orthogonal to residuals that satisfy the
      normal equations. */
  lemma {:induction false} GapOrthogonal(x: seq<real>, e: seq<real>, p: Line, q: Line)
    requires |x| == |e|
    requires Sum(e) == 0.0 && Dot(e, x) == 0.0
    ensures Dot(LineGap(x, p, q), e) == 0.0
  {
    DotAffine(x, LineGap(x, p, q), e, p.alpha - q.alpha, p.logC - q.logC);
    DotComm(x, e);
    CombineZeros(Dot(LineGap(x, p, q), e), Dot(x, e), Sum(e), p.alpha - q.alpha, p.logC - q.logC);
  }

  /** Expanding the residuals of any line q around those of a line p that
      satisfies the normal equations: the sum of squares grows by the
      squares of the gap between the lines. */
  lemma {:induction false} ResidualExpansion(x: seq<real>, y: seq<real>, p: Line, q: Line)
    requires |x| == |y| > 0
    requires Sum(Residuals(x, y, p)) == 0.0 && Dot(Residuals(x, y, p), x) == 0.0
    ensures SsRes(x, y, q) == SsRes(x, y, p) + Dot(LineGap(x, p, q), LineGap(x, p, q))
  {
    var e, eq, d := Residuals(x, y, p), Residuals(x, y, q), LineGap(x, p, q);
    ResidualsShifted(x, y, p, q);
    GapOrthogonal(x, e, p, q);
    DotSquareOfSum(e, d, eq);
  }

  /** The fitted line is a least-squares line: no line has a smaller
      residual sum of squares. */
  lemma {:induction false} OlsOptimal(x: seq<real>, y: seq<real>, q: Line)
    requires |x| == |y| > 0
    ensures SsRes(x, y, Ols(x, y)) <= SsRes(x, y, q)
  {
    var p := Ols(x, y);
    OlsNormalEquations(x, y);
    assert Sum(Residuals(x, y, p)) == 0.0 && Dot(Residuals(x, y, p), x) == 0.0;
    ResidualExpansion(x, y, p, q);
    DotSelf(LineGap(x, p, q));
  }

  /** A successful `fit_powerlaw` reports the least-squares line of the
      logged selected points: no line fits them with a smaller residual
      sum of squares. */
  lemma {:induction false} FitLeastSquares(delta: seq<real>, m: seq<real>, fitRange: (real, real), ln: real -> real, exp: real -> real, q: Line)
    requires |delta| == |m|
    ensures var r := FitPowerlaw(delta, m, fitRange, ln, exp);
      var xy := SelectedLogs(delta, m, fitRange, ln);
      r.Success? ==> SsRes(xy.0, xy.1, Line(r.alpha, r.logC)) <= SsRes(xy.0, xy.1, q)
  {
    var r := FitPowerlaw(delta, m, fitRange, ln, exp);
    var xy := SelectedLogs(delta, m, fitRange, ln);
    if r.Success? {
      assert Line(r.alpha, r.logC) == Ols(xy.0, xy.1);
      OlsOptimal(xy.0, xy.1, q);
    }
  }

  /** Of two points on the line a * x0 + c = ym, the one that is a multiple
      of (x0, 1) is the shorter. */
  lemma {:induction false} ShortestOnLine(pa: real, pc: real, qa: real, qc: real, x0: real)
    requires qa * x0 + qc == pa * x0 + pc
    requires pa == x0 * pc
    ensures Sq(pa) + Sq(pc) <= Sq(qa) + Sq(qc)
  {
    var da, dc := qa - pa, qc - pc;
    assert dc == -(x0 * da);
    assert pa * da + pc * dc == 0.0 by {
      assert pa * da == x0 * pc * da;
      assert pc * dc == -(x0 * pc * da);
    }
    assert Sq(qa) == Sq(pa) + 2.0 * (pa * da) + Sq(da);
    assert Sq(qc) == Sq(pc) + 2.0 * (pc * dc) + Sq(dc);
    SqNonneg(da);
    SqNonneg(dc);
  }

  /** With all x equal the design matrix has rank one; the fit is then
      the least-norm solution: it lies on the line alpha * x0 + logC =
      mean(y) and is a multiple of the row (x0, 1), so no other solution of
      that equation is shorter. */
  lemma {:induction false} OlsRankDeficient(x: seq<real>, y: seq<real>, q: Line)
    requires |x| == |y| > 0
    requires forall k :: 0 <= k < |x| ==> x[k] == x[0]
    requires q.alpha * x[0] + q.logC == Mean(y)
    ensures Ols(x, y).alpha * x[0] + Ols(x, y).logC == Mean(y)
    ensures Ols(x, y).alpha == x[0] * Ols(x, y).logC
    ensures Sq(Ols(x, y).alpha) + Sq(Ols(x, y).logC) <= Sq(q.alpha) + Sq(q.logC)
  {
    var x0 := x[0];
    FlatNoSpread(x);
    SqNonneg(x0);
    var w := Mean(y) / (Sq(x0) + 1.0);
    var p := Ols(x, y);
    assert p == Line(x0 * w, w);
    MinNormOnLine(x0, Mean(y));
    ShortestOnLine(p.alpha, p.logC, q.alpha, q.logC, x0);
  }

  /** Equal x values have their common value as mean and no spread. */
  lemma {:induction false} FlatNoSpread(x: seq<real>)
    requires |x| > 0
    requires forall k :: 0 <= k < |x| ==> x[k] == x[0]
    ensures Mean(x) == x[0]
    ensures Dot(Centered(x), Centered(x)) == 0.0
  {
    var cx := Centered(x);
    var x0 := x[0];
    SumConst(x, x0);
    assert Mean(x) == Sum(x) / (|x| as real);
    MeanOfConst(Sum(x), x0, |x| as real);
    forall k | 0 <= k < |x| ensures cx[k] == 0.0 {
      assert cx[k] == x[k] - Mean(x) && x[k] == x0;
    }
    DotSelf(cx);
  }

  lemma {:induction false} MeanOfConst(total: real, c: real, n: real)
    requires 0.0 < n && total == n * c
    ensures total / n == c
  {
  }

  // The `+ 0.0 * (xk - xm)` term gives the `a * s + b * t` shape of `DotLinear`
  // (with b = 0), used through `CenteredOfLine` and `SlopeOfMultiple`.
  lemma {:induction false} LineAt(yk: real, xk: real, a: real, b: real, ym: real, xm: real)
    requires yk == a * xk + b && ym == a * xm + b
    ensures yk - ym == a * (xk - xm) + 0.0 * (xk - xm)
  {
  }

  // `a * s + 0.0 * s` is the value `DotLinear` gives in `SlopeOfMultiple`.
  lemma {:induction false} ProductQuotient(a: real, s: real)
    requires s != 0.0
    ensures (a * s + 0.0 * s) / s == a
  {
  }

  /** When cy is a times cx, the regression slope Dot(cx, cy) / Dot(cx, cx)
      is a. The `+ 0.0 * cx[k]` term is the `DotLinear` shape with b = 0. */
  lemma {:induction false} SlopeOfMultiple(cx: seq<real>, cy: seq<real>, a: real)
    requires |cx| == |cy|
    requires forall k :: 0 <= k < |cx| ==> cy[k] == a * cx[k] + 0.0 * cx[k]
    requires Dot(cx, cx) != 0.0
    ensures Dot(cx, cy) / Dot(cx, cx) == a
  {
    DotLinear(cx, cx, cy, cx, a, 0.0);
    DotComm(cx, cy);
    ProductQuotient(a, Dot(cx, cx));
  }

  /** Points on y = a * x + b have centred y equal to a times centred x
      (with a `+ 0.0 * Centered(x)[k]` term, as `SlopeOfMultiple` takes it). */
  lemma {:induction false} CenteredOfLine(x: seq<real>, y: seq<real>, a: real, b: real)
    requires |x| == |y| > 0
    requires forall k :: 0 <= k < |x| ==> y[k] == a * x[k] + b
    ensures forall k :: 0 <= k < |x| ==> Centered(y)[k] == a * Centered(x)[k] + 0.0 * Centered(x)[k]
  {
    MeanOfLine(x, y, a, b);
    forall k | 0 <= k < |x| ensures Centered(y)[k] == a * Centered(x)[k] + 0.0 * Centered(x)[k] {
      LineAt(y[k], x[k], a, b, Mean(y), Mean(x));
    }
  }

  /** Points on y = a * x + b with spread-out x give back slope a. */
  lemma {:induction false} OlsSlopeOfLine(x: seq<real>, y: seq<real>, a: real, b: real)
    requires |x| == |y| > 0
    requires forall k :: 0 <= k < |x| ==> y[k] == a * x[k] + b
    requires Dot(Centered(x), Centered(x)) != 0.0
    ensures Ols(x, y).alpha == a
  {
    var cx, cy := Centered(x), Centered(y);
    CenteredOfLine(x, y, a, b);
    SlopeOfMultiple(cx, cy, a);
    assert Dot(cx, cy) / Dot(cx, cx) == a;
  }

  /** A line that lies on every point leaves no residual. */
  lemma {:induction false} ExactResidualsZero(x: seq<real>, y: seq<real>, a: real, b: real)
    requires |x| == |y|
    requires forall k :: 0 <= k < |x| ==> y[k] == a * x[k] + b
    ensures SsRes(x, y, Line(a, b)) == 0.0
  {
    var e := Residuals(x, y, Line(a, b));
    forall k | 0 <= k < |x| ensures e[k] == 0.0 {
    }
    DotSelf(e);
  }

  lemma {:induction false} InterceptOf(pa: real, pc: real, a: real, b: real, mx: real, my: real)
    requires pa == a && pa * mx + pc == my && my == a * mx + b
    ensures pc == b
  {
  }

  /** A line with slope a through the centroid of points on y = a * x + b
      has intercept b. */
  lemma {:induction false} InterceptOfLine(x: seq<real>, y: seq<real>, p: Line, a: real, b: real)
    requires |x| == |y| > 0
    requires forall k :: 0 <= k < |x| ==> y[k] == a * x[k] + b
    requires p.alpha == a && p.alpha * Mean(x) + p.logC == Mean(y)
    ensures p.logC == b
  {
    MeanOfLine(x, y, a, b);
    InterceptOf(p.alpha, p.logC, a, b, Mean(x), Mean(y));
  }

  /** Points on y = a * x + b with spread-out x give back intercept b. */
  lemma {:induction false} OlsInterceptOfLine(x: seq<real>, y: seq<real>, a: real, b: real)
    requires |x| == |y| > 0
    requires forall k :: 0 <= k < |x| ==> y[k] == a * x[k] + b
    requires Dot(Centered(x), Centered(x)) != 0.0
    ensures Ols(x, y).logC == b
  {
    var p := Ols(x, y);
    OlsSlopeOfLine(x, y, a, b);
    OlsThroughCentroid(x, y);
    InterceptOfLine(x, y, p, a, b);
  }

  /** Points on y = a * x + b with two distinct x values give back the
      line. */
  lemma {:induction false} OlsRecoversLine(x: seq<real>, y: seq<real>, a: real, b: real, i: nat, j: nat)
    requires |x| == |y| > 0
    requires forall k :: 0 <= k < |x| ==> y[k] == a * x[k] + b
    requires i < |x| && j < |x| && x[i] != x[j]
    ensures Ols(x, y) == Line(a, b)
  {
    SpreadPositive(x, i, j);
    OlsSlopeOfLine(x, y, a, b);
    OlsInterceptOfLine(x, y, a, b);
  }

  /** Exact-line recovery: points lying on y = a * x + b with at least two
      distinct x values give back slope a and intercept b with no
      residual. */
  lemma {:induction false} OlsExactLine(x: seq<real>, y: seq<real>, a: real, b: real, i: nat, j: nat)
    requires |x| == |y| > 0
    requires forall k :: 0 <= k < |x| ==> y[k] == a * x[k] + b
    requires i < |x| && j < |x| && x[i] != x[j]
    ensures Ols(x, y) == Line(a, b)
    ensures SsRes(x, y, Ols(x, y)) == 0.0
  {
    OlsRecoversLine(x, y, a, b, i, j);
    ExactResidualsZero(x, y, a, b);
  }

  /** R^2 lies in [0, 1] for the fitted line, and is 1 when the responses
      do not vary. */
  lemma {:induction false} RSquaredBounds(x: seq<real>, y: seq<real>)
    requires |x| == |y| > 0
    ensures var r2 := RSquared(SsRes(x, y, Ols(x, y)), SsTot(y));
      && 0.0 <= r2 <= 1.0
      && (SsTot(y) == 0.0 ==> r2 == 1.0)
  {
    var p := Ols(x, y);
    var ssRes := SsRes(x, y, p);
    DotSelf(Residuals(x, y, p));
    if |y| > 1 {
      // The flat line at mean(y) has ss_tot as its residual sum of squares.
      var flat := Line(0.0, Mean(y));
      assert Residuals(x, y, flat) == Centered(y);
      OlsOptimal(x, y, flat);
      var ssTot := SsTot(y);
      if ssTot > 0.0 {
        FractionExplained(ssRes, ssTot);
      }
    }
  }

  /** 1 - a / b lies in [0, 1] when 0 <= a <= b and b > 0. */
  lemma {:induction false} FractionExplained(a: real, b: real)
    requires 0.0 <= a <= b && 0.0 < b
    ensures 0.0 <= 1.0 - a / b <= 1.0
  {
    DivMono(a, b, b);
    assert b / b == 1.0;
  }

  /** Fitting points of an exact power law m = C * delta^a (in log form:
      ln m = a * ln delta + b) recovers alpha = a, logC = b and R^2 = 1,
      once five points are selected and two of them have different
      ln delta. */
  lemma {:induction false} FitExactPowerLaw(delta: seq<real>, m: seq<real>, fitRange: (real, real), ln: real -> real,
                         exp: real -> real, a: real, b: real, i: nat, j: nat)
    requires |delta| == |m|
    requires CountTrue(SelectionMask(delta, m, fitRange)) >= MinPoints
    requires forall k :: 0 <= k < |delta| && SelectionMask(delta, m, fitRange)[k] ==>
      ln(m[k]) == a * ln(delta[k]) + b
    requires i < |delta| && j < |delta|
    requires SelectionMask(delta, m, fitRange)[i] && SelectionMask(delta, m, fitRange)[j]
    requires ln(delta[i]) != ln(delta[j])
    ensures var r := FitPowerlaw(delta, m, fitRange, ln, exp);
      && r.Success?
      && r.alpha == a && r.logC == b && r.c == exp(b)
      && r.r2 == 1.0
  {
    var mask := SelectionMask(delta, m, fitRange);
    var xy := SelectedLogs(delta, m, fitRange, ln);
    var x, y := xy.0, xy.1;
    var sd := Compress(delta, mask);
    forall t | 0 <= t < |x| ensures y[t] == a * x[t] + b {
      var k := CompressSource(delta, m, mask, t);
    }
    CompressContains(delta, mask, i);
    CompressContains(delta, mask, j);
    var ti :| 0 <= ti < |sd| && sd[ti] == delta[i];
    var tj :| 0 <= tj < |sd| && sd[tj] == delta[j];
    OlsExactLine(x, y, a, b, ti, tj);
  }

  /** Every successful fit has 0 <= R^2 <= 1. */
  lemma {:induction false} FitRSquaredBounds(delta: seq<real>, m: seq<real>, fitRange: (real, real), ln: real -> real, exp: real -> real)
    requires |delta| == |m|
    ensures var r := FitPowerlaw(delta, m, fitRange, ln, exp);
      r.Success? ==> 0.0 <= r.r2 <= 1.0
  {
    if CountTrue(SelectionMask(delta, m, fitRange)) >= MinPoints {
      var xy := SelectedLogs(delta, m, fitRange, ln);
      RSquaredBounds(xy.0, xy.1);
    }
  }

  /** The band of measures the automatic range prefers. */
  const BandLow: real := 0.000001
  const BandHigh: real := 0.3

  /** The fewest band points for the band to be used. */
  const MinBandPoints: nat := 6

  /** `(m > 1e-6) & (m < 0.3)`. */
  function BandMask(m: seq<real>): (good: seq<bool>)
    ensures |good| == |m|
    ensures forall k :: 0 <= k < |m| ==> (good[k] <==> BandLow < m[k] < BandHigh)
  {
    seq(|m|, k requires 0 <= k < |m| => BandLow < m[k] && m[k] < BandHigh)
  }

  /** `int(0.2 * len)` and `int(0.8 * len)`: both are valid indices of a
      non-empty sequence, the first no larger than the second. */
  function FallbackIndices(len: nat): (ij: (nat, nat))
    ensures ij.0 <= ij.1
    ensures 0 < len ==> ij.1 < len
  {
    ((2 * len) / 10, (8 * len) / 10)
  }

  /** `suggest_fit_range`: the smallest and largest delta whose m lies in the
      band, when at least six do; otherwise the deltas at 20% and 80% of
      the index range. */
  function SuggestFitRange(delta: seq<real>, m: seq<real>): (r: (real, real))
    requires |delta| == |m| && |delta| > 0
  {
    var good := BandMask(m);
    if CountTrue(good) < MinBandPoints then
      var ij := FallbackIndices(|delta|);
      (delta[ij.0], delta[ij.1])
    else
      var d := Compress(delta, good);
      (Min(d), Max(d))
  }

  /** With fewer than six band points the range is (delta[int(0.2 len)],
      delta[int(0.8 len)]), which is ordered when delta is non-decreasing. */
  lemma {:induction false} SuggestFallback(delta: seq<real>, m: seq<real>)
    requires |delta| == |m| && |delta| > 0
    requires CountTrue(BandMask(m)) < MinBandPoints
    ensures (2 * |delta|) / 10 <= (8 * |delta|) / 10 < |delta|
    ensures SuggestFitRange(delta, m) == (delta[(2 * |delta|) / 10], delta[(8 * |delta|) / 10])
    ensures NonDecreasing(delta) ==> SuggestFitRange(delta, m).0 <= SuggestFitRange(delta, m).1
  {
  }

  /** With at least six band points the range is the tightest one holding
      all of them: every band point lies in it and both ends are deltas of
      band points. */
  lemma {:induction false} SuggestBand(delta: seq<real>, m: seq<real>)
    requires |delta| == |m| && |delta| > 0
    requires CountTrue(BandMask(m)) >= MinBandPoints
    ensures var r := SuggestFitRange(delta, m);
      && r.0 <= r.1
      && (forall k :: 0 <= k < |delta| && BandLow < m[k] < BandHigh ==> r.0 <= delta[k] <= r.1)
      && (exists k :: 0 <= k < |delta| && BandLow < m[k] < BandHigh && delta[k] == r.0)
      && (exists k :: 0 <= k < |delta| && BandLow < m[k] < BandHigh && delta[k] == r.1)
  {
    var good := BandMask(m);
    var d := Compress(delta, good);
    forall k | 0 <= k < |delta| && BandLow < m[k] < BandHigh
      ensures Min(d) <= delta[k] <= Max(d)
    {
      CompressContains(delta, good, k);
    }
    var lo :| 0 <= lo < |d| && d[lo] == Min(d);
    var hi :| 0 <= hi < |d| && d[hi] == Max(d);
    var klo := CompressSource(delta, delta, good, lo);
    var khi := CompressSource(delta, delta, good, hi);
  }

  /** A suggested band range always admits a fit: every band point has
      m > 0 and lies in the range, so at least six points are selected. */
  lemma {:induction false} SuggestedBandFits(delta: seq<real>, m: seq<real>, ln: real -> real, exp: real -> real)
    requires |delta| == |m| && |delta| > 0
    requires CountTrue(BandMask(m)) >= MinBandPoints
    ensures var r := FitPowerlaw(delta, m, SuggestFitRange(delta, m), ln, exp);
      r.Success? && r.npts >= MinBandPoints
  {
    var range := SuggestFitRange(delta, m);
    SuggestBand(delta, m);
    CountMono(BandMask(m), SelectionMask(delta, m, range));
  }
}
