/** The sublevel-set measurement pipeline: the configuration of relative
    thresholds, the sublevel curves m(delta), Q1, Q2 and R, the Fisher-like
    schedule J(eps) and the one-shot S(eps0) diagnostic. */
module Measurements {
  import opened Wrappers
  import opened Numerics
  import opened Grid
  import opened Reductions
  import Spectral
  import Fields

  /** `MeasureConfig`: relative delta thresholds, relative eps schedule, the
      diagnostic threshold M (carried, never read by the pipeline) and L. */
  datatype MeasureConfig = MeasureConfig(deltas: seq<real>, epsSchedule: seq<real>, mThreshold: real, l: real)

  /** Exponent i of `np.linspace(start, stop, num)`. */
  function LinspaceAt(start: real, stop: real, num: nat, i: nat): real
    requires num > 1
  {
    start + (i as real) * ((stop - start) / ((num - 1) as real))
  }

  /** `np.logspace(start, stop, num)`: 10 raised to `num` evenly spaced
      exponents from `start` to `stop`, both included. */
  function Logspace(start: real, stop: real, num: nat, pow10: real -> real): (r: seq<real>)
    ensures |r| == num
  {
    if num <= 1 then seq(num, _ => pow10(start))
    else seq(num, i requires 0 <= i => pow10(LinspaceAt(start, stop, num, i)))
  }

  lemma LinspaceIncreasing(start: real, stop: real, num: nat, i: nat, j: nat)
    requires num > 1 && start < stop && i < j
    ensures LinspaceAt(start, stop, num, i) < LinspaceAt(start, stop, num, j)
  {
    var step := (stop - start) / ((num - 1) as real);
    assert 0.0 < step;
    MulStrict(i as real, j as real, step);
  }

  /** With a lawful power of ten, an increasing exponent range gives
      strictly positive, strictly increasing thresholds. */
  lemma LogspaceIncreasing(start: real, stop: real, num: nat, pow10: real -> real)
    requires IsPow10(pow10)
    requires start < stop
    ensures AllPositive(Logspace(start, stop, num, pow10))
    ensures StrictlyIncreasing(Logspace(start, stop, num, pow10))
  {
    var r := Logspace(start, stop, num, pow10);
    if num > 1 {
      forall i, j | 0 <= i < j < num ensures r[i] < r[j] {
        LinspaceIncreasing(start, stop, num, i, j);
      }
    }
  }

  /** `default_config`: 28 delta bins from 10^-4 to 10^-0.3 and 18 eps
      values from 10^-6 to 10^-1, both logarithmically spaced, M = 1. The
      grid size `n` is accepted and not used, as in the source. */
  function DefaultConfig(n: nat, l: real, pow10: real -> real): (c: MeasureConfig)
    ensures |c.deltas| == 28 && |c.epsSchedule| == 18
    ensures c.mThreshold == 1.0 && c.l == l
  {
    MeasureConfig(Logspace(-4.0, -0.3, 28, pow10), Logspace(-6.0, -1.0, 18, pow10), 1.0, l)
  }

  /** The default thresholds are strictly positive and strictly increasing. */
  lemma DefaultConfigIncreasing(n: nat, l: real, pow10: real -> real)
    requires IsPow10(pow10)
    ensures var c := DefaultConfig(n, l, pow10);
      && AllPositive(c.deltas) && StrictlyIncreasing(c.deltas)
      && AllPositive(c.epsSchedule) && StrictlyIncreasing(c.epsSchedule)
  {
    LogspaceIncreasing(-4.0, -0.3, 28, pow10);
    LogspaceIncreasing(-6.0, -1.0, 18, pow10);
  }

  /** Entries of `s` multiplied by `c` (`config.deltas * scale`). */
  function Scaled(s: seq<real>, c: real): (r: seq<real>)
    ensures |r| == |s|
    ensures forall k :: 0 <= k < |s| ==> r[k] == s[k] * c
  {
    seq(|s|, k requires 0 <= k < |s| => s[k] * c)
  }

  /** The magnitude scale: the RMS when it is positive, 1.0 otherwise. */
  function ScaleOf(rms: real): (scale: real)
    ensures 0.0 < scale
    ensures rms > 0.0 ==> scale == rms
    ensures rms <= 0.0 ==> scale == 1.0
  {
    if rms > 0.0 then rms else 1.0
  }

  /** `om < delta`, the sublevel set of the magnitude field. */
  function SublevelMask(om: ScalarField, delta: real): (mask: seq<bool>)
    ensures |mask| == |om|
    ensures forall k :: 0 <= k < |om| ==> (mask[k] <==> om[k] < delta)
  {
    seq(|om|, k requires 0 <= k < |om| => om[k] < delta)
  }

  /** m(delta) = `np.mean(om < delta)`, the fraction of grid points in the
      sublevel set. */
  function SublevelMeasure(om: ScalarField, delta: real): (m: real)
    requires |om| > 0
    ensures 0.0 <= m <= 1.0
  {
    (CountTrue(SublevelMask(om, delta)) as real) / (|om| as real)
  }

  /** `np.sum(w[om < delta]) * dV`, the integral of `w` over the sublevel set. */
  function SublevelIntegral(w: ScalarField, om: ScalarField, delta: real, dV: real): real
    requires |w| == |om|
  {
    MaskedSum(w, SublevelMask(om, delta)) * dV
  }

  /** The sublevel sets are nested. */
  lemma SublevelMaskNested(om: ScalarField, d1: real, d2: real)
    requires d1 <= d2
    ensures forall k :: 0 <= k < |om| && SublevelMask(om, d1)[k] ==> SublevelMask(om, d2)[k]
  {
  }

  /** On a field that vanishes everywhere every positive threshold captures
      the whole grid. */
  lemma MeasureOfZeroField(om: ScalarField, delta: real)
    requires |om| > 0
    requires forall k :: 0 <= k < |om| ==> om[k] == 0.0
    requires 0.0 < delta
    ensures SublevelMeasure(om, delta) == 1.0
  {
    CountAll(SublevelMask(om, delta));
    assert (|om| as real) / (|om| as real) == 1.0;
  }

  /** m is non-decreasing in delta. */
  lemma MeasureMonotone(om: ScalarField, d1: real, d2: real)
    requires |om| > 0
    requires d1 <= d2
    ensures SublevelMeasure(om, d1) <= SublevelMeasure(om, d2)
  {
    CountMono(SublevelMask(om, d1), SublevelMask(om, d2));
    DivMono(CountTrue(SublevelMask(om, d1)) as real, CountTrue(SublevelMask(om, d2)) as real, |om| as real);
  }

  /** An integral of a non-negative density over a sublevel set is
      non-negative and grows with the threshold. */
  lemma IntegralMonotone(w: ScalarField, om: ScalarField, d1: real, d2: real, dV: real)
    requires |w| == |om|
    requires forall k :: 0 <= k < |w| ==> 0.0 <= w[k]
    requires 0.0 <= dV
    requires d1 <= d2
    ensures 0.0 <= SublevelIntegral(w, om, d1, dV) <= SublevelIntegral(w, om, d2, dV)
  {
    MaskedSumNonneg(w, SublevelMask(om, d1));
    MaskedSumMono(w, SublevelMask(om, d1), SublevelMask(om, d2));
    MulNonnegMono(MaskedSum(w, SublevelMask(om, d1)), MaskedSum(w, SublevelMask(om, d2)), dV);
  }

  /** The Fisher integrand gradient-load / (om^2 + eps^2) at every point. */
  function FisherTerms(g2: ScalarField, om: ScalarField, eps: real): (terms: seq<real>)
    requires |g2| == |om|
    requires eps != 0.0
    ensures |terms| == |om|
  {
    SqPos(eps);
    forall k | 0 <= k < |om| ensures 0.0 < Sq(om[k]) + Sq(eps) {
      SqNonneg(om[k]);
    }
    seq(|om|, k requires 0 <= k < |om| => g2[k] / (Sq(om[k]) + Sq(eps)))
  }

  /** J(eps) = `np.sum(grad_om2 / (om**2 + eps*eps)) * dV`. */
  function FisherIntegral(g2: ScalarField, om: ScalarField, eps: real, dV: real): real
    requires |g2| == |om|
    requires eps != 0.0
  {
    Sum(FisherTerms(g2, om, eps)) * dV
  }

  /** Each Fisher term is non-negative and shrinks as eps grows. */
  lemma FisherTermsOrdered(g2: ScalarField, om: ScalarField, e1: real, e2: real)
    requires |g2| == |om|
    requires forall k :: 0 <= k < |g2| ==> 0.0 <= g2[k]
    requires 0.0 < e1 <= e2
    ensures forall k :: 0 <= k < |om| ==> 0.0 <= FisherTerms(g2, om, e2)[k] <= FisherTerms(g2, om, e1)[k]
  {
    SqMono(e1, e2);
    SqPos(e1);
    forall k | 0 <= k < |om| ensures 0.0 <= FisherTerms(g2, om, e2)[k] <= FisherTerms(g2, om, e1)[k] {
      SqNonneg(om[k]);
      DivDenominatorMono(g2[k], Sq(om[k]) + Sq(e1), Sq(om[k]) + Sq(e2));
    }
  }

  /** J is non-negative, and it does not grow as eps grows. */
  lemma FisherMonotone(g2: ScalarField, om: ScalarField, e1: real, e2: real, dV: real)
    requires |g2| == |om|
    requires forall k :: 0 <= k < |g2| ==> 0.0 <= g2[k]
    requires 0.0 <= dV
    requires 0.0 < e1 <= e2
    ensures 0.0 <= FisherIntegral(g2, om, e2, dV) <= FisherIntegral(g2, om, e1, dV)
  {
    var t1, t2 := FisherTerms(g2, om, e1), FisherTerms(g2, om, e2);
    FisherTermsOrdered(g2, om, e1, e2);
    TotalsOrdered(t2, t1, dV);
  }

  /** Entrywise ordered non-negative terms give ordered non-negative totals
      times a non-negative cell volume. */
  lemma TotalsOrdered(lo: seq<real>, hi: seq<real>, dV: real)
    requires |lo| == |hi|
    requires forall k :: 0 <= k < |lo| ==> 0.0 <= lo[k] <= hi[k]
    requires 0.0 <= dV
    ensures 0.0 <= Sum(lo) * dV <= Sum(hi) * dV
  {
    SumNonneg(lo);
    SumMono(lo, hi);
    MulNonnegMono(Sum(lo), Sum(hi), dV);
  }

  lemma FisherNonneg(g2: ScalarField, om: ScalarField, eps: real, dV: real)
    requires |g2| == |om|
    requires forall k :: 0 <= k < |g2| ==> 0.0 <= g2[k]
    requires 0.0 <= dV
    requires eps != 0.0
    ensures 0.0 <= FisherIntegral(g2, om, eps, dV)
  {
    var t := FisherTerms(g2, om, eps);
    SqPos(eps);
    forall k | 0 <= k < |om| ensures 0.0 <= t[k] {
      SqNonneg(om[k]);
    }
    SumNonneg(t);
    MulNonnegMono(0.0, Sum(t), dV);
  }

  /** `np.sqrt(grad_om2)`, the gradient magnitude density. */
  function SqrtField(g2: ScalarField, sqrt: real -> real): (g: ScalarField)
    requires IsSqrt(sqrt)
    ensures |g| == |g2|
    ensures forall k :: 0 <= k < |g2| && 0.0 <= g2[k] ==> 0.0 <= g[k] && Sq(g[k]) == g2[k]
  {
    seq(|g2|, k requires 0 <= k < |g2| => sqrt(g2[k]))
  }

  /** R(delta), the strain-norm integral over the sublevel set, when a
      strain norm is available. */
  function Residue(sop: Option<ScalarField>, om: ScalarField, delta: real, dV: real): (r: Option<real>)
    requires sop.Some? ==> |sop.value| == |om|
    ensures r.Some? <==> sop.Some?
    ensures sop.Some? ==> r.value == SublevelIntegral(sop.value, om, delta, dV)
  {
    if sop.Some? then Some(SublevelIntegral(sop.value, om, delta, dV)) else None
  }

  /** The sublevel loop: for every absolute threshold, m, Q1, Q2 and R
      (R is `None` for every threshold when no strain norm is available).
      `gm` is the gradient magnitude `np.sqrt(grad_om2)`, which the source
      recomputes on every pass and which does not depend on the threshold. */
  method SublevelCurves(om: ScalarField, g2: ScalarField, gm: ScalarField, sop: Option<ScalarField>, deltasAbs: seq<real>, dV: real)
    returns (m: seq<real>, q1: seq<real>, q2: seq<real>, r: seq<Option<real>>)
    requires |om| > 0 && |g2| == |om| && |gm| == |om| && (sop.Some? ==> |sop.value| == |om|)
    ensures |m| == |q1| == |q2| == |r| == |deltasAbs|
    ensures forall k :: 0 <= k < |deltasAbs| ==> m[k] == SublevelMeasure(om, deltasAbs[k])
    ensures forall k :: 0 <= k < |deltasAbs| ==> q1[k] == SublevelIntegral(gm, om, deltasAbs[k], dV)
    ensures forall k :: 0 <= k < |deltasAbs| ==> q2[k] == SublevelIntegral(g2, om, deltasAbs[k], dV)
    ensures forall k :: 0 <= k < |deltasAbs| ==> r[k] == Residue(sop, om, deltasAbs[k], dV)
  {
    m, q1, q2, r := [], [], [], [];
    for i := 0 to |deltasAbs|
      invariant |m| == |q1| == |q2| == |r| == i
      invariant forall k :: 0 <= k < i ==>
        && m[k] == SublevelMeasure(om, deltasAbs[k])
        && q1[k] == SublevelIntegral(gm, om, deltasAbs[k], dV)
        && q2[k] == SublevelIntegral(g2, om, deltasAbs[k], dV)
        && r[k] == Residue(sop, om, deltasAbs[k], dV)
    {
      var mask := SublevelMask(om, deltasAbs[i]);
      var rk := if sop.Some? then Some(MaskedSum(sop.value, mask) * dV) else None;
      m := m + [(CountTrue(mask) as real) / (|om| as real)];
      q1 := q1 + [MaskedSum(gm, mask) * dV];
      q2 := q2 + [MaskedSum(g2, mask) * dV];
      r := r + [rk];
      if sop.Some? {
        assert rk.value == SublevelIntegral(sop.value, om, deltasAbs[i], dV);
      }
    }
  }

  /** The Fisher loop: J(eps) for every absolute eps. */
  method FisherSchedule(om: ScalarField, g2: ScalarField, epsAbs: seq<real>, dV: real)
    returns (j: seq<real>)
    requires |g2| == |om|
    requires forall k :: 0 <= k < |epsAbs| ==> epsAbs[k] != 0.0
    ensures |j| == |epsAbs|
    ensures forall k :: 0 <= k < |epsAbs| ==> j[k] == FisherIntegral(g2, om, epsAbs[k], dV)
  {
    j := [];
    for i := 0 to |epsAbs|
      invariant |j| == i
      invariant forall k :: 0 <= k < i ==> j[k] == FisherIntegral(g2, om, epsAbs[k], dV)
    {
      var eps := epsAbs[i];
      j := j + [Sum(FisherTerms(g2, om, eps)) * dV];
    }
  }

  /** A snapshot: grid side `n`, the optional vorticity and velocity fields
      (at least one present) and the optional scalars L, nu and t. */
  datatype Snapshot = Snapshot(n: nat, omega: Option<VectorField>, u: Option<VectorField>,
                               l: Option<real>, nu: Option<real>, t: Option<real>)

  /** The number of grid points n^3. */
  function Points(s: Snapshot): (count: nat)
    ensures s.n > 0 ==> count > 0
  {
    s.n * s.n * s.n
  }

  /** The source reads `omega` or, failing that, `u`, each of shape
      (3, n, n, n); a snapshot with neither raises. */
  predicate ValidSnapshot(s: Snapshot)
  {
    && s.n > 0
    && (s.omega.Some? || s.u.Some?)
    && (s.omega.Some? ==> IsVectorField(s.omega.value, Points(s)))
    && (s.u.Some? ==> IsVectorField(s.u.value, Points(s)))
  }

  /** The relative thresholds must be non-zero: a zero eps makes the Fisher
      denominator vanish wherever the vorticity does. */
  predicate ValidConfig(c: MeasureConfig)
  {
    forall k :: 0 <= k < |c.epsSchedule| ==> c.epsSchedule[k] != 0.0
  }

  datatype Meta = Meta(n: nat, l: real, nu: real, t: real, omegaRms: real)

  datatype Sublevel = Sublevel(deltaAbs: seq<real>, deltaRel: seq<real>, m: seq<real>,
                               q1: seq<real>, q2: seq<real>, r: seq<Option<real>>)

  datatype Fisher = Fisher(epsAbs: seq<real>, epsRel: seq<real>, j: seq<real>)

  datatype NsPcm = NsPcm(eps0Abs: real, sEps0: real, meanPsi: real, meanG: real)

  datatype Measurement = Measurement(meta: Meta, sublevel: Sublevel, fisher: Fisher, nspcm: NsPcm, notes: seq<string>)

  const MissingVelocityNote: string :=
    "u not provided: strain residue R(delta)=∫_{|ω|<δ}||S|| cannot be computed. Provide dataset `u` for full NS-PCM measurements."

  /** The box side: the snapshot's own, else the configuration's. */
  function BoxLength(s: Snapshot, c: MeasureConfig): real
  {
    s.l.GetOr(c.l)
  }

  /** The vorticity the pipeline works on: the given `omega`, or the curl of
      `u` when no `omega` is given. */
  function VorticityOf(s: Snapshot, l: real, d: Deriv): (omega: VectorField)
    requires ValidSnapshot(s) && PreservesLength(d)
    ensures IsVectorField(omega, Points(s))
  {
    if s.omega.Some? then s.omega.value
    else
      GradientIsTensorField(d, l, s.u.value, Points(s));
      Spectral.CurlOf(Gradient(d, l, s.u.value), Points(s))
  }

  /** The gradient-load density |grad omega|^2 at every point. */
  function GradLoad(d: Deriv, l: real, omega: VectorField, N: nat): (g2: ScalarField)
    requires IsVectorField(omega, N) && PreservesLength(d)
    ensures |g2| == N
    ensures forall k :: 0 <= k < N ==> 0.0 <= g2[k]
  {
    GradientIsTensorField(d, l, omega, N);
    forall k | 0 <= k < N ensures 0.0 <= NineSquares(Gradient(d, l, omega), N, k) {
      NineSquaresNonneg(Gradient(d, l, omega), N, k);
    }
    seq(N, k requires 0 <= k < N => NineSquares(Gradient(d, l, omega), N, k))
  }

  /** The strain operator norm ||S|| at every point, when `u` is given. */
  function StrainNormOf(s: Snapshot, l: real, b: Backend): (sop: Option<ScalarField>)
    requires ValidSnapshot(s) && PreservesLength(b.deriv)
    ensures sop.Some? <==> s.u.Some?
    ensures sop.Some? ==> |sop.value| == Points(s) && forall k :: 0 <= k < Points(s) ==> 0.0 <= sop.value[k]
  {
    if s.u.None? then None
    else
      var N := Points(s);
      GradientIsTensorField(b.deriv, l, s.u.value, N);
      var st := Spectral.StrainOf(Gradient(b.deriv, l, s.u.value), N);
      var op := seq(N, p requires 0 <= p < N => Spectral.MaxAbs3(b.eigvalsh(Spectral.PointMatrix(st, N, p))));
      forall p | 0 <= p < N ensures 0.0 <= op[p] {
        assert op[p] == Spectral.MaxAbs3(b.eigvalsh(Spectral.PointMatrix(st, N, p)));
      }
      Some(op)
  }

  /** `om**2` pointwise. */
  function Squares(om: ScalarField): (q: ScalarField)
    ensures |q| == |om|
    ensures forall k :: 0 <= k < |om| ==> q[k] == Sq(om[k])
  {
    seq(|om|, k requires 0 <= k < |om| => Sq(om[k]))
  }

  /** The cell volume (L/n)^3. */
  function CellVolume(l: real, n: nat): (dV: real)
    requires n > 0
    ensures 0.0 <= l ==> 0.0 <= dV
  {
    CellVolumeNonneg(l, n);
    Cube(l / (n as real))
  }

  lemma CellVolumeNonneg(l: real, n: nat)
    requires n > 0
    ensures 0.0 <= l ==> 0.0 <= Cube(l / (n as real))
  {
    if 0.0 <= l {
      CubeNonneg(l / (n as real));
    }
  }

  /** Scaling by a non-zero factor keeps entries non-zero. */
  lemma ScaledNonzero(s: seq<real>, c: real)
    requires c != 0.0
    requires forall k :: 0 <= k < |s| ==> s[k] != 0.0
    ensures forall k :: 0 <= k < |s| ==> Scaled(s, c)[k] != 0.0
  {
    forall k | 0 <= k < |s| ensures s[k] * c != 0.0 {
      MulNonzero(s[k], c);
    }
  }

  /** The sublevel block for relative thresholds `deltas` at `scale`. */
  function SublevelOf(om: ScalarField, g2: ScalarField, gm: ScalarField, sop: Option<ScalarField>,
                      deltas: seq<real>, scale: real, dV: real): (sub: Sublevel)
    requires |om| > 0 && |g2| == |om| && |gm| == |om| && (sop.Some? ==> |sop.value| == |om|)
    ensures |sub.deltaAbs| == |sub.deltaRel| == |sub.m| == |sub.q1| == |sub.q2| == |sub.r| == |deltas|
  {
    var abs := Scaled(deltas, scale);
    Sublevel(abs, deltas,
      seq(|deltas|, k requires 0 <= k < |deltas| => SublevelMeasure(om, abs[k])),
      seq(|deltas|, k requires 0 <= k < |deltas| => SublevelIntegral(gm, om, abs[k], dV)),
      seq(|deltas|, k requires 0 <= k < |deltas| => SublevelIntegral(g2, om, abs[k], dV)),
      seq(|deltas|, k requires 0 <= k < |deltas| => Residue(sop, om, abs[k], dV)))
  }

  /** The Fisher block for the relative schedule `eps` at `scale`. */
  function FisherOf(om: ScalarField, g2: ScalarField, eps: seq<real>, scale: real, dV: real): (f: Fisher)
    requires |g2| == |om| && 0.0 < scale
    requires forall k :: 0 <= k < |eps| ==> eps[k] != 0.0
    ensures |f.epsAbs| == |f.epsRel| == |f.j| == |eps|
    ensures forall k :: 0 <= k < |eps| ==> f.epsAbs[k] == eps[k] * scale && f.epsAbs[k] != 0.0
  {
    var abs := Scaled(eps, scale);
    ScaledNonzero(eps, scale);
    Fisher(abs, eps, seq(|eps|, k requires 0 <= k < |eps| => FisherIntegral(g2, om, abs[k], dV)))
  }

  /** The regularization used by the one-shot diagnostic. */
  function Eps0(scale: real): real
  {
    0.001 * scale
  }

  /** The saturated load field Psi of the unit field xi_eps0. */
  function SaturatedLoad(omega: VectorField, N: nat, l: real, eps0: real, b: Backend): (pg: (ScalarField, ScalarField))
    requires IsVectorField(omega, N) && Lawful(b)
    requires eps0 != 0.0
    ensures |pg.0| == N && |pg.1| == N
    ensures forall k :: 0 <= k < N ==> 0.0 <= pg.1[k] && 0.0 <= pg.0[k] < 1.0
  {
    Fields.XiDefined(omega, N, eps0);
    var xi := Fields.XiEpsilon(omega, N, eps0, b.sqrt).0;
    var g := GradLoad(b.deriv, l, xi, N);
    (Fields.PsiSaturated(g), g)
  }

  /** S(eps0) = sum(om^2 * Psi) dV, and the means of Psi and G. */
  function NsPcmOf(omega: VectorField, om: ScalarField, N: nat, l: real, scale: real, dV: real, b: Backend): NsPcm
    requires IsVectorField(omega, N) && |om| == N && N > 0 && Lawful(b)
    requires 0.0 < scale
  {
    var eps0 := Eps0(scale);
    var pg := SaturatedLoad(omega, N, l, eps0, b);
    var weighted := seq(N, k requires 0 <= k < N => Sq(om[k]) * pg.0[k]);
    NsPcm(eps0, Sum(weighted) * dV, Mean(pg.0), Mean(pg.1))
  }

  function NotesOf(s: Snapshot): seq<string>
  {
    if s.u.Some? then [] else [MissingVelocityNote]
  }

  /** `compute_all` as a function of the snapshot, the configuration and the
      numerical back end. */
  function Measure(s: Snapshot, c: MeasureConfig, b: Backend): Measurement
    requires ValidSnapshot(s) && ValidConfig(c) && Lawful(b)
  {
    var l := BoxLength(s, c);
    var N := Points(s);
    var omega := VorticityOf(s, l, b.deriv);
    var om := Fields.OmegaMagnitude(omega, N, b.sqrt);
    var rms := b.sqrt(Mean(Squares(om)));
    var g2 := GradLoad(b.deriv, l, omega, N);
    var scale := ScaleOf(rms);
    var dV := CellVolume(l, s.n);
    Measurement(
      Meta(s.n, l, s.nu.GetOr(1.0), s.t.GetOr(0.0), rms),
      SublevelOf(om, g2, SqrtField(g2, b.sqrt), StrainNormOf(s, l, b), c.deltas, scale, dV),
      FisherOf(om, g2, c.epsSchedule, scale, dV),
      NsPcmOf(omega, om, N, l, scale, dV, b),
      NotesOf(s))
  }

  /** The vorticity step of `compute_all`. */
  method Vorticity(s: Snapshot, l: real, d: Deriv) returns (omega: VectorField)
    requires ValidSnapshot(s) && PreservesLength(d)
    ensures omega == VorticityOf(s, l, d)
  {
    if s.omega.Some? {
      omega := s.omega.value;
    } else {
      omega := Spectral.Curl(s.u.value, Points(s), l, d);
    }
  }

  /** The strain step of `compute_all`: `||S||` when `u` is given. */
  method StrainNorm(s: Snapshot, l: real, b: Backend) returns (sop: Option<ScalarField>)
    requires ValidSnapshot(s) && PreservesLength(b.deriv)
    ensures sop == StrainNormOf(s, l, b)
  {
    if s.u.Some? {
      var st := Spectral.Strain(s.u.value, Points(s), l, b.deriv);
      var op := Spectral.OpNormSym3x3Field(st, Points(s), b.eigvalsh);
      sop := Some(op);
    } else {
      sop := None;
    }
  }

  /** The one-shot S(eps0) step of `compute_all`. */
  method OneShot(omega: VectorField, om: ScalarField, N: nat, l: real, scale: real, dV: real, b: Backend)
    returns (ns: NsPcm)
    requires IsVectorField(omega, N) && |om| == N && N > 0 && Lawful(b)
    requires 0.0 < scale
    ensures ns == NsPcmOf(omega, om, N, l, scale, dV, b)
  {
    var eps0 := Eps0(scale);
    Fields.XiDefined(omega, N, eps0);
    var xi := Fields.XiEpsilon(omega, N, eps0, b.sqrt).0;
    var gxi := Spectral.GradVector(xi, N, l, b.deriv);
    var g := Fields.GFromXi(xi, gxi, N);
    assert g == GradLoad(b.deriv, l, xi, N);
    var psi := Fields.PsiSaturated(g);
    var sEps := Sum(seq(N, k requires 0 <= k < N => Sq(om[k]) * psi[k])) * dV;
    ns := NsPcm(eps0, sEps, Mean(psi), Mean(g));
  }

  /** `compute_all`: resolves L, nu and t, takes or derives the vorticity,
      builds the magnitude, the gradient load and (with `u`) the strain
      norm, then runs the sublevel loop, the Fisher loop and the one-shot
      S(eps0) diagnostic. */
  method ComputeAll(s: Snapshot, c: MeasureConfig, b: Backend) returns (res: Measurement)
    requires ValidSnapshot(s) && ValidConfig(c) && Lawful(b)
    ensures res == Measure(s, c, b)
  {
    var l := BoxLength(s, c);
    var nu := s.nu.GetOr(1.0);
    var t := s.t.GetOr(0.0);
    var N := Points(s);
    var omega := Vorticity(s, l, b.deriv);
    var dV := CellVolume(l, s.n);
    var om := Fields.OmegaMagnitude(omega, N, b.sqrt);
    var rms := b.sqrt(Mean(Squares(om)));
    var g2 := Spectral.GradOmegaNorm2(omega, N, l, b.deriv);
    assert g2 == GradLoad(b.deriv, l, omega, N);
    var notes: seq<string> := [];
    var scale := ScaleOf(rms);
    var deltasAbs := Scaled(c.deltas, scale);
    var sop := StrainNorm(s, l, b);
    if sop.None? {
      notes := notes + [MissingVelocityNote];
    }
    var gm := SqrtField(g2, b.sqrt);
    var m, q1, q2, r := SublevelCurves(om, g2, gm, sop, deltasAbs, dV);
    var sub := Sublevel(deltasAbs, c.deltas, m, q1, q2, r);
    assert sub == SublevelOf(om, g2, gm, sop, c.deltas, scale, dV);
    var epsAbs := Scaled(c.epsSchedule, scale);
    ScaledNonzero(c.epsSchedule, scale);
    var j := FisherSchedule(om, g2, epsAbs, dV);
    var fisher := Fisher(epsAbs, c.epsSchedule, j);
    assert fisher == FisherOf(om, g2, c.epsSchedule, scale, dV);
    var ns := OneShot(omega, om, N, l, scale, dV, b);
    res := Measurement(Meta(s.n, l, nu, t, rms), sub, fisher, ns, notes);
  }

  /** The reported RMS is non-negative. */
  lemma RmsNonneg(s: Snapshot, c: MeasureConfig, b: Backend)
    requires ValidSnapshot(s) && ValidConfig(c) && Lawful(b)
    ensures 0.0 <= Measure(s, c, b).meta.omegaRms
  {
    var N := Points(s);
    var omega := VorticityOf(s, BoxLength(s, c), b.deriv);
    var om := Fields.OmegaMagnitude(omega, N, b.sqrt);
    var sq := Squares(om);
    forall k | 0 <= k < N ensures 0.0 <= sq[k] {
      SqNonneg(om[k]);
    }
    MeanNonneg(sq);
    assert Measure(s, c, b).meta.omegaRms == b.sqrt(Mean(sq));
  }

  /** The sublevel thresholds reported as absolute are the relative ones
      times the scale (the reported RMS when that is positive, 1.0
      otherwise); every sublevel list has the length of the relative
      list. */
  lemma SublevelThresholds(s: Snapshot, c: MeasureConfig, b: Backend)
    requires ValidSnapshot(s) && ValidConfig(c) && Lawful(b)
    ensures var r := Measure(s, c, b);
      && r.sublevel.deltaRel == c.deltas
      && |r.sublevel.deltaAbs| == |r.sublevel.m| == |r.sublevel.q1| == |r.sublevel.q2| == |r.sublevel.r| == |c.deltas|
      && r.sublevel.deltaAbs == Scaled(c.deltas, ScaleOf(r.meta.omegaRms))
  {
  }

  /** The Fisher thresholds reported as absolute, and eps0, are the
      relative ones times the same scale; J has one entry per eps. */
  lemma FisherThresholds(s: Snapshot, c: MeasureConfig, b: Backend)
    requires ValidSnapshot(s) && ValidConfig(c) && Lawful(b)
    ensures var r := Measure(s, c, b);
      && r.fisher.epsRel == c.epsSchedule
      && |r.fisher.epsAbs| == |r.fisher.j| == |c.epsSchedule|
      && r.fisher.epsAbs == Scaled(c.epsSchedule, ScaleOf(r.meta.omegaRms))
      && r.nspcm.eps0Abs == 0.001 * ScaleOf(r.meta.omegaRms)
  {
  }

  /** With the default configuration the sublevel lists have 28 entries and
      the Fisher lists 18. */
  lemma DefaultLengths(s: Snapshot, l: real, pow10: real -> real, b: Backend)
    requires ValidSnapshot(s) && Lawful(b) && IsPow10(pow10)
    ensures ValidConfig(DefaultConfig(s.n, l, pow10))
    ensures var r := Measure(s, DefaultConfig(s.n, l, pow10), b);
      && |r.sublevel.deltaAbs| == |r.sublevel.m| == |r.sublevel.q1| == |r.sublevel.q2| == |r.sublevel.r| == 28
      && |r.fisher.epsAbs| == |r.fisher.j| == 18
  {
    DefaultConfigIncreasing(s.n, l, pow10);
  }

  /** Every m(delta) is a fraction of the grid. */
  lemma MeasuresAreFractions(s: Snapshot, c: MeasureConfig, b: Backend)
    requires ValidSnapshot(s) && ValidConfig(c) && Lawful(b)
    ensures var m := Measure(s, c, b).sublevel.m;
      forall k :: 0 <= k < |m| ==> 0.0 <= m[k] <= 1.0
  {
  }

  /** A positive scale keeps the thresholds in order. */
  lemma ScaledMonotone(deltas: seq<real>, scale: real)
    requires NonDecreasing(deltas) && 0.0 < scale
    ensures NonDecreasing(Scaled(deltas, scale))
  {
    var abs := Scaled(deltas, scale);
    forall i, j | 0 <= i <= j < |deltas| ensures abs[i] <= abs[j] {
      MulMono(deltas[i], deltas[j], scale);
    }
  }

  /** A positive scale keeps positive, strictly increasing thresholds
      positive and strictly increasing. */
  lemma ScaledIncreasing(s: seq<real>, scale: real)
    requires AllPositive(s) && StrictlyIncreasing(s) && 0.0 < scale
    ensures AllPositive(Scaled(s, scale)) && StrictlyIncreasing(Scaled(s, scale))
  {
    var abs := Scaled(s, scale);
    forall i | 0 <= i < |s| ensures 0.0 < abs[i] {
      MulStrict(0.0, s[i], scale);
    }
    forall i, j | 0 <= i < j < |s| ensures abs[i] < abs[j] {
      MulStrict(s[i], s[j], scale);
    }
  }

  /** Positive, strictly increasing relative thresholds give reported
      absolute delta and eps thresholds that are positive and strictly
      increasing too. */
  lemma AbsoluteThresholdsIncreasing(s: Snapshot, c: MeasureConfig, b: Backend)
    requires ValidSnapshot(s) && ValidConfig(c) && Lawful(b)
    requires AllPositive(c.deltas) && StrictlyIncreasing(c.deltas)
    requires AllPositive(c.epsSchedule) && StrictlyIncreasing(c.epsSchedule)
    ensures var r := Measure(s, c, b);
      && AllPositive(r.sublevel.deltaAbs) && StrictlyIncreasing(r.sublevel.deltaAbs)
      && AllPositive(r.fisher.epsAbs) && StrictlyIncreasing(r.fisher.epsAbs)
  {
    var scale := ScaleOf(Measure(s, c, b).meta.omegaRms);
    SublevelThresholds(s, c, b);
    FisherThresholds(s, c, b);
    ScaledIncreasing(c.deltas, scale);
    ScaledIncreasing(c.epsSchedule, scale);
  }

  /** With the default schedules every reported absolute delta and eps is
      positive, and both lists are strictly increasing. */
  lemma DefaultAbsoluteIncreasing(s: Snapshot, l: real, pow10: real -> real, b: Backend)
    requires ValidSnapshot(s) && Lawful(b) && IsPow10(pow10)
    ensures ValidConfig(DefaultConfig(s.n, l, pow10))
    ensures var r := Measure(s, DefaultConfig(s.n, l, pow10), b);
      && AllPositive(r.sublevel.deltaAbs) && StrictlyIncreasing(r.sublevel.deltaAbs)
      && AllPositive(r.fisher.epsAbs) && StrictlyIncreasing(r.fisher.epsAbs)
  {
    DefaultConfigIncreasing(s.n, l, pow10);
    AbsoluteThresholdsIncreasing(s, DefaultConfig(s.n, l, pow10), b);
  }

  /** The sublevel block has m non-decreasing for ordered thresholds. */
  lemma SublevelOfMeasureMonotone(om: ScalarField, g2: ScalarField, gm: ScalarField, sop: Option<ScalarField>,
                                  deltas: seq<real>, scale: real, dV: real)
    requires |om| > 0 && |g2| == |om| && |gm| == |om| && (sop.Some? ==> |sop.value| == |om|)
    requires NonDecreasing(deltas) && 0.0 < scale
    ensures NonDecreasing(SublevelOf(om, g2, gm, sop, deltas, scale, dV).m)
  {
    var sub := SublevelOf(om, g2, gm, sop, deltas, scale, dV);
    var abs := Scaled(deltas, scale);
    ScaledMonotone(deltas, scale);
    forall i, j | 0 <= i <= j < |deltas| ensures sub.m[i] <= sub.m[j] {
      MeasureMonotone(om, abs[i], abs[j]);
    }
  }

  /** A curve of sublevel integrals of a non-negative density over ordered
      thresholds is non-negative and non-decreasing. */
  lemma IntegralCurveMonotone(w: ScalarField, om: ScalarField, abs: seq<real>, dV: real, q: seq<real>)
    requires |w| == |om| && |q| == |abs|
    requires forall k :: 0 <= k < |abs| ==> q[k] == SublevelIntegral(w, om, abs[k], dV)
    requires NonDecreasing(abs) && 0.0 <= dV
    requires forall k :: 0 <= k < |w| ==> 0.0 <= w[k]
    ensures NonDecreasing(q) && forall k :: 0 <= k < |q| ==> 0.0 <= q[k]
  {
    forall i, j | 0 <= i <= j < |q| ensures 0.0 <= q[i] <= q[j] {
      IntegralMonotone(w, om, abs[i], abs[j], dV);
    }
  }

  /** The same for the strain residue, which is present at every threshold
      or at none. */
  lemma ResidueCurveMonotone(sop: Option<ScalarField>, om: ScalarField, abs: seq<real>, dV: real, r: seq<Option<real>>)
    requires (sop.Some? ==> |sop.value| == |om|) && |r| == |abs|
    requires forall k :: 0 <= k < |abs| ==> r[k] == Residue(sop, om, abs[k], dV)
    requires NonDecreasing(abs) && 0.0 <= dV
    requires sop.Some? ==> forall k :: 0 <= k < |om| ==> 0.0 <= sop.value[k]
    ensures forall i, j :: 0 <= i < |r| && 0 <= j < |r| ==> (r[i].Some? <==> r[j].Some?)
    ensures forall i, j :: 0 <= i <= j < |r| && r[i].Some? ==> r[j].Some? && 0.0 <= r[i].value <= r[j].value
  {
    forall i, j | 0 <= i <= j < |r| && r[i].Some?
      ensures r[j].Some? && 0.0 <= r[i].value <= r[j].value
    {
      IntegralMonotone(sop.value, om, abs[i], abs[j], dV);
    }
  }

  /** Nested sublevel sets: for non-decreasing thresholds m is
      non-decreasing, and for a non-negative box side so are Q1, Q2 and R,
      all of which are non-negative. */
  lemma SublevelMonotone(s: Snapshot, c: MeasureConfig, b: Backend)
    requires ValidSnapshot(s) && ValidConfig(c) && Lawful(b)
    requires NonDecreasing(c.deltas)
    ensures var sub := Measure(s, c, b).sublevel;
      && NonDecreasing(sub.m)
      && (0.0 <= BoxLength(s, c) ==>
        && NonDecreasing(sub.q1) && NonDecreasing(sub.q2)
        && (forall k :: 0 <= k < |sub.q1| ==> 0.0 <= sub.q1[k] && 0.0 <= sub.q2[k])
        && (forall i, j :: 0 <= i <= j < |sub.r| && sub.r[i].Some? ==>
              sub.r[j].Some? && 0.0 <= sub.r[i].value <= sub.r[j].value))
  {
    var l := BoxLength(s, c);
    var N := Points(s);
    var omega := VorticityOf(s, l, b.deriv);
    var om := Fields.OmegaMagnitude(omega, N, b.sqrt);
    var rms := b.sqrt(Mean(Squares(om)));
    var g2 := GradLoad(b.deriv, l, omega, N);
    var gm := SqrtField(g2, b.sqrt);
    var sop := StrainNormOf(s, l, b);
    var scale := ScaleOf(rms);
    var dV := CellVolume(l, s.n);
    assert Measure(s, c, b).sublevel == SublevelOf(om, g2, gm, sop, c.deltas, scale, dV);
    SublevelOfMeasureMonotone(om, g2, gm, sop, c.deltas, scale, dV);
    if 0.0 <= l {
      var sub := Measure(s, c, b).sublevel;
      var abs := Scaled(c.deltas, scale);
      ScaledMonotone(c.deltas, scale);
      assert 0.0 <= dV;
      assert forall k :: 0 <= k < N ==> 0.0 <= gm[k];
      IntegralCurveMonotone(gm, om, abs, dV, sub.q1);
      IntegralCurveMonotone(g2, om, abs, dV, sub.q2);
      ResidueCurveMonotone(sop, om, abs, dV, sub.r);
    }
  }

  /** On an all-zero vorticity (the given omega, or the curl of u when no
      omega is given) the RMS is 0, the scale falls back to 1.0 so the
      absolute thresholds are the relative ones, and every positive
      threshold captures the whole grid. */
  lemma ZeroVorticity(s: Snapshot, c: MeasureConfig, b: Backend)
    requires ValidSnapshot(s) && ValidConfig(c) && Lawful(b)
    requires forall i, k :: 0 <= i < 3 && 0 <= k < Points(s) ==> VorticityOf(s, BoxLength(s, c), b.deriv)[i][k] == 0.0
    ensures var r := Measure(s, c, b);
      && r.meta.omegaRms == 0.0
      && r.sublevel.deltaAbs == c.deltas
      && r.fisher.epsAbs == c.epsSchedule
      && forall k :: 0 <= k < |c.deltas| && 0.0 < c.deltas[k] ==> r.sublevel.m[k] == 1.0
  {
    var omega := VorticityOf(s, BoxLength(s, c), b.deriv);
    var om := Fields.OmegaMagnitude(omega, Points(s), b.sqrt);
    ZeroRms(s, c, b);
    ZeroMagnitude(omega, Points(s), b.sqrt);
    SublevelThresholds(s, c, b);
    SublevelMeasures(s, c, b);
    var r := Measure(s, c, b);
    ScaledOne(c.deltas);
    assert r.sublevel.deltaAbs == c.deltas;
    FisherThresholds(s, c, b);
    ScaledOne(c.epsSchedule);
    assert r.fisher.epsAbs == c.epsSchedule;
    forall k | 0 <= k < |c.deltas| && 0.0 < c.deltas[k] ensures r.sublevel.m[k] == 1.0 {
      assert r.sublevel.m[k] == SublevelMeasure(om, c.deltas[k]);
      MeasureOfZeroField(om, c.deltas[k]);
    }
  }

  /** Scaling by one changes nothing. */
  lemma ScaledOne(s: seq<real>)
    ensures Scaled(s, 1.0) == s
  {
  }

  /** Every m(delta) is the sublevel measure, at the absolute threshold, of
      the magnitude of the vorticity the pipeline works on (the given
      omega, or the curl of u). */
  lemma SublevelMeasures(s: Snapshot, c: MeasureConfig, b: Backend)
    requires ValidSnapshot(s) && ValidConfig(c) && Lawful(b)
    ensures var r := Measure(s, c, b);
      var om := Fields.OmegaMagnitude(VorticityOf(s, BoxLength(s, c), b.deriv), Points(s), b.sqrt);
      forall k :: 0 <= k < |r.sublevel.m| ==> r.sublevel.m[k] == SublevelMeasure(om, r.sublevel.deltaAbs[k])
  {
  }

  /** A zero vorticity field (given, or the curl of u) reports a zero RMS. */
  lemma ZeroRms(s: Snapshot, c: MeasureConfig, b: Backend)
    requires ValidSnapshot(s) && ValidConfig(c) && Lawful(b)
    requires forall i, k :: 0 <= i < 3 && 0 <= k < Points(s) ==> VorticityOf(s, BoxLength(s, c), b.deriv)[i][k] == 0.0
    ensures Measure(s, c, b).meta.omegaRms == 0.0
  {
    var omega := VorticityOf(s, BoxLength(s, c), b.deriv);
    var om := Fields.OmegaMagnitude(omega, Points(s), b.sqrt);
    ZeroMagnitude(omega, Points(s), b.sqrt);
    ZeroMeanSquare(om);
    SqrtZero(b.sqrt);
    assert Measure(s, c, b).meta.omegaRms == b.sqrt(Mean(Squares(om)));
  }

  /** The mean square of a zero field is zero. */
  lemma ZeroMeanSquare(om: ScalarField)
    requires |om| > 0
    requires forall k :: 0 <= k < |om| ==> om[k] == 0.0
    ensures Mean(Squares(om)) == 0.0
  {
    ZeroSquares(om);
    SumZeros(Squares(om));
  }

  /** The magnitude of a zero vector field is zero. */
  lemma ZeroMagnitude(omega: VectorField, N: nat, sqrt: real -> real)
    requires IsVectorField(omega, N) && IsSqrt(sqrt)
    requires forall i, k :: 0 <= i < 3 && 0 <= k < N ==> omega[i][k] == 0.0
    ensures forall k :: 0 <= k < N ==> Fields.OmegaMagnitude(omega, N, sqrt)[k] == 0.0
  {
    var om := Fields.OmegaMagnitude(omega, N, sqrt);
    forall k | 0 <= k < N ensures om[k] == 0.0 {
      assert Fields.Mag2At(omega, N, k) == 0.0;
      if om[k] != 0.0 {
        SqPos(om[k]);
      }
    }
  }

  lemma ZeroSquares(om: ScalarField)
    requires forall k :: 0 <= k < |om| ==> om[k] == 0.0
    ensures forall k :: 0 <= k < |om| ==> Squares(om)[k] == 0.0
  {
    assert Sq(0.0) == 0.0;
  }

  /** Without `u` every R entry is `None` and exactly the missing-velocity
      note is reported, while m, Q1, Q2 and J keep their full length; with
      `u` every R entry is present and there is no note. */
  lemma VelocityDecidesResidue(s: Snapshot, c: MeasureConfig, b: Backend)
    requires ValidSnapshot(s) && ValidConfig(c) && Lawful(b)
    ensures var r := Measure(s, c, b);
      && (s.u.None? ==>
        && r.notes == [MissingVelocityNote]
        && (forall k :: 0 <= k < |r.sublevel.r| ==> r.sublevel.r[k].None?)
        && |r.sublevel.m| == |r.sublevel.q1| == |r.sublevel.q2| == |c.deltas|
        && |r.fisher.j| == |c.epsSchedule|)
      && (s.u.Some? ==>
        && r.notes == []
        && (forall k :: 0 <= k < |r.sublevel.r| ==> r.sublevel.r[k].Some?))
  {
  }

  /** With only `u` given, the vorticity is its curl, component by
      component, and no note is reported. */
  lemma VorticityFromVelocity(s: Snapshot, c: MeasureConfig, b: Backend)
    requires ValidSnapshot(s) && ValidConfig(c) && Lawful(b)
    requires s.omega.None?
    ensures Measure(s, c, b).notes == []
    ensures var l, u, d := BoxLength(s, c), s.u.value, b.deriv;
      var omega := VorticityOf(s, l, d);
      forall k :: 0 <= k < Points(s) ==>
        && omega[0][k] == d(l, u[2], 1)[k] - d(l, u[1], 2)[k]
        && omega[1][k] == d(l, u[0], 2)[k] - d(l, u[2], 0)[k]
        && omega[2][k] == d(l, u[1], 0)[k] - d(l, u[0], 1)[k]
  {
  }

  /** The Fisher block: J >= 0 for dV >= 0, non-increasing along a
      positive, non-decreasing schedule. */
  lemma FisherOfDecreasing(om: ScalarField, g2: ScalarField, eps: seq<real>, scale: real, dV: real)
    requires |g2| == |om| && 0.0 < scale
    requires forall k :: 0 <= k < |eps| ==> eps[k] != 0.0
    requires forall k :: 0 <= k < |g2| ==> 0.0 <= g2[k]
    requires 0.0 <= dV
    ensures var j := FisherOf(om, g2, eps, scale, dV).j;
      && (forall k :: 0 <= k < |j| ==> 0.0 <= j[k])
      && (AllPositive(eps) && NonDecreasing(eps) ==> NonIncreasing(j))
  {
    var f := FisherOf(om, g2, eps, scale, dV);
    var abs := f.epsAbs;
    forall k | 0 <= k < |f.j| ensures 0.0 <= f.j[k] {
      FisherNonneg(g2, om, abs[k], dV);
    }
    if AllPositive(eps) && NonDecreasing(eps) {
      forall i, j | 0 <= i <= j < |f.j| ensures f.j[j] <= f.j[i] {
        MulStrict(0.0, eps[i], scale);
        MulMono(eps[i], eps[j], scale);
        FisherMonotone(g2, om, abs[i], abs[j], dV);
      }
    }
  }

  /** J is non-negative for a non-negative box side, and it does not grow
      along a positive, non-decreasing eps schedule. */
  lemma FisherDecreasing(s: Snapshot, c: MeasureConfig, b: Backend)
    requires ValidSnapshot(s) && ValidConfig(c) && Lawful(b)
    requires 0.0 <= BoxLength(s, c)
    ensures var j := Measure(s, c, b).fisher.j;
      && (forall k :: 0 <= k < |j| ==> 0.0 <= j[k])
      && (AllPositive(c.epsSchedule) && NonDecreasing(c.epsSchedule) ==> NonIncreasing(j))
  {
    var l := BoxLength(s, c);
    var N := Points(s);
    var omega := VorticityOf(s, l, b.deriv);
    var om := Fields.OmegaMagnitude(omega, N, b.sqrt);
    var rms := b.sqrt(Mean(Squares(om)));
    var g2 := GradLoad(b.deriv, l, omega, N);
    FisherOfDecreasing(om, g2, c.epsSchedule, ScaleOf(rms), CellVolume(l, s.n));
  }

  /** The one-shot block: eps0 > 0, mean saturation in [0, 1), mean load
      non-negative, and S(eps0) non-negative for dV >= 0. */
  lemma NsPcmOfBounds(omega: VectorField, om: ScalarField, N: nat, l: real, scale: real, dV: real, b: Backend)
    requires IsVectorField(omega, N) && |om| == N && N > 0 && Lawful(b)
    requires 0.0 < scale
    ensures var ns := NsPcmOf(omega, om, N, l, scale, dV, b);
      && ns.eps0Abs == 0.001 * scale
      && 0.0 < ns.eps0Abs
      && 0.0 <= ns.meanPsi < 1.0
      && 0.0 <= ns.meanG
      && (0.0 <= dV ==> 0.0 <= ns.sEps0)
  {
    var pg := SaturatedLoad(omega, N, l, Eps0(scale), b);
    MeanBounds(pg.0, 1.0);
    MeanNonneg(pg.1);
    var weighted := seq(N, k requires 0 <= k < N => Sq(om[k]) * pg.0[k]);
    forall k | 0 <= k < N ensures 0.0 <= weighted[k] {
      SqNonneg(om[k]);
      MulNonnegMono(0.0, Sq(om[k]), pg.0[k]);
    }
    SumNonneg(weighted);
    if 0.0 <= dV {
      MulNonnegMono(0.0, Sum(weighted), dV);
    }
  }

  /** The one-shot diagnostic: eps0 > 0, the mean saturation lies in
      [0, 1), the mean load is non-negative, and S(eps0) is non-negative for
      a non-negative box side. */
  lemma NsPcmBounds(s: Snapshot, c: MeasureConfig, b: Backend)
    requires ValidSnapshot(s) && ValidConfig(c) && Lawful(b)
    ensures var ns := Measure(s, c, b).nspcm;
      && 0.0 < ns.eps0Abs
      && 0.0 <= ns.meanPsi < 1.0
      && 0.0 <= ns.meanG
      && (0.0 <= BoxLength(s, c) ==> 0.0 <= ns.sEps0)
  {
    var l := BoxLength(s, c);
    var N := Points(s);
    var omega := VorticityOf(s, l, b.deriv);
    var om := Fields.OmegaMagnitude(omega, N, b.sqrt);
    var rms := b.sqrt(Mean(Squares(om)));
    NsPcmOfBounds(omega, om, N, l, ScaleOf(rms), CellVolume(l, s.n), b);
  }
}
