/** The regularised direction field: |omega|, xi = omega / r with
    r = sqrt(|omega|^2 + eps^2), the gradient energy G = |grad xi|^2 and its
    saturation Psi = G / (1 + G). */
module Fields {
  import opened Numerics
  import opened Grid

  /** |omega|^2 at point k (`np.sum(omega**2, axis=0)`). */
  function Mag2At(omega: VectorField, N: nat, k: nat): real
    requires IsVectorField(omega, N) && k < N
  {
    Sq(omega[0][k]) + Sq(omega[1][k]) + Sq(omega[2][k])
  }

  lemma Mag2Nonneg(omega: VectorField, N: nat)
    requires IsVectorField(omega, N)
    ensures forall k :: 0 <= k < N ==> 0.0 <= Mag2At(omega, N, k)
  {
    forall k | 0 <= k < N ensures 0.0 <= Mag2At(omega, N, k) {
      SqNonneg(omega[0][k]);
      SqNonneg(omega[1][k]);
      SqNonneg(omega[2][k]);
    }
  }

  /** `omega_magnitude`: a non-negative field whose square is the pointwise
      sum of the three squared components. */
  function OmegaMagnitude(omega: VectorField, N: nat, sqrt: real -> real): (om: ScalarField)
    requires IsVectorField(omega, N)
    requires IsSqrt(sqrt)
    ensures |om| == N
    ensures forall k :: 0 <= k < N ==> 0.0 <= om[k] && Sq(om[k]) == Mag2At(omega, N, k)
  {
    Mag2Nonneg(omega, N);
    seq(N, k requires 0 <= k < N => sqrt(Mag2At(omega, N, k)))
  }

  /** `xi_epsilon`: returns (xi, r) with r > 0, r^2 = |omega|^2 + eps^2 and
      xi * r = omega componentwise. The requirement is that no r vanishes,
      which any eps != 0 guarantees (`XiDefined`). */
  function XiEpsilon(omega: VectorField, N: nat, eps: real, sqrt: real -> real): (res: (VectorField, ScalarField))
    requires IsVectorField(omega, N)
    requires IsSqrt(sqrt)
    requires forall k :: 0 <= k < N ==> Mag2At(omega, N, k) + Sq(eps) != 0.0
    ensures IsVectorField(res.0, N) && |res.1| == N
    ensures forall k :: 0 <= k < N ==> 0.0 < res.1[k] && Sq(res.1[k]) == Mag2At(omega, N, k) + Sq(eps)
    ensures forall i, k {:trigger res.0[i][k]} :: 0 <= i < 3 && 0 <= k < N ==> res.0[i][k] * res.1[k] == omega[i][k]
  {
    var r := RegularisedNorm(omega, N, eps, sqrt);
    var xi := DivideBy(omega, r, N);
    (xi, r)
  }

  /** r = `np.sqrt(|omega|^2 + eps^2)`: positive, with the regularised
      squared magnitude as its square. */
  function RegularisedNorm(omega: VectorField, N: nat, eps: real, sqrt: real -> real): (r: ScalarField)
    requires IsVectorField(omega, N)
    requires IsSqrt(sqrt)
    requires forall k :: 0 <= k < N ==> Mag2At(omega, N, k) + Sq(eps) != 0.0
    ensures |r| == N
    ensures forall k :: 0 <= k < N ==> 0.0 < r[k] && Sq(r[k]) == Mag2At(omega, N, k) + Sq(eps)
  {
    Mag2Nonneg(omega, N);
    SqNonneg(eps);
    var r := seq(N, k requires 0 <= k < N => sqrt(Mag2At(omega, N, k) + Sq(eps)));
    forall k | 0 <= k < N ensures 0.0 < r[k] && Sq(r[k]) == Mag2At(omega, N, k) + Sq(eps) {
      SqrtPositive(sqrt, Mag2At(omega, N, k) + Sq(eps));
    }
    r
  }

  /** `omega / r`, each component divided pointwise by a non-vanishing
      field. */
  function DivideBy(omega: VectorField, r: ScalarField, N: nat): (xi: VectorField)
    requires IsVectorField(omega, N) && |r| == N
    requires forall k :: 0 <= k < N ==> r[k] != 0.0
    ensures IsVectorField(xi, N)
    ensures forall i, k :: 0 <= i < 3 && 0 <= k < N ==> xi[i][k] * r[k] == omega[i][k]
  {
    var xi := seq(3, i requires 0 <= i < 3 => seq(N, k requires 0 <= k < N => omega[i][k] / r[k]));
    forall i, k | 0 <= i < 3 && 0 <= k < N ensures xi[i][k] * r[k] == omega[i][k] {
      DivCancel(omega[i][k], r[k]);
    }
    xi
  }

  /** A non-zero regularisation makes every r positive. */
  lemma XiDefined(omega: VectorField, N: nat, eps: real)
    requires IsVectorField(omega, N)
    requires eps != 0.0
    ensures forall k :: 0 <= k < N ==> 0.0 < Mag2At(omega, N, k) + Sq(eps)
  {
    Mag2Nonneg(omega, N);
    SqPos(eps);
  }

  lemma SqOfQuotient(a: real, r: real)
    requires r != 0.0
    ensures Sq(r) != 0.0
    ensures Sq(a / r) == Sq(a) / Sq(r)
  {
    SqPos(r);
    calc {
      Sq(a / r) * Sq(r);
      (a / r) * (a / r) * (r * r);
      ((a / r) * r) * ((a / r) * r);
      a * a;
    }
  }

  /** For eps != 0 the regularised direction has |xi|^2 =
      |omega|^2 / (|omega|^2 + eps^2) < 1 at every point. */
  lemma XiNormBelowOne(omega: VectorField, N: nat, eps: real, sqrt: real -> real, k: nat)
    requires IsVectorField(omega, N)
    requires IsSqrt(sqrt)
    requires eps != 0.0
    requires k < N
    ensures forall p :: 0 <= p < N ==> 0.0 < Mag2At(omega, N, p) + Sq(eps)
    ensures
      var xi := XiEpsilon(omega, N, eps, sqrt).0;
      && Mag2At(xi, N, k) == Mag2At(omega, N, k) / (Mag2At(omega, N, k) + Sq(eps))
      && Mag2At(xi, N, k) < 1.0
  {
    XiDefined(omega, N, eps);
    var res := XiEpsilon(omega, N, eps, sqrt);
    var xi, r := res.0, res.1;
    var m := Mag2At(omega, N, k);
    var e2 := Sq(eps);
    SqPos(eps);
    assert Sq(r[k]) == m + e2;
    forall i | 0 <= i < 3 ensures Sq(xi[i][k]) == Sq(omega[i][k]) / (m + e2) {
      assert xi[i][k] == omega[i][k] / r[k];
      SqOfQuotient(omega[i][k], r[k]);
    }
    assert Mag2At(xi, N, k) == Sq(xi[0][k]) + Sq(xi[1][k]) + Sq(xi[2][k]);
    SumOfQuotients(Sq(omega[0][k]), Sq(omega[1][k]), Sq(omega[2][k]), m + e2);
    Mag2Nonneg(omega, N);
    QuotientBelowOne(m, e2);
  }

  lemma SumOfQuotients(a: real, b: real, c: real, d: real)
    requires d != 0.0
    ensures a / d + b / d + c / d == (a + b + c) / d
  {
  }

  lemma QuotientBelowOne(m: real, e: real)
    requires 0.0 <= m && 0.0 < e
    ensures m / (m + e) < 1.0
  {
    var q := m / (m + e);
    assert q * (m + e) == m;
  }

  /** `G_from_xi`: G = sum over i, j of grad_xi[i][j]^2, accumulated in a
      nested loop (`xi` itself is not read, as in the source). */
  method GFromXi(xi: VectorField, gradXi: TensorField, N: nat) returns (g: ScalarField)
    requires IsTensorField(gradXi, N)
    ensures |g| == N
    ensures forall k :: 0 <= k < N ==> g[k] == NineSquares(gradXi, N, k)
    ensures forall k :: 0 <= k < N ==> 0.0 <= g[k]
  {
    g := seq(N, _ => 0.0);
    for i := 0 to 3
      invariant |g| == N
      invariant forall k :: 0 <= k < N ==> g[k] == RowsSquares(gradXi, N, k, i)
    {
      for j := 0 to 3
        invariant |g| == N
        invariant forall k :: 0 <= k < N ==> g[k] == RowsSquares(gradXi, N, k, i) + RowSquares(gradXi, N, k, i, j)
      {
        g := seq(N, k requires 0 <= k < N => g[k] + Sq(gradXi[i][j][k]));
      }
    }
    forall k | 0 <= k < N
      ensures g[k] == NineSquares(gradXi, N, k) && 0.0 <= g[k]
    {
      RowsSquaresComplete(gradXi, N, k);
      NineSquaresNonneg(gradXi, N, k);
    }
  }

  /** The saturation G / (1 + G) of one value. */
  function Saturate(g: real): real
    requires g != -1.0
  {
    g / (1.0 + g)
  }

  /** For G >= 0 the saturation lies in [0, 1), and G is recovered from it
      as Psi / (1 - Psi). */
  lemma SaturateBounds(g: real)
    requires 0.0 <= g
    ensures 0.0 <= Saturate(g) < 1.0
    ensures g == Saturate(g) / (1.0 - Saturate(g))
  {
    var p := Saturate(g);
    assert p * (1.0 + g) == g;
    assert 1.0 - p == 1.0 / (1.0 + g);
  }

  /** The saturation is non-decreasing on G >= 0. */
  lemma SaturateMonotone(g1: real, g2: real)
    requires 0.0 <= g1 <= g2
    ensures Saturate(g1) <= Saturate(g2)
  {
    assert Saturate(g1) == 1.0 - 1.0 / (1.0 + g1);
    assert Saturate(g2) == 1.0 - 1.0 / (1.0 + g2);
    assert 1.0 / (1.0 + g2) <= 1.0 / (1.0 + g1);
  }

  /** `Psi_saturated`: the pointwise saturation; on a non-negative G every
      value lies in [0, 1). */
  function PsiSaturated(g: ScalarField): (psi: ScalarField)
    requires forall k :: 0 <= k < |g| ==> g[k] != -1.0
    ensures |psi| == |g|
    ensures forall k :: 0 <= k < |g| ==> psi[k] == Saturate(g[k])
    ensures forall k :: 0 <= k < |g| && 0.0 <= g[k] ==> 0.0 <= psi[k] < 1.0
  {
    forall k | 0 <= k < |g| && 0.0 <= g[k] ensures 0.0 <= Saturate(g[k]) < 1.0 {
      SaturateBounds(g[k]);
    }
    seq(|g|, k requires 0 <= k < |g| => g[k] / (1.0 + g[k]))
  }
}
