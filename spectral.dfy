/** The spectral differential operator engine: gradient layout, curl,
    strain and the per-point operator norm of a symmetric tensor field.
    The derivative itself is the oracle `Deriv`; no claim is made about
    spectral accuracy. */
module Spectral {
  import opened Numerics
  import opened Grid

  /** `grad_vector`: fills out[i][j] with the derivative of component i
      along axis j, in a nested loop over i and j. */
  method GradVector(v: VectorField, N: nat, l: real, d: Deriv) returns (out: TensorField)
    requires IsVectorField(v, N)
    requires PreservesLength(d)
    ensures IsTensorField(out, N)
    ensures forall i, j :: 0 <= i < 3 && 0 <= j < 3 ==> out[i][j] == d(l, v[i], j)
    ensures out == Gradient(d, l, v)
  {
    var zero := seq(N, _ => 0.0);
    out := seq(3, _ => seq(3, _ => zero));
    for i := 0 to 3
      invariant IsTensorField(out, N)
      invariant forall i', j :: 0 <= i' < i && 0 <= j < 3 ==> out[i'][j] == d(l, v[i'], j)
    {
      for j := 0 to 3
        invariant IsTensorField(out, N)
        invariant forall i', j' :: 0 <= i' < i && 0 <= j' < 3 ==> out[i'][j'] == d(l, v[i'], j')
        invariant forall j' :: 0 <= j' < j ==> out[i][j'] == d(l, v[i], j')
      {
        out := out[i := out[i][j := d(l, v[i], j)]];
      }
    }
    forall i | 0 <= i < 3
      ensures out[i] == Gradient(d, l, v)[i]
    {
      assert forall j :: 0 <= j < 3 ==> out[i][j] == Gradient(d, l, v)[i][j];
    }
  }

  /** The curl combination of a velocity-gradient tensor field
      (g[i][j] = du_i/dx_j). */
  function CurlOf(g: TensorField, N: nat): (w: VectorField)
    requires IsTensorField(g, N)
    ensures IsVectorField(w, N)
  {
    [Sub(g[2][1], g[1][2]), Sub(g[0][2], g[2][0]), Sub(g[1][0], g[0][1])]
  }

  /** `curl`: omega = (du_z/dy - du_y/dz, du_x/dz - du_z/dx, du_y/dx - du_x/dy). */
  method Curl(u: VectorField, N: nat, l: real, d: Deriv) returns (omega: VectorField)
    requires IsVectorField(u, N)
    requires PreservesLength(d)
    ensures IsVectorField(omega, N)
    ensures omega == CurlOf(Gradient(d, l, u), N)
    ensures forall k :: 0 <= k < N ==>
      && omega[0][k] == d(l, u[2], 1)[k] - d(l, u[1], 2)[k]
      && omega[1][k] == d(l, u[0], 2)[k] - d(l, u[2], 0)[k]
      && omega[2][k] == d(l, u[1], 0)[k] - d(l, u[0], 1)[k]
  {
    var gu := GradVector(u, N, l, d);
    omega := CurlOf(gu, N);
  }

  /** The tensor is symmetric at point k. */
  predicate SymmetricAt(g: TensorField, N: nat, k: nat)
    requires IsTensorField(g, N) && k < N
  {
    forall i, j :: 0 <= i < 3 && 0 <= j < 3 ==> g[i][j][k] == g[j][i][k]
  }

  /** The curl vanishes wherever the gradient tensor is symmetric. */
  lemma CurlOfSymmetric(g: TensorField, N: nat, k: nat)
    requires IsTensorField(g, N) && k < N
    requires SymmetricAt(g, N, k)
    ensures forall c :: 0 <= c < 3 ==> CurlOf(g, N)[c][k] == 0.0
  {
    assert g[2][1][k] == g[1][2][k] && g[0][2][k] == g[2][0][k] && g[1][0][k] == g[0][1][k];
  }

  /** The divergence of a vector field built from the derivative oracle. */
  function Divergence(d: Deriv, l: real, w: VectorField, N: nat): (div: ScalarField)
    requires IsVectorField(w, N)
    requires PreservesLength(d)
    ensures |div| == N
  {
    seq(N, k requires 0 <= k < N => d(l, w[0], 0)[k] + d(l, w[1], 1)[k] + d(l, w[2], 2)[k])
  }

  /** The curl of any velocity field is divergence-free, for any derivative
      that is linear and whose mixed partials commute. */
  lemma DivergenceOfCurl(d: Deriv, l: real, u: VectorField, N: nat)
    requires IsVectorField(u, N)
    requires PreservesLength(d) && IsLinear(d, l) && Commutes(d, l)
    ensures forall k :: 0 <= k < N ==> Divergence(d, l, CurlOf(Gradient(d, l, u), N), N)[k] == 0.0
  {
    var g := Gradient(d, l, u);
    GradientIsTensorField(d, l, u, N);
    var w := CurlOf(g, N);
    assert d(l, w[0], 0) == Sub(d(l, g[2][1], 0), d(l, g[1][2], 0));
    assert d(l, w[1], 1) == Sub(d(l, g[0][2], 1), d(l, g[2][0], 1));
    assert d(l, w[2], 2) == Sub(d(l, g[1][0], 2), d(l, g[0][1], 2));
    assert d(l, g[2][1], 0) == d(l, g[2][0], 1);
    assert d(l, g[1][2], 0) == d(l, g[1][0], 2);
    assert d(l, g[0][2], 1) == d(l, g[0][1], 2);
  }

  /** `np.swapaxes(g, 0, 1)`: the pointwise transpose. */
  function Transpose(g: TensorField, N: nat): (t: TensorField)
    requires IsTensorField(g, N)
    ensures IsTensorField(t, N)
    ensures forall i, j :: 0 <= i < 3 && 0 <= j < 3 ==> t[i][j] == g[j][i]
  {
    seq(3, i requires 0 <= i < 3 => seq(3, j requires 0 <= j < 3 => g[j][i]))
  }

  /** The strain S = (g + g^T)/2 of a velocity-gradient tensor field: it is
      symmetric at every point and keeps the gradient's diagonal. */
  function StrainOf(g: TensorField, N: nat): (s: TensorField)
    requires IsTensorField(g, N)
    ensures IsTensorField(s, N)
    ensures forall k :: 0 <= k < N ==> SymmetricAt(s, N, k)
    ensures forall i, k :: 0 <= i < 3 && 0 <= k < N ==> s[i][i][k] == g[i][i][k]
  {
    var t := Transpose(g, N);
    seq(3, i requires 0 <= i < 3 =>
      seq(3, j requires 0 <= j < 3 =>
        seq(N, k requires 0 <= k < N => 0.5 * (g[i][j][k] + t[i][j][k]))))
  }

  /** `strain`. */
  method Strain(u: VectorField, N: nat, l: real, d: Deriv) returns (s: TensorField)
    requires IsVectorField(u, N)
    requires PreservesLength(d)
    ensures IsTensorField(s, N)
    ensures s == StrainOf(Gradient(d, l, u), N)
  {
    var gu := GradVector(u, N, l, d);
    s := StrainOf(gu, N);
  }

  /** The 3x3 matrix of the tensor field at point p (one row of the
      (N, 3, 3) reshape). */
  function PointMatrix(s: TensorField, N: nat, p: nat): (a: Matrix3)
    requires IsTensorField(s, N) && p < N
  {
    [[s[0][0][p], s[0][1][p], s[0][2][p]],
     [s[1][0][p], s[1][1][p], s[1][2][p]],
     [s[2][0][p], s[2][1][p], s[2][2][p]]]
  }

  /** `np.max(np.abs(w))` over three eigenvalues. */
  function MaxAbs3(w: (real, real, real)): (r: real)
    ensures 0.0 <= r
    ensures Abs(w.0) <= r && Abs(w.1) <= r && Abs(w.2) <= r
    ensures r == Abs(w.0) || r == Abs(w.1) || r == Abs(w.2)
  {
    var m := if Abs(w.0) >= Abs(w.1) then Abs(w.0) else Abs(w.1);
    if m >= Abs(w.2) then m else Abs(w.2)
  }

  predicate IsMatrix3(a: Matrix3)
  {
    |a| == 3 && |a[0]| == 3 && |a[1]| == 3 && |a[2]| == 3
  }

  /** `opnorm_sym_3x3_field`: copies the field into an (N, 3, 3) array in a
      nested loop over i and j, takes the eigenvalues at every point and
      returns the largest absolute eigenvalue per point. */
  method OpNormSym3x3Field(s: TensorField, N: nat, eig: Eigvalsh) returns (op: ScalarField)
    requires IsTensorField(s, N)
    ensures op == seq(N, p requires 0 <= p < N => MaxAbs3(eig(PointMatrix(s, N, p))))
    ensures forall p :: 0 <= p < N ==>
      var w := eig(PointMatrix(s, N, p));
      && 0.0 <= op[p]
      && Abs(w.0) <= op[p] && Abs(w.1) <= op[p] && Abs(w.2) <= op[p]
      && (op[p] == Abs(w.0) || op[p] == Abs(w.1) || op[p] == Abs(w.2))
  {
    var a: seq<Matrix3> := seq(N, _ => [[0.0, 0.0, 0.0], [0.0, 0.0, 0.0], [0.0, 0.0, 0.0]]);
    for i := 0 to 3
      invariant |a| == N && forall p :: 0 <= p < N ==> IsMatrix3(a[p])
      invariant forall p, r, c :: 0 <= p < N && 0 <= r < i && 0 <= c < 3 ==> a[p][r][c] == s[r][c][p]
    {
      for j := 0 to 3
        invariant |a| == N && forall p :: 0 <= p < N ==> IsMatrix3(a[p])
        invariant forall p, r, c :: 0 <= p < N && 0 <= r < i && 0 <= c < 3 ==> a[p][r][c] == s[r][c][p]
        invariant forall p, c :: 0 <= p < N && 0 <= c < j ==> a[p][i][c] == s[i][c][p]
      {
        a := seq(N, p requires 0 <= p < N => a[p][i := a[p][i][j := s[i][j][p]]]);
      }
    }
    forall p | 0 <= p < N
      ensures a[p] == PointMatrix(s, N, p)
    {
      assert a[p][0] == PointMatrix(s, N, p)[0];
      assert a[p][1] == PointMatrix(s, N, p)[1];
      assert a[p][2] == PointMatrix(s, N, p)[2];
    }
    var w := seq(N, p requires 0 <= p < N => eig(a[p]));
    op := seq(N, p requires 0 <= p < N => MaxAbs3(w[p]));
  }

  /** `grad_omega_norm2`: the gradient-load density, accumulated as
      `s += go[i,j]**2` over the nine index pairs. */
  method GradOmegaNorm2(omega: VectorField, N: nat, l: real, d: Deriv) returns (s: ScalarField)
    requires IsVectorField(omega, N)
    requires PreservesLength(d)
    ensures |s| == N
    ensures IsTensorField(Gradient(d, l, omega), N)
    ensures forall k :: 0 <= k < N ==> s[k] == NineSquares(Gradient(d, l, omega), N, k)
    ensures forall k :: 0 <= k < N ==> 0.0 <= s[k]
  {
    var go := GradVector(omega, N, l, d);
    s := seq(N, _ => 0.0);
    for i := 0 to 3
      invariant |s| == N
      invariant forall k :: 0 <= k < N ==> s[k] == RowsSquares(go, N, k, i)
    {
      for j := 0 to 3
        invariant |s| == N
        invariant forall k :: 0 <= k < N ==> s[k] == RowsSquares(go, N, k, i) + RowSquares(go, N, k, i, j)
      {
        s := seq(N, k requires 0 <= k < N => s[k] + Sq(go[i][j][k]));
      }
    }
    forall k | 0 <= k < N
      ensures s[k] == NineSquares(go, N, k) && 0.0 <= s[k]
    {
      RowsSquaresComplete(go, N, k);
      NineSquaresNonneg(go, N, k);
    }
  }
}
