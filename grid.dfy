/** The periodic cubic grid with n points per axis, flattened to
    N = n*n*n points. A scalar field is a `seq<real>` of length N, a vector
    field holds three of them (component i first, as in an array of shape
    (3, n, n, n)), and a tensor field nine (entry [i][j] first, as in an
    array of shape (3, 3, n, n, n)). */
module Grid {
  import opened Numerics

  type ScalarField = seq<real>

  type VectorField = seq<ScalarField>

  type TensorField = seq<seq<ScalarField>>

  predicate IsVectorField(v: VectorField, N: nat)
  {
    |v| == 3 && |v[0]| == N && |v[1]| == N && |v[2]| == N
  }

  predicate IsTensorField(g: TensorField, N: nat)
  {
    |g| == 3 && forall i :: 0 <= i < 3 ==> |g[i]| == 3 && forall j :: 0 <= j < 3 ==> |g[i][j]| == N
  }

  /** The gradient of a vector field as the derivative oracle lays it out:
      entry [i][j] is the derivative of component i along axis j. */
  function Gradient(d: Deriv, l: real, v: VectorField): (g: TensorField)
    requires |v| == 3
    ensures |g| == 3 && forall i :: 0 <= i < 3 ==> |g[i]| == 3
  {
    seq(3, i requires 0 <= i < 3 => seq(3, j requires 0 <= j => d(l, v[i], j)))
  }

  lemma GradientIsTensorField(d: Deriv, l: real, v: VectorField, N: nat)
    requires PreservesLength(d)
    requires IsVectorField(v, N)
    ensures IsTensorField(Gradient(d, l, v), N)
  {
  }

  /** The squared Frobenius norm of the 3x3 tensor at point k: the nine
      squared entries, added up. */
  function NineSquares(g: TensorField, N: nat, k: nat): real
    requires IsTensorField(g, N) && k < N
  {
    Sq(g[0][0][k]) + Sq(g[0][1][k]) + Sq(g[0][2][k])
    + Sq(g[1][0][k]) + Sq(g[1][1][k]) + Sq(g[1][2][k])
    + Sq(g[2][0][k]) + Sq(g[2][1][k]) + Sq(g[2][2][k])
  }

  /** Sum of the squares of g[i][0..j] at point k. */
  function RowSquares(g: TensorField, N: nat, k: nat, i: nat, j: nat): real
    requires IsTensorField(g, N) && k < N && i < 3 && j <= 3
  {
    if j == 0 then 0.0 else RowSquares(g, N, k, i, j - 1) + Sq(g[i][j - 1][k])
  }

  /** Sum of the squares of the rows g[0..i] at point k: the value a
      `for i: for j: s += g[i,j]**2` accumulation holds before row i. */
  function RowsSquares(g: TensorField, N: nat, k: nat, i: nat): real
    requires IsTensorField(g, N) && k < N && i <= 3
  {
    if i == 0 then 0.0 else RowsSquares(g, N, k, i - 1) + RowSquares(g, N, k, i - 1, 3)
  }

  /** The accumulation over all nine index pairs is the nine-term sum. */
  lemma RowsSquaresComplete(g: TensorField, N: nat, k: nat)
    requires IsTensorField(g, N) && k < N
    ensures RowsSquares(g, N, k, 3) == NineSquares(g, N, k)
  {
    forall i | 0 <= i < 3
      ensures RowSquares(g, N, k, i, 3) == Sq(g[i][0][k]) + Sq(g[i][1][k]) + Sq(g[i][2][k])
    {
      assert RowSquares(g, N, k, i, 1) == Sq(g[i][0][k]);
    }
    assert RowsSquares(g, N, k, 1) == RowSquares(g, N, k, 0, 3);
    assert RowsSquares(g, N, k, 2) == RowSquares(g, N, k, 0, 3) + RowSquares(g, N, k, 1, 3);
  }

  lemma NineSquaresNonneg(g: TensorField, N: nat, k: nat)
    requires IsTensorField(g, N) && k < N
    ensures 0.0 <= NineSquares(g, N, k)
  {
    forall i, j | 0 <= i < 3 && 0 <= j < 3 ensures 0.0 <= Sq(g[i][j][k]) {
      SqNonneg(g[i][j][k]);
    }
  }

  /** The squared norm vanishes exactly when all nine entries vanish. */
  lemma NineSquaresZero(g: TensorField, N: nat, k: nat)
    requires IsTensorField(g, N) && k < N
    ensures NineSquares(g, N, k) == 0.0 <==> forall i, j :: 0 <= i < 3 && 0 <= j < 3 ==> g[i][j][k] == 0.0
  {
    forall i, j | 0 <= i < 3 && 0 <= j < 3 ensures 0.0 <= Sq(g[i][j][k]) && (g[i][j][k] != 0.0 ==> 0.0 < Sq(g[i][j][k])) {
      SqNonneg(g[i][j][k]);
      if g[i][j][k] != 0.0 {
        SqPos(g[i][j][k]);
      }
    }
    if forall i, j :: 0 <= i < 3 && 0 <= j < 3 ==> g[i][j][k] == 0.0 {
      assert Sq(0.0) == 0.0;
    }
  }
}
