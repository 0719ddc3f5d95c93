/** The numerical primitives the system takes from its array library,
    as parameters with only the laws the model relies on.

    - `Deriv`: the periodic spectral derivative `D(L, f, j)` of a flat scalar
      field `f` along axis `j` on a box of side `L` (FFT, multiply by i*k,
      inverse FFT, real part).
    - `sqrt`: the non-negative square root.
    - `Eigvalsh`: the three real eigenvalues of a symmetric 3x3 matrix.
    - `pow10`: x |-> 10^x, used by `np.logspace`. */
module Numerics {

  type Deriv = (real, seq<real>, nat) -> seq<real>

  type Matrix3 = seq<seq<real>>

  type Eigvalsh = Matrix3 -> (real, real, real)

  /** The three primitives the measurement pipeline draws on. */
  datatype Backend = Backend(deriv: Deriv, sqrt: real -> real, eigvalsh: Eigvalsh)

  /** The primitives obey the laws the model relies on. */
  ghost predicate Lawful(b: Backend)
  {
    IsSqrt(b.sqrt) && PreservesLength(b.deriv)
  }

  /** `sqrt` is the non-negative square root on the non-negative reals. */
  ghost predicate IsSqrt(sqrt: real -> real)
  {
    forall x :: 0.0 <= x ==> 0.0 <= sqrt(x) && Sq(sqrt(x)) == x
  }

  /** The derivative of a field is a field on the same grid. */
  ghost predicate PreservesLength(d: Deriv)
  {
    forall l, f, j :: |d(l, f, j)| == |f|
  }

  /** Pointwise difference of two scalar fields. */
  function Sub(f: seq<real>, g: seq<real>): (h: seq<real>)
    requires |f| == |g|
    ensures |h| == |f|
    ensures forall k :: 0 <= k < |f| ==> h[k] == f[k] - g[k]
  {
    seq(|f|, k requires 0 <= k < |f| => f[k] - g[k])
  }

  /** Differentiation is linear (it commutes with differences). */
  ghost predicate IsLinear(d: Deriv, l: real)
  {
    forall f, g, j :: |f| == |g| && |d(l, f, j)| == |d(l, g, j)| ==> d(l, Sub(f, g), j) == Sub(d(l, f, j), d(l, g, j))
  }

  /** Mixed partial derivatives commute. */
  ghost predicate Commutes(d: Deriv, l: real)
  {
    forall f, a, b :: d(l, d(l, f, a), b) == d(l, d(l, f, b), a)
  }

  ghost predicate IsPow10(pow10: real -> real)
  {
    && (forall x :: 0.0 < pow10(x))
    && (forall x, y :: x < y ==> pow10(x) < pow10(y))
  }

  /** The square of a real. */
  function Sq(x: real): real
  {
    x * x
  }

  function Cube(x: real): real
  {
    x * x * x
  }

  lemma CubeNonneg(x: real)
    requires 0.0 <= x
    ensures 0.0 <= Cube(x)
  {
    MulNonnegMono(0.0, x, x);
    MulNonnegMono(0.0, x * x, x);
  }

  function Abs(x: real): real
  {
    if x < 0.0 then -x else x
  }

  lemma SqPos(x: real)
    requires x != 0.0
    ensures 0.0 < Sq(x)
  {
    if 0.0 < x {
      calc {
        Sq(x);
        x * x;
        > { assert x * x > 0.0 * x; }
        0.0;
      }
    } else {
      calc {
        Sq(x);
        (-x) * (-x);
        > { assert (-x) * (-x) > 0.0 * (-x); }
        0.0;
      }
    }
  }

  lemma SqNonneg(x: real)
    ensures 0.0 <= Sq(x)
  {
    if x != 0.0 {
      SqPos(x);
    }
  }

  lemma SqrtZero(sqrt: real -> real)
    requires IsSqrt(sqrt)
    ensures sqrt(0.0) == 0.0
  {
    if sqrt(0.0) != 0.0 {
      SqPos(sqrt(0.0));
    }
  }

  lemma SqrtPositive(sqrt: real -> real, x: real)
    requires IsSqrt(sqrt)
    requires 0.0 < x
    ensures 0.0 < sqrt(x)
  {
    assert Sq(0.0) == 0.0;
  }

  lemma MulMono(a: real, b: real, c: real)
    requires a <= b && 0.0 < c
    ensures a * c <= b * c
  {
  }

  lemma MulNonzero(a: real, b: real)
    requires a != 0.0 && b != 0.0
    ensures a * b != 0.0
  {
  }

  lemma MulStrict(a: real, b: real, c: real)
    requires a < b && 0.0 < c
    ensures a * c < b * c
  {
  }

  lemma MulNonnegMono(a: real, b: real, c: real)
    requires 0.0 <= a <= b && 0.0 <= c
    ensures 0.0 <= a * c <= b * c
  {
  }

  lemma DivMono(a: real, b: real, c: real)
    requires a <= b && 0.0 < c
    ensures a / c <= b / c
  {
  }

  lemma DivCancel(a: real, b: real)
    requires b != 0.0
    ensures (a / b) * b == a
  {
  }

  lemma SqMono(a: real, b: real)
    requires 0.0 < a <= b
    ensures Sq(a) <= Sq(b)
  {
    MulMono(a, b, a);
    MulMono(a, b, b);
  }

  /** A larger positive denominator gives a smaller quotient. */
  lemma DivDenominatorMono(a: real, d1: real, d2: real)
    requires 0.0 <= a && 0.0 < d1 <= d2
    ensures a / d2 <= a / d1
  {
    var q1, q2 := a / d1, a / d2;
    assert q1 * d1 == a;
    assert q2 * d2 == a;
    assert 0.0 <= q2;
    assert q2 * d1 <= q2 * d2;
    assert q2 * d1 <= q1 * d1;
  }

  /** Distributing two coefficients over two sums. */
  lemma Distrib2(a: real, b: real, s0: real, ss: real, t0: real, ts: real)
    ensures a * (s0 + ss) + b * (t0 + ts) == (a * s0 + b * t0) + (a * ss + b * ts)
  {
  }

  /** Distributing a subtracted multiple over two sums. */
  lemma DistribSub(a: real, s0: real, ss: real, t0: real, ts: real)
    ensures (s0 + ss) - a * (t0 + ts) == (s0 - a * t0) + (ss - a * ts)
  {
  }

  /** Multiplying a linear combination through by u. */
  lemma LinTimes(w: real, s: real, t: real, u: real, a: real, b: real)
    requires w == a * s + b * t
    ensures w * u == a * (s * u) + b * (t * u)
  {
  }

  /** Multiplying a difference through by u. */
  lemma SubTimes(w: real, s: real, t: real, u: real, a: real)
    requires w == s - a * t
    ensures w * u == s * u - a * (t * u)
  {
  }

  /** Multiplying a sum by a constant. */
  lemma ConstTimes(c: real, s0: real, ss: real)
    ensures c * (s0 + ss) == s0 * c + c * ss
  {
  }

  /** One more copy of c. */
  lemma CountTimes(n: real, c: real)
    ensures (n + 1.0) * c == c + n * c
  {
  }

  /** Multiplying an affine value through by e. */
  lemma AffineTimes(d: real, x: real, e: real, ca: real, cb: real)
    requires d == ca * x + cb
    ensures d * e == ca * (x * e) + cb * e
  {
  }
}
