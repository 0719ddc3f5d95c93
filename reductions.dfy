/** Reductions over flat grids: ordered real sums, boolean-mask counts,
    masked sums (`np.sum(w[mask])`), boolean selection (`s[mask]`) and the
    minimum and maximum of a non-empty sequence. */
module Reductions {
  import opened Numerics

  /** Orderings and signs of a sequence of reals. */
  predicate StrictlyIncreasing(s: seq<real>)
  {
    forall i, j :: 0 <= i < j < |s| ==> s[i] < s[j]
  }

  predicate NonDecreasing(s: seq<real>)
  {
    forall i, j :: 0 <= i <= j < |s| ==> s[i] <= s[j]
  }

  predicate NonIncreasing(s: seq<real>)
  {
    forall i, j :: 0 <= i <= j < |s| ==> s[j] <= s[i]
  }

  predicate AllPositive(s: seq<real>)
  {
    forall i :: 0 <= i < |s| ==> 0.0 < s[i]
  }

  /** The sum of the entries of `s`, taken from the front. */
  function Sum(s: seq<real>): real
  {
    if |s| == 0 then 0.0 else s[0] + Sum(s[1..])
  }

  /** The arithmetic mean (`np.mean`) of a non-empty sequence. */
  function Mean(s: seq<real>): real
    requires |s| > 0
  {
    Sum(s) / (|s| as real)
  }

  lemma {:induction false} SumNonneg(s: seq<real>)
    requires forall k :: 0 <= k < |s| ==> 0.0 <= s[k]
    ensures 0.0 <= Sum(s)
  {
    if |s| > 0 {
      SumNonneg(s[1..]);
    }
  }

  /** Sums are monotone under a pointwise order. */
  lemma {:induction false} SumMono(s: seq<real>, t: seq<real>)
    requires |s| == |t|
    requires forall k :: 0 <= k < |s| ==> s[k] <= t[k]
    ensures Sum(s) <= Sum(t)
  {
    if |s| > 0 {
      SumMono(s[1..], t[1..]);
    }
  }

  lemma {:induction false} SumZeros(s: seq<real>)
    requires forall k :: 0 <= k < |s| ==> s[k] == 0.0
    ensures Sum(s) == 0.0
  {
    if |s| > 0 {
      SumZeros(s[1..]);
    }
  }

  /** A non-empty sum of terms below `c` is below `c` times the length. */
  lemma {:induction false} SumBelow(s: seq<real>, c: real)
    requires |s| > 0
    requires forall k :: 0 <= k < |s| ==> s[k] < c
    ensures Sum(s) < c * (|s| as real)
  {
    if |s| > 1 {
      SumBelow(s[1..], c);
    }
  }

  /** The mean of non-negative terms is non-negative, and the mean of terms
      below `c` is below `c`. */
  lemma MeanBounds(s: seq<real>, c: real)
    requires |s| > 0
    requires forall k :: 0 <= k < |s| ==> 0.0 <= s[k] < c
    ensures 0.0 <= Mean(s) < c
  {
    SumNonneg(s);
    SumBelow(s, c);
  }

  lemma MeanNonneg(s: seq<real>)
    requires |s| > 0
    requires forall k :: 0 <= k < |s| ==> 0.0 <= s[k]
    ensures 0.0 <= Mean(s)
  {
    SumNonneg(s);
  }

  /** The number of `true` entries (`np.sum(mask)`). */
  function CountTrue(mask: seq<bool>): (c: nat)
    ensures c <= |mask|
  {
    if |mask| == 0 then 0 else (if mask[0] then 1 else 0) + CountTrue(mask[1..])
  }

  /** Counting is monotone in the mask: a mask contained in another has no
      more entries. */
  lemma {:induction false} CountMono(m1: seq<bool>, m2: seq<bool>)
    requires |m1| == |m2|
    requires forall k :: 0 <= k < |m1| && m1[k] ==> m2[k]
    ensures CountTrue(m1) <= CountTrue(m2)
  {
    if |m1| > 0 {
      CountMono(m1[1..], m2[1..]);
    }
  }

  lemma {:induction false} CountAll(mask: seq<bool>)
    requires forall k :: 0 <= k < |mask| ==> mask[k]
    ensures CountTrue(mask) == |mask|
  {
    if |mask| > 0 {
      CountAll(mask[1..]);
    }
  }

  /** The sum of the entries of `w` that `mask` selects (`np.sum(w[mask])`). */
  function MaskedSum(w: seq<real>, mask: seq<bool>): real
    requires |w| == |mask|
  {
    if |w| == 0 then 0.0
    else (if mask[0] then w[0] else 0.0) + MaskedSum(w[1..], mask[1..])
  }

  /** For non-negative weights the masked sum grows with the mask. */
  lemma {:induction false} MaskedSumMono(w: seq<real>, m1: seq<bool>, m2: seq<bool>)
    requires |w| == |m1| == |m2|
    requires forall k :: 0 <= k < |w| ==> 0.0 <= w[k]
    requires forall k :: 0 <= k < |w| && m1[k] ==> m2[k]
    ensures MaskedSum(w, m1) <= MaskedSum(w, m2)
  {
    if |w| > 0 {
      MaskedSumMono(w[1..], m1[1..], m2[1..]);
    }
  }

  lemma {:induction false} MaskedSumNonneg(w: seq<real>, mask: seq<bool>)
    requires |w| == |mask|
    requires forall k :: 0 <= k < |w| ==> 0.0 <= w[k]
    ensures 0.0 <= MaskedSum(w, mask)
  {
    if |w| > 0 {
      MaskedSumNonneg(w[1..], mask[1..]);
    }
  }

  /** The entries of `s` that `mask` selects, in order (`s[mask]`). */
  function Compress(s: seq<real>, mask: seq<bool>): (r: seq<real>)
    requires |s| == |mask|
    ensures |r| == CountTrue(mask)
  {
    if |s| == 0 then []
    else (if mask[0] then [s[0]] else []) + Compress(s[1..], mask[1..])
  }

  /** Entry `i` of two selections by the same mask comes from one index `k`
      of the original sequences, and that index is selected. */
  lemma {:induction false} CompressSource(s: seq<real>, t: seq<real>, mask: seq<bool>, i: nat)
    returns (k: nat)
    requires |s| == |t| == |mask|
    requires i < CountTrue(mask)
    ensures k < |mask| && mask[k]
    ensures Compress(s, mask)[i] == s[k] && Compress(t, mask)[i] == t[k]
  {
    if mask[0] && i == 0 {
      k := 0;
    } else {
      var j := if mask[0] then i - 1 else i;
      var k' := CompressSource(s[1..], t[1..], mask[1..], j);
      k := k' + 1;
    }
  }

  /** Every selected entry appears in the selection. */
  lemma {:induction false} CompressContains(s: seq<real>, mask: seq<bool>, k: nat)
    requires |s| == |mask|
    requires k < |s| && mask[k]
    ensures s[k] in Compress(s, mask)
  {
    if k > 0 {
      CompressContains(s[1..], mask[1..], k - 1);
    }
  }

  /** The least entry of a non-empty sequence (`min()`). */
  function Min(s: seq<real>): (r: real)
    requires |s| > 0
    ensures r in s
    ensures forall k :: 0 <= k < |s| ==> r <= s[k]
  {
    if |s| == 1 then s[0]
    else
      var t := Min(s[1..]);
      if s[0] <= t then s[0] else t
  }

  /** The greatest entry of a non-empty sequence (`max()`). */
  function Max(s: seq<real>): (r: real)
    requires |s| > 0
    ensures r in s
    ensures forall k :: 0 <= k < |s| ==> s[k] <= r
  {
    if |s| == 1 then s[0]
    else
      var t := Max(s[1..]);
      if s[0] >= t then s[0] else t
  }
  /** The sum of `s` when every entry is `c`. */
  lemma {:induction false} SumConst(s: seq<real>, c: real)
    requires forall k :: 0 <= k < |s| ==> s[k] == c
    ensures Sum(s) == (|s| as real) * c
  {
    if |s| > 0 {
      SumConst(s[1..], c);
      CountTimes(|s[1..]| as real, c);
    }
  }

  /** Sums are linear: a pointwise combination a*s + b*t sums to the same
      combination of the sums. */
  lemma {:induction false} SumLinear(s: seq<real>, t: seq<real>, w: seq<real>, a: real, b: real)
    requires |s| == |t| == |w|
    requires forall k :: 0 <= k < |w| ==> w[k] == a * s[k] + b * t[k]
    ensures Sum(w) == a * Sum(s) + b * Sum(t)
  {
    if |w| > 0 {
      SumLinear(s[1..], t[1..], w[1..], a, b);
      Distrib2(a, b, s[0], Sum(s[1..]), t[0], Sum(t[1..]));
    }
  }

  /** The inner product of two sequences of equal length, taken from the
      front. */
  function Dot(s: seq<real>, t: seq<real>): real
    requires |s| == |t|
  {
    if |s| == 0 then 0.0 else s[0] * t[0] + Dot(s[1..], t[1..])
  }

  lemma {:induction false} DotComm(s: seq<real>, t: seq<real>)
    requires |s| == |t|
    ensures Dot(s, t) == Dot(t, s)
  {
    if |s| > 0 {
      DotComm(s[1..], t[1..]);
    }
  }

  /** The inner product is linear in its first argument. */
  lemma {:induction false} DotLinear(s: seq<real>, t: seq<real>, w: seq<real>, u: seq<real>, a: real, b: real)
    requires |s| == |t| == |w| == |u|
    requires forall k :: 0 <= k < |w| ==> w[k] == a * s[k] + b * t[k]
    ensures Dot(w, u) == a * Dot(s, u) + b * Dot(t, u)
  {
    if |w| > 0 {
      DotLinear(s[1..], t[1..], w[1..], u[1..], a, b);
      LinTimes(w[0], s[0], t[0], u[0], a, b);
      Distrib2(a, b, s[0] * u[0], Dot(s[1..], u[1..]), t[0] * u[0], Dot(t[1..], u[1..]));
    }
  }

  /** Against a constant sequence the inner product is that constant times
      the sum. */
  lemma {:induction false} DotConst(s: seq<real>, u: seq<real>, c: real)
    requires |s| == |u|
    requires forall k :: 0 <= k < |u| ==> u[k] == c
    ensures Dot(s, u) == c * Sum(s)
  {
    if |s| > 0 {
      DotConst(s[1..], u[1..], c);
      ConstTimes(c, s[0], Sum(s[1..]));
    }
  }

  /** The inner product of a sequence with itself is non-negative, and it is
      zero exactly when every entry is zero. */
  lemma {:induction false} DotSelf(s: seq<real>)
    ensures 0.0 <= Dot(s, s)
    ensures Dot(s, s) == 0.0 <==> forall k :: 0 <= k < |s| ==> s[k] == 0.0
  {
    if |s| > 0 {
      var rest := s[1..];
      DotSelf(rest);
      assert Dot(s, s) == Sq(s[0]) + Dot(rest, rest);
      SqNonneg(s[0]);
      if s[0] != 0.0 {
        SqPos(s[0]);
      }
      if Dot(s, s) == 0.0 {
        forall k | 0 <= k < |s| ensures s[k] == 0.0 {
          if k > 0 {
            assert s[k] == rest[k - 1];
          }
        }
      }
      if forall k :: 0 <= k < |s| ==> s[k] == 0.0 {
        assert forall k :: 0 <= k < |rest| ==> rest[k] == s[k + 1];
        assert Sq(s[0]) == 0.0;
      }
    }
  }

  // The `1.0 *` factors match the shape `DotSquareOfSum` requires of w[k].
  lemma SquareOfSum(a: real, b: real)
    ensures (1.0 * a + 1.0 * b) * (1.0 * a + 1.0 * b) == a * a + 2.0 * (b * a) + b * b
  {
  }

  /** The inner product of a sum with itself expands binomially. The sum
      is written `1.0 * e[k] + 1.0 * d[k]`, the `DotLinear` shape with both
      coefficients 1. */
  lemma {:induction false} DotSquareOfSum(e: seq<real>, d: seq<real>, w: seq<real>)
    requires |e| == |d| == |w|
    requires forall k :: 0 <= k < |w| ==> w[k] == 1.0 * e[k] + 1.0 * d[k]
    ensures Dot(w, w) == Dot(e, e) + 2.0 * Dot(d, e) + Dot(d, d)
  {
    if |w| > 0 {
      DotSquareOfSum(e[1..], d[1..], w[1..]);
      SquareOfSum(e[0], d[0]);
    }
  }

  /** w is s minus a times t, entrywise. */
  predicate IsDifference(w: seq<real>, s: seq<real>, t: seq<real>, a: real)
  {
    |w| == |s| == |t| && forall k :: 0 <= k < |w| ==> w[k] == s[k] - a * t[k]
  }

  /** The tails of a difference are a difference. */
  lemma DifferenceTail(w: seq<real>, s: seq<real>, t: seq<real>, a: real)
    requires IsDifference(w, s, t, a) && |w| > 0
    ensures IsDifference(w[1..], s[1..], t[1..], a)
  {
    forall k | 0 <= k < |w| - 1 ensures w[1..][k] == s[1..][k] - a * t[1..][k] {
      assert w[1..][k] == w[k + 1] && s[1..][k] == s[k + 1] && t[1..][k] == t[k + 1];
    }
  }

  /** Subtracting a multiple: the inner product with s - a * t. */
  lemma {:induction false} DotSub(s: seq<real>, t: seq<real>, w: seq<real>, u: seq<real>, a: real)
    requires |u| == |w|
    requires IsDifference(w, s, t, a)
    ensures Dot(w, u) == Dot(s, u) - a * Dot(t, u)
  {
    if |w| > 0 {
      DotSub(s[1..], t[1..], w[1..], u[1..], a);
      SubTimes(w[0], s[0], t[0], u[0], a);
      DistribSub(a, s[0] * u[0], Dot(s[1..], u[1..]), t[0] * u[0], Dot(t[1..], u[1..]));
    }
  }

  /** Subtracting a multiple: the sum of s - a * t. */
  lemma {:induction false} SumSub(s: seq<real>, t: seq<real>, w: seq<real>, a: real)
    requires IsDifference(w, s, t, a)
    ensures Sum(w) == Sum(s) - a * Sum(t)
  {
    if |w| > 0 {
      DifferenceTail(w, s, t, a);
      SumSub(s[1..], t[1..], w[1..], a);
      var rw, rs, rt := Sum(w[1..]), Sum(s[1..]), Sum(t[1..]);
      assert rw == rs - a * rt;
      assert Sum(w) == w[0] + rw && Sum(s) == s[0] + rs && Sum(t) == t[0] + rt;
      DistribSub(a, s[0], rs, t[0], rt);
    }
  }

  /** The inner product of an affine image ca * x + cb with e. */
  lemma {:induction false} DotAffine(x: seq<real>, d: seq<real>, e: seq<real>, ca: real, cb: real)
    requires |x| == |d| == |e|
    requires forall k :: 0 <= k < |d| ==> d[k] == ca * x[k] + cb
    ensures Dot(d, e) == ca * Dot(x, e) + cb * Sum(e)
  {
    if |d| > 0 {
      var xs, ds, es := x[1..], d[1..], e[1..];
      forall k | 0 <= k < |ds| ensures ds[k] == ca * xs[k] + cb {
        assert ds[k] == d[k + 1] && xs[k] == x[k + 1];
      }
      DotAffine(xs, ds, es, ca, cb);
      var rd, rx, rs := Dot(ds, es), Dot(xs, es), Sum(es);
      assert rd == ca * rx + cb * rs;
      assert Dot(d, e) == d[0] * e[0] + rd && Dot(x, e) == x[0] * e[0] + rx && Sum(e) == e[0] + rs;
      AffineTimes(d[0], x[0], e[0], ca, cb);
      Distrib2(ca, cb, x[0] * e[0], rx, e[0], rs);
    }
  }

  /** The sequence of n ones. */
  function Ones(n: nat): (u: seq<real>)
    ensures |u| == n
    ensures forall k :: 0 <= k < n ==> u[k] == 1.0
  {
    seq(n, _ => 1.0)
  }

  /** Against the ones, the inner product is the sum. */
  lemma DotOnes(s: seq<real>)
    ensures Dot(Ones(|s|), s) == Sum(s)
  {
    DotConst(s, Ones(|s|), 1.0);
    DotComm(s, Ones(|s|));
  }
}
