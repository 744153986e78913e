/**
 Real-number helpers shared by the signal engine: sums, means, the
 population variance used by both volatility estimators, JavaScript's
 `slice(-n)`, and what the engine relies on about `Math.sqrt`.

 JavaScript doubles are modelled as `real`. `Math.sqrt` and `Math.log`
 are passed around as function values; the only thing assumed about a
 square root is `IsSqrt` below.
 */
module Numerics {

  /** `sqrt` behaves as the non-negative square root on non-negative arguments. */
  ghost predicate IsSqrt(sqrt: real -> real) {
    forall x :: x >= 0.0 ==> sqrt(x) >= 0.0 && sqrt(x) * sqrt(x) == x
  }

  predicate AllPositive(s: seq<real>) {
    forall i :: 0 <= i < |s| ==> s[i] > 0.0
  }

  predicate AllNonNegative(s: seq<real>) {
    forall i :: 0 <= i < |s| ==> s[i] >= 0.0
  }

  predicate AllWithin(s: seq<real>, lo: real, hi: real) {
    forall i :: 0 <= i < |s| ==> lo <= s[i] <= hi
  }

  function Min(a: real, b: real): real { if a <= b then a else b }

  function Max(a: real, b: real): real { if a <= b then b else a }

  /** Left fold `arr.reduce((a, b) => a + b, 0)`. */
  function Sum(s: seq<real>): real
    decreases |s|
  {
    if |s| == 0 then 0.0 else Sum(s[..|s| - 1]) + s[|s| - 1]
  }

  /** `arr.reduce(...) / arr.length` for a non-empty array. */
  function Mean(s: seq<real>): real
    requires |s| > 0
  {
    Sum(s) / (|s| as real)
  }

  /** `arr.reduce((s, x) => s + Math.pow(x - m, 2), 0)`. */
  function SumSquaredDeviations(s: seq<real>, m: real): (r: real)
    ensures r >= 0.0
    decreases |s|
  {
    if |s| == 0 then 0.0
    else
      var d := s[|s| - 1] - m;
      SumSquaredDeviations(s[..|s| - 1], m) + d * d
  }

  /** Variance dividing by the number of observations (not by n - 1). */
  function PopulationVariance(s: seq<real>): (v: real)
    requires |s| > 0
    ensures v >= 0.0
  {
    SumSquaredDeviations(s, Mean(s)) / (|s| as real)
  }

  /** JavaScript `s.slice(-n)` for n > 0: the last n elements, or all of s when it is shorter. */
  function LastN(s: seq<real>, n: nat): (r: seq<real>)
    requires n > 0
    ensures |r| == if |s| >= n then n else |s|
    ensures r == s[|s| - |r|..]
  {
    if |s| >= n then s[|s| - n..] else s
  }

  lemma {:induction false} SumBounded(s: seq<real>, lo: real, hi: real)
    requires AllWithin(s, lo, hi)
    ensures (|s| as real) * lo <= Sum(s) <= (|s| as real) * hi
    decreases |s|
  {
    if |s| > 0 {
      var front, x := s[..|s| - 1], s[|s| - 1];
      assert AllWithin(front, lo, hi);
      SumBounded(front, lo, hi);
      var n := |front| as real;
      assert Sum(s) == Sum(front) + x;
      assert lo <= x <= hi;
      assert (|s| as real) * lo == n * lo + lo;
      assert (|s| as real) * hi == n * hi + hi;
    }
  }

  /** The mean of values inside [lo, hi] is inside [lo, hi]. */
  lemma MeanBounded(s: seq<real>, lo: real, hi: real)
    requires |s| > 0
    requires AllWithin(s, lo, hi)
    ensures lo <= Mean(s) <= hi
  {
    SumBounded(s, lo, hi);
    QuotientBounded(Sum(s), |s| as real, lo, hi);
  }

  lemma {:induction false} SumOfConstant(s: seq<real>, c: real)
    requires forall i :: 0 <= i < |s| ==> s[i] == c
    ensures Sum(s) == (|s| as real) * c
    decreases |s|
  {
    if |s| > 0 {
      SumOfConstant(s[..|s| - 1], c);
    }
  }

  lemma {:induction false} NoDeviationFromConstant(s: seq<real>, c: real)
    requires forall i :: 0 <= i < |s| ==> s[i] == c
    ensures SumSquaredDeviations(s, c) == 0.0
    decreases |s|
  {
    if |s| > 0 {
      NoDeviationFromConstant(s[..|s| - 1], c);
    }
  }

  /** A constant series has itself as mean and zero variance. */
  lemma ConstantHasZeroVariance(s: seq<real>, c: real)
    requires |s| > 0
    requires forall i :: 0 <= i < |s| ==> s[i] == c
    ensures Mean(s) == c
    ensures PopulationVariance(s) == 0.0
  {
    SumOfConstant(s, c);
    NoDeviationFromConstant(s, c);
  }

  /** The divisor is n: two points a and b have variance ((a - b) / 2)^2, not (a - b)^2 / 2. */
  lemma TwoPointVariance(a: real, b: real)
    ensures PopulationVariance([a, b]) == (a - b) * (a - b) / 4.0
  {
    var s := [a, b];
    assert s[..1] == [a];
    assert s[..1][..0] == [];
    var m := (a + b) / 2.0;
    assert Sum(s) == Sum(s[..1]) + b == a + b;
    assert Mean(s) == m;
    assert SumSquaredDeviations(s[..1], m) == SumSquaredDeviations([], m) + (a - m) * (a - m);
    assert SumSquaredDeviations(s, m) == (a - m) * (a - m) + (b - m) * (b - m);
  }

  /** x*w + y*(1-w) lies between any bounds shared by x and y. */
  lemma ConvexCombinationWithin(x: real, y: real, w: real, lo: real, hi: real)
    requires 0.0 <= w <= 1.0
    requires lo <= x <= hi && lo <= y <= hi
    ensures lo <= x * w + y * (1.0 - w) <= hi
  {
    assert w * (x - lo) >= 0.0;
    assert (1.0 - w) * (y - lo) >= 0.0;
    assert w * (hi - x) >= 0.0;
    assert (1.0 - w) * (hi - y) >= 0.0;
  }

  lemma SqrtOfZero(sqrt: real -> real)
    requires IsSqrt(sqrt)
    ensures sqrt(0.0) == 0.0
  {
    SqrtOfSquare(sqrt, 0.0);
  }

  /** The square root of m*m is m itself when m is non-negative. */
  lemma SqrtOfSquare(sqrt: real -> real, m: real)
    requires IsSqrt(sqrt)
    requires m >= 0.0
    ensures sqrt(m * m) == m
  {
    var s := sqrt(m * m);
    assert s >= 0.0 && s * s == m * m;
    assert (s - m) * (s + m) == 0.0;
    if s + m != 0.0 {
      ZeroFactor(s - m, s + m);
    }
  }

  lemma SqrtMonotone(sqrt: real -> real, a: real, b: real)
    requires IsSqrt(sqrt)
    requires 0.0 <= a <= b
    ensures sqrt(a) <= sqrt(b)
  {
    var sa, sb := sqrt(a), sqrt(b);
    assert sa >= 0.0 && sa * sa == a;
    assert sb >= 0.0 && sb * sb == b;
    assert (sb - sa) * (sb + sa) == b - a;
    if sb + sa != 0.0 {
      NonNegativeFactor(sb - sa, sb + sa);
    }
  }

  lemma QuotientBounded(total: real, n: real, lo: real, hi: real)
    requires n > 0.0
    requires n * lo <= total <= n * hi
    ensures lo <= total / n <= hi
  {
    assert total / n - lo == (total - n * lo) / n;
    assert hi - total / n == (n * hi - total) / n;
  }

  lemma ZeroFactor(x: real, y: real)
    requires y != 0.0 && x * y == 0.0
    ensures x == 0.0
  {
    assert x == (x * y) / y;
  }

  lemma NonNegativeFactor(x: real, y: real)
    requires y > 0.0 && x * y >= 0.0
    ensures x >= 0.0
  {
    assert x == (x * y) / y;
  }
}
