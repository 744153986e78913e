/**
 The series behind the volatility chart of script.js (`updateVolChart`):
 a rolling 24-return realized volatility in percent, and its EWMA
 forecast with decay 0.94. Only the sequences are modelled, not the
 drawing.
 */
module Volatility {
  import opened Wrappers
  import opened Numerics
  import opened Signal

  const ChartMinCloses: nat := 50
  const Lambda: real := 0.94

  datatype VolCurves = VolCurves(realized: seq<real>, forecast: seq<real>)

  /** The helper `std(arr)`: square root of the population variance. */
  function WindowStd(window: seq<real>, sqrt: real -> real): (sd: real)
    requires |window| > 0
    requires IsSqrt(sqrt)
    ensures sd >= 0.0
    ensures sd * sd == PopulationVariance(window)
  {
    sqrt(PopulationVariance(window))
  }

  /**
   Entry j is the annualized percentage volatility of returns j..j+23, the
   window `returns.slice(i - 24, i)` for i = j + 24; there are
   max(0, |returns| - 24) entries, all non-negative.
   */
  function RollingVol(rets: seq<real>, sqrt: real -> real): (rv: seq<real>)
    requires IsSqrt(sqrt)
    ensures |rv| == if |rets| > VolWindow then |rets| - VolWindow else 0
    ensures forall j :: 0 <= j < |rv| ==> rv[j] == WindowStd(rets[j..j + VolWindow], sqrt) * sqrt(HoursPerYear) * 100.0
    ensures AllNonNegative(rv)
  {
    if |rets| <= VolWindow then []
    else
      assert sqrt(HoursPerYear) >= 0.0;
      seq(|rets| - VolWindow, j requires 0 <= j < |rets| - VolWindow =>
        WindowStd(rets[j..j + VolWindow], sqrt) * sqrt(HoursPerYear) * 100.0)
  }

  /**
   No window includes the most recent return: the loop bound `i < returns.length`
   stops the last slice at index |returns| - 2. Replacing the last return
   leaves the whole rolling series unchanged.
   */
  lemma RollingVolOmitsLatestReturn(rets: seq<real>, x: real, sqrt: real -> real)
    requires |rets| > 0
    requires IsSqrt(sqrt)
    ensures RollingVol(rets[..|rets| - 1] + [x], sqrt) == RollingVol(rets, sqrt)
  {
    var other := rets[..|rets| - 1] + [x];
    var a, b := RollingVol(other, sqrt), RollingVol(rets, sqrt);
    forall j | 0 <= j < |a|
      ensures a[j] == b[j]
    {
      assert other[j..j + VolWindow] == rets[j..j + VolWindow];
    }
  }

  /** lambda * prev^2 + (1 - lambda) * x^2 */
  function EwmaVariance(prev: real, x: real): real {
    Lambda * (prev * prev) + (1.0 - Lambda) * (x * x)
  }

  function EwmaStep(prev: real, x: real, sqrt: real -> real): real {
    sqrt(EwmaVariance(prev, x))
  }

  /** The forecast recursion seeded with the first realized volatility. */
  function EwmaSeries(rv: seq<real>, sqrt: real -> real): (f: seq<real>)
    requires |rv| > 0
    ensures |f| == |rv|
    ensures f[0] == rv[0]
    decreases |rv|
  {
    if |rv| == 1 then [rv[0]]
    else
      var prev := EwmaSeries(rv[..|rv| - 1], sqrt);
      prev + [EwmaStep(prev[|prev| - 1], rv[|rv| - 1], sqrt)]
  }

  /**
   The forecast list: seeded with `rv[0] || 0`, so an empty input gives
   exactly [0]; otherwise one forecast per realized value, starting at the
   first one.
   */
  function Ewma(rv: seq<real>, sqrt: real -> real): (f: seq<real>)
    ensures |f| == if |rv| == 0 then 1 else |rv|
    ensures |rv| == 0 ==> f == [0.0]
    ensures |rv| > 0 ==> f[0] == rv[0]
  {
    if |rv| == 0 then [0.0] else EwmaSeries(rv, sqrt)
  }

  /** The JavaScript loop (script.js lines 78-79), computing the same list as `Ewma`. */
  method EwmaLoop(rv: seq<real>, sqrt: real -> real) returns (ewma: seq<real>)
    ensures ewma == Ewma(rv, sqrt)
  {
    var prev := if |rv| > 0 then rv[0] else 0.0;
    ewma := [prev];
    if |rv| == 0 {
      return;
    }
    var i := 1;
    while i < |rv|
      invariant 1 <= i <= |rv|
      invariant ewma == EwmaSeries(rv[..i], sqrt)
      invariant prev == ewma[i - 1]
    {
      var next := EwmaStep(prev, rv[i], sqrt);
      assert rv[..i + 1][..i] == rv[..i];
      assert rv[..i + 1][i] == rv[i];
      assert EwmaSeries(rv[..i + 1], sqrt)[i] == next;
      assert EwmaSeries(rv[..i + 1], sqrt) == ewma + [next];
      ewma := ewma + [next];
      prev := next;
      i := i + 1;
    }
    assert rv[..i] == rv;
  }

  lemma {:induction false} EwmaRecurrence(rv: seq<real>, sqrt: real -> real, i: nat)
    requires 1 <= i < |rv|
    ensures EwmaSeries(rv, sqrt)[i] == EwmaStep(EwmaSeries(rv, sqrt)[i - 1], rv[i], sqrt)
    decreases |rv|
  {
    var n := |rv|;
    if i < n - 1 {
      var front := rv[..n - 1];
      EwmaRecurrence(front, sqrt, i);
      assert EwmaSeries(rv, sqrt)[..n - 1] == EwmaSeries(front, sqrt);
      assert front[i] == rv[i];
    }
  }

  /** Non-negative realized volatilities give non-negative forecasts. */
  lemma {:induction false} EwmaNonNegative(rv: seq<real>, sqrt: real -> real)
    requires IsSqrt(sqrt)
    requires AllNonNegative(rv)
    ensures AllNonNegative(Ewma(rv, sqrt))
    decreases |rv|
  {
    if |rv| > 1 {
      var front := rv[..|rv| - 1];
      assert AllNonNegative(front);
      EwmaNonNegative(front, sqrt);
      var prev := EwmaSeries(front, sqrt);
      var f := EwmaSeries(rv, sqrt);
      var next := EwmaStep(prev[|prev| - 1], rv[|rv| - 1], sqrt);
      assert f[|rv| - 1] == next;
      assert f == prev + [next];
      assert EwmaVariance(prev[|prev| - 1], rv[|rv| - 1]) >= 0.0;
      forall i | 0 <= i < |f|
        ensures f[i] >= 0.0
      {
        if i < |prev| {
          assert f[i] == prev[i];
        }
      }
    }
  }

  lemma SquareMonotone(a: real, b: real)
    requires 0.0 <= a <= b
    ensures a * a <= b * b
  {
    assert a * a <= a * b;
    assert a * b <= b * b;
  }

  /** One step of the recursion lands between the previous forecast and the new realized value. */
  lemma EwmaStepBetween(prev: real, x: real, sqrt: real -> real)
    requires IsSqrt(sqrt)
    requires prev >= 0.0 && x >= 0.0
    ensures Min(prev, x) <= EwmaStep(prev, x, sqrt) <= Max(prev, x)
  {
    var lo, hi := Min(prev, x), Max(prev, x);
    SquareMonotone(lo, prev);
    SquareMonotone(lo, x);
    SquareMonotone(prev, hi);
    SquareMonotone(x, hi);
    ConvexCombinationWithin(prev * prev, x * x, Lambda, lo * lo, hi * hi);
    var v := EwmaVariance(prev, x);
    assert v == (prev * prev) * Lambda + (x * x) * (1.0 - Lambda);
    SqrtMonotone(sqrt, lo * lo, v);
    SqrtMonotone(sqrt, v, hi * hi);
    SqrtOfSquare(sqrt, lo);
    SqrtOfSquare(sqrt, hi);
  }

  /** Convexity of the recursion: each forecast lies between the previous forecast and the current realized value. */
  lemma EwmaBetween(rv: seq<real>, sqrt: real -> real, i: nat)
    requires IsSqrt(sqrt)
    requires AllNonNegative(rv)
    requires 1 <= i < |rv|
    ensures Min(Ewma(rv, sqrt)[i - 1], rv[i]) <= Ewma(rv, sqrt)[i] <= Max(Ewma(rv, sqrt)[i - 1], rv[i])
  {
    EwmaNonNegative(rv, sqrt);
    EwmaRecurrence(rv, sqrt, i);
    var f := Ewma(rv, sqrt);
    EwmaStepBetween(f[i - 1], rv[i], sqrt);
  }

  predicate ChartSufficient(closes: Option<seq<real>>) {
    closes.Some? && |closes.value| >= ChartMinCloses
  }

  /**
   `updateVolChart` without the drawing: nothing when fewer than 50 closes
   (or none) are given; otherwise |closes| - 25 realized values, value j the
   annualized percent std of log returns j..j+23, and their EWMA forecasts,
   all non-negative, so the `|| 0` seed is never used here.
   */
  function VolChart(closes: Option<seq<real>>, ln: real -> real, sqrt: real -> real): (r: Option<VolCurves>)
    requires ChartSufficient(closes) ==> AllPositive(closes.value)
    requires IsSqrt(sqrt)
    ensures r.Some? <==> ChartSufficient(closes)
    ensures r.Some? ==> |r.value.realized| == |closes.value| - 1 - VolWindow
    ensures r.Some? ==> |r.value.forecast| == |r.value.realized|
    ensures r.Some? ==> r.value.forecast[0] == r.value.realized[0]
    ensures r.Some? ==> AllNonNegative(r.value.realized) && AllNonNegative(r.value.forecast)
    ensures r.Some? ==> forall j :: 0 <= j < |r.value.realized| ==>
              r.value.realized[j] == WindowStd(LogReturns(closes.value, ln)[j..j + VolWindow], sqrt) * sqrt(HoursPerYear) * 100.0
    ensures r.Some? ==> r.value.forecast == Ewma(r.value.realized, sqrt)
  {
    if !ChartSufficient(closes) then None
    else
      var rv := RollingVol(LogReturns(closes.value, ln), sqrt);
      EwmaNonNegative(rv, sqrt);
      Some(VolCurves(rv, Ewma(rv, sqrt)))
  }
}
