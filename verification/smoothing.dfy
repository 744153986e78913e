/**
 The exponential moving average helper `ema(values, period)` of script.js.

 `Ema` is the reference definition, built one output at a time exactly as
 the JavaScript loop pushes them; `EmaLoop` is the loop itself.
 */
module Smoothing {
  import opened Numerics

  /** k = 2 / (period + 1). */
  function SmoothingFactor(period: nat): (k: real)
    ensures period >= 1 ==> 0.0 < k <= 1.0
    ensures period == 1 <==> k == 1.0
  {
    2.0 / (period as real + 1.0)
  }

  /**
   The first output is the first input; every later output is
   `values[i] * k + previous * (1 - k)`.
   */
  function Ema(values: seq<real>, period: nat): (r: seq<real>)
    requires |values| > 0
    ensures |r| == |values|
    ensures r[0] == values[0]
    decreases |values|
  {
    if |values| == 1 then [values[0]]
    else
      var prev := Ema(values[..|values| - 1], period);
      var k := SmoothingFactor(period);
      var next := values[|values| - 1] * k + prev[|prev| - 1] * (1.0 - k);
      prev + [next]
  }

  /** The JavaScript loop (script.js lines 16-26), computing the same sequence as `Ema`. */
  method EmaLoop(values: seq<real>, period: nat) returns (out: seq<real>)
    requires |values| > 0
    ensures out == Ema(values, period)
  {
    var k := SmoothingFactor(period);
    var prev := values[0];
    out := [prev];
    var i := 1;
    while i < |values|
      invariant 1 <= i <= |values|
      invariant out == Ema(values[..i], period)
      invariant prev == out[i - 1]
    {
      var v := values[i] * k + prev * (1.0 - k);
      assert values[..i + 1][..i] == values[..i];
      assert values[..i + 1][i] == values[i];
      assert Ema(values[..i + 1], period)[i] == v;
      assert Ema(values[..i + 1], period) == out + [v];
      out := out + [v];
      prev := v;
      i := i + 1;
    }
    assert values[..i] == values;
  }

  /** Each output after the first follows the recurrence of line 22. */
  lemma {:induction false} EmaRecurrence(values: seq<real>, period: nat, i: nat)
    requires 1 <= i < |values|
    ensures Ema(values, period)[i]
         == values[i] * SmoothingFactor(period) + Ema(values, period)[i - 1] * (1.0 - SmoothingFactor(period))
    decreases |values|
  {
    var n := |values|;
    if i < n - 1 {
      var front := values[..n - 1];
      EmaRecurrence(front, period, i);
      assert Ema(values, period)[..n - 1] == Ema(front, period);
      assert front[i] == values[i];
    }
  }

  /** The EMA of a prefix is the prefix of the EMA: earlier outputs never depend on later inputs. */
  lemma {:induction false} EmaPrefix(values: seq<real>, period: nat, n: nat)
    requires 1 <= n <= |values|
    ensures Ema(values[..n], period) == Ema(values, period)[..n]
    decreases |values|
  {
    if n < |values| {
      var front := values[..|values| - 1];
      EmaPrefix(front, period, n);
      assert front[..n] == values[..n];
      assert Ema(values, period)[..|values| - 1] == Ema(front, period);
      assert Ema(values, period)[..n] == Ema(values, period)[..|values| - 1][..n];
    } else {
      assert values[..n] == values;
    }
  }

  /** Period 1 gives k = 1: the EMA is its input unchanged. */
  lemma {:induction false} EmaPeriodOneIsIdentity(values: seq<real>)
    requires |values| > 0
    ensures Ema(values, 1) == values
    decreases |values|
  {
    if |values| > 1 {
      var front := values[..|values| - 1];
      EmaPeriodOneIsIdentity(front);
      var r := Ema(values, 1);
      assert SmoothingFactor(1) == 1.0;
      assert r[|values| - 1] == values[|values| - 1] * 1.0 + front[|front| - 1] * (1.0 - 1.0);
      assert r == front + [values[|values| - 1]] == values;
    }
  }

  /** For a period of at least one every output is a convex combination of inputs, so it stays in any range that holds them all. */
  lemma {:induction false} EmaWithin(values: seq<real>, period: nat, lo: real, hi: real)
    requires |values| > 0
    requires period >= 1
    requires AllWithin(values, lo, hi)
    ensures AllWithin(Ema(values, period), lo, hi)
    decreases |values|
  {
    if |values| > 1 {
      var front := values[..|values| - 1];
      assert AllWithin(front, lo, hi);
      EmaWithin(front, period, lo, hi);
      var prev := Ema(front, period);
      var k := SmoothingFactor(period);
      var next := values[|values| - 1] * k + prev[|prev| - 1] * (1.0 - k);
      var r := Ema(values, period);
      assert r[|values| - 1] == next;
      assert r == prev + [next];
      ConvexCombinationWithin(values[|values| - 1], prev[|prev| - 1], k, lo, hi);
      forall i | 0 <= i < |r|
        ensures lo <= r[i] <= hi
      {
        if i < |prev| {
          assert r[i] == prev[i];
        }
      }
    }
  }

  /** Positive inputs and a period of at least one give positive outputs; in particular the last one, which script.js line 34 divides by. */
  lemma {:induction false} EmaPositive(values: seq<real>, period: nat)
    requires |values| > 0
    requires period >= 1
    requires AllPositive(values)
    ensures AllPositive(Ema(values, period))
    decreases |values|
  {
    if |values| > 1 {
      var front := values[..|values| - 1];
      assert AllPositive(front);
      EmaPositive(front, period);
      var prev := Ema(front, period);
      var k := SmoothingFactor(period);
      var next := values[|values| - 1] * k + prev[|prev| - 1] * (1.0 - k);
      var r := Ema(values, period);
      assert r[|values| - 1] == next;
      assert r == prev + [next];
      assert values[|values| - 1] * k > 0.0;
      assert prev[|prev| - 1] * (1.0 - k) >= 0.0;
      forall i | 0 <= i < |r|
        ensures r[i] > 0.0
      {
        if i < |prev| {
          assert r[i] == prev[i];
        }
      }
    }
  }

  /** Output i lies within any range holding inputs 0..i: between their minimum and maximum. */
  lemma EmaWithinInputsSoFar(values: seq<real>, period: nat, i: nat, lo: real, hi: real)
    requires i < |values|
    requires period >= 1
    requires AllWithin(values[..i + 1], lo, hi)
    ensures lo <= Ema(values, period)[i] <= hi
  {
    EmaPrefix(values, period, i + 1);
    EmaWithin(values[..i + 1], period, lo, hi);
  }
}
