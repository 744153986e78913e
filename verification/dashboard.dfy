/**
 The decision part of `runModels` in script.js: per-symbol blending of the
 local signal with an optional server prediction, the weighted aggregate
 over BTC, XRP and GALA, and the BULL/BEAR/NEUTRAL traffic light.

 Fetching closes and server predictions is not modelled; their outcomes
 are `Option` inputs (`None` when the fetch failed or no server is set).
 */
module Dashboard {
  import opened Wrappers
  import opened Numerics
  import opened Signal
  import opened Volatility

  /** The JSON body of `/api/predict`: `{prediction, score, confidence}`. */
  datatype ServerReply = ServerReply(prediction: string, score: real, confidence: real)

  /** What a signal panel shows: its state and its explanation. */
  datatype Shown = Shown(state: Direction, explain: Explain)

  datatype Traffic = Bull | Bear | Neutral

  const LocalShare: real := 0.4
  const ServerShare: real := 0.6
  const TrafficThreshold: real := 0.5

  /** BTC, XRP and GALA weigh 1.5, 1.0 and 0.8 in the aggregate. */
  const MarketWeights: seq<real> := [1.5, 1.0, 0.8]

  /** `server && server.prediction`: a reply whose prediction is a non-empty string. */
  predicate HasOpinion(reply: Option<ServerReply>) {
    reply.Some? && reply.value.prediction != ""
  }

  function CombinedScore(local: real, server: real): real {
    local * LocalShare + server * ServerShare
  }

  /** The blended score is a convex combination: it lies between the two scores it blends. */
  lemma CombinedScoreBetween(local: real, server: real)
    ensures Min(local, server) <= CombinedScore(local, server) <= Max(local, server)
  {
    ConvexCombinationWithin(local, server, LocalShare, Min(local, server), Max(local, server));
  }

  /**
   Without an opinion the panel shows the local state and explanation
   unchanged; with one it shows the classification of 0.4 * local + 0.6 *
   server, using the same thresholds, and both constituent scores.
   */
  function Blend(local: SignalResult, reply: Option<ServerReply>): (s: Shown)
    ensures !HasOpinion(reply) ==> s == Shown(local.state, local.explain)
    ensures HasOpinion(reply) ==> s.explain == ClientServer(local.score, reply.value.score)
    ensures HasOpinion(reply) ==> s.state == Classify(CombinedScore(local.score, reply.value.score))
  {
    if HasOpinion(reply) then
      Shown(Classify(CombinedScore(local.score, reply.value.score)), ClientServer(local.score, reply.value.score))
    else
      Shown(local.state, local.explain)
  }

  /** When the local and the server score agree on a direction, the blend shows that direction. */
  lemma BlendAgreement(local: SignalResult, reply: Option<ServerReply>)
    requires HasOpinion(reply)
    requires Classify(local.score) == Classify(reply.value.score)
    ensures Blend(local, reply).state == Classify(local.score)
  {
    CombinedScoreBetween(local.score, reply.value.score);
  }

  /**
   The server's score is a difference of two probabilities, within [-1, 1]:
   blended with a local score of 0 (for instance insufficient data) it can
   reach at most 0.6 in size, so the panel stays NEUTRAL.
   */
  lemma BlendWithoutLocalEvidence(local: SignalResult, reply: Option<ServerReply>)
    requires local.score == 0.0
    requires reply.Some? ==> -1.0 <= reply.value.score <= 1.0
    requires local.state == Direction.Neutral
    ensures Blend(local, reply).state == Direction.Neutral
  {
  }

  /** Numerator of the aggregate: the sum of score * weight (`(score || 0) * weight`). */
  function WeightedScoreSum(scores: seq<real>, weights: seq<real>): real
    requires |scores| == |weights|
    decreases |scores|
  {
    if |scores| == 0 then 0.0
    else
      var n := |scores| - 1;
      WeightedScoreSum(scores[..n], weights[..n]) + scores[n] * weights[n]
  }

  /** Denominator before the fallback: the weights of the non-zero scores (`score ? weight : 0`). */
  function IncludedWeight(scores: seq<real>, weights: seq<real>): real
    requires |scores| == |weights|
    decreases |scores|
  {
    if |scores| == 0 then 0.0
    else
      var n := |scores| - 1;
      IncludedWeight(scores[..n], weights[..n]) + (if scores[n] != 0.0 then weights[n] else 0.0)
  }

  /**
   The weighted mean of the non-zero scores; a zero denominator is replaced
   by 1 (`|| 1`), so all-zero scores aggregate to 0.
   */
  function Aggregate(scores: seq<real>, weights: seq<real>): (a: real)
    requires |scores| == |weights|
    ensures (forall i :: 0 <= i < |scores| ==> scores[i] == 0.0) ==> a == 0.0
  {
    var den := IncludedWeight(scores, weights);
    AllZeroSumsToZero(scores, weights);
    WeightedScoreSum(scores, weights) / (if den == 0.0 then 1.0 else den)
  }

  lemma {:induction false} AllZeroSumsToZero(scores: seq<real>, weights: seq<real>)
    requires |scores| == |weights|
    ensures (forall i :: 0 <= i < |scores| ==> scores[i] == 0.0) ==>
              WeightedScoreSum(scores, weights) == 0.0 && IncludedWeight(scores, weights) == 0.0
    decreases |scores|
  {
    if |scores| > 0 {
      var n := |scores| - 1;
      AllZeroSumsToZero(scores[..n], weights[..n]);
    }
  }

  lemma {:induction false} SumsSplit(s1: seq<real>, w1: seq<real>, s2: seq<real>, w2: seq<real>)
    requires |s1| == |w1| && |s2| == |w2|
    ensures WeightedScoreSum(s1 + s2, w1 + w2) == WeightedScoreSum(s1, w1) + WeightedScoreSum(s2, w2)
    ensures IncludedWeight(s1 + s2, w1 + w2) == IncludedWeight(s1, w1) + IncludedWeight(s2, w2)
    decreases |s2|
  {
    if |s2| == 0 {
      assert s1 + s2 == s1 && w1 + w2 == w1;
    } else {
      var n := |s2| - 1;
      SumsSplit(s1, w1, s2[..n], w2[..n]);
      assert (s1 + s2)[..|s1| + n] == s1 + s2[..n];
      assert (w1 + w2)[..|w1| + n] == w1 + w2[..n];
    }
  }

  /** A zero score contributes to neither the numerator nor the denominator: dropping its symbol changes nothing. */
  lemma ZeroScoreIsExcluded(scores: seq<real>, weights: seq<real>, i: nat)
    requires |scores| == |weights|
    requires i < |scores|
    requires scores[i] == 0.0
    ensures Aggregate(scores[..i] + scores[i + 1..], weights[..i] + weights[i + 1..]) == Aggregate(scores, weights)
  {
    var s1, s2 := scores[..i], scores[i + 1..];
    var w1, w2 := weights[..i], weights[i + 1..];
    SumsSplit(s1, w1, [scores[i]], [weights[i]]);
    SumsSplit(s1 + [scores[i]], w1 + [weights[i]], s2, w2);
    SumsSplit(s1, w1, s2, w2);
    assert s1 + [scores[i]] + s2 == scores;
    assert w1 + [weights[i]] + w2 == weights;
    assert WeightedScoreSum([scores[i]], [weights[i]]) == 0.0;
    assert IncludedWeight([scores[i]], [weights[i]]) == 0.0;
  }

  lemma {:induction false} SumsBounded(scores: seq<real>, weights: seq<real>, bound: real)
    requires |scores| == |weights|
    requires AllPositive(weights)
    requires AllWithin(scores, -bound, bound)
    ensures -bound * IncludedWeight(scores, weights) <= WeightedScoreSum(scores, weights)
                                                    <= bound * IncludedWeight(scores, weights)
    decreases |scores|
  {
    if |scores| > 0 {
      var n := |scores| - 1;
      assert AllPositive(weights[..n]);
      assert AllWithin(scores[..n], -bound, bound);
      SumsBounded(scores[..n], weights[..n], bound);
      var s, w := scores[n], weights[n];
      var included := if s != 0.0 then w else 0.0;
      TermBounded(s, w, bound);
      var prevWeight := IncludedWeight(scores[..n], weights[..n]);
      assert bound * IncludedWeight(scores, weights) == bound * prevWeight + bound * included;
    }
  }

  lemma TermBounded(s: real, w: real, bound: real)
    requires w > 0.0
    requires -bound <= s <= bound
    ensures -bound * (if s != 0.0 then w else 0.0) <= s * w <= bound * (if s != 0.0 then w else 0.0)
  {
    assert (bound - s) * w >= 0.0;
    assert (s + bound) * w >= 0.0;
  }

  /** With positive weights the aggregate never exceeds the largest score magnitude. */
  lemma AggregateBounded(scores: seq<real>, weights: seq<real>, bound: real)
    requires |scores| == |weights|
    requires AllPositive(weights)
    requires bound >= 0.0
    requires AllWithin(scores, -bound, bound)
    ensures -bound <= Aggregate(scores, weights) <= bound
  {
    SumsBounded(scores, weights, bound);
    var den := IncludedWeight(scores, weights);
    if den != 0.0 {
      assert den > 0.0 by {
        IncludedWeightNonNegative(scores, weights);
      }
      QuotientBounded(WeightedScoreSum(scores, weights), den, -bound, bound);
    }
  }

  lemma {:induction false} IncludedWeightNonNegative(scores: seq<real>, weights: seq<real>)
    requires |scores| == |weights|
    requires AllPositive(weights)
    ensures IncludedWeight(scores, weights) >= 0.0
    decreases |scores|
  {
    if |scores| > 0 {
      var n := |scores| - 1;
      assert AllPositive(weights[..n]);
      IncludedWeightNonNegative(scores[..n], weights[..n]);
    }
  }

  /** BULL iff the aggregate is above 0.5, BEAR iff below -0.5, NEUTRAL otherwise. */
  function TrafficOf(agg: real): (t: Traffic)
    ensures t == Bull <==> agg > TrafficThreshold
    ensures t == Bear <==> agg < -TrafficThreshold
    ensures t == Traffic.Neutral <==> -TrafficThreshold <= agg <= TrafficThreshold
  {
    var t := if agg > TrafficThreshold then Bull else Traffic.Neutral;
    if agg < -TrafficThreshold then Bear else t
  }

  /** Scores 1, -1 and 0 give (1.5 - 1.0) / (1.5 + 1.0) = 0.2: NEUTRAL. */
  lemma MarketExample()
    ensures Aggregate([1.0, -1.0, 0.0], MarketWeights) == 0.2
    ensures TrafficOf(Aggregate([1.0, -1.0, 0.0], MarketWeights)) == Traffic.Neutral
  {
    var s, w := [1.0, -1.0, 0.0], MarketWeights;
    assert s[..2] == [1.0, -1.0] && w[..2] == [1.5, 1.0];
    assert s[..2][..1] == [1.0] && w[..2][..1] == [1.5];
    assert s[..2][..1][..0] == [] && w[..2][..1][..0] == [];
    assert WeightedScoreSum([1.0], [1.5]) == 1.5;
    assert IncludedWeight([1.0], [1.5]) == 1.5;
    assert WeightedScoreSum([1.0, -1.0], [1.5, 1.0]) == 0.5;
    assert IncludedWeight([1.0, -1.0], [1.5, 1.0]) == 2.5;
    assert WeightedScoreSum(s, w) == 0.5;
    assert IncludedWeight(s, w) == 2.5;
  }

  /** One refresh of the three panels, the aggregate and the traffic light, and the volatility chart data. */
  datatype Board = Board(btc: Shown, xrp: Shown, gala: Shown, aggregate: real, traffic: Traffic, chart: Option<VolCurves>)

  /**
   `runModels` without the I/O. The panels show the blended signals, but the
   aggregate reads the local (pre-blend) scores.
   */
  function RunModels(
    btc: Option<seq<real>>, xrp: Option<seq<real>>, gala: Option<seq<real>>,
    serverBtc: Option<ServerReply>, serverXrp: Option<ServerReply>, serverGala: Option<ServerReply>,
    ln: real -> real, sqrt: real -> real): (b: Board)
    requires ChartSufficient(btc) ==> AllPositive(btc.value)
    requires Sufficient(xrp) ==> AllPositive(xrp.value)
    requires Sufficient(gala) ==> AllPositive(gala.value)
    requires IsSqrt(sqrt)
    ensures b.aggregate == Aggregate([ComputeSignal(btc, ln, sqrt).score, ComputeSignal(xrp, ln, sqrt).score, ComputeSignal(gala, ln, sqrt).score], MarketWeights)
    ensures b.traffic == TrafficOf(b.aggregate)
    ensures b.btc == Blend(ComputeSignal(btc, ln, sqrt), serverBtc)
    ensures b.xrp == Blend(ComputeSignal(xrp, ln, sqrt), serverXrp)
    ensures b.gala == Blend(ComputeSignal(gala, ln, sqrt), serverGala)
    ensures b.chart == VolChart(btc, ln, sqrt)
  {
    var btcRes := ComputeSignal(btc, ln, sqrt);
    var xrpRes := ComputeSignal(xrp, ln, sqrt);
    var galaRes := ComputeSignal(gala, ln, sqrt);
    var agg := Aggregate([btcRes.score, xrpRes.score, galaRes.score], MarketWeights);
    Board(Blend(btcRes, serverBtc), Blend(xrpRes, serverXrp), Blend(galaRes, serverGala),
          agg, TrafficOf(agg), VolChart(btc, ln, sqrt))
  }

  /** Server predictions change what the panels show but never the aggregate or the traffic light. */
  lemma TrafficIgnoresServer(
    btc: Option<seq<real>>, xrp: Option<seq<real>>, gala: Option<seq<real>>,
    s1: Option<ServerReply>, s2: Option<ServerReply>, s3: Option<ServerReply>,
    t1: Option<ServerReply>, t2: Option<ServerReply>, t3: Option<ServerReply>,
    ln: real -> real, sqrt: real -> real)
    requires ChartSufficient(btc) ==> AllPositive(btc.value)
    requires Sufficient(xrp) ==> AllPositive(xrp.value)
    requires Sufficient(gala) ==> AllPositive(gala.value)
    requires IsSqrt(sqrt)
    ensures RunModels(btc, xrp, gala, s1, s2, s3, ln, sqrt).aggregate == RunModels(btc, xrp, gala, t1, t2, t3, ln, sqrt).aggregate
    ensures RunModels(btc, xrp, gala, s1, s2, s3, ln, sqrt).traffic == RunModels(btc, xrp, gala, t1, t2, t3, ln, sqrt).traffic
  {
  }

  /** A symbol without enough data scores 0 and drops out of the aggregate entirely. */
  lemma MissingSymbolIsExcluded(
    btc: Option<seq<real>>, xrp: Option<seq<real>>,
    serverBtc: Option<ServerReply>, serverXrp: Option<ServerReply>, serverGala: Option<ServerReply>,
    ln: real -> real, sqrt: real -> real)
    requires ChartSufficient(btc) ==> AllPositive(btc.value)
    requires Sufficient(xrp) ==> AllPositive(xrp.value)
    requires IsSqrt(sqrt)
    ensures RunModels(btc, xrp, None, serverBtc, serverXrp, serverGala, ln, sqrt).aggregate
         == Aggregate([ComputeSignal(btc, ln, sqrt).score, ComputeSignal(xrp, ln, sqrt).score], [1.5, 1.0])
  {
    var a, b := ComputeSignal(btc, ln, sqrt).score, ComputeSignal(xrp, ln, sqrt).score;
    assert ComputeSignal(None, ln, sqrt).score == 0.0;
    var scores := [a, b, 0.0];
    ZeroScoreIsExcluded(scores, MarketWeights, 2);
    assert scores[..2] + scores[3..] == [a, b];
    assert MarketWeights[..2] + MarketWeights[3..] == [1.5, 1.0];
  }

  /** With no usable closes at all every panel is NEUTRAL, the aggregate is 0 and the light NEUTRAL. */
  lemma NoDataIsNeutral(
    serverBtc: Option<ServerReply>, serverXrp: Option<ServerReply>, serverGala: Option<ServerReply>,
    ln: real -> real, sqrt: real -> real)
    requires IsSqrt(sqrt)
    requires !HasOpinion(serverBtc) && !HasOpinion(serverXrp) && !HasOpinion(serverGala)
    ensures var b := RunModels(None, None, None, serverBtc, serverXrp, serverGala, ln, sqrt);
            b.aggregate == 0.0 && b.traffic == Traffic.Neutral && b.chart == None
            && b.btc.state == b.xrp.state == b.gala.state == Direction.Neutral
  {
  }
}
