/**
 `computeSignalFromCloses` of script.js: from a series of hourly closes to a
 tri-state signal with a score and an explanation.

 `Math.log` is the parameter `ln` (nothing is assumed about it) and
 `Math.sqrt` the parameter `sqrt` (assumed to be a square root, `IsSqrt`).
 The explanation string is kept as the values it embeds (`Explain`), not as
 formatted text.
 */
module Signal {
  import opened Wrappers
  import opened Numerics
  import opened Smoothing

  datatype Direction = Up | Down | Neutral

  /** What the explanation text reports. */
  datatype Explain =
    | InsufficientData                          // 'insufficient data'
    | ScoreAndVol(score: real, vol: real)       // 'score=<score>, vol=<vol>%'
    | ClientServer(client: real, server: real)  // 'client:<client> server:<server>'

  datatype SignalResult = SignalResult(state: Direction, score: real, explain: Explain)

  /** A score strictly above this is UP, strictly below its negation is DOWN. */
  const SignalThreshold: real := 0.6

  const MinCloses: nat := 60
  const ShortPeriod: nat := 12
  const LongPeriod: nat := 26
  const RecentWindow: nat := 6
  const VolWindow: nat := 24
  const HoursPerYear: real := 8760.0   // 24 * 365
  const MomentumWeight: real := 1.2
  const MeanReturnWeight: real := 100.0
  const VolPenalty: real := 0.02

  const InsufficientResult := SignalResult(Neutral, 0.0, InsufficientData)

  /** Strict thresholds, exclusive and exhaustive: exactly +-0.6 is NEUTRAL. */
  function Classify(score: real): (d: Direction)
    ensures d == Up <==> score > SignalThreshold
    ensures d == Down <==> score < -SignalThreshold
    ensures d == Neutral <==> -SignalThreshold <= score <= SignalThreshold
  {
    if score > SignalThreshold then Up
    else if score < -SignalThreshold then Down
    else Neutral
  }

  /** Orders the directions DOWN < NEUTRAL < UP. */
  function Rank(d: Direction): int {
    match d
    case Down => -1
    case Neutral => 0
    case Up => 1
  }

  lemma ClassifyMonotone(a: real, b: real)
    requires a <= b
    ensures Rank(Classify(a)) <= Rank(Classify(b))
  {
  }

  /** `!closes || closes.length < 60` is false. */
  predicate Sufficient(closes: Option<seq<real>>) {
    closes.Some? && |closes.value| >= MinCloses
  }

  /** `closes[i+1] / closes[i]`. */
  function PriceRatio(closes: seq<real>, i: nat): real
    requires i + 1 < |closes|
    requires AllPositive(closes)
  {
    closes[i + 1] / closes[i]
  }

  /** `returns[i] = Math.log(closes[i+1] / closes[i])`, one fewer than the closes. */
  function LogReturns(closes: seq<real>, ln: real -> real): (r: seq<real>)
    requires AllPositive(closes)
    ensures |r| == if |closes| == 0 then 0 else |closes| - 1
    ensures forall i :: 0 <= i < |r| ==> r[i] == ln(PriceRatio(closes, i))
  {
    if |closes| == 0 then []
    else seq(|closes| - 1, i requires 0 <= i < |closes| - 1 => ln(PriceRatio(closes, i)))
  }

  /**
   Relative gap between the last 12-period and 26-period EMA. The division
   is unguarded in the source; positive closes keep the divisor positive,
   so the sign of the momentum is the sign of the gap.
   */
  function Momentum(closes: seq<real>): (m: real)
    requires |closes| > 0
    requires AllPositive(closes)
    ensures var fast := Ema(closes, ShortPeriod)[|closes| - 1];
            var slow := Ema(closes, LongPeriod)[|closes| - 1];
            (m > 0.0 <==> fast > slow) && (m < 0.0 <==> fast < slow) && (m == 0.0 <==> fast == slow)
  {
    EmaPositive(closes, LongPeriod);
    var fast := Ema(closes, ShortPeriod)[|closes| - 1];
    var slow := Ema(closes, LongPeriod)[|closes| - 1];
    assert slow > 0.0;
    (fast - slow) / slow
  }

  /** Standard deviation of the window (population variance) scaled to a year of hourly bars. */
  function RealizedVolAnnual(window: seq<real>, sqrt: real -> real): (v: real)
    requires |window| > 0
    requires IsSqrt(sqrt)
    ensures v >= 0.0
    ensures v * v == PopulationVariance(window) * HoursPerYear
  {
    var sd, h := sqrt(PopulationVariance(window)), sqrt(HoursPerYear);
    assert sd * sd == PopulationVariance(window);
    assert h * h == HoursPerYear;
    assert (sd * h) * (sd * h) == (sd * sd) * (h * h);
    sd * h
  }

  function Score(momentum: real, meanReturn: real, vol: real): real {
    momentum * MomentumWeight + meanReturn * MeanReturnWeight - vol * VolPenalty
  }

  /** Rising momentum or mean return never lowers the score, rising volatility never raises it. */
  lemma ScoreMonotone(m1: real, r1: real, v1: real, m2: real, r2: real, v2: real)
    requires m1 <= m2 && r1 <= r2 && v1 >= v2
    ensures Score(m1, r1, v1) <= Score(m2, r2, v2)
    ensures Rank(Classify(Score(m1, r1, v1))) <= Rank(Classify(Score(m2, r2, v2)))
  {
    ClassifyMonotone(Score(m1, r1, v1), Score(m2, r2, v2));
  }

  /**
   `computeSignalFromCloses`. Fewer than 60 closes (or none) short-circuits
   to NEUTRAL with score 0; otherwise the state is the classification of
   the score and the explanation carries that score and a non-negative
   volatility.
   */
  function ComputeSignal(closes: Option<seq<real>>, ln: real -> real, sqrt: real -> real): (r: SignalResult)
    requires Sufficient(closes) ==> AllPositive(closes.value)
    requires IsSqrt(sqrt)
    ensures !Sufficient(closes) ==> r == InsufficientResult
    ensures r.explain == InsufficientData <==> !Sufficient(closes)
    ensures r.state == Classify(r.score)
    ensures Sufficient(closes) ==> r.explain.ScoreAndVol? && r.explain.score == r.score && r.explain.vol >= 0.0
    ensures Sufficient(closes) ==>
              var rets := LogReturns(closes.value, ln);
              && r.explain.vol * r.explain.vol == PopulationVariance(LastN(rets, VolWindow)) * HoursPerYear
              && r.score == Momentum(closes.value) * MomentumWeight + Mean(LastN(rets, RecentWindow)) * MeanReturnWeight - r.explain.vol * VolPenalty
  {
    if !Sufficient(closes) then InsufficientResult
    else
      var c := closes.value;
      var logReturns := LogReturns(c, ln);
      var meanReturn := Mean(LastN(logReturns, RecentWindow));
      var vol := RealizedVolAnnual(LastN(logReturns, VolWindow), sqrt);
      var score := Score(Momentum(c), meanReturn, vol);
      SignalResult(Classify(score), score, ScoreAndVol(score, vol))
  }

  /** Equal positive closes have only zero log returns, given ln(1) = 0. */
  lemma FlatReturnsVanish(closes: seq<real>, c: real, ln: real -> real)
    requires c > 0.0
    requires forall i :: 0 <= i < |closes| ==> closes[i] == c
    requires ln(1.0) == 0.0
    ensures AllPositive(closes)
    ensures forall i :: 0 <= i < |LogReturns(closes, ln)| ==> LogReturns(closes, ln)[i] == 0.0
  {
    var logReturns := LogReturns(closes, ln);
    forall i | 0 <= i < |logReturns|
      ensures logReturns[i] == 0.0
    {
      assert closes[i + 1] == c && closes[i] == c;
      QuotientBounded(c, c, 1.0, 1.0);
      assert PriceRatio(closes, i) == c / c;
    }
  }

  /** Equal positive closes keep both EMAs at the close, so momentum is zero. */
  lemma FlatMomentumVanishes(closes: seq<real>, c: real)
    requires |closes| > 0
    requires c > 0.0
    requires forall i :: 0 <= i < |closes| ==> closes[i] == c
    ensures AllPositive(closes)
    ensures Momentum(closes) == 0.0
  {
    assert AllWithin(closes, c, c);
    EmaWithin(closes, ShortPeriod, c, c);
    EmaWithin(closes, LongPeriod, c, c);
  }

  /**
   A flat series (every close equal) scores exactly 0 with zero volatility
   and is NEUTRAL, given only that ln(1) = 0.
   */
  lemma FlatSeriesIsNeutral(closes: seq<real>, c: real, ln: real -> real, sqrt: real -> real)
    requires c > 0.0
    requires |closes| >= MinCloses
    requires forall i :: 0 <= i < |closes| ==> closes[i] == c
    requires ln(1.0) == 0.0
    requires IsSqrt(sqrt)
    ensures ComputeSignal(Some(closes), ln, sqrt) == SignalResult(Neutral, 0.0, ScoreAndVol(0.0, 0.0))
  {
    FlatReturnsVanish(closes, c, ln);
    FlatMomentumVanishes(closes, c);
    var logReturns := LogReturns(closes, ln);
    var recent := LastN(logReturns, RecentWindow);
    ConstantHasZeroVariance(recent, 0.0);
    var window := LastN(logReturns, VolWindow);
    ConstantHasZeroVariance(window, 0.0);
    SqrtOfZero(sqrt);
    var vol := RealizedVolAnnual(window, sqrt);
    assert vol == 0.0;
    var score := Score(Momentum(closes), Mean(recent), vol);
    assert score == 0.0;
    assert Classify(score) == Neutral;
  }
}
