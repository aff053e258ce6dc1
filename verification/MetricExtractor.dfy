/** Z-score anomalies in a metric series (internal/extractors/metrics.go). */
module MetricExtractor {
  import opened Models
  import opened Reals
  import opened Statistics
  import opened Selection

  const DEFAULT_THRESHOLD: real := 2.5

  function EffectiveThreshold(threshold: real): (t: real)
    ensures t > 0.0
  {
    if threshold <= 0.0 then DEFAULT_THRESHOLD else threshold
  }

  function Values(series: seq<MetricPoint>): seq<real> {
    seq(|series|, i requires 0 <= i < |series| => series[i].value)
  }

  /** The points at least `threshold` above the mean, in order. */
  function Flagged(series: seq<MetricPoint>, mean: real, spread: real, threshold: real): seq<MetricAnomaly>
    requires spread > 0.0
  {
    if series == [] then [] else
      var point := series[|series| - 1];
      var score := Score(point.value, mean, spread);
      Flagged(series[..|series| - 1], mean, spread, threshold)
      + if score >= threshold then [MetricAnomaly(point.timestamp, point.value, score, threshold)] else []
  }

  /** `stdDev` is the square root of the variance, as far as the series has one. */
  ghost predicate IsStdDev(series: seq<MetricPoint>, stdDev: real) {
    stdDev >= 0.0 && (series != [] ==> IsRoot(stdDev, Variance(Values(series))))
  }

  function Detected(series: seq<MetricPoint>, threshold: real, stdDev: real): seq<MetricAnomaly>
    requires stdDev >= 0.0
  {
    if series == [] then []
    else Flagged(series, Mean(Values(series)), Spread(stdDev), EffectiveThreshold(threshold))
  }

  /** `stdDev` stands for the square root the library takes of the variance computed here. */
  method Detect(series: seq<MetricPoint>, threshold: real, stdDev: real) returns (anomalies: seq<MetricAnomaly>)
    requires IsStdDev(series, stdDev)
    ensures anomalies == Detected(series, threshold, stdDev)
  {
    if series == [] {
      return [];
    }
    hide Score, Square;
    var limit := if threshold <= 0.0 then 2.5 else threshold;
    ghost var values := Values(series);
    var mean := 0.0;
    for i := 0 to |series|
      invariant mean == Sum(values[..i])
    {
      assert values[..i + 1][..i] == values[..i];
      mean := mean + series[i].value;
    }
    assert values[..|series|] == values;
    mean := mean / |series| as real;
    var variance := 0.0;
    for i := 0 to |series|
      invariant variance == SquaredDeviations(values[..i], mean)
    {
      assert values[..i + 1][..i] == values[..i];
      variance := variance + Square(series[i].value - mean);
    }
    variance := variance / |series| as real;
    assert IsRoot(stdDev, variance);
    var spread := if stdDev == 0.0 then 0.01 else stdDev;
    anomalies := [];
    for i := 0 to |series|
      invariant anomalies == Flagged(series[..i], mean, spread, limit)
    {
      assert series[..i + 1][..i] == series[..i];
      var score := Score(series[i].value, mean, spread);
      if score >= limit {
        anomalies := anomalies + [MetricAnomaly(series[i].timestamp, series[i].value, score, limit)];
      }
    }
    assert series[..|series|] == series;
  }

  lemma {:induction false} FlaggedCount(series: seq<MetricPoint>, mean: real, spread: real, threshold: real)
    requires spread > 0.0
    ensures |Flagged(series, mean, spread, threshold)| == CountAtLeast(Values(series), mean, spread, threshold)
  {
    if series != [] {
      assert Values(series)[..|series| - 1] == Values(series[..|series| - 1]);
      FlaggedCount(series[..|series| - 1], mean, spread, threshold);
    }
  }

  lemma {:induction false} FlaggedScores(series: seq<MetricPoint>, mean: real, spread: real, threshold: real)
    requires spread > 0.0
    ensures forall a <- Flagged(series, mean, spread, threshold) :: a.score >= threshold && a.threshold == threshold
  {
    if series != [] {
      FlaggedScores(series[..|series| - 1], mean, spread, threshold);
    }
  }

  /** However the samples lie, k anomalies at effective threshold t need k * (1 + t^2) samples. */
  lemma AnomaliesAreRare(series: seq<MetricPoint>, threshold: real, stdDev: real)
    requires IsStdDev(series, stdDev)
    ensures Shares(|Detected(series, threshold, stdDev)|, 1.0 + Square(EffectiveThreshold(threshold)))
            <= |series| as real
  {
    if series != [] {
      FlaggedCount(series, Mean(Values(series)), Spread(stdDev), EffectiveThreshold(threshold));
      Cantelli(Values(series), stdDev, EffectiveThreshold(threshold));
    }
  }

  /** At the default threshold an anomaly needs at least eight samples. */
  lemma DefaultNeedsEightSamples(series: seq<MetricPoint>, threshold: real, stdDev: real)
    requires IsStdDev(series, stdDev) && threshold <= 0.0
    ensures Detected(series, threshold, stdDev) != [] ==> |series| >= 8
  {
    AnomaliesAreRare(series, threshold, stdDev);
    assert 1.0 + Square(DEFAULT_THRESHOLD) == 7.25;
  }

  /** Eight samples can be enough: seven at rest and one spike. */
  lemma EightSamplesSuffice(at: Time, stdDev: real)
    requires IsStdDev(Spike(at), stdDev)
    ensures |Spike(at)| == 8 && Detected(Spike(at), 0.0, stdDev) != []
  {
    var values, rest := Values(Spike(at)), Values(Spike(at)[..7]);
    assert values[..7] == rest;
    ConstantSamples(rest, 0.0, 0.125);
    assert Sum(values) == 1.0;
    assert SquaredDeviations(values, 0.125) == 0.875;
    assert stdDev <= 0.35 by {
      if stdDev > 0.35 {
        SquareMonotone(0.35, stdDev);
      }
    }
    DivideCompare(0.875, stdDev, DEFAULT_THRESHOLD);
  }

  function Spike(at: Time): seq<MetricPoint> {
    seq(8, i requires 0 <= i < 8 => MetricPoint(at, if i == 7 then 1.0 else 0.0))
  }

  /** Every reported score reaches the threshold it is reported with. */
  lemma ScoresReachThreshold(series: seq<MetricPoint>, threshold: real, stdDev: real)
    requires IsStdDev(series, stdDev)
    ensures forall a <- Detected(series, threshold, stdDev) ::
              a.score >= EffectiveThreshold(threshold) && a.threshold == EffectiveThreshold(threshold)
  {
    if series != [] {
      FlaggedScores(series, Mean(Values(series)), Spread(stdDev), EffectiveThreshold(threshold));
    }
  }

  function StandsOutOf(values: seq<real>, threshold: real): MetricPoint -> bool
    requires values != []
  {
    (point: MetricPoint) => StandsOut(values, point.value, threshold)
  }

  lemma {:induction false} FlaggedPicks(series: seq<MetricPoint>, values: seq<real>, stdDev: real, t: real)
    returns (at: seq<nat>)
    requires values != [] && IsRoot(stdDev, Variance(values)) && t > 0.0
    requires forall i :: 0 <= i < |series| ==> series[i].value in values
    ensures var flagged := Flagged(series, Mean(values), Spread(stdDev), t);
            && Picks(at, series, StandsOutOf(values, t)) && |at| == |flagged|
            && forall k :: 0 <= k < |at| ==> Reports(flagged[k], series[at[k]], values, t)
  {
    if series == [] {
      at := [];
    } else {
      hide Mean, Variance, IsScore, StandsOut, Score;
      var front, last := series[..|series| - 1], series[|series| - 1];
      var before := FlaggedPicks(front, values, stdDev, t);
      at := PickNext(before, series, StandsOutOf(values, t));
      ScoreMeans(values, last.value, stdDev, t);
    }
  }

  /** The anomaly carries the point's time and value, its distance from the mean and the threshold. */
  predicate Reports(anomaly: MetricAnomaly, point: MetricPoint, values: seq<real>, threshold: real)
    requires values != []
  {
    && anomaly.timestamp == point.timestamp && anomaly.value == point.value && anomaly.threshold == threshold
    && IsScore(values, point.value, anomaly.score)
  }

  /** The anomalies are, in order, exactly the points that stand out at the given threshold, or at 2.5
      when none is given. */
  lemma DetectedPointsStandOut(series: seq<MetricPoint>, threshold: real, stdDev: real) returns (at: seq<nat>)
    requires series != [] && IsStdDev(series, stdDev)
    ensures var t := if threshold > 0.0 then threshold else 2.5;
            var detected := Detected(series, threshold, stdDev);
            && Picks(at, series, StandsOutOf(Values(series), t)) && |at| == |detected|
            && forall k :: 0 <= k < |at| ==> Reports(detected[k], series[at[k]], Values(series), t)
  {
    assert forall i :: 0 <= i < |series| ==> Values(series)[i] == series[i].value;
    at := FlaggedPicks(series, Values(series), stdDev, EffectiveThreshold(threshold));
  }
}
