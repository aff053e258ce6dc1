/** Slow and failed spans (internal/extractors/traces.go). */
module TracesExtractor {
  import opened Models
  import opened Reals
  import opened Statistics
  import opened Selection

  const THRESHOLD: real := 2.0

  function Seconds(duration: int): real {
    duration as real / 1_000_000_000.0
  }

  function Durations(spans: seq<TraceSpan>): seq<real> {
    seq(|spans|, i requires 0 <= i < |spans| => Seconds(spans[i].duration))
  }

  predicate IsError(span: TraceSpan) {
    span.status == "error"
  }

  function SpanScore(span: TraceSpan, mean: real, spread: real): real
    requires spread > 0.0
  {
    Score(Seconds(span.duration), mean, spread)
  }

  function Flagged(spans: seq<TraceSpan>, mean: real, spread: real): seq<TraceAnomaly>
    requires spread > 0.0
  {
    if spans == [] then [] else
      var span := spans[|spans| - 1];
      var score := SpanScore(span, mean, spread);
      Flagged(spans[..|spans| - 1], mean, spread)
      + if score >= THRESHOLD || IsError(span) then [TraceAnomaly(span, score, mean)] else []
  }

  ghost predicate IsStdDev(spans: seq<TraceSpan>, stdDev: real) {
    stdDev >= 0.0 && (spans != [] ==> IsRoot(stdDev, Variance(Durations(spans))))
  }

  function Detected(spans: seq<TraceSpan>, stdDev: real): seq<TraceAnomaly>
    requires stdDev >= 0.0
  {
    if spans == [] then [] else Flagged(spans, Mean(Durations(spans)), Spread(stdDev))
  }

  method MeanOf(values: array<real>) returns (mean: real)
    requires values.Length > 0
    ensures mean == Mean(values[..])
  {
    var total := 0.0;
    for i := 0 to values.Length
      invariant total == Sum(values[..i])
    {
      assert values[..i + 1][..i] == values[..i];
      total := total + values[i];
    }
    assert values[..values.Length] == values[..];
    mean := total / values.Length as real;
  }

  /** The variance whose square root `stdDev` returns. */
  method VarianceOf(values: array<real>, mean: real) returns (variance: real)
    requires values.Length > 0
    ensures variance == SquaredDeviations(values[..], mean) / values.Length as real
  {
    var sum := 0.0;
    for i := 0 to values.Length
      invariant sum == SquaredDeviations(values[..i], mean)
    {
      assert values[..i + 1][..i] == values[..i];
      sum := sum + Square(values[i] - mean);
    }
    assert values[..values.Length] == values[..];
    variance := sum / values.Length as real;
  }

  method Detect(spans: seq<TraceSpan>, stdDev: real) returns (anomalies: seq<TraceAnomaly>)
    requires IsStdDev(spans, stdDev)
    ensures anomalies == Detected(spans, stdDev)
  {
    if spans == [] {
      return [];
    }
    hide Sum, SquaredDeviations, Score, Square;
    var durations := new real[|spans|];
    for i := 0 to |spans|
      invariant forall j :: 0 <= j < i ==> durations[j] == Seconds(spans[j].duration)
    {
      durations[i] := Seconds(spans[i].duration);
    }
    assert durations[..] == Durations(spans);
    var mean := MeanOf(durations);
    var variance := VarianceOf(durations, mean);
    assert IsRoot(stdDev, variance);
    var spread := if stdDev == 0.0 then 0.01 else stdDev;
    anomalies := [];
    for i := 0 to |spans|
      invariant anomalies == Flagged(spans[..i], mean, spread)
    {
      assert spans[..i + 1][..i] == spans[..i];
      var score := Score(durations[i], mean, spread);
      if score >= THRESHOLD || spans[i].status == "error" {
        anomalies := anomalies + [TraceAnomaly(spans[i], score, mean)];
      }
    }
    assert spans[..|spans|] == spans;
  }

  /** How many anomalies are reported for slowness, whatever their status. */
  function SlowCount(anomalies: seq<TraceAnomaly>): nat {
    if anomalies == [] then 0 else
      SlowCount(anomalies[..|anomalies| - 1]) + if anomalies[|anomalies| - 1].score >= THRESHOLD then 1 else 0
  }

  lemma SlowCountAppend(anomalies: seq<TraceAnomaly>, last: TraceAnomaly)
    ensures SlowCount(anomalies + [last]) == SlowCount(anomalies) + if last.score >= THRESHOLD then 1 else 0
  {
    assert (anomalies + [last])[..|anomalies|] == anomalies;
  }

  lemma {:induction false} SlowAreCounted(spans: seq<TraceSpan>, mean: real, spread: real)
    requires spread > 0.0
    ensures SlowCount(Flagged(spans, mean, spread)) == CountAtLeast(Durations(spans), mean, spread, THRESHOLD)
  {
    hide Score, Seconds;
    if spans != [] {
      var front, last := spans[..|spans| - 1], spans[|spans| - 1];
      assert Durations(spans)[..|front|] == Durations(front);
      SlowAreCounted(front, mean, spread);
      assert Flagged(front, mean, spread) + [] == Flagged(front, mean, spread);
      SlowCountAppend(Flagged(front, mean, spread), TraceAnomaly(last, SpanScore(last, mean, spread), mean));
    }
  }

  /** At most one span in five is slow. */
  lemma SlowSpansAreRare(spans: seq<TraceSpan>, stdDev: real)
    requires IsStdDev(spans, stdDev)
    ensures 5 * SlowCount(Detected(spans, stdDev)) <= |spans|
  {
    if spans != [] {
      SlowAreCounted(spans, Mean(Durations(spans)), Spread(stdDev));
      Cantelli(Durations(spans), stdDev, THRESHOLD);
      assert 1.0 + Square(THRESHOLD) == 5.0;
    }
  }

  lemma {:induction false} FlaggedReasons(spans: seq<TraceSpan>, mean: real, spread: real)
    requires spread > 0.0
    ensures forall a <- Flagged(spans, mean, spread) :: a.span in spans && (a.score >= THRESHOLD || IsError(a.span))
    ensures forall span <- spans :: IsError(span) ==> TraceAnomaly(span, SpanScore(span, mean, spread), mean) in Flagged(spans, mean, spread)
  {
    if spans != [] {
      FlaggedReasons(spans[..|spans| - 1], mean, spread);
    }
  }

  /** Only slow or failed spans are reported, and every failed span is. */
  lemma ReportedSpans(spans: seq<TraceSpan>, stdDev: real)
    requires IsStdDev(spans, stdDev)
    ensures forall a <- Detected(spans, stdDev) :: a.span in spans && (a.score >= THRESHOLD || IsError(a.span))
    ensures forall span <- spans :: IsError(span) ==> exists a <- Detected(spans, stdDev) :: a.span == span
  {
    if spans != [] {
      FlaggedReasons(spans, Mean(Durations(spans)), Spread(stdDev));
    }
  }

  // ---------------------------------------------------------------- which spans are reported

  function IsSlowOrFailed(values: seq<real>): TraceSpan -> bool
    requires values != []
  {
    (span: TraceSpan) => span.status == "error" || StandsOut(values, Seconds(span.duration), 2.0)
  }

  lemma {:induction false} FlaggedPicks(spans: seq<TraceSpan>, values: seq<real>, stdDev: real) returns (at: seq<nat>)
    requires values != [] && IsRoot(stdDev, Variance(values))
    requires forall i :: 0 <= i < |spans| ==> Seconds(spans[i].duration) in values
    ensures var flagged := Flagged(spans, Mean(values), Spread(stdDev));
            && Picks(at, spans, IsSlowOrFailed(values)) && |at| == |flagged|
            && forall k :: 0 <= k < |at| ==> Reports(flagged[k], spans[at[k]], values)
  {
    if spans == [] {
      at := [];
    } else {
      hide Mean, Variance, IsScore, StandsOut, Score, Seconds;
      var front, last := spans[..|spans| - 1], spans[|spans| - 1];
      var before := FlaggedPicks(front, values, stdDev);
      at := PickNext(before, spans, IsSlowOrFailed(values));
      ScoreMeans(values, Seconds(last.duration), stdDev, 2.0);
    }
  }

  predicate Reports(anomaly: TraceAnomaly, span: TraceSpan, values: seq<real>)
    requires values != []
  {
    anomaly.span == span && anomaly.mean == Mean(values) && IsScore(values, Seconds(span.duration), anomaly.score)
  }

  function TotalDuration(spans: seq<TraceSpan>): int {
    if spans == [] then 0 else TotalDuration(spans[..|spans| - 1]) + spans[|spans| - 1].duration
  }

  lemma {:induction false} DurationsAddUp(spans: seq<TraceSpan>)
    ensures Sum(Durations(spans)) * 1_000_000_000.0 == TotalDuration(spans) as real
  {
    if spans != [] {
      assert Durations(spans)[..|spans| - 1] == Durations(spans[..|spans| - 1]);
      DurationsAddUp(spans[..|spans| - 1]);
    }
  }

  lemma MeanBack(values: seq<real>)
    requires values != []
    ensures Mean(values) * |values| as real == Sum(values)
  {
    hide Sum;
    DivideBack(Sum(values), |values| as real);
  }

  lemma MeanIsInSeconds(spans: seq<TraceSpan>)
    requires spans != []
    ensures Mean(Durations(spans)) * |spans| as real * 1_000_000_000.0 == TotalDuration(spans) as real
  {
    hide Sum, TotalDuration;
    DurationsAddUp(spans);
    assert |Durations(spans)| == |spans|;
    hide Durations;
    MeanBack(Durations(spans));
    hide Mean;
  }

  /** The anomalies are, in order, exactly the spans that failed or lie two standard deviations or more
      above the mean, each with its score and with that mean, which is in seconds. */
  lemma DetectedSpansAreSlowOrFailed(spans: seq<TraceSpan>, stdDev: real) returns (at: seq<nat>)
    requires spans != [] && IsStdDev(spans, stdDev)
    ensures var detected := Detected(spans, stdDev);
            && Picks(at, spans, IsSlowOrFailed(Durations(spans))) && |at| == |detected|
            && forall k :: 0 <= k < |at| ==> Reports(detected[k], spans[at[k]], Durations(spans))
    ensures Mean(Durations(spans)) * |spans| as real * 1_000_000_000.0 == TotalDuration(spans) as real
  {
    hide Seconds, StandsOut, IsScore, Mean, Variance, Sum;
    assert forall i :: 0 <= i < |spans| ==> Durations(spans)[i] == Seconds(spans[i].duration);
    at := FlaggedPicks(spans, Durations(spans), stdDev);
    MeanIsInSeconds(spans);
  }
}
