/** How sure an investigation is of its root cause (`computeConfidence` and `calibrateConfidence`
    in internal/engine/pipeline.go), over what the detectors really report. */
module Confidence {
  import opened Models
  import opened Causality
  import MetricExtractor
  import LogsExtractor
  import TracesExtractor

  /** The largest score, but not less than zero. */
  function MaxOf(scores: seq<real>): (max: real)
    ensures max >= 0.0
  {
    if scores == [] then 0.0 else
      var max, last := MaxOf(scores[..|scores| - 1]), scores[|scores| - 1];
      if last > max then last else max
  }

  function MetricScores(ms: seq<MetricAnomaly>): seq<real> {
    seq(|ms|, i requires 0 <= i < |ms| => ms[i].score)
  }

  function LogScores(ls: seq<LogAnomaly>): seq<real> {
    seq(|ls|, i requires 0 <= i < |ls| => ls[i].score)
  }

  function TraceScores(ts: seq<TraceAnomaly>): seq<real> {
    seq(|ts|, i requires 0 <= i < |ts| => ts[i].score)
  }

  method MaxScore(scores: seq<real>) returns (max: real)
    ensures max == MaxOf(scores)
  {
    max := 0.0;
    for i := 0 to |scores|
      invariant max == MaxOf(scores[..i])
    {
      assert scores[..i + 1][..i] == scores[..i];
      if scores[i] > max {
        max := scores[i];
      }
    }
    assert scores[..|scores|] == scores;
  }

  function Fused(ms: seq<MetricAnomaly>, ls: seq<LogAnomaly>, ts: seq<TraceAnomaly>): real {
    var metrics := if ms == [] then 0.0 else 0.25 + Clamp(MaxOf(MetricScores(ms)) / 8.0, 0.0, 0.25);
    var logs := if ls == [] then 0.0 else 0.25 + Clamp(MaxOf(LogScores(ls)) / 6.0, 0.0, 0.2);
    var traces := if ts == [] then 0.0 else 0.25 + Clamp(MaxOf(TraceScores(ts)) / 6.0, 0.0, 0.2);
    var confidence := metrics + logs + traces;
    if confidence > 1.0 then 1.0 else confidence
  }

  method ComputeConfidence(ms: seq<MetricAnomaly>, ls: seq<LogAnomaly>, ts: seq<TraceAnomaly>) returns (confidence: real)
    ensures confidence == Fused(ms, ls, ts)
  {
    confidence := 0.0;
    if |ms| > 0 {
      var max := MaxScore(MetricScores(ms));
      confidence := confidence + 0.25 + Clamp(max / 8.0, 0.0, 0.25);
    }
    if |ls| > 0 {
      var max := MaxScore(LogScores(ls));
      confidence := confidence + 0.25 + Clamp(max / 6.0, 0.0, 0.2);
    }
    if |ts| > 0 {
      var max := MaxScore(TraceScores(ts));
      confidence := confidence + 0.25 + Clamp(max / 6.0, 0.0, 0.2);
    }
    if confidence > 1.0 {
      confidence := 1.0;
    }
  }

  lemma {:induction false} MaxIsReached(scores: seq<real>)
    ensures forall x <- scores :: x <= MaxOf(scores)
    ensures MaxOf(scores) == 0.0 || MaxOf(scores) in scores
  {
    if scores != [] {
      assert scores == scores[..|scores| - 1] + [scores[|scores| - 1]];
      MaxIsReached(scores[..|scores| - 1]);
    }
  }

  // ---------------------------------------------------------------- what each kind contributes

  lemma MaxIsBest(scores: seq<real>, best: real)
    requires best in scores && forall x <- scores :: x <= best
    ensures MaxOf(scores) == if best < 0.0 then 0.0 else best
  {
    MaxIsReached(scores);
  }

  /** A quarter for having anomalies of a kind at all, and a share of the best score, up to a limit. */
  function PartFor(best: real, share: real, limit: real): real
    requires share > 0.0
  {
    if best < 0.0 then 0.25 else if best / share > limit then 0.25 + limit else 0.25 + best / share
  }

  lemma MetricPart(ms: seq<MetricAnomaly>, best: MetricAnomaly)
    requires best in ms && forall m <- ms :: m.score <= best.score
    ensures Fused(ms, [], []) == PartFor(best.score, 8.0, 0.25)
  {
    var i :| 0 <= i < |ms| && ms[i] == best;
    assert MetricScores(ms)[i] == best.score;
    MaxIsBest(MetricScores(ms), best.score);
    hide MaxOf;
  }

  lemma LogPart(ls: seq<LogAnomaly>, best: LogAnomaly)
    requires best in ls && forall l <- ls :: l.score <= best.score
    ensures Fused([], ls, []) == PartFor(best.score, 6.0, 0.2)
  {
    var i :| 0 <= i < |ls| && ls[i] == best;
    assert LogScores(ls)[i] == best.score;
    MaxIsBest(LogScores(ls), best.score);
    hide MaxOf;
  }

  lemma TraceShare(ts: seq<TraceAnomaly>, best: TraceAnomaly)
    requires best in ts && forall t <- ts :: t.score <= best.score
    ensures Fused([], [], ts) == PartFor(best.score, 6.0, 0.2)
  {
    var i :| 0 <= i < |ts| && ts[i] == best;
    assert TraceScores(ts)[i] == best.score;
    MaxIsBest(TraceScores(ts), best.score);
    hide MaxOf;
  }

  /** The kinds contribute independently of each other, up to a total of 1. */
  lemma PartsAddUp(ms: seq<MetricAnomaly>, ls: seq<LogAnomaly>, ts: seq<TraceAnomaly>)
    ensures var sum := Fused(ms, [], []) + Fused([], ls, []) + Fused([], [], ts);
            Fused(ms, ls, ts) == if sum > 1.0 then 1.0 else sum
  {
    hide MaxOf;
  }

  // ---------------------------------------------------------------- what the detectors contribute

  /** A slow span contributes in full; failed but fast spans contribute by their best score. */
  function TracePart(ts: seq<TraceAnomaly>): real {
    if TracesExtractor.SlowCount(ts) > 0 then 0.45 else 0.25 + Clamp(MaxOf(TraceScores(ts)) / 6.0, 0.0, 0.2)
  }

  lemma {:induction false} SlowMaximum(ts: seq<TraceAnomaly>)
    ensures TracesExtractor.SlowCount(ts) > 0 <==> MaxOf(TraceScores(ts)) >= TracesExtractor.THRESHOLD
  {
    if ts == [] {
      assert TraceScores(ts) == [];
    } else {
      var front := ts[..|ts| - 1];
      assert TraceScores(ts)[..|front|] == TraceScores(front);
      SlowMaximum(front);
    }
  }

  lemma LogMaximum(fold: string -> string, entries: seq<LogEntry>)
    ensures var ls := LogsExtractor.Detected(fold, entries);
            ls != [] ==> MaxOf(LogScores(ls)) >= LogsExtractor.SPIKE_SCORE
  {
    var ls := LogsExtractor.Detected(fold, entries);
    LogsExtractor.ScoresReachSpike(fold, entries);
    MaxIsReached(LogScores(ls));
    if ls != [] {
      assert ls[0] in ls;
      assert LogScores(ls)[0] in LogScores(ls);
    }
  }

  lemma MetricMaximum(series: seq<MetricPoint>, threshold: real, stdDev: real)
    requires MetricExtractor.IsStdDev(series, stdDev)
    ensures var ms := MetricExtractor.Detected(series, threshold, stdDev);
            ms != [] ==> MaxOf(MetricScores(ms)) >= MetricExtractor.EffectiveThreshold(threshold)
  {
    var ms := MetricExtractor.Detected(series, threshold, stdDev);
    MetricExtractor.ScoresReachThreshold(series, threshold, stdDev);
    MaxIsReached(MetricScores(ms));
    if ms != [] {
      assert ms[0] in ms;
      assert MetricScores(ms)[0] in MetricScores(ms);
    }
  }

  /** On detector output, confidence depends only on which detectors fired and on the best trace
      score: metrics add 0.5 (given an effective threshold of at least 2), logs 0.45, traces
      between 0.25 and 0.45, up to a total of 1; and all three together always reach 1. */
  lemma ConfidenceOfDetections(fold: string -> string, series: seq<MetricPoint>, threshold: real, metricStdDev: real,
                               entries: seq<LogEntry>, spans: seq<TraceSpan>, traceStdDev: real)
    requires MetricExtractor.IsStdDev(series, metricStdDev) && TracesExtractor.IsStdDev(spans, traceStdDev)
    requires MetricExtractor.EffectiveThreshold(threshold) >= 2.0
    ensures var ms := MetricExtractor.Detected(series, threshold, metricStdDev);
            var ls := LogsExtractor.Detected(fold, entries);
            var ts := TracesExtractor.Detected(spans, traceStdDev);
            var sum := (if ms == [] then 0.0 else 0.5) + (if ls == [] then 0.0 else 0.45)
                       + (if ts == [] then 0.0 else TracePart(ts));
            && 0.25 <= TracePart(ts) <= 0.45
            && Fused(ms, ls, ts) == (if sum > 1.0 then 1.0 else sum)
            && (ms != [] && ls != [] && ts != [] ==> Fused(ms, ls, ts) == 1.0)
  {
    MetricMaximum(series, threshold, metricStdDev);
    LogMaximum(fold, entries);
    SlowMaximum(TracesExtractor.Detected(spans, traceStdDev));
    hide MetricExtractor.Detected, LogsExtractor.Detected, TracesExtractor.Detected, MaxOf;
  }

  /** Below an effective threshold of 2 the metric contribution is not fixed any more, but never
      falls below 0.25 plus an eighth of the threshold. */
  lemma MetricPartAtLowThreshold(series: seq<MetricPoint>, threshold: real, stdDev: real)
    requires MetricExtractor.IsStdDev(series, stdDev)
    requires MetricExtractor.EffectiveThreshold(threshold) < 2.0
    ensures var ms := MetricExtractor.Detected(series, threshold, stdDev);
            ms != [] ==>
              0.25 + MetricExtractor.EffectiveThreshold(threshold) / 8.0 <= Fused(ms, [], []) <= 0.5
  {
    MetricMaximum(series, threshold, stdDev);
    hide MetricExtractor.Detected, MaxOf;
  }

  // ---------------------------------------------------------------- calibration

  function Calibrate(confidence: real, causality: real): real {
    var base := Clamp(confidence, 0.0, 1.0);
    if causality <= 0.0 then Clamp(base * 0.7, 0.0, 1.0)
    else Clamp(base * 0.6 + causality * 0.4, 0.0, 1.0)
  }

  /** A causality score never lowers the confidence exactly when it is zero or at least a quarter
      of the base confidence. */
  lemma CalibrationGain(confidence: real, causality: real)
    ensures 0.0 <= Calibrate(confidence, causality) <= 1.0
    ensures Calibrate(confidence, causality) >= Calibrate(confidence, 0.0) <==>
            causality <= 0.0 || causality >= Clamp(confidence, 0.0, 1.0) / 4.0
  {
  }

  /** Calibration is a weighted mean of confidence and causality: it lies between them, leaves a
      confidence alone that equals the causality score, and gains 0.4 of the score over having none,
      less a tenth of the confidence. Without a score, three tenths are lost. */
  lemma CalibrationIsWeighted(confidence: real, causality: real)
    requires 0.0 <= confidence <= 1.0 && 0.0 < causality <= 1.0
    ensures var result := Calibrate(confidence, causality);
            && (confidence <= causality ==> confidence <= result <= causality)
            && (causality <= confidence ==> causality <= result <= confidence)
            && result - Calibrate(confidence, 0.0) == 0.4 * causality - 0.1 * confidence
            && confidence - Calibrate(confidence, 0.0) == 0.3 * confidence
  {
  }

  /** Values out of range are first brought into [0, 1]. */
  lemma CalibrationClamps(confidence: real, causality: real)
    ensures confidence < 0.0 ==> Calibrate(confidence, causality) == Calibrate(0.0, causality)
    ensures confidence > 1.0 ==> Calibrate(confidence, causality) == Calibrate(1.0, causality)
    ensures causality <= 0.0 ==> Calibrate(confidence, causality) == Calibrate(confidence, 0.0)
  {
  }

  /** Small scores do lower it: calibration is not monotone as such. */
  lemma SmallScoresLowerConfidence()
    ensures Calibrate(1.0, 0.1) < Calibrate(1.0, 0.0)
  {
  }

  /** On the scores that `Evaluate` can give, calibration is monotone: more causal evidence never
      lowers the final confidence. */
  lemma EvidenceNeverLowersConfidence(confidence: real,
                                      fold: string -> string, root: string, timeline: seq<TimelineEvent>,
                                      weak: seq<ServiceGraphEdge>, strong: seq<ServiceGraphEdge>)
    requires Result(fold, root, timeline, weak).score <= Result(fold, root, timeline, strong).score
    ensures Calibrate(confidence, Result(fold, root, timeline, weak).score)
            <= Calibrate(confidence, Result(fold, root, timeline, strong).score)
  {
    ResultRange(fold, root, timeline, weak);
    ResultRange(fold, root, timeline, strong);
    hide Result;
  }

  lemma ResultRange(fold: string -> string, root: string, timeline: seq<TimelineEvent>, edges: seq<ServiceGraphEdge>)
    ensures var score := Result(fold, root, timeline, edges).score; score == 0.0 || 0.4 <= score <= 1.0
  {
    if CanJudge(root, timeline, edges) {
      ScoreRange(fold, root, timeline, edges);
    }
  }
}
