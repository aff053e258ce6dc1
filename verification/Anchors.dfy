/** The strongest anomalies of an investigation (`buildAnchors` and `deriveRootCause` in
    internal/engine/pipeline.go). */
module Anchors {
  import opened Models
  import opened Sorting
  import MetricExtractor
  import LogsExtractor
  import TracesExtractor

  const MAX_ANCHORS: nat := 5

  function MetricAnchor(service: string, m: MetricAnomaly): RedAnchor {
    RedAnchor(service, "metrics:cpu_usage", Metrics, m.timestamp, m.score, m.threshold)
  }

  function LogAnchor(service: string, l: LogAnomaly): RedAnchor {
    RedAnchor(service, "logs:" + l.severity, Logs, l.timestamp, l.score, 3.0)
  }

  function TraceAnchor(t: TraceAnomaly): RedAnchor {
    RedAnchor(t.span.service, "trace:" + t.span.operation, Traces, t.span.timestamp, t.score, 2.0)
  }

  /** One anchor per anomaly: metrics, then logs, then traces. */
  function Candidates(service: string, ms: seq<MetricAnomaly>, ls: seq<LogAnomaly>, ts: seq<TraceAnomaly>): seq<RedAnchor> {
    seq(|ms|, i requires 0 <= i < |ms| => MetricAnchor(service, ms[i]))
    + seq(|ls|, i requires 0 <= i < |ls| => LogAnchor(service, ls[i]))
    + seq(|ts|, i requires 0 <= i < |ts| => TraceAnchor(ts[i]))
  }

  function Descending(anchor: RedAnchor): real {
    -anchor.anomalyScore
  }

  function TopAnchors(candidates: seq<RedAnchor>): seq<RedAnchor> {
    var sorted := StableSorted(candidates, Descending);
    if |sorted| > MAX_ANCHORS then sorted[..MAX_ANCHORS] else sorted
  }

  method BuildAnchors(service: string, ms: seq<MetricAnomaly>, ls: seq<LogAnomaly>, ts: seq<TraceAnomaly>)
    returns (anchors: seq<RedAnchor>)
    ensures anchors == TopAnchors(Candidates(service, ms, ls, ts))
  {
    var all := Candidates(service, ms, ls, ts);
    anchors := [];
    for i := 0 to |ms|
      invariant anchors == all[..i]
    {
      anchors := anchors + [MetricAnchor(service, ms[i])];
    }
    for i := 0 to |ls|
      invariant anchors == all[..|ms| + i]
    {
      anchors := anchors + [LogAnchor(service, ls[i])];
    }
    for i := 0 to |ts|
      invariant anchors == all[..|ms| + |ls| + i]
    {
      anchors := anchors + [TraceAnchor(ts[i])];
    }
    assert anchors == all;
    anchors := StableSorted(anchors, Descending);
    if |anchors| > 5 {
      anchors := anchors[..5];
    }
  }

  function DeriveRootCause(service: string, anchors: seq<RedAnchor>): string {
    if anchors == [] then service + ": no dominant anchor"
    else anchors[0].service + ": " + anchors[0].selector + " anomaly"
  }

  /** The kept anchors are in descending order of score and every one left out scores no higher
      than every one kept. Together they are exactly the candidates. */
  lemma TopAnchorsAreTheBest(candidates: seq<RedAnchor>)
    ensures var kept := TopAnchors(candidates);
            && |kept| == (if |candidates| < 5 then |candidates| else 5)
            && (forall i, j :: 0 <= i < j < |kept| ==> kept[i].anomalyScore >= kept[j].anomalyScore)
            && multiset(kept) <= multiset(candidates)
            && (forall a, b :: a in kept && b in multiset(candidates) - multiset(kept) ==> a.anomalyScore >= b.anomalyScore)
  {
    var sorted, kept := StableSorted(candidates, Descending), TopAnchors(candidates);
    StableSortedIsSorted(candidates, Descending);
    StableSortedPermutes(candidates, Descending);
    assert kept == sorted[..|kept|];
    hide StableSorted, SortedBy, TopAnchors;
    CutSeparates(sorted, Descending, |kept|);
    forall a, b | a in kept && b in multiset(candidates) - multiset(kept)
      ensures a.anomalyScore >= b.anomalyScore
    {
      assert b in sorted[|kept|..];
      assert Descending(a) <= Descending(b);
    }
    forall i, j | 0 <= i < j < |kept|
      ensures kept[i].anomalyScore >= kept[j].anomalyScore
    {
      SortedInOrder(kept, i, j);
    }
  }

  lemma SortedInOrder(anchors: seq<RedAnchor>, i: nat, j: nat)
    requires SortedBy(anchors, Descending) && i < j < |anchors|
    ensures anchors[i].anomalyScore >= anchors[j].anomalyScore
  {
    assert Descending(anchors[i]) <= Descending(anchors[j]);
  }

  lemma {:induction false} TiedPrefix(s: seq<RedAnchor>, end: nat, k: real)
    requires end <= |s|
    ensures Tied(s[..end], Descending, k) <= Tied(s, Descending, k)
  {
    if end == |s| {
      assert s[..end] == s;
    } else {
      TiedPrefix(s[..|s| - 1], end, k);
      assert s[..|s| - 1][..end] == s[..end];
    }
  }

  /** Anchors of equal score keep the order metrics, logs, traces in which they were found, and it
      is the earlier ones that are kept. */
  lemma TopAnchorsKeepTieOrder(candidates: seq<RedAnchor>, score: real)
    ensures Tied(TopAnchors(candidates), Descending, -score) <= Tied(candidates, Descending, -score)
  {
    var sorted := StableSorted(candidates, Descending);
    StableSortedIsStable(candidates, Descending, -score);
    hide StableSorted;
    TiedPrefix(sorted, |TopAnchors(candidates)|, -score);
    assert TopAnchors(candidates) == sorted[..|TopAnchors(candidates)|];
  }

  /** The anchor the root cause names scores at least as high as every anomaly. */
  lemma RootCauseIsStrongest(service: string, candidates: seq<RedAnchor>)
    requires candidates != []
    ensures var strongest := TopAnchors(candidates)[0];
            && strongest in candidates
            && DeriveRootCause(service, TopAnchors(candidates)) == strongest.service + ": " + strongest.selector + " anomaly"
            && forall a <- candidates :: a.anomalyScore <= strongest.anomalyScore
  {
    var sorted := StableSorted(candidates, Descending);
    StableSortedIsSorted(candidates, Descending);
    StableSortedPermutes(candidates, Descending);
    assert sorted[0] in multiset(sorted);
    forall a | a in candidates
      ensures a.anomalyScore <= sorted[0].anomalyScore
    {
      assert a in multiset(sorted);
      var i :| 0 <= i < |sorted| && sorted[i] == a;
      assert i > 0 ==> Descending(sorted[0]) <= Descending(sorted[i]);
    }
  }

  // ---------------------------------------------------------------- anchors and anomalies

  predicate IsMetricAnchor(anchor: RedAnchor, service: string, m: MetricAnomaly) {
    && anchor.service == service && anchor.selector == "metrics:cpu_usage" && anchor.dataType == Metrics
    && anchor.timestamp == m.timestamp && anchor.anomalyScore == m.score && anchor.threshold == m.threshold
  }

  predicate IsLogAnchor(anchor: RedAnchor, service: string, l: LogAnomaly) {
    && anchor.service == service && anchor.selector == "logs:" + l.severity && anchor.dataType == Logs
    && anchor.timestamp == l.timestamp && anchor.anomalyScore == l.score && anchor.threshold == 3.0
  }

  predicate IsTraceAnchor(anchor: RedAnchor, t: TraceAnomaly) {
    && anchor.service == t.span.service && anchor.selector == "trace:" + t.span.operation && anchor.dataType == Traces
    && anchor.timestamp == t.span.timestamp && anchor.anomalyScore == t.score && anchor.threshold == 2.0
  }

  /** Every anomaly has one candidate, which says when, where, by which selector and how strongly it
      showed: metrics first, then logs, then traces, each in the order found. */
  lemma CandidatesDescribeAnomalies(service: string, ms: seq<MetricAnomaly>, ls: seq<LogAnomaly>, ts: seq<TraceAnomaly>)
    ensures var candidates := Candidates(service, ms, ls, ts);
            && |candidates| == |ms| + |ls| + |ts|
            && (forall i :: 0 <= i < |ms| ==> IsMetricAnchor(candidates[i], service, ms[i]))
            && (forall i :: 0 <= i < |ls| ==> IsLogAnchor(candidates[|ms| + i], service, ls[i]))
            && (forall i :: 0 <= i < |ts| ==> IsTraceAnchor(candidates[|ms| + |ls| + i], ts[i]))
  {
  }

  /** The anchor describes one of the anomalies. */
  predicate IsAnchorOf(anchor: RedAnchor, service: string, ms: seq<MetricAnomaly>, ls: seq<LogAnomaly>, ts: seq<TraceAnomaly>) {
    || (exists m <- ms :: IsMetricAnchor(anchor, service, m))
    || (exists l <- ls :: IsLogAnchor(anchor, service, l))
    || (exists t <- ts :: IsTraceAnchor(anchor, t))
  }

  lemma CandidatesAreAnchors(service: string, ms: seq<MetricAnomaly>, ls: seq<LogAnomaly>, ts: seq<TraceAnomaly>)
    ensures forall a <- Candidates(service, ms, ls, ts) :: IsAnchorOf(a, service, ms, ls, ts)
  {
    var candidates := Candidates(service, ms, ls, ts);
    CandidatesDescribeAnomalies(service, ms, ls, ts);
    hide Candidates, IsMetricAnchor, IsLogAnchor, IsTraceAnchor;
    forall a | a in candidates
      ensures IsAnchorOf(a, service, ms, ls, ts)
    {
      var k :| 0 <= k < |candidates| && candidates[k] == a;
      if k < |ms| {
        assert ms[k] in ms && IsMetricAnchor(a, service, ms[k]);
      } else if k < |ms| + |ls| {
        var i := k - |ms|;
        assert candidates[|ms| + i] == a && ls[i] in ls && IsLogAnchor(a, service, ls[i]);
      } else {
        var i := k - |ms| - |ls|;
        assert candidates[|ms| + |ls| + i] == a && ts[i] in ts && IsTraceAnchor(a, ts[i]);
      }
    }
  }

  /** The first anchor has the highest score of all anomalies, and the score of one of them. */
  lemma FirstAnchorIsStrongestAnomaly(service: string, ms: seq<MetricAnomaly>, ls: seq<LogAnomaly>, ts: seq<TraceAnomaly>)
    requires ms != [] || ls != [] || ts != []
    ensures var anchors := TopAnchors(Candidates(service, ms, ls, ts));
            && anchors != []
            && (forall m <- ms :: m.score <= anchors[0].anomalyScore)
            && (forall l <- ls :: l.score <= anchors[0].anomalyScore)
            && (forall t <- ts :: t.score <= anchors[0].anomalyScore)
            && IsAnchorOf(anchors[0], service, ms, ls, ts)
  {
    var candidates := Candidates(service, ms, ls, ts);
    CandidatesDescribeAnomalies(service, ms, ls, ts);
    CandidatesAreAnchors(service, ms, ls, ts);
    hide Candidates, TopAnchors, IsMetricAnchor, IsLogAnchor, IsTraceAnchor, IsAnchorOf;
    TopAnchorsAreTheBest(candidates);
    RootCauseIsStrongest(service, candidates);
    var first := TopAnchors(candidates)[0];
    StrongestOfKinds(service, ms, ls, ts, candidates, first);
  }

  lemma StrongestOfKinds(service: string, ms: seq<MetricAnomaly>, ls: seq<LogAnomaly>, ts: seq<TraceAnomaly>,
                         candidates: seq<RedAnchor>, first: RedAnchor)
    requires |candidates| == |ms| + |ls| + |ts|
    requires forall i :: 0 <= i < |ms| ==> IsMetricAnchor(candidates[i], service, ms[i])
    requires forall i :: 0 <= i < |ls| ==> IsLogAnchor(candidates[|ms| + i], service, ls[i])
    requires forall i :: 0 <= i < |ts| ==> IsTraceAnchor(candidates[|ms| + |ls| + i], ts[i])
    requires forall a <- candidates :: a.anomalyScore <= first.anomalyScore
    ensures forall m <- ms :: m.score <= first.anomalyScore
    ensures forall l <- ls :: l.score <= first.anomalyScore
    ensures forall t <- ts :: t.score <= first.anomalyScore
  {
    forall m | m in ms
      ensures m.score <= first.anomalyScore
    {
      var i :| 0 <= i < |ms| && ms[i] == m;
      assert candidates[i] in candidates;
    }
    forall l | l in ls
      ensures l.score <= first.anomalyScore
    {
      var i :| 0 <= i < |ls| && ls[i] == l;
      assert candidates[|ms| + i] in candidates;
    }
    forall t | t in ts
      ensures t.score <= first.anomalyScore
    {
      var i :| 0 <= i < |ts| && ts[i] == t;
      assert candidates[|ms| + |ls| + i] in candidates;
    }
  }

  /** On what the detectors report, every metric and log anchor scores at least its threshold; only an
      anchor for a failed span may score less. */
  lemma AnchorsReachTheirThresholds(fold: string -> string, service: string, series: seq<MetricPoint>, threshold: real,
                                    metricStdDev: real, entries: seq<LogEntry>, spans: seq<TraceSpan>, traceStdDev: real)
    requires MetricExtractor.IsStdDev(series, metricStdDev) && TracesExtractor.IsStdDev(spans, traceStdDev)
    ensures var ms := MetricExtractor.Detected(series, threshold, metricStdDev);
            var ls := LogsExtractor.Detected(fold, entries);
            var ts := TracesExtractor.Detected(spans, traceStdDev);
            forall a <- Candidates(service, ms, ls, ts) :: a.anomalyScore >= a.threshold ||
              exists t <- ts :: IsTraceAnchor(a, t) && t.span.status == "error"
  {
    var ms := MetricExtractor.Detected(series, threshold, metricStdDev);
    var ls := LogsExtractor.Detected(fold, entries);
    var ts := TracesExtractor.Detected(spans, traceStdDev);
    MetricExtractor.ScoresReachThreshold(series, threshold, metricStdDev);
    LogsExtractor.ScoresReachSpike(fold, entries);
    TracesExtractor.ReportedSpans(spans, traceStdDev);
    hide MetricExtractor.Detected, LogsExtractor.Detected, TracesExtractor.Detected, Candidates;
    CandidatesAreAnchors(service, ms, ls, ts);
  }
}
