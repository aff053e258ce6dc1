/** The chronological timeline of an investigation and who comes first on it (`buildTimeline` in
    internal/engine/pipeline.go, `rootEventTime` and `firstEventTime` in
    internal/engine/causality.go). */
module Timeline {
  import opened Models
  import opened Sorting
  import LogsExtractor

  const MAX_EVENTS: nat := 10

  function SeverityFromScore(score: real): Severity {
    if score >= 4.0 then Critical
    else if score >= 3.0 then High
    else if score >= 2.0 then Medium
    else Low
  }

  function MetricEvent(m: MetricAnomaly): TimelineEvent {
    TimelineEvent(m.timestamp, "Metric anomaly detected", "", SeverityFromScore(m.score), m.score, Metrics)
  }

  function LogEvent(l: LogAnomaly): TimelineEvent {
    TimelineEvent(l.timestamp, "Log spike (" + l.severity + ")", "", SeverityFromScore(l.score), l.score, Logs)
  }

  function TraceEvent(t: TraceAnomaly): TimelineEvent {
    var severity := if t.span.status == "error" then High else SeverityFromScore(t.score);
    TimelineEvent(t.span.timestamp, "Slow span: " + t.span.operation, t.span.service, severity, t.score, Traces)
  }

  /** One event per anomaly: metrics, then logs, then traces. */
  function Events(ms: seq<MetricAnomaly>, ls: seq<LogAnomaly>, ts: seq<TraceAnomaly>): seq<TimelineEvent> {
    seq(|ms|, i requires 0 <= i < |ms| => MetricEvent(ms[i]))
    + seq(|ls|, i requires 0 <= i < |ls| => LogEvent(ls[i]))
    + seq(|ts|, i requires 0 <= i < |ts| => TraceEvent(ts[i]))
  }

  /** The event shows the time, service and score of its anomaly. Its severity grows with the score:
      medium from 2, high from 3, critical from 4. */
  predicate Shows(event: TimelineEvent, time: Time, service: string, score: real, source: DataType) {
    event.time == time && event.service == service && event.anomalyScore == score && event.dataSource == source
  }

  predicate IsGraded(severity: Severity, score: real) {
    && (severity == Critical <==> score >= 4.0)
    && (severity == High <==> 3.0 <= score < 4.0)
    && (severity == Medium <==> 2.0 <= score < 3.0)
  }

  /** Every anomaly has one event: metrics, then logs, then traces. Metric and log events name no
      service; a failed span is of high severity whatever its score. */
  lemma EventsShowAnomalies(ms: seq<MetricAnomaly>, ls: seq<LogAnomaly>, ts: seq<TraceAnomaly>)
    ensures var events := Events(ms, ls, ts);
            && |events| == |ms| + |ls| + |ts|
            && (forall i :: 0 <= i < |ms| ==>
                  Shows(events[i], ms[i].timestamp, "", ms[i].score, Metrics) && IsGraded(events[i].severity, ms[i].score))
            && (forall i :: 0 <= i < |ls| ==>
                  var event := events[|ms| + i];
                  Shows(event, ls[i].timestamp, "", ls[i].score, Logs) && IsGraded(event.severity, ls[i].score))
            && (forall i :: 0 <= i < |ts| ==>
                  var event, span := events[|ms| + |ls| + i], ts[i].span;
                  && Shows(event, span.timestamp, span.service, ts[i].score, Traces)
                  && (if span.status == "error" then event.severity == High else IsGraded(event.severity, ts[i].score)))
  {
  }

  /** So no event that shows a log anomaly is below high severity. */
  lemma LogEventsAreHigh(fold: string -> string, ms: seq<MetricAnomaly>, entries: seq<LogEntry>, ts: seq<TraceAnomaly>)
    ensures forall event <- Events(ms, LogsExtractor.Detected(fold, entries), ts) ::
              event.dataSource == Logs ==> event.severity == High || event.severity == Critical
  {
    var ls := LogsExtractor.Detected(fold, entries);
    LogsExtractor.ScoresReachSpike(fold, entries);
    hide LogsExtractor.Detected;
    var events := Events(ms, ls, ts);
    forall event | event in events && event.dataSource == Logs
      ensures event.severity == High || event.severity == Critical
    {
      var k :| 0 <= k < |events| && events[k] == event;
      var i := k - |ms|;
      assert ls[i] in ls;
    }
  }

  function TimeKey(event: TimelineEvent): real {
    event.time as real
  }

  ghost predicate IsChronological(events: seq<TimelineEvent>) {
    SortedBy(events, TimeKey)
  }

  function Kept(full: seq<TimelineEvent>): seq<TimelineEvent> {
    if |full| > MAX_EVENTS then full[..MAX_EVENTS] else full
  }

  /** `full` is all the events in some chronological order. */
  ghost predicate IsOrdering(full: seq<TimelineEvent>, events: seq<TimelineEvent>) {
    IsChronological(full) && multiset(full) == multiset(events)
  }

  /** The order of simultaneous events is the sort's choice; `full` reports it. */
  method BuildTimeline(ms: seq<MetricAnomaly>, ls: seq<LogAnomaly>, ts: seq<TraceAnomaly>)
    returns (timeline: seq<TimelineEvent>, ghost full: seq<TimelineEvent>)
    ensures IsOrdering(full, Events(ms, ls, ts))
    ensures timeline == Kept(full)
  {
    var all := Events(ms, ls, ts);
    timeline := [];
    for i := 0 to |ms|
      invariant timeline == all[..i]
    {
      timeline := timeline + [MetricEvent(ms[i])];
    }
    for i := 0 to |ls|
      invariant timeline == all[..|ms| + i]
    {
      timeline := timeline + [LogEvent(ls[i])];
    }
    for i := 0 to |ts|
      invariant timeline == all[..|ms| + |ls| + i]
    {
      timeline := timeline + [TraceEvent(ts[i])];
    }
    assert timeline == all;
    timeline := SortSlice(timeline, TimeKey);
    full := timeline;
    if |timeline| > 10 {
      timeline := timeline[..10];
    }
  }

  predicate Concerns(fold: string -> string, event: TimelineEvent, service: string) {
    EqualFold(fold, event.service, service)
  }

  /** The time of the first event of a service in list order, or the zero time. */
  function FirstTime(fold: string -> string, service: string, events: seq<TimelineEvent>): Time {
    if events == [] then ZERO_TIME
    else if Concerns(fold, events[0], service) then events[0].time
    else FirstTime(fold, service, events[1..])
  }

  method FirstEventTime(fold: string -> string, service: string, events: seq<TimelineEvent>) returns (time: Time)
    ensures time == FirstTime(fold, service, events)
  {
    for i := 0 to |events|
      invariant FirstTime(fold, service, events) == FirstTime(fold, service, events[i..])
    {
      if EqualFold(fold, events[i].service, service) {
        return events[i].time;
      }
      assert events[i..][1..] == events[i + 1..];
    }
    return ZERO_TIME;
  }

  /** `time` is the least time of any event of the service, in whatever order they are listed. */
  ghost predicate IsEarliest(fold: string -> string, service: string, events: seq<TimelineEvent>, time: Time) {
    && (exists event <- events :: Concerns(fold, event, service) && event.time == time)
    && (forall event <- events :: Concerns(fold, event, service) ==> time <= event.time)
  }

  predicate Appears(fold: string -> string, service: string, events: seq<TimelineEvent>) {
    exists event <- events :: Concerns(fold, event, service)
  }

  lemma {:induction false} FirstIsEarliest(fold: string -> string, service: string, events: seq<TimelineEvent>)
    requires IsChronological(events) && Appears(fold, service, events)
    ensures IsEarliest(fold, service, events, FirstTime(fold, service, events))
  {
    if Concerns(fold, events[0], service) {
      forall event | event in events
        ensures events[0].time <= event.time
      {
        var i :| 0 <= i < |events| && events[i] == event;
        assert i > 0 ==> TimeKey(events[0]) <= TimeKey(events[i]);
      }
    } else {
      var tail := events[1..];
      assert events == [events[0]] + tail;
      forall i, j | 0 <= i < j < |tail|
        ensures TimeKey(tail[i]) <= TimeKey(tail[j])
      {
        assert TimeKey(events[i + 1]) <= TimeKey(events[j + 1]);
      }
      FirstIsEarliest(fold, service, tail);
    }
  }

  lemma {:induction false} AbsentHasNoTime(fold: string -> string, service: string, events: seq<TimelineEvent>)
    requires !Appears(fold, service, events)
    ensures FirstTime(fold, service, events) == ZERO_TIME
  {
    if events != [] {
      assert events[0] in events;
      AbsentHasNoTime(fold, service, events[1..]);
    }
  }

  /** Cutting a chronological list off at the end cannot change who came when first. */
  lemma EarliestSurvivesTruncation(fold: string -> string, service: string, full: seq<TimelineEvent>)
    requires IsChronological(full) && Appears(fold, service, Kept(full))
    ensures IsEarliest(fold, service, full, FirstTime(fold, service, Kept(full)))
  {
    hide FirstTime, Concerns;
    var kept := Kept(full);
    var time := FirstTime(fold, service, kept);
    FirstIsEarliest(fold, service, kept);
    var first :| first in kept && Concerns(fold, first, service) && first.time == time;
    var k :| 0 <= k < |kept| && kept[k] == first;
    assert full[k] == first;
    forall event | event in full && Concerns(fold, event, service)
      ensures time <= event.time
    {
      var i :| 0 <= i < |full| && full[i] == event;
      if i < |kept| {
        assert kept[i] in kept;
      } else {
        assert TimeKey(full[k]) <= TimeKey(full[i]);
      }
    }
  }
}
