/** The investigation itself (`DetermineService`, `Analyze` and its helpers in
    internal/engine/pipeline.go). Case folding, lower-casing, number formatting, square roots and
    the current time are parameters; the order of map keys is left open. */
module Pipeline {
  import opened Options
  import opened Models
  import opened Sorting
  import opened Dedup
  import opened Anchors
  import opened Timeline
  import opened Causality
  import opened Confidence
  import opened Recommend
  import opened Counting
  import MetricExtractor
  import LogsExtractor
  import TracesExtractor
  import Statistics

  const HALF_SECOND: int := 500 * MILLISECOND

  datatype Request = Request(symptoms: seq<string>, affectedServices: seq<string>, anomalyThreshold: real)

  datatype Signals = Signals(graph: seq<ServiceGraphEdge>, metrics: seq<MetricPoint>, logs: seq<LogEntry>,
                             traces: seq<TraceSpan>)

  /** What the pipeline takes from its libraries and from the configuration. `incidents` holds the
      recommendations of each similar incident, if the lookup succeeded. */
  datatype Setting = Setting(fold: string -> string, lower: string -> string, percent: real -> string,
                             causalityEnabled: bool, rules: seq<Rule>, incidents: Option<seq<seq<string>>>,
                             metricStdDev: real, traceStdDev: real, now: Time)

  // ---------------------------------------------------------------- the service in question

  predicate IsFirstNonEmpty(values: seq<string>, at: int) {
    0 <= at < |values| && values[at] != "" && forall i :: 0 <= i < at ==> values[i] == ""
  }

  method DetermineService(req: Request) returns (service: string)
    ensures service != ""
    ensures forall i :: IsFirstNonEmpty(req.affectedServices, i) ==> service == req.affectedServices[i]
    ensures (forall i :: 0 <= i < |req.affectedServices| ==> req.affectedServices[i] == "") ==>
              service == if req.symptoms != [] && req.symptoms[0] != "" then req.symptoms[0] else "unknown-service"
  {
    service := "";
    for i := 0 to |req.affectedServices|
      invariant forall j :: 0 <= j < i ==> req.affectedServices[j] == ""
    {
      if req.affectedServices[i] != "" {
        assert IsFirstNonEmpty(req.affectedServices, i);
        return req.affectedServices[i];
      }
    }
    if |req.symptoms| > 0 {
      service := req.symptoms[0];
    }
    if service == "" {
      service := "unknown-service";
    }
  }

  // ---------------------------------------------------------------- topology

  /** The edges that spell the service exactly as given, at either end. */
  function Related(service: string, edges: seq<ServiceGraphEdge>): seq<ServiceGraphEdge> {
    if edges == [] then [] else
      var last := edges[|edges| - 1];
      Related(service, edges[..|edges| - 1]) + if last.source == service || last.target == service then [last] else []
  }

  predicate IsNeighbor(service: string, edges: seq<ServiceGraphEdge>, other: string) {
    exists edge <- edges ::
      (edge.source == service && edge.target == other) || (edge.target == service && edge.source == other)
  }

  /** Every neighbour once, in some order. */
  ghost predicate AreNeighbors(service: string, edges: seq<ServiceGraphEdge>, neighbors: seq<string>) {
    NoDuplicates(neighbors) && forall s :: s in neighbors <==> IsNeighbor(service, edges, s)
  }

  /** The order of the neighbours is that of a Go map: any. */
  method NeighborServices(edges: seq<ServiceGraphEdge>, service: string) returns (neighbors: seq<string>)
    ensures AreNeighbors(service, edges, neighbors)
  {
    var names: set<string> := {};
    for i := 0 to |edges|
      invariant forall s :: s in names <==> IsNeighbor(service, edges[..i], s)
    {
      assert edges[..i + 1] == edges[..i] + [edges[i]];
      if edges[i].source == service {
        names := names + {edges[i].target};
      }
      if edges[i].target == service {
        names := names + {edges[i].source};
      }
    }
    assert edges[..|edges|] == edges;
    neighbors := [];
    var rest := names;
    while rest != {}
      invariant rest <= names && NoDuplicates(neighbors)
      invariant forall s :: s in neighbors <==> s in names - rest
    {
      var s :| s in rest;
      assert forall i :: 0 <= i < |neighbors| ==> neighbors[i] in neighbors;
      rest := rest - {s};
      neighbors := neighbors + [s];
    }
  }

  function ByCallRate(edge: ServiceGraphEdge): real {
    -edge.callRate
  }

  /** One event per shown edge: upstream edges half a second before the root, others after it. */
  function TopologyEvent(percent: real -> string, service: string, rootTime: Time, edge: ServiceGraphEdge): TimelineEvent {
    var suffix := if edge.errorRate > 0.0 then " (error rate " + percent(edge.errorRate) + "%)" else "";
    if edge.target == service then
      TimelineEvent(rootTime - HALF_SECOND, "Service graph: upstream " + edge.source + " -> " + edge.target + suffix,
                    edge.source, Low, 0.0, Traces)
    else
      TimelineEvent(rootTime + HALF_SECOND, "Service graph: " + edge.source + " -> " + edge.target + suffix,
                    edge.target, Low, 0.0, Traces)
  }

  function TopologyEvents(percent: real -> string, service: string, rootTime: Time, shown: seq<ServiceGraphEdge>): seq<TimelineEvent> {
    seq(|shown|, i requires 0 <= i < |shown| => TopologyEvent(percent, service, rootTime, shown[i]))
  }

  /** The service's own first event, or the current time. */
  function RootTimeOr(fold: string -> string, service: string, timeline: seq<TimelineEvent>, now: Time): Time {
    var time := FirstTime(fold, service, timeline);
    if time == ZERO_TIME then now else time
  }

  /** The one or two busiest of the related edges; ties are the sort's choice. */
  ghost predicate AreBusiest(shown: seq<ServiceGraphEdge>, related: seq<ServiceGraphEdge>) {
    && |shown| == (if |related| < 2 then |related| else 2)
    && multiset(shown) <= multiset(related)
    && forall a, b :: a in shown && b in multiset(related) - multiset(shown) ==> a.callRate >= b.callRate
  }

  method RelatedEdges(service: string, edges: seq<ServiceGraphEdge>) returns (related: seq<ServiceGraphEdge>)
    ensures related == Related(service, edges)
  {
    related := [];
    for i := 0 to |edges|
      invariant related == Related(service, edges[..i])
    {
      assert edges[..i + 1][..i] == edges[..i];
      if edges[i].source == service || edges[i].target == service {
        related := related + [edges[i]];
      }
    }
    assert edges[..|edges|] == edges;
  }

  method AppendTopologyEvents(setting: Setting, timeline: seq<TimelineEvent>, service: string, edges: seq<ServiceGraphEdge>)
    returns (result: seq<TimelineEvent>, ghost shown: seq<ServiceGraphEdge>)
    ensures AreBusiest(shown, Related(service, edges))
    ensures var events := TopologyEvents(setting.percent, service, RootTimeOr(setting.fold, service, timeline, setting.now), shown);
            multiset(result) == multiset(timeline) + multiset(events)
    ensures if Related(service, edges) == [] then result == timeline else IsChronological(result)
  {
    shown := [];
    if edges == [] {
      return timeline, shown;
    }
    var related := RelatedEdges(service, edges);
    if related == [] {
      return timeline, shown;
    }
    hide AreBusiest, Related, SortedBy;
    var sorted := SortSlice(related, ByCallRate);
    var limit := if |related| < 2 then |related| else 2;
    ShowBusiest(sorted, related, limit);
    shown := sorted[..limit];
    var rootTime := FirstEventTime(setting.fold, service, timeline);
    if rootTime == ZERO_TIME {
      rootTime := setting.now;
    }
    result := AddEvents(setting.percent, timeline, service, rootTime, sorted[..limit]);
    result := SortSlice(result, TimeKey);
  }

  method AddEvents(percent: real -> string, timeline: seq<TimelineEvent>, service: string, rootTime: Time, edges: seq<ServiceGraphEdge>)
    returns (result: seq<TimelineEvent>)
    ensures result == timeline + TopologyEvents(percent, service, rootTime, edges)
  {
    ghost var events := TopologyEvents(percent, service, rootTime, edges);
    result := timeline;
    for i := 0 to |edges|
      invariant result == timeline + events[..i]
    {
      result := result + [TopologyEvent(percent, service, rootTime, edges[i])];
    }
    assert events[..|edges|] == events;
  }

  lemma ShowBusiest(sorted: seq<ServiceGraphEdge>, related: seq<ServiceGraphEdge>, limit: nat)
    requires SortedBy(sorted, ByCallRate) && multiset(sorted) == multiset(related)
    requires limit == if |related| < 2 then |related| else 2
    ensures |sorted| == |related| && AreBusiest(sorted[..limit], related)
  {
    SameMultisetSameLength(sorted, related);
    CutSeparates(sorted, ByCallRate, limit);
    forall a, b | a in sorted[..limit] && b in multiset(related) - multiset(sorted[..limit])
      ensures a.callRate >= b.callRate
    {
      assert b in sorted[limit..];
      assert ByCallRate(a) <= ByCallRate(b);
    }
  }

  // ---------------------------------------------------------------- recommendations

  const DEFAULT_RECOMMENDATIONS: seq<string> := [
    "Review recent deployments for regressions",
    "Check upstream dependencies for correlated errors"
  ]

  /** Past incidents first, then rules, then the defaults: there is always a recommendation. */
  function Recommendations(setting: Setting, ev: Evidence): (recommendations: seq<string>)
    ensures recommendations != []
  {
    var fromRules := FirstOccurrences(AllMatched(setting.rules, ev));
    if setting.incidents.Some? && setting.incidents.value != [] && setting.incidents.value[0] != [] then
      setting.incidents.value[0]
    else if fromRules != [] then fromRules
    else DEFAULT_RECOMMENDATIONS
  }

  /** A similar incident that brought recommendations. */
  predicate HasPast(setting: Setting) {
    setting.incidents.Some? && |setting.incidents.value| > 0 && |setting.incidents.value[0]| > 0
  }

  ghost predicate IsGivenByRules(setting: Setting, ev: Evidence, text: string) {
    text != "" && exists rule <- setting.rules :: text in rule.recommendations && AllItAsksForIsMet(rule, ev)
  }

  /** The most similar incident is followed if it has recommendations; otherwise the rules that are met,
      if they have any; the defaults come last. */
  lemma RecommendationsInOrder(setting: Setting, ev: Evidence)
    ensures var recommendations := Recommendations(setting, ev);
            && (HasPast(setting) ==> recommendations == setting.incidents.value[0])
            && (!HasPast(setting) && (exists text :: IsGivenByRules(setting, ev, text)) ==>
                  NoDuplicates(recommendations) &&
                  forall text :: text in recommendations <==> IsGivenByRules(setting, ev, text))
            && (!HasPast(setting) && (forall text :: !IsGivenByRules(setting, ev, text)) ==>
                  recommendations == ["Review recent deployments for regressions",
                                      "Check upstream dependencies for correlated errors"])
  {
    KeepsEachOnce(AllMatched(setting.rules, ev));
    hide AllMatched, FirstOccurrences, AllItAsksForIsMet, IsGivenByRules, NoDuplicates;
    var fromRules := FirstOccurrences(AllMatched(setting.rules, ev));
    forall text
      ensures text in fromRules <==> IsGivenByRules(setting, ev, text)
    {
      GivenByRules(setting, ev, text);
    }
    if fromRules != [] {
      assert fromRules[0] in fromRules;
    }
  }

  lemma GivenByRules(setting: Setting, ev: Evidence, text: string)
    ensures text in FirstOccurrences(AllMatched(setting.rules, ev)) <==> IsGivenByRules(setting, ev, text)
  {
    hide AllMatched, FirstOccurrences, AllItAsksForIsMet;
    RecommendedMeans(setting.rules, ev, text);
  }

  method FetchRecommendations(setting: Setting, ev: Evidence) returns (recommendations: seq<string>)
    ensures recommendations == Recommendations(setting, ev)
  {
    if setting.incidents.Some? && setting.incidents.value != [] {
      recommendations := setting.incidents.value[0];
      if recommendations != [] {
        return;
      }
    }
    recommendations := Recommend.Recommend(setting.rules, ev);
    if recommendations == [] {
      recommendations := DEFAULT_RECOMMENDATIONS;
    }
  }

  // ---------------------------------------------------------------- the whole analysis

  function CausalityOf(setting: Setting, service: string, timeline: seq<TimelineEvent>, graph: seq<ServiceGraphEdge>): CausalityResult {
    if setting.causalityEnabled then Result(setting.fold, service, timeline, graph) else NO_RESULT
  }

  /** The causality engine names another service than the one investigated. */
  predicate Suggests(setting: Setting, service: string, verdict: CausalityResult) {
    verdict.suggestedService != "" && !EqualFold(setting.fold, verdict.suggestedService, service)
  }

  function SuggestedEvent(setting: Setting, service: string, kept: seq<TimelineEvent>, suggested: string): TimelineEvent {
    TimelineEvent(FirstTime(setting.fold, suggested, kept) - HALF_SECOND,
                  "Causality: " + suggested + " precedes " + service, suggested, Medium, 0.0, Traces)
  }

  /** The timeline before topology events are added. */
  function WithSuggestion(setting: Setting, service: string, kept: seq<TimelineEvent>, verdict: CausalityResult): seq<TimelineEvent> {
    if Suggests(setting, service, verdict) then
      kept + [SuggestedEvent(setting, service, kept, verdict.suggestedService)]
    else kept
  }

  function SuggestedServices(setting: Setting, service: string, verdict: CausalityResult): seq<string> {
    if Suggests(setting, service, verdict) then [verdict.suggestedService] else []
  }

  /** `final` is the kept events, the suggestion and the shown edges; it was sorted last if any
      edge spells the service exactly. */
  ghost predicate IsFinalTimeline(setting: Setting, service: string, graph: seq<ServiceGraphEdge>,
                                  kept: seq<TimelineEvent>, verdict: CausalityResult,
                                  shown: seq<ServiceGraphEdge>, final: seq<TimelineEvent>)
  {
    var before := WithSuggestion(setting, service, kept, verdict);
    var events := TopologyEvents(setting.percent, service, RootTimeOr(setting.fold, service, before, setting.now), shown);
    && AreBusiest(shown, Related(service, graph))
    && multiset(final) == multiset(before) + multiset(events)
    && (if Related(service, graph) == [] then final == before else IsChronological(final))
  }

  ghost predicate KnowsDeviations(setting: Setting, signals: Signals) {
    && MetricExtractor.IsStdDev(signals.metrics, setting.metricStdDev)
    && TracesExtractor.IsStdDev(signals.traces, setting.traceStdDev)
  }

  function RootCause(setting: Setting, service: string, anchors: seq<RedAnchor>, verdict: CausalityResult): string {
    if Suggests(setting, service, verdict) then verdict.suggestedService + ": upstream influence on " + service
    else DeriveRootCause(service, anchors)
  }

  method JudgeCausality(setting: Setting, service: string, timeline: seq<TimelineEvent>, graph: seq<ServiceGraphEdge>)
    returns (verdict: CausalityResult)
    ensures verdict == CausalityOf(setting, service, timeline, graph)
  {
    verdict := NO_RESULT;
    if setting.causalityEnabled {
      verdict := Evaluate(setting.fold, service, timeline, graph);
    }
  }

  method ListAffected(setting: Setting, req: Request, service: string, graph: seq<ServiceGraphEdge>, verdict: CausalityResult)
    returns (affected: seq<string>, ghost neighbors: seq<string>)
    ensures AreNeighbors(service, graph, neighbors)
    ensures affected == FirstOccurrences([service] + req.affectedServices + neighbors
                                         + SuggestedServices(setting, service, verdict))
  {
    var named := [service] + req.affectedServices;
    affected := UniqueStrings(named);
    var found := NeighborServices(graph, service);
    neighbors := found;
    affected := UniqueStrings(affected + found);
    UniqueTwice(named, neighbors);
    if verdict.suggestedService != "" && !EqualFold(setting.fold, verdict.suggestedService, service) {
      affected := UniqueStrings(affected + [verdict.suggestedService]);
      UniqueTwice(named + neighbors, [verdict.suggestedService]);
    } else {
      assert named + neighbors + [] == named + neighbors;
    }
  }

  /** The suggestion, if any, then the topology events. */
  method FinishTimeline(setting: Setting, service: string, graph: seq<ServiceGraphEdge>, kept: seq<TimelineEvent>,
                        verdict: CausalityResult)
    returns (timeline: seq<TimelineEvent>, ghost shown: seq<ServiceGraphEdge>)
    ensures IsFinalTimeline(setting, service, graph, kept, verdict, shown, timeline)
  {
    hide AreBusiest, Related, SortedBy, FirstTime;
    timeline := kept;
    if verdict.suggestedService != "" && !EqualFold(setting.fold, verdict.suggestedService, service) {
      var time := FirstEventTime(setting.fold, verdict.suggestedService, timeline);
      timeline := timeline + [TimelineEvent(time - HALF_SECOND,
                                            "Causality: " + verdict.suggestedService + " precedes " + service,
                                            verdict.suggestedService, Medium, 0.0, Traces)];
    }
    timeline, shown := AppendTopologyEvents(setting, timeline, service, graph);
  }

  /** What the analysis of the signals comes to, given the order of simultaneous events (`full`), of
      the neighbours and of edges with equal call rates (`shown`). */
  ghost predicate IsAnalysis(setting: Setting, req: Request, service: string, signals: Signals,
                             full: seq<TimelineEvent>, neighbors: seq<string>, shown: seq<ServiceGraphEdge>,
                             result: CorrelationResult)
    requires KnowsDeviations(setting, signals)
  {
    var ms := MetricExtractor.Detected(signals.metrics, req.anomalyThreshold, setting.metricStdDev);
    var ls := LogsExtractor.Detected(setting.fold, signals.logs);
    var ts := TracesExtractor.Detected(signals.traces, setting.traceStdDev);
    var verdict := CausalityOf(setting, service, Kept(full), signals.graph);
    && IsOrdering(full, Events(ms, ls, ts))
    && result.redAnchors == TopAnchors(Candidates(service, ms, ls, ts))
    && result.confidence == Calibrate(Fused(ms, ls, ts), verdict.score)
    && result.rootCause == RootCause(setting, service, result.redAnchors, verdict)
    && AreNeighbors(service, signals.graph, neighbors)
    && result.affectedServices == FirstOccurrences([service] + req.affectedServices + neighbors
                                                   + SuggestedServices(setting, service, verdict))
    && result.recommendations == Recommendations(setting, EvidenceOf(setting, req, result.redAnchors, Kept(full)))
    && IsFinalTimeline(setting, service, signals.graph, Kept(full), verdict, shown, result.timeline)
    && result.createdAt == setting.now
  }

  function EvidenceOf(setting: Setting, req: Request, anchors: seq<RedAnchor>, timeline: seq<TimelineEvent>): Evidence {
    Evidence(setting.fold, setting.lower, req.affectedServices, anchors, timeline)
  }

  method Analyze(setting: Setting, req: Request, service: string, signals: Signals)
    returns (result: CorrelationResult, ghost full: seq<TimelineEvent>, ghost neighbors: seq<string>,
             ghost shown: seq<ServiceGraphEdge>)
    requires KnowsDeviations(setting, signals)
    ensures IsAnalysis(setting, req, service, signals, full, neighbors, shown, result)
  {
    var ms := MetricExtractor.Detect(signals.metrics, req.anomalyThreshold, setting.metricStdDev);
    var ls := LogsExtractor.Detect(setting.fold, signals.logs);
    var ts := TracesExtractor.Detect(signals.traces, setting.traceStdDev);
    hide MetricExtractor.Detected, LogsExtractor.Detected, TracesExtractor.Detected, Candidates, TopAnchors, Fused,
         Events, IsOrdering, Kept, CausalityOf, Calibrate, FirstOccurrences, AllMatched, NoDuplicates, AreNeighbors,
         IsFinalTimeline, RootCause, SuggestedServices, Recommendations;
    var anchors := BuildAnchors(service, ms, ls, ts);
    var timeline;
    timeline, full := BuildTimeline(ms, ls, ts);
    var confidence := ComputeConfidence(ms, ls, ts);
    var verdict := JudgeCausality(setting, service, timeline, signals.graph);
    var recommendations := FetchRecommendations(setting, EvidenceOf(setting, req, anchors, timeline));
    var affected;
    affected, neighbors := ListAffected(setting, req, service, signals.graph, verdict);
    var rootCause := RootCause(setting, service, anchors, verdict);
    timeline, shown := FinishTimeline(setting, service, signals.graph, timeline, verdict);
    result := CorrelationResult(rootCause, Calibrate(confidence, verdict.score), affected, anchors, timeline,
                                recommendations, setting.now);
  }

  // ---------------------------------------------------------------- what the result promises

  /** The service comes first in the list of affected services; then come the requested services,
      every graph neighbour and the suggestion, none twice and none empty. */
  lemma AffectedServicesAreComplete(setting: Setting, req: Request, service: string, neighbors: seq<string>, extra: seq<string>)
    requires service != ""
    ensures var affected := FirstOccurrences([service] + req.affectedServices + neighbors + extra);
            && affected != [] && affected[0] == service
            && NoDuplicates(affected) && "" !in affected
            && (forall s :: s in affected <==>
                  s != "" && (s == service || s in req.affectedServices || s in neighbors || s in extra))
  {
    var rest := req.affectedServices + neighbors + extra;
    var all := [service] + req.affectedServices + neighbors + extra;
    assert all == [service] + rest;
    KeepsEachOnce(all);
    UniquePrefix([service], rest);
    assert FirstOccurrences([service]) == [service] by {
      assert [service][..0] == [];
    }
    assert forall s <- rest :: s in all;
  }

  /** Whatever the signals are, an investigation reports a confidence between 0 and 1, its at most
      five anchors and thirteen events, every affected service once and never an empty one, and at
      least one recommendation; and its timeline is chronological if spelling is consistent. */
  lemma AnalysisPromises(setting: Setting, req: Request, service: string, signals: Signals, full: seq<TimelineEvent>,
                         neighbors: seq<string>, shown: seq<ServiceGraphEdge>, result: CorrelationResult)
    requires KnowsDeviations(setting, signals) && service != ""
    requires IsAnalysis(setting, req, service, signals, full, neighbors, shown, result)
    ensures 0.0 <= result.confidence <= 1.0
    ensures |result.redAnchors| <= MAX_ANCHORS && |result.timeline| <= 13
    ensures NoDuplicates(result.affectedServices) && "" !in result.affectedServices
    ensures result.affectedServices != [] && result.affectedServices[0] == service
    ensures forall s :: s != "" && IsNeighbor(service, signals.graph, s) ==> s in result.affectedServices
    ensures result.recommendations != []
    ensures result.recommendations == Recommendations(
              setting, Evidence(setting.fold, setting.lower, req.affectedServices, result.redAnchors, Kept(full)))
    ensures SeparatesEmpty(setting.fold) && SpellsExactly(setting, service, signals.graph) ==> IsChronological(result.timeline)
  {
    var verdict := CausalityOf(setting, service, Kept(full), signals.graph);
    hide MetricExtractor.Detected, LogsExtractor.Detected, TracesExtractor.Detected, Candidates, TopAnchors, Fused,
         Events, Kept, CausalityOf, Calibrate, FirstOccurrences, NoDuplicates, IsFinalTimeline, RootCause,
         SuggestedServices, Recommendations, SpellsExactly, SortedBy, IsNeighbor, SeparatesEmpty;
    var ms := MetricExtractor.Detected(signals.metrics, req.anomalyThreshold, setting.metricStdDev);
    var ls := LogsExtractor.Detected(setting.fold, signals.logs);
    var ts := TracesExtractor.Detected(signals.traces, setting.traceStdDev);
    TopAnchorsAreTheBest(Candidates(service, ms, ls, ts));
    CalibrationGain(Fused(ms, ls, ts), verdict.score);
    AffectedServicesAreComplete(setting, req, service, neighbors, SuggestedServices(setting, service, verdict));
    TimelineIsShort(setting, service, signals.graph, full, verdict, shown, result.timeline);
    if SeparatesEmpty(setting.fold) && SpellsExactly(setting, service, signals.graph) {
      ExactSpellingKeepsOrder(setting, service, signals.graph, full, verdict, shown, result.timeline);
    }
  }

  /** Thirteen events at most: ten anomalies, one suggestion, two edges. */
  lemma TimelineIsShort(setting: Setting, service: string, graph: seq<ServiceGraphEdge>, full: seq<TimelineEvent>,
                        verdict: CausalityResult, shown: seq<ServiceGraphEdge>, final: seq<TimelineEvent>)
    requires IsFinalTimeline(setting, service, graph, Kept(full), verdict, shown, final)
    ensures |Kept(full)| == if |full| < 10 then |full| else 10
    ensures |final| == |Kept(full)| + (if Suggests(setting, service, verdict) then 1 else 0)
                       + if |Related(service, graph)| < 2 then |Related(service, graph)| else 2
    ensures |final| <= 13
    ensures multiset(Kept(full)) <= multiset(final)
  {
    var before := WithSuggestion(setting, service, Kept(full), verdict);
    var events := TopologyEvents(setting.percent, service, RootTimeOr(setting.fold, service, before, setting.now), shown);
    assert |multiset(final)| == |multiset(before)| + |multiset(events)|;
  }

  /** What the root cause says: the suggested upstream service if there is one, else the anomaly with
      the highest score of all, else that there is none. */
  lemma RootCauseMeans(setting: Setting, req: Request, service: string, signals: Signals, full: seq<TimelineEvent>,
                       neighbors: seq<string>, shown: seq<ServiceGraphEdge>, result: CorrelationResult)
    requires KnowsDeviations(setting, signals)
    requires IsAnalysis(setting, req, service, signals, full, neighbors, shown, result)
    ensures var ms := MetricExtractor.Detected(signals.metrics, req.anomalyThreshold, setting.metricStdDev);
            var ls := LogsExtractor.Detected(setting.fold, signals.logs);
            var ts := TracesExtractor.Detected(signals.traces, setting.traceStdDev);
            var suggested := CausalityOf(setting, service, Kept(full), signals.graph).suggestedService;
            if suggested != "" && setting.fold(suggested) != setting.fold(service) then
              result.rootCause == suggested + ": upstream influence on " + service && suggested in result.affectedServices
            else if ms == [] && ls == [] && ts == [] then
              result.rootCause == service + ": no dominant anchor"
            else
              result.redAnchors != [] &&
              var anchor := result.redAnchors[0];
              && result.rootCause == anchor.service + ": " + anchor.selector + " anomaly"
              && IsAnchorOf(anchor, service, ms, ls, ts)
              && (forall m <- ms :: m.score <= anchor.anomalyScore)
              && (forall l <- ls :: l.score <= anchor.anomalyScore)
              && (forall t <- ts :: t.score <= anchor.anomalyScore)
  {
    hide MetricExtractor.Detected, LogsExtractor.Detected, TracesExtractor.Detected, Fused, Events, Kept, CausalityOf,
         Calibrate, FirstOccurrences, IsFinalTimeline, Recommendations, IsOrdering, AreNeighbors, IsAnchorOf;
    var ms := MetricExtractor.Detected(signals.metrics, req.anomalyThreshold, setting.metricStdDev);
    var ls := LogsExtractor.Detected(setting.fold, signals.logs);
    var ts := TracesExtractor.Detected(signals.traces, setting.traceStdDev);
    var verdict := CausalityOf(setting, service, Kept(full), signals.graph);
    CandidatesDescribeAnomalies(service, ms, ls, ts);
    TopAnchorsAreTheBest(Candidates(service, ms, ls, ts));
    hide Candidates, TopAnchors;
    if ms != [] || ls != [] || ts != [] {
      FirstAnchorIsStrongestAnomaly(service, ms, ls, ts);
    }
    KeepsEachOnce([service] + req.affectedServices + neighbors + SuggestedServices(setting, service, verdict));
  }

  lemma FusedRange(ms: seq<MetricAnomaly>, ls: seq<LogAnomaly>, ts: seq<TraceAnomaly>)
    ensures 0.0 <= Fused(ms, ls, ts) <= 1.0
  {
    hide MaxOf;
  }

  /** The confidence of an analysis: what the anomalies amount to, less three tenths if no causal evidence
      can be had; otherwise six tenths of that, and four tenths of the mean mark of the edges that lead to
      the service. */
  lemma ConfidenceMeans(setting: Setting, req: Request, service: string, signals: Signals, full: seq<TimelineEvent>,
                        neighbors: seq<string>, shown: seq<ServiceGraphEdge>, result: CorrelationResult)
    requires KnowsDeviations(setting, signals)
    requires IsAnalysis(setting, req, service, signals, full, neighbors, shown, result)
    ensures var ms := MetricExtractor.Detected(signals.metrics, req.anomalyThreshold, setting.metricStdDev);
            var ls := LogsExtractor.Detected(setting.fold, signals.logs);
            var ts := TracesExtractor.Detected(signals.traces, setting.traceStdDev);
            var fused, leading := Fused(ms, ls, ts), Count(signals.graph, LeadsTo(setting.fold, service));
            result.confidence ==
            if !setting.causalityEnabled || service == "" || Kept(full) == [] || leading == 0 then 0.7 * fused
            else 0.6 * fused + 0.4 * (Marks(setting.fold, service, Kept(full), signals.graph) / leading as real)
  {
    hide MetricExtractor.Detected, LogsExtractor.Detected, TracesExtractor.Detected, Fused, Events, Kept, Result, Marks,
         FirstOccurrences, IsFinalTimeline, Recommendations, IsOrdering, AreNeighbors, Candidates, TopAnchors, Count,
         SuggestedServices, RootCause;
    var ms := MetricExtractor.Detected(signals.metrics, req.anomalyThreshold, setting.metricStdDev);
    var ls := LogsExtractor.Detected(setting.fold, signals.logs);
    var ts := TracesExtractor.Detected(signals.traces, setting.traceStdDev);
    FusedRange(ms, ls, ts);
    var fold, kept, graph := setting.fold, Kept(full), signals.graph;
    CountWhole(graph, LeadsTo(fold, service));
    ResultRange(fold, service, kept, graph);
    JudgedScore(fold, service, kept, graph);
  }

  lemma JudgedScore(fold: string -> string, service: string, kept: seq<TimelineEvent>, graph: seq<ServiceGraphEdge>)
    ensures var leading, score := Count(graph, LeadsTo(fold, service)), Result(fold, service, kept, graph).score;
            && (service == "" || kept == [] || leading == 0 ==> score == 0.0)
            && (!(service == "" || kept == [] || leading == 0) ==>
                  score == Marks(fold, service, kept, graph) / leading as real && 0.4 <= score <= 1.0)
  {
    if CanJudge(service, kept, graph) {
      ScoreIsMeanMark(fold, service, kept, graph);
      ScoreRange(fold, service, kept, graph);
      MarksAre(fold, service, kept, graph);
      hide Marks, Suggested, Notes, VerdictOf, Upstream, Supporting, Count;
    } else if graph == [] {
      assert Count(graph, LeadsTo(fold, service)) == 0;
    }
  }

  /** The time topology events are placed around: the service's first shown event, or the current time. */
  ghost predicate IsRootTime(setting: Setting, service: string, kept: seq<TimelineEvent>, time: Time) {
    if IsTimed(setting.fold, service, kept) then time != ZERO_TIME && IsEarliest(setting.fold, service, kept, time)
    else time == setting.now
  }

  lemma {:induction false} OthersChangeNoFirst(fold: string -> string, service: string, events: seq<TimelineEvent>, other: TimelineEvent)
    requires !Concerns(fold, other, service)
    ensures FirstTime(fold, service, events + [other]) == FirstTime(fold, service, events)
  {
    if events == [] {
      assert [other][1..] == [];
    } else {
      assert (events + [other])[1..] == events[1..] + [other];
      OthersChangeNoFirst(fold, service, events[1..], other);
    }
  }

  lemma RootTimeMeans(setting: Setting, service: string, kept: seq<TimelineEvent>, verdict: CausalityResult)
    requires IsChronological(kept)
    ensures forall time :: IsRootTime(setting, service, kept, time) <==>
              time == RootTimeOr(setting.fold, service, WithSuggestion(setting, service, kept, verdict), setting.now)
  {
    if Suggests(setting, service, verdict) {
      OthersChangeNoFirst(setting.fold, service, kept, SuggestedEvent(setting, service, kept, verdict.suggestedService));
    }
    TimedMeans(setting.fold, service, kept);
    var first := FirstTime(setting.fold, service, kept);
    if first != ZERO_TIME {
      PresentWhenTimed(setting.fold, service, kept);
      FirstIsEarliest(setting.fold, service, kept);
      forall time | IsEarliest(setting.fold, service, kept, time)
        ensures time == first
      {
        EarliestIsUnique(setting.fold, service, kept, time, first);
      }
    }
    hide IsEarliest, FirstTime, IsTimed, SortedBy;
  }

  /** Every shown edge has an event of the service at its other end, half a second before the root if the
      edge leads to it and half a second after it if not. */
  lemma TopologyIsShown(setting: Setting, service: string, graph: seq<ServiceGraphEdge>, full: seq<TimelineEvent>,
                        verdict: CausalityResult, shown: seq<ServiceGraphEdge>, final: seq<TimelineEvent>,
                        root: Time, edge: ServiceGraphEdge)
    requires IsChronological(full) && edge in shown && IsRootTime(setting, service, Kept(full), root)
    requires IsFinalTimeline(setting, service, graph, Kept(full), verdict, shown, final)
    ensures exists event <- final ::
              if edge.target == service then event.service == edge.source && event.time == root - 500_000_000
              else event.service == edge.target && event.time == root + 500_000_000
  {
    KeptIsChronological(full);
    RootTimeMeans(setting, service, Kept(full), verdict);
    hide IsRootTime, Kept, SortedBy, AreBusiest, WithSuggestion, RootTimeOr;
    var before := WithSuggestion(setting, service, Kept(full), verdict);
    var events := TopologyEvents(setting.percent, service, RootTimeOr(setting.fold, service, before, setting.now), shown);
    var i :| 0 <= i < |shown| && shown[i] == edge;
    assert events[i] in multiset(final);
  }

  /** A suggestion is shown half a second before the first shown event of the suggested service. */
  lemma SuggestionIsShown(setting: Setting, service: string, graph: seq<ServiceGraphEdge>, full: seq<TimelineEvent>,
                          verdict: CausalityResult, shown: seq<ServiceGraphEdge>, final: seq<TimelineEvent>, first: Time)
    requires IsChronological(full) && Suggests(setting, service, verdict)
    requires IsEarliest(setting.fold, verdict.suggestedService, Kept(full), first)
    requires IsFinalTimeline(setting, service, graph, Kept(full), verdict, shown, final)
    ensures exists event <- final :: event.service == verdict.suggestedService && event.time == first - 500_000_000
  {
    var kept, suggested := Kept(full), verdict.suggestedService;
    KeptIsChronological(full);
    FirstIsEarliest(setting.fold, suggested, kept);
    EarliestIsUnique(setting.fold, suggested, kept, first, FirstTime(setting.fold, suggested, kept));
    hide Kept, SortedBy, AreBusiest, FirstTime, TopologyEvents, RootTimeOr, IsEarliest;
    var before, event := WithSuggestion(setting, service, kept, verdict), SuggestedEvent(setting, service, kept, suggested);
    assert before == kept + [event];
    assert event in multiset(final);
  }

  /** The suggestion is placed half a second before the suggested service's first event, hence
      before the end of the timeline; or, if it has none, half a second before the zero time. */
  predicate SuggestionFitsAtTheEnd(setting: Setting, kept: seq<TimelineEvent>, suggested: string)
    requires kept != []
  {
    && FirstTime(setting.fold, suggested, kept) == ZERO_TIME
    && kept[|kept| - 1].time <= -HALF_SECOND
  }

  lemma SuggestionAtTheEnd(setting: Setting, service: string, kept: seq<TimelineEvent>, suggested: string)
    requires kept != [] && IsChronological(kept)
    ensures IsChronological(kept + [SuggestedEvent(setting, service, kept, suggested)]) <==>
            SuggestionFitsAtTheEnd(setting, kept, suggested)
  {
    var event, last, time := SuggestedEvent(setting, service, kept, suggested), kept[|kept| - 1],
                             FirstTime(setting.fold, suggested, kept);
    var longer := kept + [event];
    if time != ZERO_TIME {
      PresentWhenTimed(setting.fold, suggested, kept);
      FirstIsEarliest(setting.fold, suggested, kept);
      var first :| first in kept && first.time == time;
      var i :| 0 <= i < |kept| && kept[i] == first;
      assert i < |kept| - 1 ==> TimeKey(kept[i]) <= TimeKey(last);
      assert last.time > event.time;
    }
    if IsChronological(longer) {
      assert TimeKey(longer[|kept| - 1]) <= TimeKey(longer[|kept|]);
    }
    if SuggestionFitsAtTheEnd(setting, kept, suggested) {
      forall i, j | 0 <= i < j < |longer|
        ensures TimeKey(longer[i]) <= TimeKey(longer[j])
      {
        if j == |kept| {
          assert i < |kept| - 1 ==> TimeKey(kept[i]) <= TimeKey(last);
        }
      }
    }
  }

  /** The timeline that `Analyze` returns is chronological exactly when no suggestion was added, or
      an edge spells the service exactly (so that the timeline was sorted again), or every kept
      event lies before the zero time. */
  lemma TimelineIsChronologicalWhen(setting: Setting, service: string, graph: seq<ServiceGraphEdge>,
                                    full: seq<TimelineEvent>, verdict: CausalityResult,
                                    shown: seq<ServiceGraphEdge>, final: seq<TimelineEvent>)
    requires IsChronological(full) && verdict == CausalityOf(setting, service, Kept(full), graph)
    requires IsFinalTimeline(setting, service, graph, Kept(full), verdict, shown, final)
    ensures Suggests(setting, service, verdict) ==> Kept(full) != []
    ensures IsChronological(final) <==>
            || !Suggests(setting, service, verdict)
            || Related(service, graph) != []
            || SuggestionFitsAtTheEnd(setting, Kept(full), verdict.suggestedService)
  {
    hide SortedBy, TopologyEvents, AreBusiest, Result;
    var kept := Kept(full);
    KeptIsChronological(full);
    if Suggests(setting, service, verdict) {
      SuggestionNeedsTimeline(setting, service, kept, graph);
      SuggestionAtTheEnd(setting, service, kept, verdict.suggestedService);
    }
  }

  lemma KeptIsChronological(full: seq<TimelineEvent>)
    requires IsChronological(full)
    ensures IsChronological(Kept(full))
  {
  }

  lemma SuggestionNeedsTimeline(setting: Setting, service: string, timeline: seq<TimelineEvent>, graph: seq<ServiceGraphEdge>)
    requires CausalityOf(setting, service, timeline, graph).suggestedService != ""
    ensures CanJudge(service, timeline, graph)
  {
  }

  /** Every edge that leads to the service, up to case, spells it exactly. */
  ghost predicate SpellsExactly(setting: Setting, service: string, graph: seq<ServiceGraphEdge>) {
    forall edge <- graph :: EqualFold(setting.fold, edge.target, service) ==> edge.target == service
  }

  /** The related edges are those that spell the service exactly at one end. */
  lemma {:induction false} RelatedMeans(service: string, edges: seq<ServiceGraphEdge>)
    ensures forall edge :: edge in Related(service, edges) <==>
              edge in edges && (edge.source == service || edge.target == service)
  {
    if edges != [] {
      RelatedMeans(service, edges[..|edges| - 1]);
      assert edges == edges[..|edges| - 1] + [edges[|edges| - 1]];
    }
  }

  lemma {:induction false} RelatedContains(service: string, edges: seq<ServiceGraphEdge>, edge: ServiceGraphEdge)
    requires edge in edges && (edge.source == service || edge.target == service)
    ensures Related(service, edges) != []
  {
    if edges[|edges| - 1] != edge {
      assert edge in edges[..|edges| - 1];
      RelatedContains(service, edges[..|edges| - 1], edge);
    }
  }

  lemma SuggestionIsRelated(setting: Setting, service: string, timeline: seq<TimelineEvent>, graph: seq<ServiceGraphEdge>)
    requires CausalityOf(setting, service, timeline, graph).suggestedService != ""
    requires SeparatesEmpty(setting.fold) && SpellsExactly(setting, service, graph)
    ensures Related(service, graph) != []
  {
    hide Upstream, Notes, ScoreOf, FirstTime;
    SuggestionNeedsTimeline(setting, service, timeline, graph);
    SuggestionIsSupported(setting.fold, service, timeline, graph);
    var best := Suggested(setting.fold, service, timeline, graph);
    assert best in graph && EqualFold(setting.fold, best.target, service);
    RelatedContains(service, graph, best);
  }

  /** So with consistent spelling the returned timeline is always chronological. */
  lemma ExactSpellingKeepsOrder(setting: Setting, service: string, graph: seq<ServiceGraphEdge>,
                                full: seq<TimelineEvent>, verdict: CausalityResult,
                                shown: seq<ServiceGraphEdge>, final: seq<TimelineEvent>)
    requires IsChronological(full) && verdict == CausalityOf(setting, service, Kept(full), graph)
    requires IsFinalTimeline(setting, service, graph, Kept(full), verdict, shown, final)
    requires SeparatesEmpty(setting.fold) && SpellsExactly(setting, service, graph)
    ensures IsChronological(final)
  {
    TimelineIsChronologicalWhen(setting, service, graph, full, verdict, shown, final);
    hide IsFinalTimeline, SortedBy, Related, Result, SpellsExactly;
    if Suggests(setting, service, verdict) {
      SuggestionIsRelated(setting, service, Kept(full), graph);
    }
  }

  // Without it the order can break: an edge to "Pay", an investigation of "pay", and two failed spans.

  const MIXED_EDGE: ServiceGraphEdge := ServiceGraphEdge("db", "Pay", 1.0, 0.0)

  function FailedSpan(service: string, at: Time): TraceSpan {
    TraceSpan(service, "", 0, "error", at)
  }

  function MixedSignals(): Signals {
    Signals([MIXED_EDGE], [], [], [FailedSpan("db", 1), FailedSpan("pay", 2)])
  }

  /** The timeline of these signals. */
  function MixedEvents(): seq<TimelineEvent> {
    [TraceEvent(TraceAnomaly(FailedSpan("db", 1), 0.0, 0.0)), TraceEvent(TraceAnomaly(FailedSpan("pay", 2), 0.0, 0.0))]
  }

  predicate MixesSpelling(setting: Setting) {
    && setting.causalityEnabled
    && setting.fold("Pay") == setting.fold("pay") != setting.fold("db")
    && setting.traceStdDev == 0.0 && setting.metricStdDev >= 0.0
  }

  lemma MixedDetections()
    ensures var spans := MixedSignals().traces;
            && TracesExtractor.IsStdDev(spans, 0.0)
            && TracesExtractor.Detected(spans, 0.0)
               == [TraceAnomaly(FailedSpan("db", 1), 0.0, 0.0), TraceAnomaly(FailedSpan("pay", 2), 0.0, 0.0)]
  {
    var spans := MixedSignals().traces;
    var durations := TracesExtractor.Durations(spans);
    assert spans[..1] == [FailedSpan("db", 1)] && spans[..1][..0] == [];
    assert durations == [0.0, 0.0];
    assert [0.0, 0.0][..1] == [0.0] && [0.0][..0] == [];
    assert Statistics.Sum(durations) == 0.0;
    assert Statistics.Mean(durations) == 0.0;
    assert Statistics.SquaredDeviations([0.0], 0.0) == 0.0;
    assert Statistics.Variance(durations) == 0.0;
    assert TracesExtractor.Flagged(spans[..1], 0.0, 0.01) == [TraceAnomaly(FailedSpan("db", 1), 0.0, 0.0)];
  }

  /** The two events have different times, so there is one chronological order of them. */
  lemma MixedOrder(full: seq<TimelineEvent>)
    requires IsOrdering(full, MixedEvents())
    ensures full == MixedEvents()
  {
    var events := MixedEvents();
    SameMultisetSameLength(full, events);
    assert forall x :: x in multiset(events) <==> x == events[0] || x == events[1];
    assert events[0] in full && events[1] in full by {
      assert events[0] in multiset(full) && events[1] in multiset(full);
    }
    assert TimeKey(full[0]) <= TimeKey(full[1]);
  }

  lemma MixedVerdict(setting: Setting)
    requires MixesSpelling(setting)
    ensures CausalityOf(setting, "pay", MixedEvents(), [MIXED_EDGE]).suggestedService == "db"
    ensures FirstTime(setting.fold, "db", MixedEvents()) == 1
  {
    var events, fold, graph := MixedEvents(), setting.fold, [MIXED_EDGE];
    assert events[1..][1..] == [];
    assert FirstTime(fold, "pay", events) == 2 by {
      assert FirstTime(fold, "pay", events[1..]) == 2;
    }
    assert FirstTime(fold, "db", events) == 1;
    assert VerdictOf(fold, "pay", events, MIXED_EDGE) == Precedes;
    assert graph[..0] == [];
    assert Upstream(fold, "pay", events, graph) == 1;
    assert Suggested(fold, "pay", events, graph) == MIXED_EDGE;
  }

  lemma MixedGraph()
    ensures Related("pay", [MIXED_EDGE]) == []
    ensures AreNeighbors("pay", [MIXED_EDGE], [])
    ensures AreBusiest([], Related("pay", [MIXED_EDGE]))
  {
    assert [MIXED_EDGE][..0] == [];
  }

  lemma MixedEventsAre(setting: Setting, req: Request)
    requires MixesSpelling(setting)
    ensures KnowsDeviations(setting, MixedSignals())
    ensures var ms := MetricExtractor.Detected([], req.anomalyThreshold, setting.metricStdDev);
            var ls := LogsExtractor.Detected(setting.fold, []);
            Events(ms, ls, TracesExtractor.Detected(MixedSignals().traces, setting.traceStdDev)) == MixedEvents()
    ensures Kept(MixedEvents()) == MixedEvents() && IsOrdering(MixedEvents(), MixedEvents())
  {
    MixedDetections();
    hide TracesExtractor.Detected;
    var ts := TracesExtractor.Detected(MixedSignals().traces, 0.0);
    assert Events([], [], ts) == MixedEvents();
  }

  lemma MixedTimeline(setting: Setting, verdict: CausalityResult)
    requires MixesSpelling(setting) && verdict == CausalityOf(setting, "pay", MixedEvents(), [MIXED_EDGE])
    ensures var final := WithSuggestion(setting, "pay", MixedEvents(), verdict);
            IsFinalTimeline(setting, "pay", [MIXED_EDGE], MixedEvents(), verdict, [], final)
  {
    MixedGraph();
    hide MixedEvents, CausalityOf, Related, AreBusiest, RootTimeOr, WithSuggestion;
    var final := WithSuggestion(setting, "pay", MixedEvents(), verdict);
    var events := TopologyEvents(setting.percent, "pay", RootTimeOr(setting.fold, "pay", final, setting.now), []);
    assert events == [];
    assert multiset(final) == multiset(final) + multiset(events);
  }

  /** The analysis of these signals exists, whatever else is requested, */
  lemma MixedAnalysis(setting: Setting, req: Request) returns (result: CorrelationResult)
    requires MixesSpelling(setting)
    ensures KnowsDeviations(setting, MixedSignals())
    ensures IsAnalysis(setting, req, "pay", MixedSignals(), MixedEvents(), [], [], result)
  {
    hide MixedEvents, MetricExtractor.Detected, LogsExtractor.Detected, TracesExtractor.Detected, Candidates, TopAnchors,
         Fused, CausalityOf, Calibrate, FirstOccurrences, Related, AreNeighbors, AreBusiest, Recommendations, RootCause,
         FirstTime, IsFinalTimeline, Events, IsOrdering, Kept, WithSuggestion, KnowsDeviations;
    MixedEventsAre(setting, req);
    MixedGraph();
    var verdict := CausalityOf(setting, "pay", MixedEvents(), [MIXED_EDGE]);
    MixedTimeline(setting, verdict);
    var ms := MetricExtractor.Detected([], req.anomalyThreshold, setting.metricStdDev);
    var ls := LogsExtractor.Detected(setting.fold, []);
    var ts := TracesExtractor.Detected(MixedSignals().traces, setting.traceStdDev);
    var anchors := TopAnchors(Candidates("pay", ms, ls, ts));
    result := CorrelationResult(
      RootCause(setting, "pay", anchors, verdict), Calibrate(Fused(ms, ls, ts), verdict.score),
      FirstOccurrences(["pay"] + req.affectedServices + [] + SuggestedServices(setting, "pay", verdict)), anchors,
      WithSuggestion(setting, "pay", MixedEvents(), verdict),
      Recommendations(setting, EvidenceOf(setting, req, anchors, MixedEvents())), setting.now);
  }

  /** and every analysis of them returns a timeline that is out of order. */
  lemma MixedSpellingBreaksOrder(setting: Setting, req: Request)
    requires MixesSpelling(setting)
    ensures KnowsDeviations(setting, MixedSignals())
    ensures exists full, neighbors, shown, result ::
              IsAnalysis(setting, req, "pay", MixedSignals(), full, neighbors, shown, result)
    ensures forall full, neighbors, shown, result ::
              IsAnalysis(setting, req, "pay", MixedSignals(), full, neighbors, shown, result) ==>
              !IsChronological(result.timeline)
  {
    var some := MixedAnalysis(setting, req);
    hide IsAnalysis;
    forall full, neighbors, shown, result |
      IsAnalysis(setting, req, "pay", MixedSignals(), full, neighbors, shown, result)
      ensures !IsChronological(result.timeline)
    {
      EveryMixedAnalysisIsOutOfOrder(setting, req, full, neighbors, shown, result);
    }
  }

  lemma EveryMixedAnalysisIsOutOfOrder(setting: Setting, req: Request, full: seq<TimelineEvent>, neighbors: seq<string>,
                                       shown: seq<ServiceGraphEdge>, result: CorrelationResult)
    requires MixesSpelling(setting) && KnowsDeviations(setting, MixedSignals())
    requires IsAnalysis(setting, req, "pay", MixedSignals(), full, neighbors, shown, result)
    ensures !IsChronological(result.timeline)
  {
    hide MetricExtractor.Detected, LogsExtractor.Detected, TracesExtractor.Detected, Candidates, TopAnchors, Fused,
         CausalityOf, Calibrate, FirstOccurrences, Related, AreNeighbors, AreBusiest, Recommendations, RootCause,
         FirstTime, IsFinalTimeline, Events, Kept, WithSuggestion, KnowsDeviations, SortedBy;
    MixedEventsAre(setting, req);
    MixedOrder(full);
    MixedVerdict(setting);
    MixedGraph();
    var verdict := CausalityOf(setting, "pay", Kept(full), [MIXED_EDGE]);
    TimelineIsChronologicalWhen(setting, "pay", [MIXED_EDGE], full, verdict, shown, result.timeline);
  }
}
