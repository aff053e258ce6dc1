/** The records that travel between the extractors, the engine and the repositories
    (internal/models, internal/repo/mirador_core.go:17-48). Floating-point numbers are exact reals. */
module Models {
  /** A `time.Time` as nanoseconds since the zero time, which is 0 itself. */
  type Time = int

  const ZERO_TIME: Time := 0
  const MILLISECOND: int := 1_000_000

  datatype MetricPoint = MetricPoint(timestamp: Time, value: real)

  datatype LogEntry = LogEntry(timestamp: Time, severity: string, count: int)

  datatype TraceSpan = TraceSpan(service: string, operation: string, duration: int, status: string, timestamp: Time)

  datatype ServiceGraphEdge = ServiceGraphEdge(source: string, target: string, callRate: real, errorRate: real)

  datatype MetricAnomaly = MetricAnomaly(timestamp: Time, value: real, score: real, threshold: real)

  datatype LogAnomaly = LogAnomaly(timestamp: Time, severity: string, count: int, score: real)

  datatype TraceAnomaly = TraceAnomaly(span: TraceSpan, score: real, mean: real)

  datatype DataType = Metrics | Logs | Traces

  datatype Severity = Low | Medium | High | Critical

  datatype RedAnchor = RedAnchor(service: string, selector: string, dataType: DataType, timestamp: Time,
                                 anomalyScore: real, threshold: real)

  datatype TimelineEvent = TimelineEvent(time: Time, event: string, service: string, severity: Severity,
                                         anomalyScore: real, dataSource: DataType)

  datatype CorrelationResult = CorrelationResult(rootCause: string, confidence: real, affectedServices: seq<string>,
                                                 redAnchors: seq<RedAnchor>, timeline: seq<TimelineEvent>,
                                                 recommendations: seq<string>, createdAt: Time)

  /** Case folding. `strings.EqualFold` is an equivalence relation on strings, and every such
      relation is "same image under some function". */
  predicate EqualFold(fold: string -> string, a: string, b: string) {
    fold(a) == fold(b)
  }

  /** Only the empty string equals the empty string up to case. */
  ghost predicate SeparatesEmpty(fold: string -> string) {
    forall s :: EqualFold(fold, s, "") ==> s == ""
  }
}
