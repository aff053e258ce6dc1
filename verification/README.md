# Verified model of the mirador-rca engine

mirador-rca takes the metrics, logs, traces and service graph of a time window, looks for anomalies, and reports a
root cause with a confidence, a timeline and recommendations. This project models the parts of it that compute or
keep state, in Dafny, and proves what they guarantee:

| files | part of the program |
|---|---|
| `Decimal`, `Resp`, `Valkey` | the hand-written Valkey client: RESP2 encoder and reader, and the retrying operations |
| `Reals`, `Selection`, `Statistics`, `MetricExtractor`, `TracesExtractor`, `LogsExtractor` | the anomaly detectors and the inequalities that bound what they can report |
| `Models`, `Sorting`, `Dedup`, `Counting`, `Anchors`, `Timeline`, `Causality`, `Confidence`, `Recommend`, `Pipeline` | the investigation pipeline |
| `CacheKeys`, `Caching`, `ServiceGraphCache`, `WeaviateCache`, `Pagination` | the read-through caches, their keys, and paging through the history |
| `Aggregates`, `Miner` | pattern mining over past investigations |
| `Latency` | the latency window and the log line it drives |

Objects the program updates in place are classes (`ValkeyConn`, `ValkeyProvider`, `MiradorCoreClient`, `WeaviateRepo`,
`ServiceAggregate`, `ServiceStats`, `LatencyTracker`, `RCAService`); its loops are loops, proved against functions that
say what they compute; the lemmas then say what those functions mean.

## How the outside world appears

- Floating-point numbers are exact reals. A standard deviation is a parameter: any non-negative number whose square is
  the variance computed by the method.
- Times are integers, with 0 for the zero time. Durations and lengths in the Valkey client keep their 64-bit width.
- A connection is the sequence of chunks the network will deliver. A run of a cache operation is fixed by the fate of
  each attempt (context done, dial failed, bootstrap failed, command lost, or executed with some prefix of the reply
  received); theorems hold for every choice of fates. The server executes the bytes it is sent.
- Case folding, lower-casing, the formatting of error rates, JSON, the backends and the clock are parameters. Go map
  order and the order of ties in an unstable sort are left open, so nothing proved depends on them; where a result is
  stated relative to such a choice, the choice is a ghost result (`full`, `neighbors`, `shown`).
- `withConn` receives a closure in the source. Here it receives the `Command` whose closure it would run.

## Where the code and its description differ

- `FetchServiceGraph` stores an empty edge list before it reports the empty graph as an error, so the first request
  fails and the next one succeeds (`EmptyGraphFailsOnlyOnce`). `ClientDiffersOnEmptyHit` says exactly when the cached
  client differs; the pipeline cannot tell (`CacheIsInvisibleToPipeline`).
- `Evaluate` matches service names up to case, `appendTopologyEvents` exactly, so the returned timeline can be out of
  order. `TimelineIsChronologicalWhen` gives the exact condition, `MixedSpellingBreaksOrder` an input.
- docs/rules.md line 24 describes the first matching rule; `Recommend` gives the recommendations of all matching rules.
  `FirstRuleOnlyWhenRestIsRedundant` says exactly when the two agree.
- The p95 line appears "every 20 samples" by window length, not by the number of investigations: after 1020
  investigations it never appears again (`LogFallsSilent`).
- `backoff` doubles a 64-bit duration; from the 40th attempt on it wraps around, and the doubling holds exactly up
  to there (`SleepTotal`).
- `SetNX` can report "not stored" for a value that the same call stored (`SetNXMayDenyItsOwnWrite`).
- `calibrateConfidence` is not monotone in its second argument; it is on the scores `Evaluate` can give.
- The edge suggested by `Evaluate` depends on the order of the edges, although its score does not.
  `SuggestionIsStableWhenDominant` says exactly when it does not.
- `Mine` counts a correlation twice that lists a service twice, so prevalence can exceed 1. `PrevalenceIsAFraction` says
  exactly when it is the fraction of correlations that affect the service; for results of `Analyze` it always is.
- The miner takes the template of a trace operation such as "login" for one of logs, because it looks for "log" first.
  `SignalTypeOfAnchors` says exactly when.
- Cache keys join tenant names with colons. `SimilarKeysAreSharedWhen` and `PatternKeysAreSharedWhen` say exactly which
  tenants can ask under the same key, `CacheIsInvisible` and `CacheShowsUnlessApart` that the Weaviate caches are
  invisible exactly when no two tenants can.

## Model

| member | source | states |
|---|---|---|
| Decimal.AtoiItoa | internal/repo/weaviate_repo.go:320-330 | `strconv.Atoi` returns every 64-bit integer that `strconv.Itoa` wrote |
| Decimal.ItoaInjective | internal/repo/mirador_core.go:273-275 | two integers of any size have the same decimal text exactly when they are equal |
| Decimal.ItoaCharacters | internal/repo/mirador_core.go:273-275 | decimal text never contains a separator |
| Resp.BulkRoundTrip | internal/cache/valkey.go:319-330 | a bulk part of arbitrary bytes, CR and LF included, is read back unchanged and exactly its own frame is consumed |
| Resp.ReplyRoundTrip | internal/cache/valkey.go:333-377 | every reply a server can send is read back unchanged, leaving exactly what follows its frame |
| Resp.ErrorRoundTrip | internal/cache/valkey.go:345-350 | an error reply is read as an error with that message |
| Resp.CutReplyIsNoReply | internal/cache/valkey.go:333-402 | no proper prefix of a reply is ever taken for a reply: the reader runs out of bytes |
| Resp.LineReplyWasFramed | internal/cache/valkey.go:341-353 | whatever is read as a simple string, an integer or an error stood in the stream as that prefix, that text and a line end, followed by exactly what is left |
| Resp.BulkWasFramed | internal/cache/valkey.go:354-373 | whatever is read as a bulk string had its own length in front of it and CR LF behind it, followed by exactly what is left; nil had the length -1 |
| Resp.FramesRoundTrip | internal/cache/valkey.go:319-330 | a concatenation of bulk frames decodes to the parts, in order, each once |
| Resp.CommandRoundTrip | internal/cache/valkey.go:312-331 | a server reading an encoded command gets exactly its parts and the bytes after it |
| Resp.CommandsSelfDelimiting | internal/cache/valkey.go:312-331 | two streams that start with commands are equal exactly when commands and remainders are: commands never run into each other |
| Resp.ValkeyConn.WriteCommand | internal/cache/valkey.go:297-302 | appends the frame of the command and its arguments to the output |
| Resp.ValkeyConn.Write | internal/cache/valkey.go:312-331 | the loop over the parts appends exactly the command frame |
| Resp.ValkeyConn.WritePart | internal/cache/valkey.go:319-329 | one round of that loop appends one bulk frame |
| Resp.ValkeyConn.ReadLine | internal/cache/valkey.go:379-387 | returns the bytes before the first LF without one trailing CR and consumes them and the LF, however the stream is cut |
| Resp.ValkeyConn.ReadFull | internal/cache/valkey.go:461-471 | fills the buffer with the next `size` bytes across any number of short or empty reads, or uses up a stream that is too short |
| Resp.ValkeyConn.ExpectCrlf | internal/cache/valkey.go:389-402 | consumes two bytes and accepts them exactly when they are CR LF |
| Resp.ValkeyConn.ReadReply | internal/cache/valkey.go:333-377 | what is read and what is left depend only on the bytes of the stream, not on its division into chunks |
| Resp.ValkeyConn.ReadBulk | internal/cache/valkey.go:354-373 | the same for the bulk branch, with bad lengths, the null length, short bodies and bad terminators |
| Valkey.ExecuteEffect | internal/cache/valkey.go:79-143 | executing the parts each operation sends has the operation's effect on the store, including the refusal of sub-millisecond expiries |
| Valkey.WireAttempt | internal/cache/valkey.go:53-143 | through encoder, server, truncated reply and reader, the client learns exactly the abstract answer if the whole reply arrives and the link's error if any byte is missing |
| Valkey.ExpiryIsSentInMilliseconds | internal/cache/valkey.go:82-85 | a server that reads the command finds the time to live in whole milliseconds, rounded down |
| Valkey.AcceptedReplies | internal/cache/valkey.go:65-141 | for any reply at all: which ones each operation takes for success, and with what value; a miss is reported for nil only |
| Valkey.RunIsUnique | internal/cache/valkey.go:164-208 | the fates and the store determine how many attempts are made |
| Valkey.RunStopsAtFirstFinalResult | internal/cache/valkey.go:170-206 | only the last attempt can succeed; a run that fails was out of attempts, cancelled, or met an error that is not retryable |
| Valkey.OnlyPassingErrorsAreRetried | internal/cache/valkey.go:443-451 | every attempt before the last found its context alive and failed with a timeout or a temporary network error, and a run that ends in such an error without being cancelled made all its attempts |
| Valkey.SetMeans | internal/cache/valkey.go:79-100 | over every run, `Set` returning nil leaves the key mapped to the value however often it was replayed, and any outcome leaves either the old store or that one |
| Valkey.SetNXMeans | internal/cache/valkey.go:103-132 | over every run: if it returns without error, "stored" is reported exactly when the key was absent before the call and no earlier attempt reached the server; the last attempt did, and the key holds the old value or the new one accordingly; every run, failed ones included, leaves the old store or adds the absent key |
| Valkey.SetNXMayDenyItsOwnWrite | internal/cache/valkey.go:103-132 | a run in which "not stored" is reported although this very call stored the value |
| Valkey.GetMeans | internal/cache/valkey.go:53-76 | `Get` changes nothing; a payload is the stored value, a miss means absence, and one of the two is reported exactly when the last reply arrived in full |
| Valkey.DelMeans | internal/cache/valkey.go:135-143 | `Del` returning nil means the key is gone; any outcome leaves the old store or the store without the key |
| Valkey.SetThenGet | internal/cache/valkey.go:53-100 | after a successful `Set`, every run of `Get` returns that value or a network error, never a miss or another value |
| Valkey.BackoffIsExact | internal/cache/valkey.go:443-446 | before attempt 39 the delay is 25 ms times a power of two, without wrap-around |
| Valkey.BackoffWraps | internal/cache/valkey.go:443-446 | at attempt 39 the 64-bit delay is negative |
| Valkey.SleepTotal | internal/cache/valkey.go:443-446 | a run of k attempts sleeps 25 ms * (2^(k-1) - 1) in total exactly when k <= 40 |
| Valkey.ValkeyProvider.Attempt | internal/cache/valkey.go:174-200 | one attempt over a real connection has the abstract result and effect, and closes the connection exactly if it opened one |
| Valkey.ValkeyProvider.WithConn | internal/cache/valkey.go:164-208 | makes the attempts of a run and no more, at most max(1, MaxRetries); returns the last attempt's result; closes as many connections as it opens; sleeps between attempts only; never reaches the statement after the loop |
| Valkey.ValkeyProvider.Get | internal/cache/valkey.go:53-76 | a payload is the stored value and a miss means absence, whatever the network does |
| Valkey.ValkeyProvider.Set | internal/cache/valkey.go:79-100 | success means the key is set and nothing else changed |
| Valkey.ValkeyProvider.SetNX | internal/cache/valkey.go:103-132 | "stored" means the key was absent before the call; success means the key is taken, by the new value only if it was absent; any outcome, errors included, leaves the old store or adds the absent key |
| Valkey.ValkeyProvider.Del | internal/cache/valkey.go:135-143 | success means the key is gone and nothing else changed |
| Statistics.Cantelli | internal/extractors/metrics.go:36-53 | of n samples at most n / (1 + t^2) score t or more, also with the 0.01 fallback (one-sided Chebyshev inequality) |
| MetricExtractor.Detect | internal/extractors/metrics.go:27-66 | the accumulation and filter loops report exactly the points that score at least the effective threshold against mean and standard deviation, in order |
| Statistics.ScoreMeans | internal/extractors/metrics.go:52-53 | the computed score is the distance from the mean in standard deviations, and reaches t exactly when n * (x - mean)^2 >= t^2 * (sum of squared deviations) above the mean |
| MetricExtractor.DetectedPointsStandOut | internal/extractors/metrics.go:27-66 | in terms of the samples: the anomalies are, in order, exactly the points that stand out at the threshold (2.5 by default), each with its own time, value, score and threshold |
| MetricExtractor.AnomaliesAreRare | internal/extractors/metrics.go:27-66 | k anomalies at effective threshold t satisfy k * (1 + t^2) <= n |
| MetricExtractor.DefaultNeedsEightSamples | internal/extractors/metrics.go:32-34 | at the default threshold fewer than eight samples never raise an anomaly |
| MetricExtractor.EightSamplesSuffice | internal/extractors/metrics.go:32-34 | the bound is sharp: eight samples can raise one |
| MetricExtractor.ScoresReachThreshold | internal/extractors/metrics.go:52-62 | every anomaly scores at least the effective threshold and carries it |
| TracesExtractor.MeanOf | internal/extractors/traces.go:58-64 | the loop computes the arithmetic mean |
| TracesExtractor.VarianceOf | internal/extractors/traces.go:66-74 | the loop computes the mean squared deviation from the given centre |
| TracesExtractor.Detect | internal/extractors/traces.go:27-56 | reports exactly the spans that score 2 or more or have status "error", in order |
| TracesExtractor.DetectedSpansAreSlowOrFailed | internal/extractors/traces.go:27-56 | in terms of the spans: the anomalies are, in order, exactly those that failed or lie two standard deviations above the mean, each with its score and with the mean in seconds |
| TracesExtractor.SlowSpansAreRare | internal/extractors/traces.go:43-53 | at most one span in five is slow |
| TracesExtractor.ReportedSpans | internal/extractors/traces.go:43-53 | only slow or failed spans are reported, and every failed one is |
| LogsExtractor.Percentile | internal/extractors/logs.go:67-81 | sorts a copy and picks the value at the rounded, clamped rank |
| LogsExtractor.MeanAbsoluteDeviation | internal/extractors/logs.go:83-92 | the loop computes the mean distance from the centre, 0 for no values |
| LogsExtractor.PercentileIsUpperMedian | internal/extractors/logs.go:39-39 | the 50th percentile is the value of rank n / 2 |
| LogsExtractor.PercentileRank | internal/extractors/logs.go:67-81 | for every p in [0, 1], at least p * (n - 1) + 1/2 values are no larger and n - p * (n - 1) - 1/2 no smaller |
| LogsExtractor.MedianHalves | internal/extractors/logs.go:67-81 | at least half of the values lie on each side of it |
| LogsExtractor.MedianMinimisesDeviation | internal/extractors/logs.go:39-40 | no centre has a smaller absolute deviation |
| LogsExtractor.Detect | internal/extractors/logs.go:29-65 | reports exactly the spikes and error surges, in order, each with its score |
| LogsExtractor.DetectedEntriesSpikeOrSurge | internal/extractors/logs.go:29-65 | in terms of the counts: the anomalies are, in order, exactly the entries with n * distance from the median at least three times the sum of distances, in either direction and scored by it, and of the rest the errors above 1.3 medians rounded towards zero, scored 3 |
| LogsExtractor.ScoresReachSpike | internal/extractors/logs.go:46-63 | either branch reports a score of at least 3 |
| LogsExtractor.SpikesAreRare | internal/extractors/logs.go:39-53 | at most one entry in three deviates by three units or more |
| LogsExtractor.SteadyLogIsQuiet | internal/extractors/logs.go:39-62 | a log with constant counts raises nothing exactly when the count is above -4 or no entry has severity "error"; hence never for real counts |
| Sorting.StableSortIsUnique | internal/engine/pipeline.go:256-258 | being sorted and keeping ties in order determine the result, so the model's stable sort is the library's |
| Sorting.SortedPermutationIsUnique | internal/extractors/logs.go:71-72 | a sort whose ties cannot be told apart has one result, so sorting numbers or durations is deterministic |
| Sorting.CutSeparates | internal/engine/pipeline.go:260-262 | cutting off a sorted list loses nothing and puts no larger key before a smaller one |
| Dedup.UniqueStrings | internal/engine/pipeline.go:509-523 | the loop with its `seen` map keeps the first occurrence of every non-empty string |
| Dedup.AppendUnique | internal/engine/recommend.go:124-140 | appends every addition that is neither empty nor present |
| Dedup.KeepsEachOnce | internal/engine/pipeline.go:509-523 | exactly the non-empty members are kept, none twice |
| Dedup.KeepsOrder | internal/engine/pipeline.go:509-523 | kept strings stay in order of first appearance |
| Dedup.AppendedIsUnique | internal/engine/recommend.go:79-79 | appending without duplicates to a deduplicated list deduplicates the concatenation |
| Dedup.UniqueTwice | internal/engine/pipeline.go:176-180 | nested deduplication equals one deduplication |
| Anchors.BuildAnchors | internal/engine/pipeline.go:220-265 | one candidate per anomaly in metric, log, trace order, stably sorted by descending score, cut at five |
| Anchors.TopAnchorsAreTheBest | internal/engine/pipeline.go:256-262 | min(5, n) candidates are kept, in descending order, and no dropped one scores higher than a kept one |
| Anchors.TopAnchorsKeepTieOrder | internal/engine/pipeline.go:256-262 | candidates of equal score keep their order and the earlier ones are kept |
| Anchors.CandidatesDescribeAnomalies | internal/engine/pipeline.go:220-254 | every anomaly has one candidate with its own time, service, selector, score and threshold (3 for logs, 2 for traces), in metric, log, trace order |
| Anchors.RootCauseIsStrongest | internal/engine/pipeline.go:394-399 | the root cause names the first of the kept anchors, which has the maximum score of all candidates |
| Anchors.FirstAnchorIsStrongestAnomaly | internal/engine/pipeline.go:220-265 | over the anomalies: the first anchor scores at least every metric, log and trace anomaly and describes one of them |
| Anchors.AnchorsReachTheirThresholds | internal/engine/pipeline.go:220-254 | on detector output every anchor scores at least its threshold, except anchors for failed spans |
| Timeline.BuildTimeline | internal/engine/pipeline.go:267-316 | the first ten of a chronological permutation of all anomaly events |
| Timeline.EventsShowAnomalies | internal/engine/pipeline.go:270-305 | every anomaly has one event with its own time, service and score; severity is medium from 2, high from 3, critical from 4, and high for failed spans |
| Timeline.LogEventsAreHigh | internal/engine/pipeline.go:281-290 | no event for a reported log anomaly is below high severity |
| Timeline.FirstEventTime | internal/engine/causality.go:97-113 | the search loop returns the time of the service's first listed event, or the zero time |
| Timeline.FirstIsEarliest | internal/engine/causality.go:106-113 | on a chronological list that is the service's earliest event |
| Timeline.EarliestSurvivesTruncation | internal/engine/pipeline.go:307-313 | a first event seen on the cut timeline is the earliest over all anomalies |
| Causality.Evaluate | internal/engine/causality.go:33-91 | the loop's counters, notes and suggestion are those of the edges' verdicts, and the result follows from them |
| Causality.ScoreRange | internal/engine/causality.go:75-86 | the score is 0 exactly when no edge leads to the root, else in [0.4, 1], and 1 exactly when every such edge supports the cause |
| Causality.ScoreIsMeanMark | internal/engine/causality.go:75-86 | the score is the mean, over the edges that lead to the root, of 1 for each supporting edge and 0.4 for each other; 0.4 if none supports |
| Causality.ScoreIgnoresEdgeOrder | internal/engine/causality.go:48-86 | the score is invariant under permuting the edges |
| Causality.SuggestionDependsOnEdgeOrder | internal/engine/causality.go:55-69 | two edges whose order decides which is suggested |
| Causality.SuggestionIsSupported | internal/engine/causality.go:55-69 | something is suggested exactly when some edge supports the cause, and it is such an edge |
| Causality.SuggestionHasHighestRate | internal/engine/causality.go:55-69 | among edges that support in the same way the suggested one is the first with the highest call rate (preceding) or error rate (silent but failing) |
| Causality.SuggestionIsStableWhenDominant | internal/engine/causality.go:55-69 | a supporting edge is suggested in every order of the edges exactly when it beats every other supporting edge, listed before or after it |
| Causality.NothingPrecedesTheStart | internal/engine/causality.go:39-42 | when the root has no event, falling back to the start of the timeline makes a "precedes" verdict impossible |
| Causality.PrecedesIsSoundAndComplete | internal/engine/causality.go:39-73 | on the ten-event timeline an edge is judged "precedes" exactly when, over all anomalies, the source's earliest event is strictly before the root's and the root is shown |
| Causality.SupportMeans | internal/engine/causality.go:49-73 | an edge supports the cause exactly when it leads to the root and its source really precedes it over all anomalies, or shows no timed event but has errors |
| Confidence.MaxScore | internal/engine/pipeline.go:410-438 | the loop computes the largest score, at least zero |
| Confidence.ComputeConfidence | internal/engine/pipeline.go:318-335 | fuses the three kinds of anomalies, capped at 1 |
| Confidence.PartsAddUp | internal/engine/pipeline.go:318-335 | the kinds contribute independently, up to a total of 1 |
| Confidence.MetricPart | internal/engine/pipeline.go:321-323 | metrics contribute a quarter and an eighth of the best score, the latter up to a quarter |
| Confidence.LogPart | internal/engine/pipeline.go:324-326 | logs contribute a quarter and a sixth of the best score, the latter up to a fifth |
| Confidence.TraceShare | internal/engine/pipeline.go:327-329 | traces contribute a quarter and a sixth of the best score, the latter from zero up to a fifth |
| Confidence.ConfidenceOfDetections | internal/engine/pipeline.go:318-335 | on detector output with effective threshold at least 2: metrics add exactly 0.5, logs 0.45, traces 0.25 to 0.45 and 0.45 if a span is slow; all three give 1 |
| Confidence.MetricPartAtLowThreshold | internal/engine/pipeline.go:321-323 | below threshold 2 the metric part lies between 0.25 plus an eighth of the threshold and 0.5 |
| Confidence.CalibrationGain | internal/engine/pipeline.go:525-531 | the result is in [0, 1], and a causality score does not lower it exactly when it is at most 0 or at least a quarter of the base |
| Confidence.CalibrationIsWeighted | internal/engine/pipeline.go:525-531 | the result lies between confidence and causality score; having a score gains 0.4 of it less a tenth of the confidence, having none costs three tenths |
| Confidence.SmallScoresLowerConfidence | internal/engine/pipeline.go:525-531 | a small positive score lowers the confidence |
| Confidence.ResultRange | internal/engine/causality.go:33-91 | whatever it is given, `Evaluate` scores 0 or at least 0.4 and at most 1 |
| Confidence.EvidenceNeverLowersConfidence | internal/engine/pipeline.go:525-531 | on the scores `Evaluate` gives, more causal evidence never lowers the final confidence |
| Recommend.CheckService | internal/engine/recommend.go:83-95 | true exactly when the service names an affected service or an anchor's, up to case |
| Recommend.CheckSeverity | internal/engine/recommend.go:97-107 | true exactly when no severity is asked for or some event has it |
| Recommend.CheckAnchors | internal/engine/recommend.go:109-122 | true exactly when no keyword is asked for or some anchor's selector contains a non-empty one |
| Recommend.Recommend | internal/engine/recommend.go:62-81 | the deduplicated concatenation over all matching rules, in rule order |
| Recommend.GivesAllMatches | internal/engine/recommend.go:66-80 | a text is recommended exactly when it is non-empty and some matching rule has it |
| Recommend.RecommendedMeans | internal/engine/recommend.go:62-122 | in terms of the evidence: a text is recommended exactly when it is non-empty and belongs to a rule whose service, severity and keywords, as far as given, are all found |
| Recommend.FirstRuleOnlyWhenRestIsRedundant | docs/rules.md:24-24 | the first-rule reading agrees with the code exactly when no matching rule adds anything to the first one's texts |
| Pipeline.DetermineService | internal/engine/pipeline.go:107-116 | never empty; the first non-empty affected service, else the first symptom, else a default |
| Pipeline.NeighborServices | internal/engine/pipeline.go:440-455 | exactly the other ends of edges that spell the service exactly, each once |
| Pipeline.AppendTopologyEvents | internal/engine/pipeline.go:457-507 | adds one event for each of the (at most two) busiest related edges, half a second before or after the root, loses nothing, and sorts exactly when there are such edges |
| Pipeline.FetchRecommendations | internal/engine/pipeline.go:347-379 | the first similar incident's, else the rules', else the defaults: never none |
| Pipeline.RecommendationsInOrder | internal/engine/pipeline.go:347-379 | the first similar incident's recommendations if any; else exactly the texts of the rules that are met, if any; else the two defaults |
| Pipeline.ListAffected | internal/engine/pipeline.go:176-180 | the nested deduplications equal one deduplication of service, request, neighbours and suggestion |
| Pipeline.FinishTimeline | internal/engine/pipeline.go:179-193 | the returned timeline is a permutation of the kept events, at most one suggestion and the topology events |
| Pipeline.Analyze | internal/engine/pipeline.go:152-208 | anchors, confidence, root cause, affected services, recommendations and timeline of the result, each in terms of the signals |
| Pipeline.AnalysisPromises | internal/engine/pipeline.go:152-208 | any result of `Analyze`: confidence in [0, 1], at most five anchors and thirteen events, the service first among affected services without duplicates and with every neighbour, recommendations for the requested services and the shown anomalies, and a chronological timeline when spelling is exact |
| Pipeline.ConfidenceMeans | internal/engine/pipeline.go:160-199 | any result of `Analyze`: 0.7 of what the anomalies amount to without causal evidence, else 0.6 of it and 0.4 of the mean mark of the edges that lead to the service |
| Pipeline.RootCauseMeans | internal/engine/pipeline.go:161-181 | any result of `Analyze`: the root cause is the suggested other service, which is then among the affected ones; else the anchor of the strongest anomaly; else that there is none |
| Pipeline.RelatedMeans | internal/engine/pipeline.go:461-466 | the related edges are those that spell the service exactly at one end |
| Pipeline.TopologyIsShown | internal/engine/pipeline.go:477-502 | every shown edge has an event of the service at its other end, half a second before the service's first event (or the current time) for upstream edges and after it for others |
| Pipeline.SuggestionIsShown | internal/engine/pipeline.go:182-190 | a suggestion has an event half a second before the suggested service's first shown event |
| Pipeline.AffectedServicesAreComplete | internal/engine/pipeline.go:176-180 | the service comes first; the rest are exactly the non-empty requested services, neighbours and suggestion; none twice |
| Pipeline.TimelineIsShort | internal/engine/pipeline.go:179-193 | exactly min(10, n) anomalies, one event more for a suggestion and one for each of up to two related edges: at most 13 in all |
| Pipeline.TimelineIsChronologicalWhen | internal/engine/pipeline.go:179-193 | the returned timeline is chronological exactly when nothing was suggested, or an edge spells the service exactly, or all kept events lie before the zero time and the suggested service has none |
| Pipeline.ExactSpellingKeepsOrder | internal/engine/pipeline.go:457-507 | chronological whenever edges that lead to the service up to case spell it exactly |
| Pipeline.MixedSpellingBreaksOrder | internal/engine/causality.go:48-50 | two failed spans and an edge with mixed spelling, for which an analysis exists and every analysis returns a timeline out of order |
| CacheKeys.GraphKeyIsInjective | internal/repo/mirador_core.go:273-275 | for arbitrary tenant strings, keys are equal exactly when the tenants are and both times fall in the same whole seconds |
| CacheKeys.SameKeySameRequest | internal/repo/mirador_core.go:233-237 | equal keys mean the same request payload |
| CacheKeys.SameRequestSameKey | internal/repo/mirador_core.go:233-237 | and, with a format that tells seconds apart, exactly then |
| CacheKeys.SortForgetsOrder | internal/repo/weaviate_repo.go:205-206 | sorted symptoms are equal exactly when the symptoms are permutations of each other |
| CacheKeys.JoinTellsPieces | internal/repo/weaviate_repo.go:305-308 | for all lists of symptoms, joined texts are equal exactly when cutting every symptom at its bars gives the same pieces, where no symptom counts as one empty one |
| CacheKeys.SimilarKeyIsExact | internal/repo/weaviate_repo.go:205-207 | for one tenant, or two that share no keys, keys are equal exactly when tenant, limit and the pieces of the sorted symptoms agree; without bars and empty lists, when the symptoms are permutations |
| CacheKeys.SimilarKeyMeans | internal/repo/weaviate_repo.go:305-308 | for all tenants, limits and symptoms: keys are equal exactly when tenant, limit and joined symptoms are, or one tenant's name continues the other's by a limit and the rest of the key was taken for symptoms |
| CacheKeys.SimilarKeysAreSharedWhen | internal/repo/weaviate_repo.go:305-308 | two tenants can ask under one key exactly when they are the same or one name, with a colon, begins with the other, a colon, a number and a colon |
| CacheKeys.PatternKeyMeans | internal/repo/weaviate_repo.go:624-626 | for all tenants and services: keys are equal exactly when both are, or one tenant's name continues the other's and the service makes up the difference |
| CacheKeys.PatternKeysAreSharedWhen | internal/repo/weaviate_repo.go:624-626 | two tenants can ask under one key exactly when they are the same or one name begins with the other and a colon |
| CacheKeys.PatternKeyIsExact | internal/repo/weaviate_repo.go:624-626 | for one tenant, or two that share no keys, keys are equal exactly when tenant and service are |
| CacheKeys.SharingNeedsAColon | internal/repo/weaviate_repo.go:305-308 | tenants that share keys of either kind are nested, so different names without colons never do |
| CacheKeys.TenantsWithColonsCollide | internal/repo/weaviate_repo.go:305-308 | a collision of two nested tenants for either kind of key |
| CacheKeys.SymptomsWithBarsCollide | internal/repo/weaviate_repo.go:305-308 | a collision of a symptom with a bar and its two pieces |
| CacheKeys.NoSymptomsCollide | internal/repo/weaviate_repo.go:305-308 | a collision of no symptom and one empty symptom |
| CacheKeys.KindsDoNotClash | internal/repo/mirador_core.go:273-275 | keys of different kinds are never equal |
| ServiceGraphCache.MiradorCoreClient.FetchServiceGraph | internal/repo/mirador_core.go:214-271 | result and cache after a call, with and without a time to live, including the empty list stored before the error |
| ServiceGraphCache.MiradorCoreClient.FetchGraphSignal | internal/engine/pipeline.go:125-130 | the graph handed to the pipeline: no edges when the call fails |
| ServiceGraphCache.FetchKeepsFaith | internal/repo/mirador_core.go:222-271 | a call keeps every decodable entry equal to the backend's answer |
| ServiceGraphCache.DisturbanceKeepsFaith | internal/repo/mirador_core.go:222-231 | so do lost entries, undecodable entries and entries of others |
| ServiceGraphCache.PipelineSeesSameGraph | internal/engine/pipeline.go:125-130 | one call hands on the same graph with and without the cache |
| ServiceGraphCache.StoredGraphIsServed | internal/repo/mirador_core.go:222-266 | a graph that was fetched and stored is served again whatever the backend answers later |
| ServiceGraphCache.ClientDiffersOnEmptyHit | internal/repo/mirador_core.go:262-269 | the client's result differs from the uncached one exactly when it hits a stored empty graph |
| ServiceGraphCache.EmptyGraphFailsOnlyOnce | internal/repo/mirador_core.go:262-269 | the first request for an empty graph fails, the second succeeds with no edges |
| ServiceGraphCache.CacheIsInvisibleToPipeline | internal/engine/pipeline.go:125-130 | in every run of calls, losses, damage and foreign writes the pipeline sees the graphs it would see without a cache |
| ServiceGraphCache.FreshCacheIsInvisible | internal/engine/pipeline.go:125-130 | the same from an empty cache, with no assumption on its contents |
| WeaviateCache.WeaviateRepo.Ask | internal/repo/weaviate_repo.go:194-303 | records and cache after a call, in every combination of endpoint, time to live, cache and backend outcome |
| WeaviateCache.WeaviateRepo.SimilarIncidents | internal/repo/weaviate_repo.go:194-303 | that, for similar incidents, in the same combinations |
| WeaviateCache.WeaviateRepo.FetchPatterns | internal/repo/weaviate_repo.go:482-622 | that, for patterns, in the same combinations |
| WeaviateCache.LookUpKeepsGenuine | internal/repo/weaviate_repo.go:279-300 | no call stores a synthetic or an empty answer |
| WeaviateCache.CacheStaysGenuine | internal/repo/weaviate_repo.go:203-300 | after every run, each decodable entry is a non-empty real backend answer to a query with that key |
| WeaviateCache.ApartMeansNoSharedKeys | internal/repo/weaviate_repo.go:305-308 | a set of tenants never shares keys between two of them exactly when no two names are nested |
| WeaviateCache.NoColonsAreApart | internal/repo/weaviate_repo.go:305-308 | names without colons are never nested |
| WeaviateCache.SameKeySameAnswer | internal/repo/weaviate_repo.go:305-308 | among tenants of which no two are nested, queries with one key have one answer |
| WeaviateCache.LookUpAnswers | internal/repo/weaviate_repo.go:203-300 | among such tenants a hit or a reachable backend gives the backend's answer, otherwise synthetic records are given |
| WeaviateCache.StoredRecordsAreServed | internal/repo/weaviate_repo.go:203-300 | records that were found and stored are served again whatever the backend answers later |
| WeaviateCache.CacheIsInvisible | internal/repo/weaviate_repo.go:203-300 | among such tenants, in every world and after every run, a call that reaches the backend cannot tell whether there is a cache |
| WeaviateCache.CacheShowsUnlessApart | internal/repo/weaviate_repo.go:203-300 | the condition is exact: in a world whose records name their tenant the cache is invisible if and only if no two tenants are nested |
| WeaviateCache.SharedKeysMixAnswers | internal/repo/weaviate_repo.go:208-212 | of two queries with one key, the second is served the answer to the first |
| WeaviateCache.ColonsMixTenants | internal/repo/weaviate_repo.go:624-626 | for instance, one tenant is served the patterns of another |
| Pagination.ListCorrelations | internal/repo/weaviate_repo.go:311-479 | page and next token for a normalised page size and a parsed token |
| Pagination.TokenRoundTrip | internal/repo/weaviate_repo.go:320-330 | the token written for an offset is never empty and is read back as that offset |
| Pagination.BadTokensStartOver | internal/repo/weaviate_repo.go:324-330 | negative offsets and tokens that are not numbers mean the beginning |
| Pagination.PageContinues | internal/repo/weaviate_repo.go:470-478 | a page extends what was read so far, and there is no next token exactly when the page is short, which means that everything was read |
| Pagination.FollowTokens | internal/repo/weaviate_repo.go:470-478 | following tokens, with page sizes changing at will, terminates and yields the whole history, each record once and in order |
| Aggregates.ServiceAggregate.Book | internal/patterns/miner.go:43-68 | the field updates of one aggregate follow the specification of one update |
| Aggregates.ServiceStats.EnsureAggregate | internal/patterns/miner.go:118-131 | finds the aggregate of a service, or adds an empty one that no other service shares |
| Aggregates.ServiceStats.Book | internal/patterns/miner.go:38-69 | one update changes the aggregate of its service and no other |
| Aggregates.BookKeeping | internal/patterns/miner.go:38-69 | the specification of the same: one more update changes one service's state only |
| Miner.BookCorrelation | internal/patterns/miner.go:39-69 | the three inner loops book the correlation's updates, in order |
| Miner.BookHistory | internal/patterns/miner.go:38-69 | the one-pass loop leaves every service with the fold of all its updates |
| Miner.TopSelectors | internal/patterns/miner.go:133-145 | at most three distinct selectors in descending order of count, none dropped with a higher count than one kept |
| Miner.BuildPattern | internal/patterns/miner.go:76-98 | the pattern of a service from its aggregate |
| Miner.PatternsOf | internal/patterns/miner.go:71-100 | one pattern for each service with a positive total, none for others |
| Miner.Mine | internal/patterns/miner.go:33-108 | the mined patterns describe the history and are sorted by prevalence; none for no history |
| Miner.MinedMeaning | internal/patterns/miner.go:33-108 | in terms of the history alone: one pattern for exactly the services it names as affected, prevalence the times named over the correlations, descending, last seen at the latest mention |
| Miner.MinedTemplates | internal/patterns/miner.go:87-97 | in terms of the history: at most three templates per pattern, for the selectors that the most anchors name, and for every named selector if there are fewer than three; each threshold is the mean of the contributing scores, hence within any bounds on them |
| Miner.AverageIsMean | internal/patterns/miner.go:88-89 | the one-pass quotient is the sum of all contributing scores over their number |
| Miner.SignalTypeOfAnchors | internal/patterns/miner.go:147-156 | the inferred signal type of an anchor is its own, except that a trace anchor whose operation contains "log" is taken for logs |
| Miner.NamesAreAsListed | internal/patterns/miner.go:118-121 | a service counts under its own name, an empty one as "unknown", nothing under the empty name |
| Miner.CountersAgree | internal/patterns/miner.go:40-69 | `count` and `totalCorrelations` both equal the number of times the correlations name the service |
| Miner.SelectorsAreCounted | internal/patterns/miner.go:48-56 | the count of a selector is the number of anchors on the service that name it |
| Miner.LastSeenMeaning | internal/patterns/miner.go:43-60 | `lastSeen` is the latest time of a correlation that mentions the service |
| Miner.ThresholdIsBetweenScores | internal/patterns/miner.go:87-97 | the template threshold lies between any bounds on the contributing scores |
| Miner.TimesAffectedAreCorrelations | internal/patterns/miner.go:40-46 | a service is named at least as often as correlations affect it, and exactly as often if and only if no correlation names that service twice |
| Miner.PrevalenceIsAFraction | internal/patterns/miner.go:81-81 | a mined prevalence is at least the fraction, in (0, 1], of correlations that affect the service, and equal to it if and only if no correlation names that service twice |
| Miner.AnalysedServicesDiffer | internal/engine/pipeline.go:176-204 | no result of `Analyze` names a service twice |
| Miner.PrevalenceMayExceedOne | internal/patterns/miner.go:40-46 | a history of one correlation that lists a service twice, for which the mined prevalence is 2 |
| Latency.LatencyTracker.constructor | internal/utils/latency.go:17-22 | an empty window of the given size, or 512 if that is not positive |
| Latency.LatencyTracker.Observe | internal/utils/latency.go:25-35 | after any observations the window holds exactly the last min(n, maxSize) of them, in order |
| Latency.WindowHoldsLatest | internal/utils/latency.go:25-35 | the i-th sample from the back of the window is the i-th latest observation, for up to maxSize of them |
| Latency.LatencyTracker.Count | internal/utils/latency.go:66-70 | the number of observations up to the window's size |
| Latency.LatencyTracker.Min | internal/utils/latency.go:72-83 | the least sample held, 0 for none |
| Latency.LatencyTracker.Max | internal/utils/latency.go:85-96 | the greatest sample held, 0 for none |
| Latency.LatencyTracker.Percentile | internal/utils/latency.go:38-63 | all branches pick the sample of the percentile's rank in the sorted window |
| Latency.PercentileWasObserved | internal/utils/latency.go:38-63 | a percentile is one of the samples |
| Latency.PercentileIsMonotone | internal/utils/latency.go:38-63 | a higher percentile is never lower, across the minimum, interior and maximum branches |
| Latency.PercentileRank | internal/utils/latency.go:52-62 | at least index + 1 samples are no larger and n - index no smaller |
| Latency.PercentileMeans | internal/utils/latency.go:52-62 | for 0 < p < 100, more than p percent of n - 1 samples are no larger than the result, and at least n less that many no smaller |
| Latency.PercentileAtTheEnds | internal/utils/latency.go:44-51 | at or below 0 it is the least sample, at or above 100 the greatest |
| Latency.RCAService.RecordInvestigation | internal/services/rca_service.go:77-82 | logs the 95th percentile of the last observations exactly at the modelled counts |
| Latency.LogFallsSilent | internal/services/rca_service.go:79-79 | with a window of 1024 the n-th investigation is logged exactly when n is a positive multiple of 20 not above 1020 |
| Latency.FullWindowLogsAlwaysOrNever | internal/services/rca_service.go:79-79 | once a window is full, the line appears always or never, by its size alone |

## Left out

- Recommend.CheckAnchors: takes lower-casing as an arbitrary function, because Unicode case mapping is not modelled.
- Valkey.SetMeans: does not model key expiry or other writers between the attempts of one call.
- Resp.ValkeyConn.ReadBulk: does not model allocation failure for an enormous announced length; a negative length other than -1 is an explicit `Panicked` outcome.
- CacheKeys.SameKeySameRequest: times are in UTC; in other zones the formatted request also depends on the zone.
- Miner.Mine: does not model handing the patterns to the store, whose failure the source only logs.
- Pipeline.Analyze: correlation and incident identifiers are copied or random and are not part of the result.
- Latency.LatencyTracker.Observe: every method is one atomic step, because locking is not modelled.
- HTTP, gRPC, TLS, dialling, deadlines, metrics, logging and signal handling.
- The AUTH and SELECT exchange on a new connection, beyond its success or failure.
- IEEE rounding, infinities and NaN.
- Protobuf conversion and request handlers, which copy fields.
- Configuration, YAML rule files, GraphQL query text and JSON layouts.
- The content of synthetic records and synthetic series.
- The remaining fetches of mirador-core (metrics, logs, traces), which have no cache and no logic.
- Storing patterns and correlations, and the tenant, service and time filters of the backend queries.
- The argument checks on a nil client or an empty base URL, which fail before anything modelled happens.
