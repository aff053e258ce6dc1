/** Log volume spikes against the median (internal/extractors/logs.go). */
module LogsExtractor {
  import opened Models
  import opened Reals
  import opened Sorting
  import opened Selection

  function Abs(x: real): real {
    if x < 0.0 then -x else x
  }

  /** `math.Round`: to the nearest integer, halves away from zero. */
  function Round(x: real): int {
    if x >= 0.0 then (x + 0.5).Floor else -((-x + 0.5).Floor)
  }

  /** Conversion of a float to an integer drops the fraction. */
  function Truncate(x: real): int {
    if x >= 0.0 then x.Floor else -((-x).Floor)
  }

  function Rank(n: nat, p: real): int {
    Round(p * (n - 1) as real)
  }

  function PercentileIndex(n: nat, p: real): (index: nat)
    requires n > 0
    ensures index < n
  {
    var index := Rank(n, p);
    if index < 0 then 0 else if index >= n then n - 1 else index
  }

  function PercentileOf(values: seq<real>, p: real): real
    requires values != []
  {
    StableSorted(values, Identity)[PercentileIndex(|values|, p)]
  }

  method Percentile(values: seq<real>, p: real) returns (result: real)
    ensures result == if values == [] then 0.0 else PercentileOf(values, p)
  {
    if values == [] {
      return 0.0;
    }
    var sorted := SortReals(values);
    hide Rank;
    var index := Rank(|sorted|, p);
    if index < 0 {
      index := 0;
    }
    if index >= |sorted| {
      index := |sorted| - 1;
    }
    result := sorted[index];
  }

  function AbsoluteDeviations(values: seq<real>, center: real): (sum: real)
    ensures sum >= 0.0
  {
    if values == [] then 0.0 else
      AbsoluteDeviations(values[..|values| - 1], center) + Abs(values[|values| - 1] - center)
  }

  method MeanAbsoluteDeviation(values: seq<real>, center: real) returns (result: real)
    ensures result == if values == [] then 0.0 else AbsoluteDeviations(values, center) / |values| as real
  {
    if values == [] {
      return 0.0;
    }
    var sum := 0.0;
    for i := 0 to |values|
      invariant sum == AbsoluteDeviations(values[..i], center)
    {
      assert values[..i + 1][..i] == values[..i];
      sum := sum + Abs(values[i] - center);
    }
    assert values[..|values|] == values;
    result := sum / |values| as real;
  }

  // ---------------------------------------------------------------- the median

  /** The value on or below (on or above, when `up` is false) the limit. */
  predicate OnSide(x: real, limit: real, up: bool) {
    if up then x <= limit else x >= limit
  }

  function CountOnSide(values: seq<real>, limit: real, up: bool): (count: nat)
    ensures count <= |values|
  {
    if values == [] then 0 else
      CountOnSide(values[..|values| - 1], limit, up) + if OnSide(values[|values| - 1], limit, up) then 1 else 0
  }

  lemma {:induction false} InsertCounts(x: real, s: seq<real>, limit: real, up: bool)
    ensures CountOnSide(Insert(x, s, Identity), limit, up) ==
            CountOnSide(s, limit, up) + if OnSide(x, limit, up) then 1 else 0
  {
    if s == [] || s[|s| - 1] <= x {
      assert (s + [x])[..|s|] == s;
    } else {
      var front := s[..|s| - 1];
      var inserted := Insert(x, front, Identity);
      InsertCounts(x, front, limit, up);
      assert (inserted + [s[|s| - 1]])[..|inserted|] == inserted;
    }
  }

  lemma {:induction false} SortingCounts(s: seq<real>, limit: real, up: bool)
    ensures CountOnSide(StableSorted(s, Identity), limit, up) == CountOnSide(s, limit, up)
  {
    if s != [] {
      SortingCounts(s[..|s| - 1], limit, up);
      InsertCounts(s[|s| - 1], StableSorted(s[..|s| - 1], Identity), limit, up);
    }
  }

  /** In a sorted sequence the first k + 1 values are on or below the k-th, and those from it on
      are on or above it. */
  lemma {:induction false} SortedSides(s: seq<real>, k: nat, end: nat)
    requires SortedBy(s, Identity) && k < |s| && end <= |s|
    ensures CountOnSide(s[..end], s[k], true) >= if end <= k then end else k + 1
    ensures CountOnSide(s[..end], s[k], false) >= end - k
  {
    if end > 0 {
      SortedSides(s, k, end - 1);
      assert s[..end][..end - 1] == s[..end - 1];
      assert end - 1 <= k ==> Identity(s[end - 1]) <= Identity(s[k]);
      assert end - 1 >= k ==> Identity(s[k]) <= Identity(s[end - 1]);
    }
  }

  lemma MiddleSides(s: seq<real>, k: nat)
    requires SortedBy(s, Identity) && k < |s|
    ensures CountOnSide(s, s[k], true) >= k + 1
    ensures CountOnSide(s, s[k], false) >= |s| - k
  {
    SortedSides(s, k, |s|);
    assert s[..|s|] == s;
  }

  lemma MiddleRank(n: nat)
    requires n > 0
    ensures PercentileIndex(n, 0.5) == n / 2
  {
    assert (0.5 * (n - 1) as real + 0.5).Floor == n / 2;
  }

  /** The 50th percentile is the upper median: the value of rank n / 2. */
  lemma PercentileIsUpperMedian(values: seq<real>)
    requires values != []
    ensures PercentileOf(values, 0.5) == StableSorted(values, Identity)[|values| / 2]
  {
    MiddleRank(|values|);
  }

  /** At least half of the values lie on each side of the median. */
  lemma MedianHalves(values: seq<real>, up: bool)
    requires values != []
    ensures 2 * CountOnSide(values, PercentileOf(values, 0.5), up) >= |values|
  {
    hide PercentileOf, StableSorted, CountOnSide;
    var sorted, k := StableSorted(values, Identity), |values| / 2;
    PercentileIsUpperMedian(values);
    StableSortedIsSorted(values, Identity);
    MiddleSides(sorted, k);
    SortingCounts(values, sorted[k], up);
  }

  /** Moving the centre from m to c gains the distance on one side and loses at most that on the
      other. */
  lemma {:induction false} MovingTheCenter(values: seq<real>, m: real, c: real)
    ensures var near := CountOnSide(values, m, c >= m);
            AbsoluteDeviations(values, c) >=
            AbsoluteDeviations(values, m) + Shares(near, Abs(c - m)) - Shares(|values| - near, Abs(c - m))
  {
    if values != [] {
      hide Shares;
      var front, last := values[..|values| - 1], values[|values| - 1];
      var near, nearFront := CountOnSide(values, m, c >= m), CountOnSide(front, m, c >= m);
      var onSide := OnSide(last, m, c >= m);
      MovingTheCenter(front, m, c);
      SharesStep(nearFront, near, onSide, Abs(c - m));
      SharesStep(|front| - nearFront, |values| - near, !onSide, Abs(c - m));
      assert Abs(last - c) >= Abs(last - m) + if onSide then Abs(c - m) else -Abs(c - m);
    }
  }

  lemma SharesMonotone(a: nat, b: nat, share: real)
    requires a <= b && share >= 0.0
    ensures Shares(a, share) <= Shares(b, share)
  {
    ProductNonNegative((b - a) as real, share);
    assert b as real == a as real + (b - a) as real;
    var x, y := a as real, (b - a) as real;
    assert (x + y) * share == x * share + y * share;
  }

  /** No centre has a smaller mean absolute deviation than the median. */
  lemma MedianMinimisesDeviation(values: seq<real>, c: real)
    requires values != []
    ensures AbsoluteDeviations(values, PercentileOf(values, 0.5)) <= AbsoluteDeviations(values, c)
  {
    hide PercentileOf, Shares;
    var m := PercentileOf(values, 0.5);
    var near := CountOnSide(values, m, c >= m);
    MedianHalves(values, c >= m);
    MovingTheCenter(values, m, c);
    SharesMonotone(|values| - near, near, Abs(c - m));
  }

  // ---------------------------------------------------------------- anomalies

  function Counts(entries: seq<LogEntry>): seq<real> {
    seq(|entries|, i requires 0 <= i < |entries| => entries[i].count as real)
  }

  /** The mean absolute deviation that scores are measured in; zero becomes 1. */
  function Unit(values: seq<real>, center: real): (unit: real)
    requires values != []
    ensures unit > 0.0
  {
    var mad := AbsoluteDeviations(values, center) / |values| as real;
    if mad == 0.0 then 1.0 else
      DivideCompare(AbsoluteDeviations(values, center), |values| as real, 0.0);
      mad
  }

  const SPIKE_SCORE: real := 3.0

  function DeviationScore(entry: LogEntry, median: real, unit: real): real
    requires unit > 0.0
  {
    Abs(entry.count as real - median) / unit
  }

  /** An entry of severity "error" whose count exceeds 1.3 medians, rounded towards zero. */
  predicate IsErrorSurge(fold: string -> string, entry: LogEntry, median: real) {
    EqualFold(fold, entry.severity, "error") && entry.count > Truncate(median * 1.3)
  }

  function AnomalyOf(fold: string -> string, entry: LogEntry, median: real, unit: real): seq<LogAnomaly>
    requires unit > 0.0
  {
    var score := DeviationScore(entry, median, unit);
    if score >= SPIKE_SCORE then [LogAnomaly(entry.timestamp, entry.severity, entry.count, score)]
    else if IsErrorSurge(fold, entry, median) then
      [LogAnomaly(entry.timestamp, entry.severity, entry.count, SPIKE_SCORE)]
    else []
  }

  function Flagged(fold: string -> string, entries: seq<LogEntry>, median: real, unit: real): seq<LogAnomaly>
    requires unit > 0.0
  {
    if entries == [] then [] else
      Flagged(fold, entries[..|entries| - 1], median, unit)
      + AnomalyOf(fold, entries[|entries| - 1], median, unit)
  }

  function Median(entries: seq<LogEntry>): real
    requires entries != []
  {
    PercentileOf(Counts(entries), 0.5)
  }

  function Detected(fold: string -> string, entries: seq<LogEntry>): seq<LogAnomaly> {
    if entries == [] then [] else
      Flagged(fold, entries, Median(entries), Unit(Counts(entries), Median(entries)))
  }

  method Detect(fold: string -> string, entries: seq<LogEntry>) returns (anomalies: seq<LogAnomaly>)
    ensures anomalies == Detected(fold, entries)
  {
    if entries == [] {
      return [];
    }
    var counts: seq<real> := [];
    for i := 0 to |entries|
      invariant counts == Counts(entries)[..i]
    {
      counts := counts + [entries[i].count as real];
    }
    assert counts == Counts(entries);
    var median := Percentile(counts, 0.5);
    var mad := MeanAbsoluteDeviation(counts, median);
    if mad == 0.0 {
      mad := 1.0;
    }
    assert mad == Unit(counts, median);
    assert median == Median(entries);
    hide Median, Counts, Unit, PercentileOf, AbsoluteDeviations, DeviationScore, IsErrorSurge;
    anomalies := [];
    for i := 0 to |entries|
      invariant anomalies == Flagged(fold, entries[..i], median, mad)
    {
      assert entries[..i + 1][..i] == entries[..i];
      var entry := entries[i];
      var score := DeviationScore(entry, median, mad);
      if score >= SPIKE_SCORE {
        anomalies := anomalies + [LogAnomaly(entry.timestamp, entry.severity, entry.count, score)];
      } else if IsErrorSurge(fold, entry, median) {
        anomalies := anomalies + [LogAnomaly(entry.timestamp, entry.severity, entry.count, SPIKE_SCORE)];
      }
    }
    assert entries[..|entries|] == entries;
  }

  lemma {:induction false} FlaggedScores(fold: string -> string, entries: seq<LogEntry>, median: real, unit: real)
    requires unit > 0.0
    ensures forall a <- Flagged(fold, entries, median, unit) :: a.score >= SPIKE_SCORE
  {
    if entries != [] {
      FlaggedScores(fold, entries[..|entries| - 1], median, unit);
    }
  }

  /** Whichever branch reports an entry, its score is at least 3. */
  lemma ScoresReachSpike(fold: string -> string, entries: seq<LogEntry>)
    ensures forall a <- Detected(fold, entries) :: a.score >= SPIKE_SCORE
  {
    if entries != [] {
      FlaggedScores(fold, entries, Median(entries), Unit(Counts(entries), Median(entries)));
    }
  }

  /** How many entries deviate from the median by at least three units. */
  function SpikeCount(entries: seq<LogEntry>, median: real, unit: real): nat
    requires unit > 0.0
  {
    if entries == [] then 0 else
      SpikeCount(entries[..|entries| - 1], median, unit)
      + if DeviationScore(entries[|entries| - 1], median, unit) >= SPIKE_SCORE then 1 else 0
  }

  lemma {:induction false} SpikesAddUp(entries: seq<LogEntry>, median: real, unit: real)
    requires unit > 0.0
    ensures Shares(SpikeCount(entries, median, unit), SPIKE_SCORE * unit) <= AbsoluteDeviations(Counts(entries), median)
  {
    if entries != [] {
      hide Shares;
      var front, last := entries[..|entries| - 1], entries[|entries| - 1];
      var spike := DeviationScore(last, median, unit) >= SPIKE_SCORE;
      assert Counts(entries)[..|front|] == Counts(front);
      SpikesAddUp(front, median, unit);
      SharesStep(SpikeCount(front, median, unit), SpikeCount(entries, median, unit), spike, SPIKE_SCORE * unit);
      DivideCompare(Abs(last.count as real - median), unit, SPIKE_SCORE);
    } else {
      assert Counts(entries) == [];
    }
  }

  /** At most one entry in three can be a spike by its deviation. */
  lemma SpikesAreRare(entries: seq<LogEntry>)
    requires entries != []
    ensures 3 * SpikeCount(entries, Median(entries), Unit(Counts(entries), Median(entries))) <= |entries|
  {
    var median, n := Median(entries), |entries|;
    var unit := Unit(Counts(entries), median);
    var total, k := AbsoluteDeviations(Counts(entries), median), SpikeCount(entries, median, unit);
    SpikesAddUp(entries, median, unit);
    SpikeBudget(total, n, unit, k);
  }

  lemma SpikeBudget(total: real, n: nat, unit: real, k: nat)
    requires n > 0 && unit > 0.0 && total >= 0.0
    requires unit == if total / n as real == 0.0 then 1.0 else total / n as real
    requires Shares(k, SPIKE_SCORE * unit) <= total
    ensures 3 * k <= n
  {
    var x, y := k as real, n as real;
    DivideBack(total, y);
    assert x * (3.0 * unit) == (3.0 * x) * unit;
    if total / y == 0.0 {
      assert total == 0.0 * y == 0.0;
    } else {
      ScaleMonotone(3.0 * x, y, unit);
      assert (3.0 * x) <= y;
    }
  }

  // ---------------------------------------------------------------- which entries are reported

  function TotalDistance(entries: seq<LogEntry>, m: real): real {
    if entries == [] then 0.0 else
      var c := entries[|entries| - 1].count as real;
      TotalDistance(entries[..|entries| - 1], m) + if c >= m then c - m else m - c
  }

  /** Far from the median m in either direction, said without a quotient: n times the distance is at
      least three times the sum of all distances. */
  predicate IsSpike(n: nat, total: real, m: real, count: int) {
    if total > 0.0 then n as real * (count as real - m) >= 3.0 * total || n as real * (m - count as real) >= 3.0 * total
    else count as real - m >= 3.0 || m - count as real >= 3.0
  }

  /** An error whose count exceeds 1.3 medians rounded towards zero. */
  predicate IsSurge(fold: string -> string, entry: LogEntry, m: real) {
    && EqualFold(fold, entry.severity, "error")
    && if m >= 0.0 then entry.count as real > 1.3 * m else entry.count as real >= 1.3 * m + 1.0
  }

  function IsReported(fold: string -> string, n: nat, total: real, m: real): LogEntry -> bool {
    (entry: LogEntry) => IsSpike(n, total, m, entry.count) || IsSurge(fold, entry, m)
  }

  /** `score` is the distance in mean distances. */
  predicate IsDeviationScore(n: nat, total: real, m: real, count: int, score: real) {
    var distance := if count as real >= m then count as real - m else m - count as real;
    if total > 0.0 then score * total == n as real * distance else score == distance
  }

  predicate Reports(anomaly: LogAnomaly, entry: LogEntry, n: nat, total: real, m: real) {
    && anomaly.timestamp == entry.timestamp && anomaly.severity == entry.severity && anomaly.count == entry.count
    && if IsSpike(n, total, m, entry.count) then IsDeviationScore(n, total, m, entry.count, anomaly.score)
       else anomaly.score == 3.0
  }

  lemma {:induction false} DistancesAddUp(entries: seq<LogEntry>, m: real)
    ensures AbsoluteDeviations(Counts(entries), m) == TotalDistance(entries, m)
  {
    if entries != [] {
      assert Counts(entries)[..|entries| - 1] == Counts(entries[..|entries| - 1]);
      DistancesAddUp(entries[..|entries| - 1], m);
    }
  }

  lemma SurgeMeans(fold: string -> string, entry: LogEntry, m: real)
    ensures IsErrorSurge(fold, entry, m) <==> IsSurge(fold, entry, m)
  {
  }

  /** score = d / (total / n). */
  lemma RelativeDistance(d: real, total: real, n: real, score: real)
    requires total > 0.0 && n > 0.0 && total / n > 0.0 && score == d / (total / n)
    ensures score * total == n * d
    ensures score >= 3.0 <==> n * d >= 3.0 * total
  {
    var unit := total / n;
    QuotientTimes(total, n, unit);
    DivideBack(d, unit);
    assert score * (n * unit) == n * (score * unit);
    ScaleMonotone(3.0, score, total);
  }

  lemma EitherDirection(c: real, m: real, n: real, total: real)
    requires n > 0.0 && total > 0.0
    ensures n * Abs(c - m) >= 3.0 * total <==> n * (c - m) >= 3.0 * total || n * (m - c) >= 3.0 * total
  {
    var up, down := n * (c - m), n * (m - c);
    assert down == -up;
    if c >= m {
      ProductNonNegative(n, c - m);
    } else {
      ProductNonNegative(n, m - c);
    }
  }

  lemma UnitIs(values: seq<real>, m: real)
    requires values != []
    ensures var total, n := AbsoluteDeviations(values, m), |values| as real;
            if total > 0.0 then Unit(values, m) == total / n && total / n > 0.0 else Unit(values, m) == 1.0
  {
    hide AbsoluteDeviations;
    DivideBack(AbsoluteDeviations(values, m), |values| as real);
  }

  lemma ScoreMeans(entry: LogEntry, values: seq<real>, m: real)
    requires values != []
    ensures var score := DeviationScore(entry, m, Unit(values, m));
            && IsDeviationScore(|values|, AbsoluteDeviations(values, m), m, entry.count, score)
            && (score >= SPIKE_SCORE <==> IsSpike(|values|, AbsoluteDeviations(values, m), m, entry.count))
  {
    hide AbsoluteDeviations, Unit;
    var total, n, c := AbsoluteDeviations(values, m), |values| as real, entry.count as real;
    UnitIs(values, m);
    var score := DeviationScore(entry, m, Unit(values, m));
    assert score == Abs(c - m) / Unit(values, m);
    hide DeviationScore;
    if total > 0.0 {
      RelativeDistance(Abs(c - m), total, n, score);
      EitherDirection(c, m, n, total);
    }
  }

  lemma {:induction false} FlaggedPicks(fold: string -> string, entries: seq<LogEntry>, values: seq<real>, m: real)
    returns (at: seq<nat>)
    requires values != []
    ensures var flagged := Flagged(fold, entries, m, Unit(values, m));
            && Picks(at, entries, IsReported(fold, |values|, AbsoluteDeviations(values, m), m)) && |at| == |flagged|
            && forall k :: 0 <= k < |at| ==> Reports(flagged[k], entries[at[k]], |values|, AbsoluteDeviations(values, m), m)
  {
    if entries == [] {
      at := [];
    } else {
      hide IsSpike, IsSurge, IsErrorSurge, IsDeviationScore, DeviationScore, Unit;
      var front, last := entries[..|entries| - 1], entries[|entries| - 1];
      var before := FlaggedPicks(fold, front, values, m);
      at := PickNext(before, entries, IsReported(fold, |values|, AbsoluteDeviations(values, m), m));
      ScoreMeans(last, values, m);
      SurgeMeans(fold, last, m);
    }
  }

  /** The anomalies are, in order, exactly the entries that spike in either direction, with their
      distance as score, and the remaining surges of errors, with score 3. */
  lemma DetectedEntriesSpikeOrSurge(fold: string -> string, entries: seq<LogEntry>) returns (at: seq<nat>)
    requires entries != []
    ensures var n, m, detected := |entries|, PercentileOf(Counts(entries), 0.5), Detected(fold, entries);
            && Picks(at, entries, IsReported(fold, n, TotalDistance(entries, m), m)) && |at| == |detected|
            && forall k :: 0 <= k < |at| ==> Reports(detected[k], entries[at[k]], n, TotalDistance(entries, m), m)
  {
    at := FlaggedPicks(fold, entries, Counts(entries), Median(entries));
    DistancesAddUp(entries, Median(entries));
  }

  // ---------------------------------------------------------------- any percentile

  lemma RankIsNear(n: nat, p: real)
    requires n > 0 && 0.0 <= p <= 1.0
    ensures var exact := p * (n - 1) as real;
            exact - 0.5 <= PercentileIndex(n, p) as real <= exact + 0.5
  {
    ProductNonNegative(p, (n - 1) as real);
    ScaleKeepsOrder(p, 1.0, (n - 1) as real);
  }

  /** For p between 0 and 1, at least p * (n - 1) + 1/2 values are no larger than the percentile, and at
      least n - p * (n - 1) - 1/2 no smaller. */
  lemma PercentileRank(values: seq<real>, p: real)
    requires values != [] && 0.0 <= p <= 1.0
    ensures var d, n, exact := PercentileOf(values, p), |values| as real, p * (|values| - 1) as real;
            && d in values
            && CountOnSide(values, d, true) as real >= exact + 0.5
            && CountOnSide(values, d, false) as real >= n - exact - 0.5
  {
    hide StableSorted, CountOnSide, PercentileIndex;
    var sorted, k := StableSorted(values, Identity), PercentileIndex(|values|, p);
    PercentileIsASample(values, p);
    StableSortedIsSorted(values, Identity);
    MiddleSides(sorted, k);
    SortingCounts(values, sorted[k], true);
    SortingCounts(values, sorted[k], false);
    RankIsNear(|values|, p);
  }

  // ---------------------------------------------------------------- a steady log

  predicate IsSteady(entries: seq<LogEntry>, count: int) {
    forall entry <- entries :: entry.count == count
  }

  lemma {:induction false} NoDeviation(values: seq<real>, c: real)
    requires forall i :: 0 <= i < |values| ==> values[i] == c
    ensures AbsoluteDeviations(values, c) == 0.0
  {
    if values != [] {
      NoDeviation(values[..|values| - 1], c);
    }
  }

  lemma PercentileIsASample(values: seq<real>, p: real)
    requires values != []
    ensures PercentileOf(values, p) in values
  {
    hide PercentileIndex;
    StableSortedPermutes(values, Identity);
    assert PercentileOf(values, p) in multiset(StableSorted(values, Identity));
  }

  lemma SteadyUnit(values: seq<real>, c: real)
    requires values != [] && forall i :: 0 <= i < |values| ==> values[i] == c
    ensures Unit(values, c) == 1.0
  {
    NoDeviation(values, c);
  }

  lemma SteadyMedian(entries: seq<LogEntry>, count: int)
    requires entries != [] && IsSteady(entries, count)
    ensures Median(entries) == count as real
    ensures Unit(Counts(entries), Median(entries)) == 1.0
  {
    hide PercentileOf, Unit;
    var values := Counts(entries);
    forall i | 0 <= i < |values|
      ensures values[i] == count as real
    {
      assert entries[i] in entries;
    }
    PercentileIsASample(values, 0.5);
    SteadyUnit(values, count as real);
  }

  /** 1.3 times a count, rounded towards zero, is below the count only from -4 down. */
  lemma SurgeOverItself(count: int)
    ensures count > Truncate(count as real * 1.3) <==> count <= -4
  {
  }

  lemma {:induction false} SteadyFlags(fold: string -> string, entries: seq<LogEntry>, count: int)
    requires IsSteady(entries, count)
    ensures Flagged(fold, entries, count as real, 1.0) != [] <==>
            count <= -4 && exists entry <- entries :: EqualFold(fold, entry.severity, "error")
  {
    if entries != [] {
      var front, last := entries[..|entries| - 1], entries[|entries| - 1];
      SteadyFlags(fold, front, count);
      SurgeOverItself(count);
      assert AnomalyOf(fold, last, count as real, 1.0) != [] <==>
             count <= -4 && EqualFold(fold, last.severity, "error");
      assert entries == front + [last];
    }
  }

  /** A log that never changes raises no alarm as long as its count is not below -3; that is, for
      every count a log can have. */
  lemma SteadyLogIsQuiet(fold: string -> string, entries: seq<LogEntry>, count: int)
    requires IsSteady(entries, count)
    ensures Detected(fold, entries) == [] <==>
            count > -4 || forall entry <- entries :: !EqualFold(fold, entry.severity, "error")
  {
    if entries != [] {
      SteadyMedian(entries, count);
      SteadyFlags(fold, entries, count);
    }
  }
}
