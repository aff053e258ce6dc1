/** The bounded window of investigation latencies (internal/utils/latency.go) and the periodic p95
    log line that is driven by it (internal/services/rca_service.go). */
module Latency {
  import opened Options
  import opened Reals
  import opened Sorting
  import opened Counting

  /** The last `size` elements, oldest first. */
  function LastOf(history: seq<int>, size: nat): seq<int> {
    if |history| <= size then history else history[|history| - size..]
  }

  function AsReal(d: int): real {
    d as real
  }

  function Sorted(samples: seq<int>): (r: seq<int>)
    ensures |r| == |samples|
  {
    StableSorted(samples, AsReal)
  }

  /** Conversion of a float to an integer drops the fraction. */
  function Truncate(x: real): int {
    if x >= 0.0 then x.Floor else -((-x).Floor)
  }

  /** Where the p-th percentile lies between 0 and n - 1. */
  function Position(n: nat, p: real): real {
    var span := (n - 1) as real;
    p / 100.0 * span
  }

  function Rank(n: nat, p: real): int {
    Truncate(Position(n, p))
  }

  /** The rank of the p-th percentile among n samples, kept within bounds. */
  function Index(n: nat, p: real): (index: nat)
    requires n > 0
    ensures index < n
  {
    if p <= 0.0 then 0
    else if p >= 100.0 then n - 1
    else
      var index := Rank(n, p);
      if index < 0 then 0 else if index >= n then n - 1 else index
  }

  function PercentileOf(samples: seq<int>, p: real): int {
    if samples == [] then 0 else Sorted(samples)[Index(|samples|, p)]
  }

  /** Equal durations cannot be told apart, so every sort gives the same result. */
  method SortDurations(samples: seq<int>) returns (sorted: seq<int>)
    ensures sorted == Sorted(samples)
  {
    sorted := SortSlice(samples, AsReal);
    StableSortedIsSorted(samples, AsReal);
    StableSortedPermutes(samples, AsReal);
    SortedPermutationIsUnique(sorted, Sorted(samples), AsReal);
  }

  class LatencyTracker {
    var samples: seq<int>
    const maxSize: nat
    ghost var history: seq<int>

    /** The window holds the latest observations in order, and as many of them as fit. */
    ghost predicate Valid()
      reads this
    {
      maxSize > 0 && samples == LastOf(history, maxSize)
    }

    constructor (maxSize: int)
      ensures Valid() && history == []
      ensures this.maxSize == if maxSize <= 0 then 512 else maxSize
    {
      this.maxSize := if maxSize <= 0 then 512 else maxSize;
      samples, history := [], [];
    }

    method Observe(d: int)
      requires Valid()
      modifies this
      ensures Valid() && history == old(history) + [d]
    {
      history := history + [d];
      samples := samples + [d];
      if |samples| > maxSize {
        samples := samples[1..] + [samples[|samples| - 1]];
        samples := samples[..maxSize];
      }
    }

    method Count() returns (count: nat)
      requires Valid()
      ensures count == if |history| < maxSize then |history| else maxSize
    {
      count := |samples|;
    }

    method Min() returns (min: int)
      ensures samples == [] ==> min == 0
      ensures samples != [] ==> min in samples && forall s <- samples :: min <= s
    {
      if samples == [] {
        return 0;
      }
      min := samples[0];
      for i := 1 to |samples|
        invariant min in samples && forall j :: 0 <= j < i ==> min <= samples[j]
      {
        if samples[i] < min {
          min := samples[i];
        }
      }
    }

    method Max() returns (max: int)
      ensures samples == [] ==> max == 0
      ensures samples != [] ==> max in samples && forall s <- samples :: s <= max
    {
      if samples == [] {
        return 0;
      }
      max := samples[0];
      for i := 1 to |samples|
        invariant max in samples && forall j :: 0 <= j < i ==> samples[j] <= max
      {
        if samples[i] > max {
          max := samples[i];
        }
      }
    }

    method Percentile(p: real) returns (d: int)
      ensures d == PercentileOf(samples, p)
    {
      if samples == [] {
        return 0;
      }
      if p <= 0.0 {
        d := Min();
        ExtremesAreEnds(samples, d, true);
        return;
      }
      if p >= 100.0 {
        d := Max();
        ExtremesAreEnds(samples, d, false);
        return;
      }
      hide Rank, Sorted;
      var sorted := SortDurations(samples);
      var index := Rank(|sorted|, p);
      if index < 0 {
        index := 0;
      }
      if index >= |sorted| {
        index := |sorted| - 1;
      }
      d := sorted[index];
    }
  }

  /** The window is the end of the history, in order: its i-th sample from the back is the i-th latest
      observation. */
  lemma WindowHoldsLatest(history: seq<int>, size: nat, i: nat)
    ensures |LastOf(history, size)| == if |history| < size then |history| else size
    ensures i < |LastOf(history, size)| ==>
              LastOf(history, size)[|LastOf(history, size)| - 1 - i] == history[|history| - 1 - i]
  {
  }

  lemma SortedFacts(samples: seq<int>)
    ensures SortedBy(Sorted(samples), AsReal) && multiset(Sorted(samples)) == multiset(samples)
    ensures forall d :: d in Sorted(samples) <==> d in samples
    ensures forall i, j :: 0 <= i <= j < |samples| ==> Sorted(samples)[i] <= Sorted(samples)[j]
  {
    var sorted := Sorted(samples);
    StableSortedIsSorted(samples, AsReal);
    StableSortedPermutes(samples, AsReal);
    assert forall d :: d in sorted <==> d in multiset(sorted);
    forall i, j | 0 <= i <= j < |samples|
      ensures sorted[i] <= sorted[j]
    {
      assert i < j ==> AsReal(sorted[i]) <= AsReal(sorted[j]);
    }
  }

  lemma ExtremesAreEnds(samples: seq<int>, d: int, least: bool)
    requires d in samples && forall s <- samples :: if least then d <= s else s <= d
    ensures d == Sorted(samples)[if least then 0 else |samples| - 1]
  {
    SortedFacts(samples);
    hide Sorted;
    var sorted, end := Sorted(samples), if least then 0 else |samples| - 1;
    assert d in sorted && sorted[end] in samples;
    var i :| 0 <= i < |sorted| && sorted[i] == d;
  }

  /** What is reported was observed. */
  lemma PercentileWasObserved(samples: seq<int>, p: real)
    requires samples != []
    ensures PercentileOf(samples, p) in samples
  {
    SortedFacts(samples);
    hide Sorted;
    assert Sorted(samples)[Index(|samples|, p)] in Sorted(samples);
  }

  lemma TruncateIsMonotone(x: real, y: real)
    requires x <= y
    ensures Truncate(x) <= Truncate(y)
  {
  }

  lemma PositionIsMonotone(n: nat, p: real, q: real)
    requires n > 0 && p <= q
    ensures Position(n, p) <= Position(n, q)
  {
    var span := (n - 1) as real;
    ScaleKeepsOrder(p / 100.0, q / 100.0, span);
  }

  lemma RankIsMonotone(n: nat, p: real, q: real)
    requires n > 0 && p <= q
    ensures Rank(n, p) <= Rank(n, q)
  {
    hide Truncate, Position;
    PositionIsMonotone(n, p, q);
    TruncateIsMonotone(Position(n, p), Position(n, q));
  }

  lemma IndexIsMonotone(n: nat, p: real, q: real)
    requires n > 0 && p <= q
    ensures Index(n, p) <= Index(n, q)
  {
    hide Rank;
    RankIsMonotone(n, p, q);
  }

  /** A higher percentile is never lower, across all three branches. */
  lemma PercentileIsMonotone(samples: seq<int>, p: real, q: real)
    requires p <= q
    ensures PercentileOf(samples, p) <= PercentileOf(samples, q)
  {
    if samples != [] {
      SortedFacts(samples);
      IndexIsMonotone(|samples|, p, q);
    }
  }

  function AtMost(limit: int): int -> bool {
    d => d <= limit
  }

  function AtLeast(limit: int): int -> bool {
    d => d >= limit
  }

  lemma CountPart(s: seq<int>, from: nat, to: nat, test: int -> bool)
    requires from <= to <= |s| && forall i :: from <= i < to ==> test(s[i])
    ensures Count(s, test) >= to - from
  {
    hide Count;
    assert s == s[..from] + (s[from..to] + s[to..]);
    CountConcat(s[..from], s[from..to] + s[to..], test);
    CountConcat(s[from..to], s[to..], test);
    CountWhole(s[from..to], test);
  }

  lemma SortedRank(sorted: seq<int>, index: nat)
    requires index < |sorted| && forall i, j :: 0 <= i <= j < |sorted| ==> sorted[i] <= sorted[j]
    ensures Count(sorted, AtMost(sorted[index])) >= index + 1
    ensures Count(sorted, AtLeast(sorted[index])) >= |sorted| - index
  {
    hide Count;
    CountPart(sorted, 0, index + 1, AtMost(sorted[index]));
    CountPart(sorted, index, |sorted|, AtLeast(sorted[index]));
  }

  /** At least index + 1 samples are no larger than the percentile and at least n - index no
      smaller. */
  lemma PercentileRank(samples: seq<int>, p: real)
    requires samples != []
    ensures var d, index := PercentileOf(samples, p), Index(|samples|, p);
            Count(samples, AtMost(d)) >= index + 1 && Count(samples, AtLeast(d)) >= |samples| - index
  {
    SortedFacts(samples);
    hide Sorted, Index, Count, SortedBy, AtMost, AtLeast;
    var sorted, index := Sorted(samples), Index(|samples|, p);
    SortedRank(sorted, index);
    CountOfPermutation(sorted, samples, AtMost(sorted[index]));
    CountOfPermutation(sorted, samples, AtLeast(sorted[index]));
  }

  lemma IndexIsNear(n: nat, p: real)
    requires n > 0 && 0.0 < p < 100.0
    ensures var exact := p / 100.0 * (n - 1) as real;
            Index(n, p) as real <= exact < Index(n, p) as real + 1.0
  {
    ProductNonNegative(p / 100.0, (n - 1) as real);
    ScaleKeepsOrder(p / 100.0, 1.0, (n - 1) as real);
  }

  /** What a percentile means for the samples: for 0 < p < 100, more than p percent of n - 1 samples are
      no larger, and at least n less that many are no smaller. */
  lemma PercentileMeans(samples: seq<int>, p: real)
    requires samples != [] && 0.0 < p < 100.0
    ensures var d, n := PercentileOf(samples, p), |samples|;
            && Count(samples, AtMost(d)) as real > p / 100.0 * (n - 1) as real
            && Count(samples, AtLeast(d)) as real >= n as real - p / 100.0 * (n - 1) as real
  {
    hide Index, Count, PercentileOf, AtMost, AtLeast;
    PercentileRank(samples, p);
    IndexIsNear(|samples|, p);
    var d, n, index := PercentileOf(samples, p), |samples|, Index(|samples|, p);
    CloseEnough(Count(samples, AtMost(d)), Count(samples, AtLeast(d)), n, index, p / 100.0 * (n - 1) as real);
  }

  lemma CloseEnough(below: nat, above: nat, n: nat, index: nat, exact: real)
    requires index as real <= exact < index as real + 1.0
    requires below >= index + 1 && above >= n - index
    ensures below as real > exact && above as real >= n as real - exact
  {
  }

  /** At or beyond the ends, the percentile is the smallest or the largest sample. */
  lemma PercentileAtTheEnds(samples: seq<int>, p: real)
    requires samples != [] && (p <= 0.0 || p >= 100.0)
    ensures var d := PercentileOf(samples, p);
            d in samples && forall s <- samples :: if p <= 0.0 then d <= s else s <= d
  {
    PercentileWasObserved(samples, p);
    SortedFacts(samples);
    hide Sorted;
    var sorted, d := Sorted(samples), PercentileOf(samples, p);
    forall s | s in samples
      ensures if p <= 0.0 then d <= s else s <= d
    {
      assert s in sorted;
      var i :| 0 <= i < |sorted| && sorted[i] == s;
    }
  }

  // ---------------------------------------------------------------- the p95 log line

  const WINDOW: nat := 1024

  /** Whether investigation number n is logged by a service whose window holds `size` samples. */
  predicate LogsAt(n: nat, size: nat) {
    var count := if n < size then n else size;
    count >= 20 && count % 20 == 0
  }

  class RCAService {
    const latencies: LatencyTracker

    constructor ()
      ensures latencies.Valid() && latencies.history == [] && latencies.maxSize == WINDOW
      ensures fresh(latencies)
    {
      latencies := new LatencyTracker(1024);
    }

    /** The end of a successful investigation. */
    method RecordInvestigation(duration: int) returns (logged: Option<int>)
      requires latencies.Valid()
      modifies latencies
      ensures latencies.Valid() && latencies.history == old(latencies.history) + [duration]
      ensures logged == if LogsAt(|latencies.history|, latencies.maxSize) then
                          Some(PercentileOf(LastOf(latencies.history, latencies.maxSize), 95.0))
                        else None
    {
      latencies.Observe(duration);
      var count := latencies.Count();
      logged := None;
      if count >= 20 && count % 20 == 0 {
        var p95 := latencies.Percentile(95.0);
        logged := Some(p95);
      }
    }
  }

  /** "Every 20 samples" holds only until the window is full: with 1024 samples the line appears at
      20, 40, ..., 1020 and then never again. */
  lemma LogFallsSilent(n: nat)
    ensures LogsAt(n, WINDOW) <==> n > 0 && n % 20 == 0 && n <= 1020
  {
  }

  /** Once the window is full the line appears after every investigation or after none, depending
      only on the window's size. */
  lemma FullWindowLogsAlwaysOrNever(n: nat, size: nat)
    requires n >= size
    ensures LogsAt(n, size) <==> size > 0 && size % 20 == 0
  {
  }
}
