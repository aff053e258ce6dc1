/** Failure patterns mined from past investigations in one pass (internal/patterns/miner.go). */
module Miner {
  import opened Models
  import opened Reals
  import opened Sorting
  import opened Dedup
  import opened Counting
  import opened Aggregates
  import Timeline
  import Pipeline
  import opened Anchors
  import Recommend

  type History = seq<CorrelationResult>

  datatype AnchorTemplate = AnchorTemplate(service: string, signalType: string, selector: string,
                                           typicalLag: real, threshold: real)

  datatype FailurePattern = FailurePattern(id: string, name: string, services: seq<string>,
                                           anchorTemplates: seq<AnchorTemplate>, prevalence: real, lastSeen: Time)

  // ---------------------------------------------------------------- one pass over the history

  function SeenUpdates(corr: CorrelationResult): seq<Update> {
    seq(|corr.affectedServices|, i requires 0 <= i < |corr.affectedServices| =>
      Seen(Named(corr.affectedServices[i]), corr.createdAt))
  }

  function AnchorUpdates(corr: CorrelationResult): seq<Update> {
    seq(|corr.redAnchors|, i requires 0 <= i < |corr.redAnchors| =>
      var anchor := corr.redAnchors[i];
      Anchored(Named(anchor.service), anchor.selector, anchor.anomalyScore, corr.createdAt))
  }

  function TotalUpdates(corr: CorrelationResult): seq<Update> {
    seq(|corr.affectedServices|, i requires 0 <= i < |corr.affectedServices| =>
      Totalled(Named(corr.affectedServices[i])))
  }

  function UpdatesOf(corr: CorrelationResult): seq<Update> {
    SeenUpdates(corr) + AnchorUpdates(corr) + TotalUpdates(corr)
  }

  /** All the updates a history causes, in order. */
  function UpdatesFor(history: History): seq<Update> {
    if history == [] then [] else UpdatesFor(history[..|history| - 1]) + UpdatesOf(history[|history| - 1])
  }

  method BookHistory(history: History) returns (stats: ServiceStats)
    ensures fresh(stats) && fresh(stats.byService.Values)
    ensures stats.Valid() && stats.updates == UpdatesFor(history)
  {
    stats := new ServiceStats();
    for c := 0 to |history|
      invariant fresh(stats) && fresh(stats.byService.Values)
      invariant stats.Valid() && stats.updates == UpdatesFor(history[..c])
    {
      assert history[..c + 1][..c] == history[..c];
      BookCorrelation(stats, history[c]);
    }
    assert history[..|history|] == history;
  }

  method BookCorrelation(stats: ServiceStats, corr: CorrelationResult)
    requires stats.Valid()
    modifies stats, stats.byService.Values
    ensures stats.Valid() && stats.updates == old(stats.updates) + UpdatesOf(corr)
    ensures fresh(stats.byService.Values - old(stats.byService.Values))
  {
    hide ServiceStats.Valid;
    ghost var before := stats.updates;
    ghost var seen, anchored, totalled := SeenUpdates(corr), AnchorUpdates(corr), TotalUpdates(corr);
    for i := 0 to |corr.affectedServices|
      invariant stats.Valid() && fresh(stats.byService.Values - old(stats.byService.Values))
      invariant stats.updates == before + seen[..i]
    {
      var service := corr.affectedServices[i];
      stats.Book(service, Seen(Named(service), corr.createdAt));
    }
    assert seen[..|corr.affectedServices|] == seen;
    for i := 0 to |corr.redAnchors|
      invariant stats.Valid() && fresh(stats.byService.Values - old(stats.byService.Values))
      invariant stats.updates == before + seen + anchored[..i]
    {
      var anchor := corr.redAnchors[i];
      stats.Book(anchor.service, Anchored(Named(anchor.service), anchor.selector, anchor.anomalyScore, corr.createdAt));
    }
    assert anchored[..|corr.redAnchors|] == anchored;
    for i := 0 to |corr.affectedServices|
      invariant stats.Valid() && fresh(stats.byService.Values - old(stats.byService.Values))
      invariant stats.updates == before + seen + anchored + totalled[..i]
    {
      var service := corr.affectedServices[i];
      stats.Book(service, Totalled(Named(service)));
    }
    assert totalled[..|corr.affectedServices|] == totalled;
    assert before + seen + anchored + totalled == before + UpdatesOf(corr);
  }

  // ---------------------------------------------------------------- from aggregates to patterns

  const MAX_SELECTORS: nat := 3

  /** The most frequent selectors, most frequent first; ties are the sort's choice. */
  ghost predicate AreTop(selectors: seq<string>, counts: map<string, nat>) {
    && NoDuplicates(selectors)
    && |selectors| == (if |counts| < MAX_SELECTORS then |counts| else MAX_SELECTORS)
    && (forall s <- selectors :: s in counts)
    && (forall i, j :: 0 <= i < j < |selectors| ==> counts[selectors[i]] >= counts[selectors[j]])
    && (forall kept <- selectors :: forall other <- counts.Keys ::
          other !in selectors ==> counts[kept] >= counts[other])
  }

  function ByCount(counts: map<string, nat>): string -> real {
    s => -(CountOf(counts, s) as real)
  }

  /** The keys of a Go map, in any order. */
  method KeysOf(keys: set<string>) returns (listed: seq<string>)
    ensures NoDuplicates(listed) && |listed| == |keys|
    ensures forall s :: s in listed <==> s in keys
  {
    listed := [];
    var rest := keys;
    while rest != {}
      invariant rest <= keys && NoDuplicates(listed) && |listed| + |rest| == |keys|
      invariant forall s :: s in listed <==> s in keys - rest
    {
      var s :| s in rest;
      assert forall i :: 0 <= i < |listed| ==> listed[i] in listed;
      rest := rest - {s};
      listed := listed + [s];
    }
  }

  method TopSelectors(counts: map<string, nat>) returns (selectors: seq<string>)
    ensures AreTop(selectors, counts)
  {
    var listed := KeysOf(counts.Keys);
    var sorted := SortSlice(listed, ByCount(counts));
    selectors := sorted;
    if |selectors| > MAX_SELECTORS {
      selectors := selectors[..MAX_SELECTORS];
    }
    PrefixIsTop(listed, sorted, selectors, counts);
  }

  lemma DuplicateFreePermutation<T>(a: seq<T>, b: seq<T>)
    requires NoDuplicates(a) && multiset(a) == multiset(b)
    ensures NoDuplicates(b)
  {
    forall i, j | 0 <= i < j < |b|
      ensures b[i] != b[j]
    {
      if b[i] == b[j] {
        TwoCopies(b, i, j);
        OneCopy(a, b[i]);
      }
    }
  }

  lemma TwoCopies<T>(s: seq<T>, i: nat, j: nat)
    requires i < j < |s| && s[i] == s[j]
    ensures multiset(s)[s[i]] >= 2
  {
    assert s == s[..j] + ([s[j]] + s[j + 1..]);
    assert s[i] in s[..j];
    assert multiset(s) == multiset(s[..j]) + (multiset{s[j]} + multiset(s[j + 1..]));
  }

  lemma {:induction false} OneCopy<T>(s: seq<T>, x: T)
    requires NoDuplicates(s)
    ensures multiset(s)[x] <= 1
  {
    if s != [] {
      var front, last := s[..|s| - 1], s[|s| - 1];
      assert s == front + [last];
      OneCopy(front, x);
      if x == last {
        assert last !in front;
        assert last !in multiset(front);
      }
    }
  }

  lemma PrefixIsTop(listed: seq<string>, sorted: seq<string>, selectors: seq<string>, counts: map<string, nat>)
    requires NoDuplicates(listed) && |listed| == |counts| && forall s :: s in listed <==> s in counts
    requires SortedBy(sorted, ByCount(counts)) && multiset(sorted) == multiset(listed)
    requires selectors == if |sorted| > MAX_SELECTORS then sorted[..MAX_SELECTORS] else sorted
    ensures AreTop(selectors, counts)
  {
    SameMultisetSameLength(sorted, listed);
    DuplicateFreePermutation(listed, sorted);
    forall s ensures s in sorted <==> s in counts {
      if s in sorted {
        SameMultisetSameMembers(sorted, listed, s);
      } else if s in counts {
        SameMultisetSameMembers(listed, sorted, s);
      }
    }
    CutIsTop(sorted, |selectors|, counts);
    assert selectors == sorted[..|selectors|];
  }

  lemma CutIsTop(sorted: seq<string>, cut: nat, counts: map<string, nat>)
    requires NoDuplicates(sorted) && |sorted| == |counts| && forall s :: s in sorted <==> s in counts
    requires SortedBy(sorted, ByCount(counts))
    requires cut == if |counts| < MAX_SELECTORS then |counts| else MAX_SELECTORS
    ensures AreTop(sorted[..cut], counts)
  {
    var selectors := sorted[..cut];
    assert NoDuplicates(selectors);
    hide SortedBy, ByCount, NoDuplicates;
    forall i, j | 0 <= i < j < cut
      ensures counts[selectors[i]] >= counts[selectors[j]]
    {
      FrequentFirst(sorted, counts, i, j);
    }
    forall kept, other | kept in selectors && other in counts && other !in selectors
      ensures counts[kept] >= counts[other]
    {
      KeptBeats(sorted, cut, counts, kept, other);
    }
  }

  lemma KeptBeats(sorted: seq<string>, cut: nat, counts: map<string, nat>, kept: string, other: string)
    requires SortedBy(sorted, ByCount(counts)) && forall s :: s in sorted <==> s in counts
    requires cut <= |sorted| && kept in sorted[..cut] && other in counts && other !in sorted[..cut]
    ensures kept in counts && counts[kept] >= counts[other]
  {
    hide SortedBy, ByCount;
    var i :| 0 <= i < cut && sorted[..cut][i] == kept;
    assert sorted[i] == kept;
    var j := BeyondPrefix(sorted, cut, other);
    FrequentFirst(sorted, counts, i, j);
  }

  lemma BeyondPrefix<T>(s: seq<T>, cut: nat, x: T) returns (j: nat)
    requires cut <= |s| && x in s && x !in s[..cut]
    ensures cut <= j < |s| && s[j] == x
  {
    assert s == s[..cut] + s[cut..];
    var k :| 0 <= k < |s[cut..]| && s[cut..][k] == x;
    j := cut + k;
  }

  lemma FrequentFirst(sorted: seq<string>, counts: map<string, nat>, i: nat, j: nat)
    requires SortedBy(sorted, ByCount(counts)) && i < j < |sorted| && sorted[i] in counts && sorted[j] in counts
    ensures counts[sorted[i]] >= counts[sorted[j]]
  {
    KeyOrder(counts, sorted[i], sorted[j]);
  }

  lemma KeyOrder(counts: map<string, nat>, a: string, b: string)
    requires a in counts && b in counts
    ensures ByCount(counts)(a) <= ByCount(counts)(b) <==> counts[a] >= counts[b]
  {
  }

  function InferSignalType(selector: string): string {
    if Recommend.Contains(selector, "log") then "logs"
    else if Recommend.Contains(selector, "trace") then "traces"
    else "metrics"
  }

  function Average(view: View, selector: string): real {
    if CountOf(view.counts, selector) == 0 then 0.0
    else ScoreOf(view.scores, selector) / CountOf(view.counts, selector) as real
  }

  function TemplateOf(service: string, view: View, selector: string): AnchorTemplate {
    AnchorTemplate(service, InferSignalType(selector), selector, 1.0, Average(view, selector))
  }

  function Templates(service: string, view: View, selectors: seq<string>): seq<AnchorTemplate> {
    seq(|selectors|, i requires 0 <= i < |selectors| => TemplateOf(service, view, selectors[i]))
  }

  ghost predicate IsPatternOf(pattern: FailurePattern, service: string, view: View, total: nat)
    requires total > 0
  {
    && pattern.id == "pattern-" + service
    && pattern.name == service + " hotspot"
    && pattern.services == [service]
    && pattern.prevalence == view.count as real / total as real
    && pattern.lastSeen == view.lastSeen
    && exists selectors :: AreTop(selectors, view.counts) &&
         pattern.anchorTemplates == Templates(service, view, selectors)
  }

  method BuildPattern(service: string, view: View, total: nat) returns (pattern: FailurePattern)
    requires total > 0 && forall s <- view.counts.Keys :: view.counts[s] > 0
    ensures pattern.services == [service] && IsPatternOf(pattern, service, view, total)
  {
    var selectors := TopSelectors(view.counts);
    ghost var expected := Templates(service, view, selectors);
    var templates: seq<AnchorTemplate> := [];
    for i := 0 to |selectors|
      invariant templates == expected[..i]
    {
      var sel := selectors[i];
      assert sel in view.counts;
      var avgScore := ScoreOf(view.scores, sel) / view.counts[sel] as real;
      templates := templates + [AnchorTemplate(service, InferSignalType(sel), sel, 1.0, avgScore)];
    }
    assert templates == expected;
    pattern := FailurePattern("pattern-" + service, service + " hotspot", [service], templates,
                              view.count as real / total as real, view.lastSeen);
  }

  function Prevalence(pattern: FailurePattern): real {
    -pattern.prevalence
  }

  /** No two patterns are about the same service. */
  predicate ServicesDiffer(patterns: seq<FailurePattern>) {
    forall i, j :: 0 <= i < j < |patterns| ==> patterns[i].services != patterns[j].services
  }

  /** Each pattern describes one service that some correlation affects, and each such service has
      exactly one pattern. */
  ghost predicate ArePatternsOf(patterns: seq<FailurePattern>, updates: seq<Update>, total: nat)
    requires total > 0
  {
    && (forall p <- patterns :: IsMinedPattern(p, updates, total))
    && (forall s :: Aggregate(updates, s).total > 0 ==> exists p <- patterns :: p.services == [s])
    && ServicesDiffer(patterns)
  }

  ghost predicate IsMinedPattern(pattern: FailurePattern, updates: seq<Update>, total: nat)
    requires total > 0
  {
    |pattern.services| == 1 &&
    var service := pattern.services[0];
    Aggregate(updates, service).total > 0 && IsPatternOf(pattern, service, Aggregate(updates, service), total)
  }

  function ServiceOf(pattern: FailurePattern): string {
    if pattern.services == [] then "" else pattern.services[0]
  }

  /** The same, for the services looked at so far. */
  ghost predicate AreSoFar(patterns: seq<FailurePattern>, done: seq<string>, updates: seq<Update>, total: nat)
    requires total > 0
  {
    && (forall p <- patterns :: IsMinedPattern(p, updates, total) && ServiceOf(p) in done)
    && (forall s <- done :: Aggregate(updates, s).total > 0 ==> exists p <- patterns :: p.services == [s])
    && ServicesDiffer(patterns)
  }

  method PatternsOf(stats: ServiceStats, total: nat) returns (patterns: seq<FailurePattern>)
    requires stats.Valid() && total > 0
    ensures ArePatternsOf(patterns, stats.updates, total)
  {
    hide Aggregate, IsKnown, IsPatternOf, IsMinedPattern, AreSoFar, ArePatternsOf, ServiceAggregate.State;
    var services := KeysOf(stats.byService.Keys);
    patterns := [];
    NoneSoFar(stats.updates, total);
    for i := 0 to |services|
      invariant AreSoFar(patterns, services[..i], stats.updates, total)
    {
      var service := services[i];
      assert services[..i + 1] == services[..i] + [service];
      assert service !in services[..i];
      var agg := stats.byService[service];
      var view := agg.State();
      if view.total == 0 {
        NoPattern(patterns, services[..i], service, stats.updates, total);
        continue;
      }
      CountsArePositive(stats.updates, service);
      var pattern := BuildPattern(service, view, total);
      OnePattern(patterns, services[..i], service, pattern, stats.updates, total);
      patterns := patterns + [pattern];
    }
    assert services[..|services|] == services;
    AllDone(patterns, services, stats.updates, total);
  }

  lemma NoneSoFar(updates: seq<Update>, total: nat)
    requires total > 0
    ensures AreSoFar([], [], updates, total)
  {
  }

  lemma AllDone(patterns: seq<FailurePattern>, done: seq<string>, updates: seq<Update>, total: nat)
    requires total > 0 && AreSoFar(patterns, done, updates, total) && forall s :: IsKnown(updates, s) ==> s in done
    ensures ArePatternsOf(patterns, updates, total)
  {
    hide Aggregate, IsMinedPattern, IsKnown;
    UnknownHaveNoTotal(updates);
  }

  lemma NoPattern(patterns: seq<FailurePattern>, done: seq<string>, service: string, updates: seq<Update>, total: nat)
    requires total > 0 && AreSoFar(patterns, done, updates, total) && Aggregate(updates, service).total == 0
    ensures AreSoFar(patterns, done + [service], updates, total)
  {
    hide Aggregate, IsMinedPattern;
  }

  lemma OnePattern(patterns: seq<FailurePattern>, done: seq<string>, service: string, pattern: FailurePattern,
                   updates: seq<Update>, total: nat)
    requires total > 0 && AreSoFar(patterns, done, updates, total) && service !in done
    requires pattern.services == [service] && Aggregate(updates, service).total > 0
    requires IsPatternOf(pattern, service, Aggregate(updates, service), total)
    ensures AreSoFar(patterns + [pattern], done + [service], updates, total)
  {
    hide Aggregate, IsPatternOf;
    assert IsMinedPattern(pattern, updates, total);
    hide IsMinedPattern;
    var longer := patterns + [pattern];
    assert pattern in longer && forall p <- patterns :: p in longer;
    OneMoreService(patterns, pattern, done, service);
  }

  lemma OneMoreService(patterns: seq<FailurePattern>, pattern: FailurePattern, done: seq<string>, service: string)
    requires ServicesDiffer(patterns) && forall p <- patterns :: ServiceOf(p) in done
    requires pattern.services == [service] && service !in done
    ensures ServicesDiffer(patterns + [pattern])
  {
    forall i | 0 <= i < |patterns|
      ensures patterns[i].services != [service]
    {
      assert ServiceOf(patterns[i]) in done;
    }
  }

  lemma UnknownHaveNoTotal(updates: seq<Update>)
    ensures forall s :: !IsKnown(updates, s) ==> Aggregate(updates, s).total == 0
  {
    forall s | !IsKnown(updates, s)
      ensures Aggregate(updates, s).total == 0
    {
      UnknownIsNothing(updates, s);
    }
  }

  lemma {:induction false} CountsArePositive(updates: seq<Update>, service: string)
    ensures forall sel <- Aggregate(updates, service).counts.Keys :: Aggregate(updates, service).counts[sel] > 0
  {
    if updates != [] {
      CountsArePositive(updates[..|updates| - 1], service);
    }
  }

  ghost predicate IsMined(patterns: seq<FailurePattern>, history: History)
    requires history != []
  {
    ArePatternsOf(patterns, UpdatesFor(history), |history|) && SortedBy(patterns, Prevalence)
  }

  method Mine(history: History) returns (patterns: seq<FailurePattern>)
    ensures if history == [] then patterns == [] else IsMined(patterns, history)
  {
    if history == [] {
      return [];
    }
    var stats := BookHistory(history);
    var unsorted := PatternsOf(stats, |history|);
    patterns := SortSlice(unsorted, Prevalence);
    PermutedPatterns(unsorted, patterns, stats.updates, |history|);
  }

  lemma PermutedPatterns(a: seq<FailurePattern>, b: seq<FailurePattern>, updates: seq<Update>, total: nat)
    requires total > 0 && ArePatternsOf(a, updates, total) && multiset(b) == multiset(a)
    ensures ArePatternsOf(b, updates, total)
  {
    hide IsMinedPattern, Aggregate;
    forall p
      ensures p in a <==> p in b
    {
      if p in a {
        SameMultisetSameMembers(a, b, p);
      } else if p in b {
        SameMultisetSameMembers(b, a, p);
      }
    }
    DuplicateFreePermutation(a, b);
    forall i, j | 0 <= i < j < |b|
      ensures b[i].services != b[j].services
    {
      assert b[i] in a && b[j] in a && b[i] != b[j];
    }
  }

  // ---------------------------------------------------------------- what the numbers mean

  function IsNamed(service: string): string -> bool {
    s => Named(s) == service
  }

  /** How many times the correlations name the service as affected. */
  function TimesAffected(history: History, service: string): nat {
    if history == [] then 0 else
      TimesAffected(history[..|history| - 1], service) + Count(history[|history| - 1].affectedServices, IsNamed(service))
  }

  /** Every affected service counts under its own name, and an empty name as "unknown"; nothing counts
      under the empty name. */
  lemma NamesAreAsListed(listed: string, service: string)
    ensures IsNamed(service)(listed) <==> service != "" && (listed == service || (listed == "" && service == "unknown"))
  {
  }

  function IsSeenOf(service: string): Update -> bool {
    (u: Update) => u.Seen? && u.service == service
  }

  function IsTotalOf(service: string): Update -> bool {
    (u: Update) => u.Totalled? && u.service == service
  }

  lemma {:induction false} AggregateCounts(updates: seq<Update>, service: string)
    ensures Aggregate(updates, service).count == Count(updates, IsSeenOf(service))
    ensures Aggregate(updates, service).total == Count(updates, IsTotalOf(service))
  {
    if updates != [] {
      AggregateCounts(updates[..|updates| - 1], service);
    }
  }

  lemma {:induction false} CountMapped<A, B>(a: seq<A>, b: seq<B>, testA: A -> bool, testB: B -> bool)
    requires |a| == |b| && forall i :: 0 <= i < |a| ==> testA(a[i]) == testB(b[i])
    ensures Count(a, testA) == Count(b, testB)
  {
    if a != [] {
      CountMapped(a[..|a| - 1], b[..|b| - 1], testA, testB);
    }
  }

  lemma {:induction false} CountNone<T>(s: seq<T>, test: T -> bool)
    requires forall i :: 0 <= i < |s| ==> !test(s[i])
    ensures Count(s, test) == 0
  {
    if s != [] {
      CountNone(s[..|s| - 1], test);
    }
  }

  lemma CorrelationCounts(corr: CorrelationResult, service: string)
    ensures Count(UpdatesOf(corr), IsSeenOf(service)) == Count(corr.affectedServices, IsNamed(service))
    ensures Count(UpdatesOf(corr), IsTotalOf(service)) == Count(corr.affectedServices, IsNamed(service))
  {
    hide Count;
    var seen, anchored, totalled := SeenUpdates(corr), AnchorUpdates(corr), TotalUpdates(corr);
    CountConcat(seen + anchored, totalled, IsSeenOf(service));
    CountConcat(seen, anchored, IsSeenOf(service));
    CountConcat(seen + anchored, totalled, IsTotalOf(service));
    CountConcat(seen, anchored, IsTotalOf(service));
    CountMapped(seen, corr.affectedServices, IsSeenOf(service), IsNamed(service));
    CountMapped(totalled, corr.affectedServices, IsTotalOf(service), IsNamed(service));
    CountNone(anchored, IsSeenOf(service));
    CountNone(anchored, IsTotalOf(service));
    CountNone(totalled, IsSeenOf(service));
    CountNone(seen, IsTotalOf(service));
  }

  /** The two counters of a service always agree in the end: both are the number of times the
      correlations name it. */
  lemma {:induction false} CountersAgree(history: History, service: string)
    ensures Aggregate(UpdatesFor(history), service).count == TimesAffected(history, service)
    ensures Aggregate(UpdatesFor(history), service).total == TimesAffected(history, service)
  {
    AggregateCounts(UpdatesFor(history), service);
    if history != [] {
      hide Aggregate, UpdatesOf, Count;
      var front, last := history[..|history| - 1], history[|history| - 1];
      CountersAgree(front, service);
      AggregateCounts(UpdatesFor(front), service);
      CorrelationCounts(last, service);
      CountConcat(UpdatesFor(front), UpdatesOf(last), IsSeenOf(service));
      CountConcat(UpdatesFor(front), UpdatesOf(last), IsTotalOf(service));
    } else {
      assert Count(UpdatesFor(history), IsSeenOf(service)) == 0;
    }
  }

  function IsAnchorOf(service: string, selector: string): Update -> bool {
    (u: Update) => IsScoreOf(u, service, selector)
  }

  function AnchorsBy(service: string, selector: string): RedAnchor -> bool {
    (a: RedAnchor) => Named(a.service) == service && a.selector == selector
  }

  /** How many anchors of the correlations are on the service, by the selector. */
  function TimesAnchored(history: History, service: string, selector: string): nat {
    if history == [] then 0 else
      TimesAnchored(history[..|history| - 1], service, selector)
      + Count(history[|history| - 1].redAnchors, AnchorsBy(service, selector))
  }

  lemma {:induction false} AggregateAnchors(updates: seq<Update>, service: string, selector: string)
    requires selector != ""
    ensures CountOf(Aggregate(updates, service).counts, selector) == Count(updates, IsAnchorOf(service, selector))
  {
    if updates != [] {
      hide Apply, CountOf;
      var front, last := updates[..|updates| - 1], updates[|updates| - 1];
      AggregateAnchors(front, service, selector);
      ScoreStep(Aggregate(front, service), last, selector);
    } else {
      assert CountOf(NOTHING.counts, selector) == 0;
    }
  }

  lemma CorrelationAnchors(corr: CorrelationResult, service: string, selector: string)
    ensures Count(UpdatesOf(corr), IsAnchorOf(service, selector)) == Count(corr.redAnchors, AnchorsBy(service, selector))
  {
    hide Count;
    var seen, anchored, totalled := SeenUpdates(corr), AnchorUpdates(corr), TotalUpdates(corr);
    CountConcat(seen + anchored, totalled, IsAnchorOf(service, selector));
    CountConcat(seen, anchored, IsAnchorOf(service, selector));
    CountMapped(anchored, corr.redAnchors, IsAnchorOf(service, selector), AnchorsBy(service, selector));
    CountNone(seen, IsAnchorOf(service, selector));
    CountNone(totalled, IsAnchorOf(service, selector));
  }

  /** By which the kept selectors are chosen: the number of anchors that name them. */
  lemma {:induction false} SelectorsAreCounted(history: History, service: string, selector: string)
    requires selector != ""
    ensures CountOf(Aggregate(UpdatesFor(history), service).counts, selector) == TimesAnchored(history, service, selector)
  {
    AggregateAnchors(UpdatesFor(history), service, selector);
    if history != [] {
      hide Aggregate, UpdatesOf, Count, CountOf;
      var front, last := history[..|history| - 1], history[|history| - 1];
      SelectorsAreCounted(front, service, selector);
      AggregateAnchors(UpdatesFor(front), service, selector);
      CorrelationAnchors(last, service, selector);
      CountConcat(UpdatesFor(front), UpdatesOf(last), IsAnchorOf(service, selector));
    } else {
      assert Count(UpdatesFor(history), IsAnchorOf(service, selector)) == 0;
    }
  }

  /** The update changes what is known of the service's last appearance. */
  predicate Contributes(update: Update, service: string) {
    update.service == service && (update.Seen? || (update.Anchored? && update.selector != ""))
  }

  lemma {:induction false} LastSeenIsLatest(updates: seq<Update>, service: string)
    ensures var last := Aggregate(updates, service).lastSeen;
            && last >= ZERO_TIME
            && (forall u <- updates :: Contributes(u, service) ==> u.at <= last)
            && (last == ZERO_TIME || exists u <- updates :: Contributes(u, service) && u.at == last)
  {
    if updates != [] {
      var front, last := updates[..|updates| - 1], updates[|updates| - 1];
      assert updates == front + [last];
      LastSeenIsLatest(front, service);
    }
  }

  /** The correlation tells something about the service: it affects it, or anchors it by a selector. */
  predicate Mentions(corr: CorrelationResult, service: string) {
    || (exists s <- corr.affectedServices :: Named(s) == service)
    || (exists a <- corr.redAnchors :: Named(a.service) == service && a.selector != "")
  }

  lemma MentionsUpdate(corr: CorrelationResult, service: string)
    ensures Mentions(corr, service) <==> exists u <- UpdatesOf(corr) :: Contributes(u, service)
    ensures forall u <- UpdatesOf(corr) :: Contributes(u, service) ==> u.at == corr.createdAt
  {
    var updates := UpdatesOf(corr);
    forall u | u in updates && Contributes(u, service)
      ensures Mentions(corr, service) && u.at == corr.createdAt
    {
      if u in SeenUpdates(corr) {
        var i :| 0 <= i < |corr.affectedServices| && SeenUpdates(corr)[i] == u;
        assert corr.affectedServices[i] in corr.affectedServices;
      } else {
        assert u in AnchorUpdates(corr);
        var i :| 0 <= i < |corr.redAnchors| && AnchorUpdates(corr)[i] == u;
        assert corr.redAnchors[i] in corr.redAnchors;
      }
    }
    if s :| s in corr.affectedServices && Named(s) == service {
      var i :| 0 <= i < |corr.affectedServices| && corr.affectedServices[i] == s;
      assert SeenUpdates(corr)[i] in updates && Contributes(SeenUpdates(corr)[i], service);
    } else if a :| a in corr.redAnchors && Named(a.service) == service && a.selector != "" {
      var i :| 0 <= i < |corr.redAnchors| && corr.redAnchors[i] == a;
      assert AnchorUpdates(corr)[i] in updates && Contributes(AnchorUpdates(corr)[i], service);
    }
  }

  lemma {:induction false} HistoryContributions(history: History, service: string, at: Time)
    ensures (exists u <- UpdatesFor(history) :: Contributes(u, service) && u.at == at) <==>
            exists corr <- history :: Mentions(corr, service) && corr.createdAt == at
  {
    if history != [] {
      hide Mentions, Contributes, UpdatesOf;
      var front, last := history[..|history| - 1], history[|history| - 1];
      assert history == front + [last];
      HistoryContributions(front, service, at);
      MentionsUpdate(last, service);
    }
  }

  /** `LastSeen` is the time of the latest correlation that tells something about the service. */
  lemma LastSeenMeaning(history: History, service: string)
    ensures var last := Aggregate(UpdatesFor(history), service).lastSeen;
            && (forall corr <- history :: Mentions(corr, service) ==> corr.createdAt <= last)
            && (last == ZERO_TIME || exists corr <- history :: Mentions(corr, service) && corr.createdAt == last)
  {
    hide Mentions, Contributes, Aggregate, UpdatesFor;
    var updates := UpdatesFor(history);
    LastSeenIsLatest(updates, service);
    HistoryContributions(history, service, Aggregate(updates, service).lastSeen);
    forall corr | corr in history && Mentions(corr, service)
      ensures corr.createdAt <= Aggregate(updates, service).lastSeen
    {
      HistoryContributions(history, service, corr.createdAt);
    }
  }

  predicate IsScoreOf(update: Update, service: string, selector: string) {
    update.Anchored? && update.service == service && update.selector == selector
  }

  lemma ScoreStep(view: View, update: Update, selector: string)
    requires selector != ""
    ensures var after := Apply(view, update);
            var scored := update.Anchored? && update.selector == selector;
            && CountOf(after.counts, selector) == CountOf(view.counts, selector) + (if scored then 1 else 0)
            && ScoreOf(after.scores, selector) == ScoreOf(view.scores, selector) + if scored then update.score else 0.0
  {
  }

  lemma {:induction false} ScoresAddUp(updates: seq<Update>, service: string, selector: string, lo: real, hi: real)
    requires selector != ""
    requires forall u <- updates :: IsScoreOf(u, service, selector) ==> lo <= u.score <= hi
    ensures var view := Aggregate(updates, service);
            Shares(CountOf(view.counts, selector), lo) <= ScoreOf(view.scores, selector) <= Shares(CountOf(view.counts, selector), hi)
  {
    if updates != [] {
      var front, last := updates[..|updates| - 1], updates[|updates| - 1];
      assert updates == front + [last];
      ScoresAddUp(front, service, selector, lo, hi);
      hide Shares, Apply, CountOf, ScoreOf;
      var view := Aggregate(front, service);
      ScoreStep(view, last, selector);
      if IsScoreOf(last, service, selector) {
        assert lo <= last.score <= hi;
        var n := CountOf(view.counts, selector);
        SharesStep(n, n + 1, true, lo);
        SharesStep(n, n + 1, true, hi);
      }
    }
  }

  /** All anchors on the service by the selector score between the bounds. */
  predicate ScoresWithin(history: History, service: string, selector: string, lo: real, hi: real) {
    forall corr <- history :: forall a <- corr.redAnchors ::
      Named(a.service) == service && a.selector == selector ==> lo <= a.anomalyScore <= hi
  }

  lemma {:induction false} ScoresOfHistory(history: History, service: string, selector: string, lo: real, hi: real)
    requires ScoresWithin(history, service, selector, lo, hi)
    ensures forall u <- UpdatesFor(history) :: IsScoreOf(u, service, selector) ==> lo <= u.score <= hi
  {
    if history != [] {
      var front, last := history[..|history| - 1], history[|history| - 1];
      assert history == front + [last];
      ScoresOfHistory(front, service, selector, lo, hi);
      forall u | u in UpdatesOf(last) && IsScoreOf(u, service, selector)
        ensures lo <= u.score <= hi
      {
        assert u in AnchorUpdates(last);
        var i :| 0 <= i < |last.redAnchors| && AnchorUpdates(last)[i] == u;
        assert last.redAnchors[i] in last.redAnchors;
      }
    }
  }

  /** The threshold of a template lies between any bounds on the scores it was averaged from. */
  lemma ThresholdIsBetweenScores(history: History, service: string, selector: string, lo: real, hi: real)
    requires selector != "" && selector in Aggregate(UpdatesFor(history), service).counts
    requires ScoresWithin(history, service, selector, lo, hi)
    ensures lo <= TemplateOf(service, Aggregate(UpdatesFor(history), service), selector).threshold <= hi
  {
    var updates := UpdatesFor(history);
    var view := Aggregate(updates, service);
    var n := CountOf(view.counts, selector);
    hide Aggregate, UpdatesFor, IsScoreOf, ScoreOf, InferSignalType, Named;
    ScoresOfHistory(history, service, selector, lo, hi);
    ScoresAddUp(updates, service, selector, lo, hi);
    CountsArePositive(updates, service);
    DivideCompare(ScoreOf(view.scores, selector), n as real, lo);
    DivideCompare(ScoreOf(view.scores, selector), n as real, hi);
  }

  // ---------------------------------------------------------------- thresholds are means

  function SumScores(updates: seq<Update>, service: string, selector: string): real {
    if updates == [] then 0.0 else
      var last := updates[|updates| - 1];
      SumScores(updates[..|updates| - 1], service, selector) + if IsScoreOf(last, service, selector) then last.score else 0.0
  }

  function AnchorScores(anchors: seq<RedAnchor>, service: string, selector: string): real {
    if anchors == [] then 0.0 else
      var last := anchors[|anchors| - 1];
      AnchorScores(anchors[..|anchors| - 1], service, selector)
      + if Named(last.service) == service && last.selector == selector then last.anomalyScore else 0.0
  }

  /** The scores of all anchors on the service by the selector, added up. */
  function TotalScore(history: History, service: string, selector: string): real {
    if history == [] then 0.0 else
      TotalScore(history[..|history| - 1], service, selector)
      + AnchorScores(history[|history| - 1].redAnchors, service, selector)
  }

  lemma {:induction false} SumScoresConcat(a: seq<Update>, b: seq<Update>, service: string, selector: string)
    ensures SumScores(a + b, service, selector) == SumScores(a, service, selector) + SumScores(b, service, selector)
  {
    if b == [] {
      assert a + b == a;
    } else {
      assert (a + b)[..|a + b| - 1] == a + b[..|b| - 1];
      SumScoresConcat(a, b[..|b| - 1], service, selector);
    }
  }

  lemma {:induction false} NoScores(updates: seq<Update>, service: string, selector: string)
    requires forall i :: 0 <= i < |updates| ==> !updates[i].Anchored?
    ensures SumScores(updates, service, selector) == 0.0
  {
    if updates != [] {
      NoScores(updates[..|updates| - 1], service, selector);
    }
  }

  lemma {:induction false} AnchoredScores(updates: seq<Update>, anchors: seq<RedAnchor>, service: string, selector: string)
    requires |updates| == |anchors|
    requires forall i :: 0 <= i < |anchors| ==>
               && updates[i].Anchored? && updates[i].service == Named(anchors[i].service)
               && updates[i].selector == anchors[i].selector && updates[i].score == anchors[i].anomalyScore
    ensures SumScores(updates, service, selector) == AnchorScores(anchors, service, selector)
  {
    if anchors != [] {
      AnchoredScores(updates[..|updates| - 1], anchors[..|anchors| - 1], service, selector);
    }
  }

  lemma CorrelationScores(corr: CorrelationResult, service: string, selector: string)
    ensures SumScores(UpdatesOf(corr), service, selector) == AnchorScores(corr.redAnchors, service, selector)
  {
    hide SumScores, AnchorScores;
    var seen, anchored, totalled := SeenUpdates(corr), AnchorUpdates(corr), TotalUpdates(corr);
    SumScoresConcat(seen + anchored, totalled, service, selector);
    SumScoresConcat(seen, anchored, service, selector);
    NoScores(seen, service, selector);
    NoScores(totalled, service, selector);
    AnchoredScores(anchored, corr.redAnchors, service, selector);
  }

  lemma {:induction false} AggregateScores(updates: seq<Update>, service: string, selector: string)
    requires selector != ""
    ensures ScoreOf(Aggregate(updates, service).scores, selector) == SumScores(updates, service, selector)
  {
    if updates != [] {
      hide Apply, CountOf, ScoreOf;
      var front, last := updates[..|updates| - 1], updates[|updates| - 1];
      AggregateScores(front, service, selector);
      ScoreStep(Aggregate(front, service), last, selector);
    } else {
      assert ScoreOf(NOTHING.scores, selector) == 0.0;
    }
  }

  lemma {:induction false} ScoresAreTotalled(history: History, service: string, selector: string)
    requires selector != ""
    ensures ScoreOf(Aggregate(UpdatesFor(history), service).scores, selector) == TotalScore(history, service, selector)
  {
    AggregateScores(UpdatesFor(history), service, selector);
    if history != [] {
      hide Aggregate, UpdatesOf, ScoreOf, AnchorScores;
      var front, last := history[..|history| - 1], history[|history| - 1];
      ScoresAreTotalled(front, service, selector);
      AggregateScores(UpdatesFor(front), service, selector);
      CorrelationScores(last, service, selector);
      SumScoresConcat(UpdatesFor(front), UpdatesOf(last), service, selector);
    }
  }

  /** The average of a selector is the mean score of the anchors that name it. */
  lemma AverageIsMean(history: History, service: string, selector: string)
    requires selector != "" && TimesAnchored(history, service, selector) > 0
    ensures Average(Aggregate(UpdatesFor(history), service), selector) ==
            TotalScore(history, service, selector) / TimesAnchored(history, service, selector) as real
  {
    hide Aggregate, UpdatesFor, TotalScore, TimesAnchored, CountOf, ScoreOf;
    SelectorsAreCounted(history, service, selector);
    ScoresAreTotalled(history, service, selector);
  }

  // ---------------------------------------------------------------- signal types

  lemma BeginsWithItsFirst(text: string, part: string)
    requires part != "" && Recommend.Contains(text, part)
    ensures part[0] in text
  {
    var i :| 0 <= i <= |text| && part <= text[i..];
    assert text[i] == part[0];
  }

  lemma StartsBeyond(prefix: string, text: string, i: nat)
    requires i < |prefix + text| && (prefix + text)[i] !in prefix
    ensures i >= |prefix|
  {
  }

  lemma ShiftedSuffix(prefix: string, text: string, i: nat)
    requires i <= |text|
    ensures (prefix + text)[|prefix| + i..] == text[i..]
  {
  }

  /** A prefix without the part's first character does not matter. */
  lemma ContainsAfter(prefix: string, text: string, part: string)
    requires part != "" && part[0] !in prefix
    ensures Recommend.Contains(prefix + text, part) <==> Recommend.Contains(text, part)
  {
    var all := prefix + text;
    if Recommend.Contains(all, part) {
      var i :| 0 <= i <= |all| && part <= all[i..];
      assert all[i] == part[0];
      StartsBeyond(prefix, text, i);
      ShiftedSuffix(prefix, text, i - |prefix|);
    }
    if Recommend.Contains(text, part) {
      var i :| 0 <= i <= |text| && part <= text[i..];
      ShiftedSuffix(prefix, text, i);
    }
  }

  lemma FirstAndThird(text: string, part: string) returns (i: nat)
    requires |part| >= 3 && Recommend.Contains(text, part)
    ensures i + 2 < |text| && text[i] == part[0] && text[i + 2] == part[2]
  {
    i :| 0 <= i <= |text| && part <= text[i..];
    assert text[i..][0] == part[0] && text[i..][2] == part[2];
  }

  lemma CpuUsageIsNoTrace()
    ensures !Recommend.Contains("metrics:cpu_usage", "log") && !Recommend.Contains("metrics:cpu_usage", "trace")
  {
    hide Recommend.Contains;
    if Recommend.Contains("metrics:cpu_usage", "log") {
      BeginsWithItsFirst("metrics:cpu_usage", "log");
      assert false;
    }
    if Recommend.Contains("metrics:cpu_usage", "trace") {
      var i := FirstAndThird("metrics:cpu_usage", "trace");
      assert false;
    }
  }

  /** The signal type that the miner infers for an anchor is the anchor's own, unless it is a trace
      anchor whose operation contains "log" (such as "login"): that is taken for logs. */
  lemma SignalTypeOfAnchors(anchor: RedAnchor, service: string, m: MetricAnomaly, l: LogAnomaly, t: TraceAnomaly)
    ensures IsMetricAnchor(anchor, service, m) ==> InferSignalType(anchor.selector) == "metrics"
    ensures IsLogAnchor(anchor, service, l) ==> InferSignalType(anchor.selector) == "logs"
    ensures IsTraceAnchor(anchor, t) ==>
              InferSignalType(anchor.selector) == if Recommend.Contains(t.span.operation, "log") then "logs" else "traces"
  {
    CpuUsageIsNoTrace();
    if IsLogAnchor(anchor, service, l) {
      assert "log" <= anchor.selector[0..];
    }
    if IsTraceAnchor(anchor, t) {
      ContainsAfter("trace:", t.span.operation, "log");
      assert "trace" <= anchor.selector[0..];
    }
  }

  // ---------------------------------------------------------------- prevalence

  /** How many correlations affect the service. */
  function Affecting(service: string): CorrelationResult -> bool {
    (corr: CorrelationResult) => exists s <- corr.affectedServices :: Named(s) == service
  }

  /** The list names no service twice, not even once as "" and once as "unknown". */
  predicate NamesDiffer(services: seq<string>) {
    forall i, j :: 0 <= i < j < |services| ==> Named(services[i]) != Named(services[j])
  }

  lemma {:induction false} NamedAtMostOnce(services: seq<string>, service: string)
    requires NamesDiffer(services)
    ensures Count(services, IsNamed(service)) == if exists s <- services :: Named(s) == service then 1 else 0
  {
    if services != [] {
      var front, last := services[..|services| - 1], services[|services| - 1];
      assert services == front + [last];
      NamedAtMostOnce(front, service);
      if s :| s in front && Named(s) == service {
        var i :| 0 <= i < |front| && front[i] == s;
        assert Named(services[i]) != Named(services[|front|]);
      }
    }
  }

  /** No correlation names this service twice. */
  predicate NamedOnceEach(history: History, service: string) {
    forall i :: 0 <= i < |history| ==> Count(history[i].affectedServices, IsNamed(service)) <= 1
  }

  /** A service is named at least as often as correlations affect it, and no more often exactly when
      no correlation names it twice. */
  lemma {:induction false} TimesAffectedAreCorrelations(history: History, service: string)
    ensures TimesAffected(history, service) >= Count(history, Affecting(service))
    ensures TimesAffected(history, service) == Count(history, Affecting(service)) <==> NamedOnceEach(history, service)
  {
    if history != [] {
      var front, last := history[..|history| - 1], history[|history| - 1];
      TimesAffectedAreCorrelations(front, service);
      assert Count(history, Affecting(service)) == Count(front, Affecting(service)) + if Affecting(service)(last) then 1 else 0;
      hide Count;
      CountWhole(last.affectedServices, IsNamed(service));
      assert NamedOnceEach(history, service) <==>
             NamedOnceEach(front, service) && Count(last.affectedServices, IsNamed(service)) <= 1;
    }
  }

  /** The fraction of the correlations that affect the service. */
  function FractionAffected(history: History, service: string): real
    requires history != []
  {
    Count(history, Affecting(service)) as real / |history| as real
  }

  lemma CompareFractions(a: nat, b: nat, n: nat)
    requires n > 0
    ensures a as real / n as real >= b as real / n as real <==> a >= b
  {
    DivideBack(b as real, n as real);
    DivideCompare(a as real, n as real, b as real / n as real);
  }

  /** Prevalence is above zero and at least the fraction of the correlations that affect the service.
      It is that fraction, and so at most one, exactly when no correlation names the service twice. */
  lemma PrevalenceIsAFraction(history: History, patterns: seq<FailurePattern>, pattern: FailurePattern)
    requires history != [] && IsMined(patterns, history) && pattern in patterns
    ensures |pattern.services| == 1
    ensures var service := pattern.services[0];
            && 0.0 < FractionAffected(history, service) <= 1.0
            && pattern.prevalence >= FractionAffected(history, service)
            && (pattern.prevalence == FractionAffected(history, service) <==> NamedOnceEach(history, service))
  {
    MinedMeaning(history, patterns);
    var service := pattern.services[0];
    assert TimesAffected(history, service) > 0 by {
      assert pattern.services == [service];
    }
    assert pattern.prevalence == TimesAffected(history, service) as real / |history| as real;
    hide IsMined, TimesAffected, Mentions, ServicesDiffer, NamedOnceEach, Affecting, Count;
    AffectedIfNamed(history, service);
    TimesAffectedAreCorrelations(history, service);
    FractionFacts(TimesAffected(history, service), Count(history, Affecting(service)), |history|);
  }

  lemma FractionFacts(times: nat, k: nat, n: nat)
    requires 0 < k <= n && k <= times
    ensures 0.0 < k as real / n as real <= 1.0
    ensures times as real / n as real >= k as real / n as real
    ensures times as real / n as real == k as real / n as real <==> times == k
  {
    CompareFractions(times, k, n);
    CompareFractions(k, times, n);
    DivideCompare(k as real, n as real, 1.0);
    DivideBack(k as real, n as real);
    assert k as real / n as real != 0.0;
    DivideCompare(k as real, n as real, 0.0);
  }

  lemma {:induction false} AffectedIfNamed(history: History, service: string)
    ensures TimesAffected(history, service) > 0 <==> Count(history, Affecting(service)) > 0
  {
    if history != [] {
      var last := history[|history| - 1];
      AffectedIfNamed(history[..|history| - 1], service);
      CountWhole(last.affectedServices, IsNamed(service));
    }
  }

  lemma PrevalenceOf(pattern: FailurePattern, service: string, view: View, total: nat)
    requires total > 0 && IsPatternOf(pattern, service, view, total)
    ensures pattern.prevalence == view.count as real / total as real && pattern.lastSeen == view.lastSeen
  {
    hide AreTop, Templates;
  }

  /** What the miner returns, in terms of the history alone: one pattern for each service that some
      correlation names, the most prevalent first, last seen at the latest mention. */
  lemma MinedMeaning(history: History, patterns: seq<FailurePattern>)
    requires history != [] && IsMined(patterns, history)
    ensures ServicesDiffer(patterns)
    ensures forall s :: (exists p <- patterns :: p.services == [s]) <==> TimesAffected(history, s) > 0
    ensures forall i, j :: 0 <= i < j < |patterns| ==> patterns[i].prevalence >= patterns[j].prevalence
    ensures forall p <- patterns :: |p.services| == 1
              && p.prevalence == TimesAffected(history, p.services[0]) as real / |history| as real
              && (forall corr <- history :: Mentions(corr, p.services[0]) ==> corr.createdAt <= p.lastSeen)
              && (p.lastSeen == ZERO_TIME || exists corr <- history :: Mentions(corr, p.services[0]) && corr.createdAt == p.lastSeen)
  {
    hide Aggregate, UpdatesFor, IsPatternOf, TimesAffected, SortedBy, Mentions;
    var updates := UpdatesFor(history);
    forall i, j | 0 <= i < j < |patterns|
      ensures patterns[i].prevalence >= patterns[j].prevalence
    {
      OrderedPrevalence(patterns, i, j);
    }
    forall s
      ensures Aggregate(updates, s).total == TimesAffected(history, s)
    {
      CountersAgree(history, s);
    }
    forall p | p in patterns
      ensures |p.services| == 1
      ensures TimesAffected(history, p.services[0]) > 0
      ensures p.prevalence == TimesAffected(history, p.services[0]) as real / |history| as real
      ensures forall corr <- history :: Mentions(corr, p.services[0]) ==> corr.createdAt <= p.lastSeen
      ensures p.lastSeen == ZERO_TIME || exists corr <- history :: Mentions(corr, p.services[0]) && corr.createdAt == p.lastSeen
    {
      assert IsMinedPattern(p, updates, |history|);
      PrevalenceOf(p, p.services[0], Aggregate(updates, p.services[0]), |history|);
      CountersAgree(history, p.services[0]);
      LastSeenMeaning(history, p.services[0]);
    }
    forall s, p | p in patterns && p.services == [s]
      ensures TimesAffected(history, s) > 0
    {
      assert p.services[0] == s;
    }
  }

  lemma {:induction false} SelectorsAreNamed(updates: seq<Update>, service: string)
    ensures "" !in Aggregate(updates, service).counts
  {
    if updates != [] {
      SelectorsAreNamed(updates[..|updates| - 1], service);
    }
  }

  predicate IsTemplated(pattern: FailurePattern, selector: string) {
    exists t <- pattern.anchorTemplates :: t.selector == selector
  }

  /** The templates of a mined pattern, in terms of the history: at most three, one for each of the
      selectors that the most anchors on the service name, and for all of them if they are fewer; and
      each threshold is the mean score of those anchors, hence between the least and the greatest. */
  lemma MinedTemplates(history: History, patterns: seq<FailurePattern>, pattern: FailurePattern, other: string)
    requires history != [] && IsMined(patterns, history) && pattern in patterns && other != ""
    ensures |pattern.services| == 1 && |pattern.anchorTemplates| <= 3
    ensures var service := pattern.services[0];
            && (forall t <- pattern.anchorTemplates :: TimesAnchored(history, service, t.selector) > 0)
            && (forall t <- pattern.anchorTemplates ::
                  && t.threshold == TotalScore(history, service, t.selector) / TimesAnchored(history, service, t.selector) as real
                  && forall lo, hi :: ScoresWithin(history, service, t.selector, lo, hi) ==> lo <= t.threshold <= hi)
            && (!IsTemplated(pattern, other) ==>
                  forall t <- pattern.anchorTemplates ::
                    TimesAnchored(history, service, t.selector) >= TimesAnchored(history, service, other))
            && (!IsTemplated(pattern, other) && TimesAnchored(history, service, other) > 0 ==>
                  |pattern.anchorTemplates| == 3)
  {
    hide Aggregate, UpdatesFor, IsPatternOf, TimesAnchored, SortedBy, CountOf, ScoresWithin, Average, TotalScore;
    var updates := UpdatesFor(history);
    assert IsMinedPattern(pattern, updates, |history|);
    var service := pattern.services[0];
    var view := Aggregate(updates, service);
    SelectorsAreNamed(updates, service);
    CountsArePositive(updates, service);
    var selectors := TemplatesOf(pattern, service, view, |history|);
    SelectorsAreCounted(history, service, other);
    forall t | t in pattern.anchorTemplates
      ensures TimesAnchored(history, service, t.selector) > 0
      ensures t.threshold == TotalScore(history, service, t.selector) / TimesAnchored(history, service, t.selector) as real
      ensures !IsTemplated(pattern, other) ==>
                TimesAnchored(history, service, t.selector) >= TimesAnchored(history, service, other)
    {
      SelectorsAreCounted(history, service, t.selector);
      TopBeats(selectors, view.counts, t.selector, other);
      AverageIsMean(history, service, t.selector);
    }
    forall t, lo, hi | t in pattern.anchorTemplates && ScoresWithin(history, service, t.selector, lo, hi)
      ensures lo <= t.threshold <= hi
    {
      TopBeats(selectors, view.counts, t.selector, other);
      ThresholdIsBetweenScores(history, service, t.selector, lo, hi);
    }
    if !IsTemplated(pattern, other) {
      AllOfFew(selectors, view.counts, other);
    }
  }

  lemma TemplatesOf(pattern: FailurePattern, service: string, view: View, total: nat) returns (selectors: seq<string>)
    requires total > 0 && IsPatternOf(pattern, service, view, total)
    ensures AreTop(selectors, view.counts) && |pattern.anchorTemplates| == |selectors| <= MAX_SELECTORS
    ensures forall t <- pattern.anchorTemplates :: t.selector in selectors && t.threshold == Average(view, t.selector)
    ensures forall s :: s in selectors <==> IsTemplated(pattern, s)
  {
    selectors :| AreTop(selectors, view.counts) && pattern.anchorTemplates == Templates(service, view, selectors);
    forall s | s in selectors
      ensures IsTemplated(pattern, s)
    {
      var i :| 0 <= i < |selectors| && selectors[i] == s;
      assert pattern.anchorTemplates[i].selector == s;
    }
  }

  lemma TopBeats(selectors: seq<string>, counts: map<string, nat>, kept: string, other: string)
    requires AreTop(selectors, counts) && kept in selectors && forall s <- counts.Keys :: counts[s] > 0
    ensures kept in counts && CountOf(counts, kept) > 0
    ensures other !in selectors ==> CountOf(counts, kept) >= CountOf(counts, other)
  {
  }

  lemma AllOfFew(selectors: seq<string>, counts: map<string, nat>, other: string)
    requires AreTop(selectors, counts) && other !in selectors
    ensures CountOf(counts, other) > 0 ==> |selectors| == MAX_SELECTORS
  {
    if other in counts {
      var listed := set s | s in selectors;
      DistinctMembers(selectors);
      assert listed <= counts.Keys - {other};
      CardinalityMonotone(listed, counts.Keys - {other});
      assert |counts.Keys - {other}| == |counts| - 1;
    }
  }

  lemma {:induction false} DistinctMembers(s: seq<string>)
    requires NoDuplicates(s)
    ensures |set x | x in s| == |s|
  {
    if s != [] {
      var front, last := s[..|s| - 1], s[|s| - 1];
      DistinctMembers(front);
      assert s == front + [last];
      assert (set x | x in s) == (set x | x in front) + {last};
    }
  }

  lemma {:induction false} CardinalityMonotone(a: set<string>, b: set<string>)
    requires a <= b
    ensures |a| <= |b|
  {
    if a != {} {
      var x :| x in a;
      CardinalityMonotone(a - {x}, b - {x});
    }
  }

  lemma OrderedPrevalence(patterns: seq<FailurePattern>, i: nat, j: nat)
    requires SortedBy(patterns, Prevalence) && i < j < |patterns|
    ensures patterns[i].prevalence >= patterns[j].prevalence
  {
    assert Prevalence(patterns[i]) <= Prevalence(patterns[j]);
  }

  /** What `Analyze` reports as affected never names a service twice, so in a history of
      investigations every prevalence is such a fraction. */
  lemma AnalysedServicesDiffer(setting: Pipeline.Setting, req: Pipeline.Request, service: string, signals: Pipeline.Signals,
                               full: seq<TimelineEvent>, neighbors: seq<string>, shown: seq<ServiceGraphEdge>,
                               result: CorrelationResult)
    requires Pipeline.KnowsDeviations(setting, signals)
    requires Pipeline.IsAnalysis(setting, req, service, signals, full, neighbors, shown, result)
    ensures NamesDiffer(result.affectedServices)
    ensures forall s :: Count(result.affectedServices, IsNamed(s)) <= 1
  {
    hide FirstOccurrences, Pipeline.IsFinalTimeline, Pipeline.SuggestedServices, Pipeline.CausalityOf;
    var verdict := Pipeline.CausalityOf(setting, service, Timeline.Kept(full), signals.graph);
    var values := [service] + req.affectedServices + neighbors + Pipeline.SuggestedServices(setting, service, verdict);
    KeepsEachOnce(values);
    var kept := FirstOccurrences(values);
    assert kept == result.affectedServices;
    forall i, j | 0 <= i < j < |kept|
      ensures Named(kept[i]) != Named(kept[j])
    {
      assert kept[i] in kept && kept[j] in kept;
    }
    forall s
      ensures Count(kept, IsNamed(s)) <= 1
    {
      NamedAtMostOnce(kept, s);
    }
  }

  /** In general prevalence can exceed one: a correlation that lists a service twice counts twice. */
  lemma PrevalenceMayExceedOne(corr: CorrelationResult, patterns: seq<FailurePattern>)
    requires corr.affectedServices == ["a", "a"] && IsMined(patterns, [corr])
    ensures exists p <- patterns :: p.services == ["a"]
    ensures forall p <- patterns :: p.services == ["a"] ==> p.prevalence == 2.0
  {
    assert TimesAffected([corr], "a") == 2 by {
      assert [corr][..0] == [];
      assert ["a", "a"][..1] == ["a"] && ["a"][..0] == [];
      assert Count(["a"], IsNamed("a")) == 1;
      assert Count(["a", "a"], IsNamed("a")) == 2;
    }
    hide TimesAffected, IsMined, Mentions;
    MinedMeaning([corr], patterns);
  }
}
