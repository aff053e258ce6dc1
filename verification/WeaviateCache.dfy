/** The read-through caches in front of Weaviate (`SimilarIncidents` and `FetchPatterns` in
    internal/repo/weaviate_repo.go). When the backend cannot be reached, synthetic records are
    returned instead. Records are of an arbitrary type. */
module WeaviateCache {
  import opened Options
  import opened CacheKeys
  import opened Caching

  datatype Query =
    | Similar(tenant: string, symptoms: seq<string>, limit: int)
    | Patterns(tenant: string, service: string)

  /** What the backend holds (it looks at tenant and limit, or tenant and service, only) and what
      is made up when it does not answer. */
  datatype World<!R> = World(codec: Codec<seq<R>>, incidents: (string, int) -> seq<R>,
                             patterns: (string, string) -> seq<R>, synthetic: Query -> seq<R>)

  function KeyOf(q: Query): string {
    match q
    case Similar(tenant, symptoms, limit) => SimilarKey(tenant, symptoms, limit)
    case Patterns(tenant, service) => PatternKey(tenant, service)
  }

  function AnswerTo<R>(world: World<R>, q: Query): seq<R> {
    match q
    case Similar(tenant, _, limit) => world.incidents(tenant, limit)
    case Patterns(tenant, service) => world.patterns(tenant, service)
  }

  /** One call with the cache switched on. `reachable` says whether the backend answers. */
  function LookUp<R>(world: World<R>, cache: Cache, q: Query, io: Io, reachable: bool): (seq<R>, Cache) {
    var hit := Hit(world.codec, cache, KeyOf(q), io);
    if hit.Some? then (hit.value, cache)
    else if !reachable then (world.synthetic(q), cache)
    else
      var answer := AnswerTo(world, q);
      (answer, if answer == [] then cache else Stored(world.codec, cache, KeyOf(q), answer, io))
  }

  class WeaviateRepo<R(==)> {
    const world: World<R>
    const endpoint: string
    const similarTtl: int
    const patternTtl: int
    var cache: Cache

    constructor (world: World<R>, endpoint: string, similarTtl: int, patternTtl: int, cache: Cache)
      ensures this.world == world && this.endpoint == endpoint && this.cache == cache
      ensures this.similarTtl == similarTtl && this.patternTtl == patternTtl
    {
      this.world, this.endpoint, this.cache := world, endpoint, cache;
      this.similarTtl, this.patternTtl := similarTtl, patternTtl;
    }

    function Ttl(q: Query): int {
      if q.Similar? then similarTtl else patternTtl
    }

    /** Synthetic records without an endpoint, the plain backend without a time to live. */
    function Asked(before: Cache, q: Query, io: Io, reachable: bool): (seq<R>, Cache) {
      if endpoint == "" then (world.synthetic(q), before)
      else if Ttl(q) > 0 then LookUp(world, before, q, io, reachable)
      else (if reachable then AnswerTo(world, q) else world.synthetic(q), before)
    }

    method Ask(q: Query, io: Io, reachable: bool) returns (records: seq<R>)
      modifies this
      ensures (records, cache) == Asked(old(cache), q, io, reachable)
    {
      if endpoint == "" {
        return world.synthetic(q);
      }
      var key := "";
      if Ttl(q) > 0 {
        key := KeyOf(q);
        if io.getOk && key in cache {
          var cached := world.codec.decode(cache[key]);
          if cached.Some? {
            return cached.value;
          }
        }
      }
      if !reachable {
        return world.synthetic(q);
      }
      var response := AnswerTo(world, q);
      records := [];
      for i := 0 to |response|
        invariant records == response[..i]
      {
        records := records + [response[i]];
      }
      assert records == response;
      assert key == "" <==> Ttl(q) <= 0;
      if Ttl(q) > 0 && key != "" && |records| > 0 && io.setOk {
        cache := cache[key := world.codec.encode(records)];
      }
    }

    method SimilarIncidents(tenant: string, symptoms: seq<string>, limit: int, io: Io, reachable: bool)
      returns (records: seq<R>)
      modifies this
      ensures (records, cache) == Asked(old(cache), Similar(tenant, symptoms, limit), io, reachable)
      ensures endpoint != "" && similarTtl > 0 ==>
                (records, cache) == LookUp(world, old(cache), Similar(tenant, symptoms, limit), io, reachable)
      ensures endpoint == "" || similarTtl <= 0 ==> cache == old(cache)
    {
      records := Ask(Similar(tenant, symptoms, limit), io, reachable);
    }

    method FetchPatterns(tenant: string, service: string, io: Io, reachable: bool) returns (records: seq<R>)
      modifies this
      ensures (records, cache) == Asked(old(cache), Patterns(tenant, service), io, reachable)
      ensures endpoint != "" && patternTtl > 0 ==>
                (records, cache) == LookUp(world, old(cache), Patterns(tenant, service), io, reachable)
      ensures endpoint == "" || patternTtl <= 0 ==> cache == old(cache)
    {
      records := Ask(Patterns(tenant, service), io, reachable);
    }
  }

  // ---------------------------------------------------------------- who shares keys

  /** The tenants that ask for similar incidents and those that ask for patterns. */
  datatype Tenants = Tenants(similar: iset<string>, patterns: iset<string>)

  predicate Covers(tenants: Tenants, q: Query) {
    if q.Similar? then q.tenant in tenants.similar else q.tenant in tenants.patterns
  }

  /** No two of them have names nested in a way that lets them share a key. */
  ghost predicate AreApart(tenants: Tenants) {
    && (forall t, t' :: t in tenants.similar && t' in tenants.similar && ShareSimilarKeys(t, t') ==> t == t')
    && (forall t, t' :: t in tenants.patterns && t' in tenants.patterns && SharePatternKeys(t, t') ==> t == t')
  }

  ghost predicate NeverShareKeys(tenants: Tenants) {
    forall a: Query, b: Query :: Covers(tenants, a) && Covers(tenants, b) && KeyOf(a) == KeyOf(b) ==> a.tenant == b.tenant
  }

  lemma SameKeySameKind(a: Query, b: Query)
    requires KeyOf(a) == KeyOf(b)
    ensures a.Similar? <==> b.Similar?
  {
    match (a, b)
    case (Similar(t, s, l), Patterns(t', s')) => KindsDoNotClash("", 0, 0, t, s, l, t', s');
    case (Patterns(t, s), Similar(t', s', l')) => KindsDoNotClash("", 0, 0, t', s', l', t, s);
    case _ =>
  }

  lemma SameKeyShares(a: Query, b: Query)
    requires KeyOf(a) == KeyOf(b)
    ensures a.Similar? ==> b.Similar? && ShareSimilarKeys(a.tenant, b.tenant)
    ensures a.Patterns? ==> b.Patterns? && SharePatternKeys(a.tenant, b.tenant)
  {
    SameKeySameKind(a, b);
    match a
    case Similar(t, s, l) => SimilarKeysAreSharedWhen(t, b.tenant);
    case Patterns(t, s) => PatternKeysAreSharedWhen(t, b.tenant);
  }

  /** The condition on the names is exact. */
  lemma ApartMeansNoSharedKeys(tenants: Tenants)
    ensures AreApart(tenants) <==> NeverShareKeys(tenants)
  {
    hide ShareSimilarKeys, SharePatternKeys, SimilarKey, PatternKey;
    if AreApart(tenants) {
      forall a: Query, b: Query | Covers(tenants, a) && Covers(tenants, b) && KeyOf(a) == KeyOf(b)
        ensures a.tenant == b.tenant
      {
        SameKeyShares(a, b);
      }
    }
    if NeverShareKeys(tenants) {
      forall t, t' | t in tenants.similar && t' in tenants.similar && ShareSimilarKeys(t, t')
        ensures t == t'
      {
        SimilarKeysAreSharedWhen(t, t');
        var s, l, s', l' :| SimilarKey(t, s, l) == SimilarKey(t', s', l');
        assert KeyOf(Similar(t, s, l)) == KeyOf(Similar(t', s', l'));
      }
      forall t, t' | t in tenants.patterns && t' in tenants.patterns && SharePatternKeys(t, t')
        ensures t == t'
      {
        PatternKeysAreSharedWhen(t, t');
        var s, s' :| PatternKey(t, s) == PatternKey(t', s');
        assert KeyOf(Patterns(t, s)) == KeyOf(Patterns(t', s'));
      }
    }
  }

  /** Names without colons are always apart. */
  lemma NoColonsAreApart(tenants: Tenants)
    requires forall t :: t in tenants.similar || t in tenants.patterns ==> ':' !in t
    ensures AreApart(tenants)
  {
    hide ShareSimilarKeys, SharePatternKeys;
    forall t, t'
      ensures ShareSimilarKeys(t, t') ==> SharePatternKeys(t, t')
      ensures ':' !in t && ':' !in t' && SharePatternKeys(t, t') ==> t == t'
    {
      SharingNeedsAColon(t, t');
    }
  }

  /** Among tenants that are apart, queries with the same key have the same answer. */
  lemma SameKeySameAnswer<R>(world: World<R>, tenants: Tenants, a: Query, b: Query)
    requires AreApart(tenants) && Covers(tenants, a) && Covers(tenants, b) && KeyOf(a) == KeyOf(b)
    ensures AnswerTo(world, a) == AnswerTo(world, b)
  {
    ApartMeansNoSharedKeys(tenants);
    SameKeySameKind(a, b);
    assert a.tenant == b.tenant;
    SameTenant(a, b);
  }

  lemma SameTenant(a: Query, b: Query)
    requires a.tenant == b.tenant && KeyOf(a) == KeyOf(b) && (a.Similar? <==> b.Similar?)
    ensures if a.Similar? then a.limit == b.limit else a.service == b.service
  {
    match (a, b)
    case (Similar(t, s, l), Similar(_, s', l')) => SimilarKeyIsExact(t, s, l, t, s', l');
    case (Patterns(t, s), Patterns(_, s')) => PatternKeyIsExact(t, s, t, s');
  }

  // ---------------------------------------------------------------- what the cache holds

  predicate IsWeaviateKey(key: string) {
    "weaviate:" <= key
  }

  /** `records` is the non-empty answer of the backend to some query of the tenants with this key. */
  ghost predicate IsRealAnswer<R(!new)>(world: World<R>, key: string, records: seq<R>, tenants: Tenants) {
    exists q: Query :: KeyOf(q) == key && Covers(tenants, q) && AnswerTo(world, q) == records && records != []
  }

  /** Every decodable entry under a Weaviate key is a real, non-empty backend answer. */
  ghost predicate IsGenuine<R(!new)>(world: World<R>, cache: Cache, tenants: Tenants) {
    forall key :: key in cache && IsWeaviateKey(key) ==>
      var entry := world.codec.decode(cache[key]);
      entry.Some? ==> IsRealAnswer(world, key, entry.value, tenants)
  }

  predicate IsHarmless<R>(world: World<R>, what: Disturbance) {
    match what
    case Lose(_) => true
    case Damage(_, junk) => world.codec.decode(junk).None?
    case Foreign(key, _) => !IsWeaviateKey(key)
  }

  /** No call ever stores a synthetic or an empty answer. */
  lemma LookUpKeepsGenuine<R(!new)>(world: World<R>, cache: Cache, q: Query, io: Io, reachable: bool, tenants: Tenants)
    requires RoundTrips(world.codec) && IsGenuine(world, cache, tenants) && Covers(tenants, q)
    ensures IsGenuine(world, LookUp(world, cache, q, io, reachable).1, tenants)
  {
    var after := LookUp(world, cache, q, io, reachable).1;
    hide KeyOf, Covers;
    forall key | key in after && IsWeaviateKey(key)
      ensures var entry := world.codec.decode(after[key]);
              entry.Some? ==> IsRealAnswer(world, key, entry.value, tenants)
    {
      if key == KeyOf(q) && after != cache {
        assert IsRealAnswer(world, key, AnswerTo(world, q), tenants);
      }
    }
  }

  lemma DisturbanceKeepsGenuine<R(!new)>(world: World<R>, cache: Cache, what: Disturbance, tenants: Tenants)
    requires IsGenuine(world, cache, tenants) && IsHarmless(world, what)
    ensures IsGenuine(world, Disturb(cache, what), tenants)
  {
    hide IsRealAnswer, IsWeaviateKey;
  }

  lemma KeysAreWeaviateKeys(q: Query)
    ensures IsWeaviateKey(KeyOf(q))
  {
    match q
    case Similar(t, s, l) =>
      assert SimilarKey(t, s, l)[..9] == "weaviate:";
    case Patterns(t, s) =>
      assert PatternKey(t, s)[..9] == "weaviate:";
  }

  /** Among tenants that are apart, a call whose backend answers returns that answer, cached or not;
      one whose backend does not answer returns the same from the cache, or synthetic records. */
  lemma LookUpAnswers<R(!new)>(world: World<R>, cache: Cache, q: Query, io: Io, reachable: bool, tenants: Tenants)
    requires AreApart(tenants) && IsGenuine(world, cache, tenants) && Covers(tenants, q)
    ensures var records := LookUp(world, cache, q, io, reachable).0;
            if Hit(world.codec, cache, KeyOf(q), io).Some? || reachable then records == AnswerTo(world, q)
            else records == world.synthetic(q)
  {
    KeysAreWeaviateKeys(q);
    hide KeyOf, IsWeaviateKey, AreApart, Covers;
    var hit := Hit(world.codec, cache, KeyOf(q), io);
    if hit.Some? {
      assert IsRealAnswer(world, KeyOf(q), hit.value, tenants);
      var other: Query :| KeyOf(other) == KeyOf(q) && Covers(tenants, other) && AnswerTo(world, other) == hit.value;
      SameKeySameAnswer(world, tenants, q, other);
    }
  }

  /** Queries with the same key are mixed up: the second is served the answer to the first. */
  lemma SharedKeysMixAnswers<R(!new)>(world: World<R>, a: Query, b: Query)
    requires RoundTrips(world.codec) && KeyOf(a) == KeyOf(b) && AnswerTo(world, a) != []
    ensures var first := LookUp(world, map[], a, Io(true, true), true);
            LookUp(world, first.1, b, Io(true, true), true).0 == AnswerTo(world, a)
  {
    hide KeyOf;
  }

  /** Records that were found and stored are served again without the backend. */
  lemma StoredRecordsAreServed<R(!new)>(world: World<R>, later: World<R>, cache: Cache, q: Query, io: Io, setOk: bool, reachable: bool)
    requires RoundTrips(world.codec) && later.codec == world.codec
    requires io.setOk && LookUp(world, cache, q, io, true).0 != []
    ensures LookUp(later, LookUp(world, cache, q, io, true).1, q, Io(true, setOk), reachable) == LookUp(world, cache, q, io, true)
  {
    hide KeyOf;
  }

  /** For instance, one tenant may be served another's patterns. */
  lemma ColonsMixTenants<R(!new)>(world: World<R>)
    requires RoundTrips(world.codec) && world.patterns("a:b", "c") != []
    ensures var first := LookUp(world, map[], Patterns("a:b", "c"), Io(true, true), true);
            LookUp(world, first.1, Patterns("a", "b:c"), Io(true, true), true).0 == AnswerTo(world, Patterns("a:b", "c"))
  {
    TenantsWithColonsCollide();
    SharedKeysMixAnswers(world, Patterns("a:b", "c"), Patterns("a", "b:c"));
  }

  // ---------------------------------------------------------------- whole runs

  datatype Step = Call(q: Query, io: Io, reachable: bool) | Happens(what: Disturbance)

  function CacheAfter<R>(world: World<R>, cache: Cache, steps: seq<Step>): Cache {
    if steps == [] then cache else
      var before, last := CacheAfter(world, cache, steps[..|steps| - 1]), steps[|steps| - 1];
      match last
      case Call(q, io, reachable) => LookUp(world, before, q, io, reachable).1
      case Happens(what) => Disturb(before, what)
  }

  predicate IsLegalStep<R>(world: World<R>, step: Step, tenants: Tenants) {
    match step
    case Call(q, _, _) => Covers(tenants, q)
    case Happens(what) => IsHarmless(world, what)
  }

  ghost predicate IsLegal<R>(world: World<R>, steps: seq<Step>, tenants: Tenants) {
    forall i :: 0 <= i < |steps| ==> IsLegalStep(world, steps[i], tenants)
  }

  /** After any run from an empty cache, every stored entry is a non-empty answer of the backend,
      whatever the tenants are called. */
  lemma {:induction false} CacheStaysGenuine<R(!new)>(world: World<R>, steps: seq<Step>, tenants: Tenants)
    requires RoundTrips(world.codec) && IsLegal(world, steps, tenants)
    ensures IsGenuine(world, CacheAfter(world, map[], steps), tenants)
  {
    if steps != [] {
      var before, last := CacheAfter(world, map[], steps[..|steps| - 1]), steps[|steps| - 1];
      assert IsLegalStep(world, last, tenants);
      hide IsGenuine, LookUp, Disturb;
      CacheStaysGenuine(world, steps[..|steps| - 1], tenants);
      match last
      case Call(q, io, reachable) => LookUpKeepsGenuine(world, before, q, io, reachable, tenants);
      case Happens(what) => DisturbanceKeepsGenuine(world, before, what, tenants);
    } else {
      EmptyCacheIsGenuine(world, tenants);
    }
  }

  lemma EmptyCacheIsGenuine<R(!new)>(world: World<R>, tenants: Tenants)
    ensures IsGenuine(world, map[], tenants)
  {
  }

  /** At any point of any run, a call that reaches the backend cannot tell whether there is a cache. */
  ghost predicate IsInvisible<R(!new)>(world: World<R>, tenants: Tenants) {
    forall steps, q, io :: IsLegal(world, steps, tenants) && Covers(tenants, q) ==>
      LookUp(world, CacheAfter(world, map[], steps), q, io, true).0 == AnswerTo(world, q)
  }

  /** For tenants that are apart, the cache is invisible in every world; */
  lemma CacheIsInvisible<R(!new)>(world: World<R>, tenants: Tenants)
    requires RoundTrips(world.codec) && AreApart(tenants)
    ensures IsInvisible(world, tenants)
  {
    forall steps, q, io | IsLegal(world, steps, tenants) && Covers(tenants, q)
      ensures LookUp(world, CacheAfter(world, map[], steps), q, io, true).0 == AnswerTo(world, q)
    {
      CacheStaysGenuine(world, steps, tenants);
      LookUpAnswers(world, CacheAfter(world, map[], steps), q, io, true, tenants);
    }
  }

  /** A world whose records tell the tenant they belong to. */
  function Telling(): World<char> {
    World(Codec(records => records, text => Some(text)),
          (tenant, limit) => tenant + ".", (tenant, service) => tenant + ".", q => "")
  }

  /** and not otherwise: here it shows exactly when two tenants are not apart. */
  lemma CacheShowsUnlessApart(tenants: Tenants)
    ensures RoundTrips(Telling().codec)
    ensures IsInvisible(Telling(), tenants) <==> AreApart(tenants)
  {
    hide AreApart;
    if AreApart(tenants) {
      CacheIsInvisible(Telling(), tenants);
    } else {
      ApartMeansNoSharedKeys(tenants);
      var a: Query, b: Query :| Covers(tenants, a) && Covers(tenants, b) && KeyOf(a) == KeyOf(b) && a.tenant != b.tenant;
      SharedKeysShow(tenants, a, b);
    }
  }

  lemma SharedKeysShow(tenants: Tenants, a: Query, b: Query)
    requires Covers(tenants, a) && Covers(tenants, b) && KeyOf(a) == KeyOf(b) && a.tenant != b.tenant
    ensures !IsInvisible(Telling(), tenants)
  {
    hide KeyOf, Covers;
    var world, io := Telling(), Io(true, true);
    var steps := [Call(a, io, true)];
    assert IsLegalStep(world, steps[0], tenants);
    assert CacheAfter(world, map[], steps) == LookUp(world, map[], a, io, true).1 by {
      assert steps[..0] == [];
    }
    SharedKeysMixAnswers(world, a, b);
    assert AnswerTo(world, a) == a.tenant + "." && AnswerTo(world, b) == b.tenant + ".";
    assert (a.tenant + ".")[..|a.tenant|] == a.tenant && (b.tenant + ".")[..|b.tenant|] == b.tenant;
    assert LookUp(world, CacheAfter(world, map[], steps), b, io, true).0 != AnswerTo(world, b);
  }
}
