/** The read-through cache in front of the service graph (`FetchServiceGraph` in
    internal/repo/mirador_core.go) and the graph the pipeline takes from it (`FetchSignals` in
    internal/engine/pipeline.go). The backend never changes its answer. */
module ServiceGraphCache {
  import opened Options
  import opened Models
  import opened CacheKeys
  import opened Caching

  type Graph = seq<ServiceGraphEdge>

  datatype Query = Query(tenant: string, start: Time, end: Time)

  /** `backend` answers a request or fails; `rfc3339` formats a second. */
  datatype World = World(codec: Codec<Graph>, rfc3339: int -> string, backend: GraphRequest -> Option<Graph>)

  datatype Fetched = Fetched(edges: Graph) | Failed

  function KeyOf(q: Query): string {
    GraphKey(q.tenant, q.start, q.end)
  }

  function AnswerTo(world: World, q: Query): Option<Graph> {
    world.backend(RequestFor(world.rfc3339, q.tenant, q.start, q.end))
  }

  /** What a client without a cache returns: an empty graph is an error. */
  function Uncached(world: World, q: Query): Fetched {
    var answer := AnswerTo(world, q);
    if answer.None? || answer.value == [] then Failed else Fetched(answer.value)
  }

  /** One call with the cache switched on: the result and the cache it leaves. */
  function Fetch(world: World, cache: Cache, q: Query, io: Io): (Fetched, Cache) {
    var hit := Hit(world.codec, cache, KeyOf(q), io);
    if hit.Some? then (Fetched(hit.value), cache) else
      var answer := AnswerTo(world, q);
      if answer.None? then (Failed, cache)
      else (Uncached(world, q), Stored(world.codec, cache, KeyOf(q), answer.value, io))
  }

  /** The pipeline goes on without a graph when there is an error. */
  function PassedOn(fetched: Fetched): Graph {
    if fetched.Failed? then [] else fetched.edges
  }

  class MiradorCoreClient {
    const world: World
    const ttl: int
    var cache: Cache

    constructor (world: World, ttl: int, cache: Cache)
      ensures this.world == world && this.ttl == ttl && this.cache == cache
    {
      this.world, this.ttl, this.cache := world, ttl, cache;
    }

    method FetchServiceGraph(q: Query, io: Io) returns (result: Fetched)
      modifies this
      ensures if ttl > 0 then (result, cache) == Fetch(world, old(cache), q, io)
              else result == Uncached(world, q) && cache == old(cache)
    {
      var key := "";
      if ttl > 0 {
        key := KeyOf(q);
        if io.getOk && key in cache {
          var cached := world.codec.decode(cache[key]);
          if cached.Some? {
            return Fetched(cached.value);
          }
        }
      }
      var response := AnswerTo(world, q);
      if response.None? {
        return Failed;
      }
      var edges: Graph := [];
      for i := 0 to |response.value|
        invariant edges == response.value[..i]
      {
        edges := edges + [response.value[i]];
      }
      assert edges == response.value;
      assert key == "" <==> ttl <= 0;
      if ttl > 0 && key != "" && io.setOk {
        cache := cache[key := world.codec.encode(edges)];
      }
      if edges == [] {
        return Failed;
      }
      return Fetched(edges);
    }

    method FetchGraphSignal(q: Query, io: Io) returns (graph: Graph)
      modifies this
      ensures if ttl > 0 then (graph, cache) == (PassedOn(Fetch(world, old(cache), q, io).0), Fetch(world, old(cache), q, io).1)
              else graph == PassedOn(Uncached(world, q)) && cache == old(cache)
    {
      var fetched := FetchServiceGraph(q, io);
      graph := [];
      if fetched.Fetched? {
        graph := fetched.edges;
      }
    }
  }

  // ---------------------------------------------------------------- the cache tells the truth

  /** Every decodable entry under a graph key is the backend's answer to that request. */
  ghost predicate IsFaithful(world: World, cache: Cache) {
    forall q: Query :: KeyOf(q) in cache ==>
      var entry := world.codec.decode(cache[KeyOf(q)]);
      entry.Some? ==> AnswerTo(world, q) == entry
  }

  predicate IsGraphKey(key: string) {
    "servicegraph:" <= key
  }

  /** Nobody else writes a decodable entry under a graph key. */
  predicate IsHarmless(world: World, what: Disturbance) {
    match what
    case Lose(_) => true
    case Damage(_, junk) => world.codec.decode(junk).None?
    case Foreign(key, _) => !IsGraphKey(key)
  }

  lemma FetchKeepsFaith(world: World, cache: Cache, q: Query, io: Io)
    requires RoundTrips(world.codec) && IsFaithful(world, cache)
    ensures IsFaithful(world, Fetch(world, cache, q, io).1)
  {
    var after := Fetch(world, cache, q, io).1;
    forall other: Query | KeyOf(other) in after
      ensures var entry := world.codec.decode(after[KeyOf(other)]); entry.Some? ==> AnswerTo(world, other) == entry
    {
      if KeyOf(other) == KeyOf(q) {
        SameKeySameRequest(world.rfc3339, other.tenant, other.start, other.end, q.tenant, q.start, q.end);
      }
      hide GraphKey;
    }
  }

  lemma DisturbanceKeepsFaith(world: World, cache: Cache, what: Disturbance)
    requires IsFaithful(world, cache) && IsHarmless(world, what)
    ensures IsFaithful(world, Disturb(cache, what))
  {
    var after := Disturb(cache, what);
    forall q: Query | KeyOf(q) in after
      ensures var entry := world.codec.decode(after[KeyOf(q)]); entry.Some? ==> AnswerTo(world, q) == entry
    {
      assert IsGraphKey(KeyOf(q));
      hide GraphKey;
    }
  }

  /** With or without the cache, the pipeline is given the same graph. */
  lemma PipelineSeesSameGraph(world: World, cache: Cache, q: Query, io: Io)
    requires IsFaithful(world, cache)
    ensures PassedOn(Fetch(world, cache, q, io).0) == PassedOn(Uncached(world, q))
  {
    hide GraphKey;
  }

  /** The client itself is not transparent: it differs exactly when it finds an empty graph that an
      earlier call stored before reporting it as an error. */
  lemma ClientDiffersOnEmptyHit(world: World, cache: Cache, q: Query, io: Io)
    requires IsFaithful(world, cache)
    ensures Fetch(world, cache, q, io).0 != Uncached(world, q) <==>
            Hit(world.codec, cache, KeyOf(q), io) == Some([])
  {
    hide GraphKey;
  }

  /** So the first request for an empty graph fails and the second succeeds. */
  lemma EmptyGraphFailsOnlyOnce(world: World, q: Query)
    requires RoundTrips(world.codec) && AnswerTo(world, q) == Some([])
    ensures var first := Fetch(world, map[], q, Io(true, true));
            first.0 == Failed && Fetch(world, first.1, q, Io(true, true)).0 == Fetched([])
  {
    hide GraphKey;
  }

  /** A graph that was fetched and stored is served again without the backend: here the second call is
      made in a world whose backend may answer anything or nothing. */
  lemma StoredGraphIsServed(world: World, later: World, cache: Cache, q: Query, io: Io, setOk: bool)
    requires RoundTrips(world.codec) && later.codec == world.codec
    requires io.setOk && Fetch(world, cache, q, io).0.Fetched?
    ensures Fetch(later, Fetch(world, cache, q, io).1, q, Io(true, setOk)) == Fetch(world, cache, q, io)
  {
    hide GraphKey;
  }

  // ---------------------------------------------------------------- whole runs

  datatype Step = Ask(q: Query, io: Io) | Happens(what: Disturbance)

  /** The graphs handed to the pipeline in a run of calls and disturbances. */
  function GraphsSeen(world: World, cache: Cache, steps: seq<Step>): seq<Graph>
    decreases |steps|
  {
    if steps == [] then [] else
      match steps[0]
      case Ask(q, io) =>
        var (fetched, after) := Fetch(world, cache, q, io);
        [PassedOn(fetched)] + GraphsSeen(world, after, steps[1..])
      case Happens(what) => GraphsSeen(world, Disturb(cache, what), steps[1..])
  }

  function GraphsWithoutCache(world: World, steps: seq<Step>): seq<Graph> {
    if steps == [] then []
    else if steps[0].Ask? then [PassedOn(Uncached(world, steps[0].q))] + GraphsWithoutCache(world, steps[1..])
    else GraphsWithoutCache(world, steps[1..])
  }

  /** In every run, whatever is lost, damaged or written by others in between, the pipeline sees
      exactly the graphs it would see without a cache. */
  lemma {:induction false} CacheIsInvisibleToPipeline(world: World, cache: Cache, steps: seq<Step>)
    requires RoundTrips(world.codec) && IsFaithful(world, cache)
    requires forall step <- steps :: step.Happens? ==> IsHarmless(world, step.what)
    ensures GraphsSeen(world, cache, steps) == GraphsWithoutCache(world, steps)
    decreases |steps|
  {
    if steps != [] {
      hide Fetch, Disturb, IsFaithful, Uncached;
      match steps[0]
      case Ask(q, io) =>
        FetchKeepsFaith(world, cache, q, io);
        PipelineSeesSameGraph(world, cache, q, io);
        CacheIsInvisibleToPipeline(world, Fetch(world, cache, q, io).1, steps[1..]);
      case Happens(what) =>
        DisturbanceKeepsFaith(world, cache, what);
        CacheIsInvisibleToPipeline(world, Disturb(cache, what), steps[1..]);
    }
  }

  /** In particular in every run that starts with an empty cache. */
  lemma FreshCacheIsInvisible(world: World, steps: seq<Step>)
    requires RoundTrips(world.codec)
    requires forall step <- steps :: step.Happens? ==> IsHarmless(world, step.what)
    ensures GraphsSeen(world, map[], steps) == GraphsWithoutCache(world, steps)
  {
    assert IsFaithful(world, map[]);
    CacheIsInvisibleToPipeline(world, map[], steps);
  }
}
