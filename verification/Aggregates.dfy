/** What the pattern miner learns about each service, as a fold over the updates it makes
    (internal/patterns/miner.go), and the heap objects it keeps that in. */
module Aggregates {
  import opened Models

  /** `ensureAggregate` books anonymous services under one name. */
  function Named(service: string): string {
    if service == "" then "unknown" else service
  }

  /** The three ways in which a correlation touches a service. An anchor without a selector only
      makes the service known. */
  datatype Update =
    | Seen(service: string, at: Time)
    | Anchored(service: string, selector: string, score: real, at: Time)
    | Totalled(service: string)

  datatype View = View(count: nat, total: nat, lastSeen: Time, counts: map<string, nat>, scores: map<string, real>)

  const NOTHING: View := View(0, 0, ZERO_TIME, map[], map[])

  function Later(a: Time, b: Time): Time {
    if b > a then b else a
  }

  function CountOf(counts: map<string, nat>, selector: string): nat {
    if selector in counts then counts[selector] else 0
  }

  function ScoreOf(scores: map<string, real>, selector: string): real {
    if selector in scores then scores[selector] else 0.0
  }

  function Apply(view: View, update: Update): View {
    match update
    case Seen(_, at) => view.(count := view.count + 1, lastSeen := Later(view.lastSeen, at))
    case Anchored(_, selector, score, at) =>
      if selector == "" then view
      else view.(counts := view.counts[selector := CountOf(view.counts, selector) + 1],
                 scores := view.scores[selector := ScoreOf(view.scores, selector) + score],
                 lastSeen := Later(view.lastSeen, at))
    case Totalled(_) => view.(total := view.total + 1)
  }

  /** The state of one service after the given updates. */
  function Aggregate(updates: seq<Update>, service: string): View {
    if updates == [] then NOTHING else
      var before, last := Aggregate(updates[..|updates| - 1], service), updates[|updates| - 1];
      if last.service == service then Apply(before, last) else before
  }

  predicate IsKnown(updates: seq<Update>, service: string) {
    exists u <- updates :: u.service == service
  }

  class ServiceAggregate {
    var count: nat
    var totalCorrelations: nat
    var lastSeen: Time
    var anchorCounts: map<string, nat>
    var anchorScores: map<string, real>

    constructor ()
      ensures State() == NOTHING
    {
      count, totalCorrelations, lastSeen := 0, 0, ZERO_TIME;
      anchorCounts, anchorScores := map[], map[];
    }

    function State(): View
      reads this
    {
      View(count, totalCorrelations, lastSeen, anchorCounts, anchorScores)
    }

    /** The loop bodies of `Mine`, field by field. */
    method Book(update: Update)
      modifies this
      ensures State() == Apply(old(State()), update)
    {
      match update {
        case Seen(_, at) =>
          count := count + 1;
          if at > lastSeen {
            lastSeen := at;
          }
        case Anchored(_, selector, score, at) =>
          if selector == "" {
            return;
          }
          anchorCounts := anchorCounts[selector := CountOf(anchorCounts, selector) + 1];
          anchorScores := anchorScores[selector := ScoreOf(anchorScores, selector) + score];
          if at > lastSeen {
            lastSeen := at;
          }
        case Totalled(_) =>
          totalCorrelations := totalCorrelations + 1;
      }
    }
  }

  /** The miner's map from services to aggregates. `updates` records what has been booked. */
  class ServiceStats {
    var byService: map<string, ServiceAggregate>
    ghost var updates: seq<Update>

    /** Each known service has its own object, which holds exactly the fold of its updates. */
    ghost predicate Valid()
      reads this, byService.Values
    {
      (forall s :: s in byService <==> IsKnown(updates, s)) && Consistent()
    }

    ghost predicate Consistent()
      reads this, byService.Values
    {
      && (forall s, t :: s in byService && t in byService && s != t ==> byService[s] != byService[t])
      && (forall s :: s in byService ==> byService[s].State() == Aggregate(updates, s))
    }

    constructor ()
      ensures Valid() && updates == [] && byService == map[]
    {
      byService, updates := map[], [];
    }

    /** `ensureAggregate`: the object of a service, made on first use. */
    method EnsureAggregate(service: string) returns (agg: ServiceAggregate)
      requires Valid()
      modifies this`byService
      ensures Consistent() && Named(service) in byService && byService[Named(service)] == agg
      ensures if Named(service) in old(byService) then byService == old(byService)
              else fresh(agg) && byService == old(byService)[Named(service) := agg]
    {
      var name := if service == "" then "unknown" else service;
      if name in byService {
        agg := byService[name];
      } else {
        UnknownIsNothing(updates, name);
        agg := new ServiceAggregate();
        byService := byService[name := agg];
      }
    }

    /** Finds the service's aggregate, or makes one, and books the update on it. */
    method Book(service: string, update: Update)
      requires Valid() && update.service == Named(service)
      modifies this, byService.Values
      ensures Valid() && updates == old(updates) + [update]
      ensures fresh(byService.Values - old(byService.Values))
    {
      hide Aggregate, IsKnown, Apply, ServiceAggregate.State, Named;
      BookKeeping(updates, update);
      var agg := EnsureAggregate(service);
      agg.Book(update);
      updates := updates + [update];
    }
  }

  /** One more update changes one service only. */
  lemma BookKeeping(updates: seq<Update>, update: Update)
    ensures forall s :: Aggregate(updates + [update], s) ==
                        if s == update.service then Apply(Aggregate(updates, s), update) else Aggregate(updates, s)
    ensures forall s :: IsKnown(updates + [update], s) <==> s == update.service || IsKnown(updates, s)
    ensures !IsKnown(updates, update.service) ==> Aggregate(updates, update.service) == NOTHING
  {
    assert (updates + [update])[..|updates|] == updates;
    assert update in updates + [update];
    if !IsKnown(updates, update.service) {
      UnknownIsNothing(updates, update.service);
    }
  }

  lemma {:induction false} UnknownIsNothing(updates: seq<Update>, service: string)
    requires !IsKnown(updates, service)
    ensures Aggregate(updates, service) == NOTHING
  {
    if updates != [] {
      assert updates[|updates| - 1] in updates;
      assert forall u <- updates[..|updates| - 1] :: u in updates;
      UnknownIsNothing(updates[..|updates| - 1], service);
    }
  }
}
