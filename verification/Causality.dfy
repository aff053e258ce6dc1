/** Whether upstream services point to the cause (internal/engine/causality.go). */
module Causality {
  import opened Models
  import opened Reals
  import opened Timeline
  import opened Counting

  datatype CausalityResult = CausalityResult(score: real, notes: seq<string>, suggestedService: string)

  const NO_RESULT: CausalityResult := CausalityResult(0.0, [], "")
  const NO_EDGE: ServiceGraphEdge := ServiceGraphEdge("", "", 0.0, 0.0)

  predicate IsSet(edge: ServiceGraphEdge) {
    edge.source != "" || edge.target != ""
  }

  function Clamp(value: real, min: real, max: real): real {
    if value < min then min else if value > max then max else value
  }

  /** What one edge says about the root service. `Precedes` and `ErrorEvidence` support it. */
  datatype Verdict = Unrelated | ErrorEvidence | Silent | Precedes | Follows

  /** The time the sources are compared with: the first event of the root service, or the start of
      the timeline when there is none. */
  function RootTime(fold: string -> string, root: string, timeline: seq<TimelineEvent>): Time
    requires timeline != []
  {
    var time := FirstTime(fold, root, timeline);
    if time == ZERO_TIME then timeline[0].time else time
  }

  function VerdictOf(fold: string -> string, root: string, timeline: seq<TimelineEvent>, edge: ServiceGraphEdge): Verdict
    requires timeline != []
  {
    if !EqualFold(fold, edge.target, root) then Unrelated else
      var time := FirstTime(fold, edge.source, timeline);
      if time == ZERO_TIME then (if edge.errorRate > 0.0 then ErrorEvidence else Silent)
      else if time < RootTime(fold, root, timeline) then Precedes
      else Follows
  }

  function IsUpstream(fold: string -> string, root: string, timeline: seq<TimelineEvent>): ServiceGraphEdge -> bool
    requires timeline != []
  {
    edge => !VerdictOf(fold, root, timeline, edge).Unrelated?
  }

  function IsSupporting(fold: string -> string, root: string, timeline: seq<TimelineEvent>): ServiceGraphEdge -> bool
    requires timeline != []
  {
    edge =>
      var verdict := VerdictOf(fold, root, timeline, edge);
      verdict.Precedes? || verdict.ErrorEvidence?
  }

  function Upstream(fold: string -> string, root: string, timeline: seq<TimelineEvent>, edges: seq<ServiceGraphEdge>): nat
    requires timeline != []
  {
    Count(edges, IsUpstream(fold, root, timeline))
  }

  function Supporting(fold: string -> string, root: string, timeline: seq<TimelineEvent>, edges: seq<ServiceGraphEdge>): nat
    requires timeline != []
  {
    Count(edges, IsSupporting(fold, root, timeline))
  }

  /** The best supporting edge so far. The two kinds of support are compared by different rates. */
  function Better(verdict: Verdict, edge: ServiceGraphEdge, best: ServiceGraphEdge): ServiceGraphEdge {
    match verdict
    case ErrorEvidence => if !IsSet(best) || edge.errorRate > best.errorRate then edge else best
    case Precedes => if !IsSet(best) || edge.callRate > best.callRate then edge else best
    case _ => best
  }

  function Suggested(fold: string -> string, root: string, timeline: seq<TimelineEvent>, edges: seq<ServiceGraphEdge>): ServiceGraphEdge
    requires timeline != []
  {
    if edges == [] then NO_EDGE else
      var last := edges[|edges| - 1];
      Better(VerdictOf(fold, root, timeline, last), last, Suggested(fold, root, timeline, edges[..|edges| - 1]))
  }

  function NoteOf(verdict: Verdict, root: string, edge: ServiceGraphEdge): seq<string> {
    match verdict
    case ErrorEvidence => [edge.source + " error rate influencing " + root]
    case Precedes => [edge.source + " precedes " + root]
    case Follows => [edge.source + " occurs after root cause"]
    case _ => []
  }

  function Notes(fold: string -> string, root: string, timeline: seq<TimelineEvent>, edges: seq<ServiceGraphEdge>): seq<string>
    requires timeline != []
  {
    if edges == [] then [] else
      var last := edges[|edges| - 1];
      Notes(fold, root, timeline, edges[..|edges| - 1]) + NoteOf(VerdictOf(fold, root, timeline, last), root, last)
  }

  function ScoreOf(supporting: nat, upstream: nat): real {
    if upstream == 0 then 0.0 else 0.4 + 0.6 * (supporting as real / upstream as real)
  }

  /** Nothing can be said without a root service, a timeline and edges. */
  predicate CanJudge(root: string, timeline: seq<TimelineEvent>, edges: seq<ServiceGraphEdge>) {
    root != "" && edges != [] && timeline != []
  }

  function Result(fold: string -> string, root: string, timeline: seq<TimelineEvent>, edges: seq<ServiceGraphEdge>): CausalityResult {
    if !CanJudge(root, timeline, edges) then NO_RESULT else
      var upstream := Upstream(fold, root, timeline, edges);
      var notes := Notes(fold, root, timeline, edges);
      if upstream == 0 then CausalityResult(0.0, notes, "")
      else CausalityResult(ScoreOf(Supporting(fold, root, timeline, edges), upstream), notes,
                           Suggested(fold, root, timeline, edges).source)
  }

  method Evaluate(fold: string -> string, root: string, timeline: seq<TimelineEvent>, edges: seq<ServiceGraphEdge>)
    returns (result: CausalityResult)
    ensures result == Result(fold, root, timeline, edges)
  {
    result := NO_RESULT;
    if root == "" || edges == [] || timeline == [] {
      return;
    }
    var rootTime := FirstEventTime(fold, root, timeline);
    if rootTime == ZERO_TIME {
      rootTime := timeline[0].time;
    }
    hide EqualFold, FirstTime, IsSet;
    var totalUpstream, supporting, suggested, notes := 0, 0, NO_EDGE, [];
    for i := 0 to |edges|
      invariant totalUpstream == Upstream(fold, root, timeline, edges[..i])
      invariant supporting == Supporting(fold, root, timeline, edges[..i])
      invariant suggested == Suggested(fold, root, timeline, edges[..i])
      invariant notes == Notes(fold, root, timeline, edges[..i])
    {
      assert edges[..i + 1][..i] == edges[..i];
      var edge := edges[i];
      if !EqualFold(fold, edge.target, root) {
        continue;
      }
      totalUpstream := totalUpstream + 1;
      var srcTime := FirstEventTime(fold, edge.source, timeline);
      if srcTime == ZERO_TIME {
        if edge.errorRate > 0.0 {
          supporting := supporting + 1;
          notes := notes + [edge.source + " error rate influencing " + root];
          if !IsSet(suggested) || edge.errorRate > suggested.errorRate {
            suggested := edge;
          }
        }
        continue;
      }
      if srcTime < rootTime {
        supporting := supporting + 1;
        notes := notes + [edge.source + " precedes " + root];
        if !IsSet(suggested) || edge.callRate > suggested.callRate {
          suggested := edge;
        }
      } else {
        notes := notes + [edge.source + " occurs after root cause"];
      }
    }
    assert edges[..|edges|] == edges;
    if totalUpstream == 0 {
      return CausalityResult(0.0, notes, "");
    }
    var score := supporting as real / totalUpstream as real;
    ScoreRange(fold, root, timeline, edges);
    if score < 0.0 {
      score := 0.0;
    }
    if score > 1.0 {
      score := 1.0;
    }
    score := Clamp(0.4 + 0.6 * score, 0.0, 1.0);
    result := CausalityResult(score, notes, if IsSet(suggested) then suggested.source else "");
  }

  lemma ShareRange(supporting: nat, upstream: nat)
    requires supporting <= upstream && upstream > 0
    ensures 0.0 <= supporting as real / upstream as real <= 1.0
    ensures supporting as real / upstream as real == 1.0 <==> supporting == upstream
  {
    DivideCompare(supporting as real, upstream as real, 0.0);
    DivideCompare(supporting as real, upstream as real, 1.0);
  }

  /** The score is zero when no edge leads to the root service, and otherwise between 0.4 and 1; it
      is 1 exactly when every such edge supports the cause. */
  lemma ScoreRange(fold: string -> string, root: string, timeline: seq<TimelineEvent>, edges: seq<ServiceGraphEdge>)
    requires timeline != []
    ensures var upstream, supporting := Upstream(fold, root, timeline, edges), Supporting(fold, root, timeline, edges);
            var score := ScoreOf(supporting, upstream);
            && supporting <= upstream
            && (score == 0.0 || 0.4 <= score <= 1.0)
            && (score == 0.0 <==> forall edge <- edges :: VerdictOf(fold, root, timeline, edge).Unrelated?)
            && (upstream > 0 ==> 0.0 <= supporting as real / upstream as real <= 1.0)
            && (upstream > 0 ==> (score == 1.0 <==> supporting == upstream))
  {
    CountAtMost(edges, IsSupporting(fold, root, timeline), IsUpstream(fold, root, timeline));
    CountWhole(edges, IsUpstream(fold, root, timeline));
    if Upstream(fold, root, timeline, edges) > 0 {
      ShareRange(Supporting(fold, root, timeline, edges), Upstream(fold, root, timeline, edges));
    }
  }

  /** Every edge that leads to the root counts 1 if it supports the cause and 0.4 if not. */
  function Marks(fold: string -> string, root: string, timeline: seq<TimelineEvent>, edges: seq<ServiceGraphEdge>): real
    requires timeline != []
  {
    if edges == [] then 0.0 else
      var last := edges[|edges| - 1];
      Marks(fold, root, timeline, edges[..|edges| - 1]) +
      if !EqualFold(fold, last.target, root) then 0.0
      else if IsSupporting(fold, root, timeline)(last) then 1.0
      else 0.4
  }

  function LeadsTo(fold: string -> string, root: string): ServiceGraphEdge -> bool {
    (edge: ServiceGraphEdge) => EqualFold(fold, edge.target, root)
  }

  lemma {:induction false} MarksAre(fold: string -> string, root: string, timeline: seq<TimelineEvent>, edges: seq<ServiceGraphEdge>)
    requires timeline != []
    ensures Upstream(fold, root, timeline, edges) == Count(edges, LeadsTo(fold, root))
    ensures Marks(fold, root, timeline, edges) ==
            0.4 * Upstream(fold, root, timeline, edges) as real + 0.6 * Supporting(fold, root, timeline, edges) as real
  {
    if edges != [] {
      MarksAre(fold, root, timeline, edges[..|edges| - 1]);
    }
  }

  /** The score is the mean mark of the edges that lead to the root; so it is 0.4 when none of them
      supports the cause. */
  lemma ScoreIsMeanMark(fold: string -> string, root: string, timeline: seq<TimelineEvent>, edges: seq<ServiceGraphEdge>)
    requires CanJudge(root, timeline, edges)
    ensures var leading, score := Count(edges, LeadsTo(fold, root)), Result(fold, root, timeline, edges).score;
            && (leading == 0 ==> score == 0.0)
            && (leading > 0 ==> score == Marks(fold, root, timeline, edges) / leading as real)
            && (leading > 0 && (forall edge <- edges :: !IsSupporting(fold, root, timeline)(edge)) ==> score == 0.4)
  {
    hide Marks, Suggested, Notes, VerdictOf;
    MarksAre(fold, root, timeline, edges);
    var upstream, supporting := Upstream(fold, root, timeline, edges), Supporting(fold, root, timeline, edges);
    CountWhole(edges, IsSupporting(fold, root, timeline));
    if upstream > 0 {
      WeightedShare(supporting as real, upstream as real);
    }
  }

  lemma WeightedShare(supporting: real, upstream: real)
    requires upstream > 0.0
    ensures (0.4 * upstream + 0.6 * supporting) / upstream == 0.4 + 0.6 * (supporting / upstream)
  {
    var total, share := 0.4 * upstream + 0.6 * supporting, supporting / upstream;
    DivideBack(supporting, upstream);
    assert (0.4 + 0.6 * share) * upstream == 0.4 * upstream + 0.6 * (share * upstream);
    DivideCompare(total, upstream, 0.4 + 0.6 * share);
  }

  /** The score does not depend on the order in which the edges are listed. */
  lemma ScoreIgnoresEdgeOrder(fold: string -> string, root: string, timeline: seq<TimelineEvent>,
                              a: seq<ServiceGraphEdge>, b: seq<ServiceGraphEdge>)
    requires multiset(a) == multiset(b)
    ensures Result(fold, root, timeline, a).score == Result(fold, root, timeline, b).score
  {
    assert |a| == |multiset(a)| == |multiset(b)| == |b|;
    if CanJudge(root, timeline, a) {
      CountOfPermutation(a, b, IsUpstream(fold, root, timeline));
      CountOfPermutation(a, b, IsSupporting(fold, root, timeline));
    }
  }

  /** The suggested service does: one edge wins on error rate, the other on call rate. */
  lemma SuggestionDependsOnEdgeOrder()
    ensures exists fold: string -> string, timeline, a, b :: timeline != [] &&
              Suggested(fold, "r", timeline, [a, b]) == b && Suggested(fold, "r", timeline, [b, a]) == a && a != b
  {
    var fold: string -> string := s => s;
    var timeline := [TimelineEvent(1, "", "b", Low, 0.0, Traces), TimelineEvent(2, "", "r", Low, 0.0, Traces)];
    var a := ServiceGraphEdge("a", "r", 1.0, 5.0);
    var b := ServiceGraphEdge("b", "r", 10.0, 0.0);
    assert timeline[1..][1..] == [];
    assert timeline[1..][0].service == "r";
    assert FirstTime(fold, "a", timeline) == ZERO_TIME;
    assert FirstTime(fold, "b", timeline) == 1;
    assert FirstTime(fold, "r", timeline) == 2;
    assert VerdictOf(fold, "r", timeline, a) == ErrorEvidence && VerdictOf(fold, "r", timeline, b) == Precedes;
    assert [a, b][..1] == [a] && [b, a][..1] == [b];
    assert [a][..0] == [] && [b][..0] == [];
    assert Suggested(fold, "r", timeline, [a]) == a && Suggested(fold, "r", timeline, [b]) == b;
    assert Suggested(fold, "r", timeline, [a, b]) == b && Suggested(fold, "r", timeline, [b, a]) == a;
  }

  /** A suggestion is made exactly when some edge supports the cause, and it is such an edge. */
  lemma {:induction false} SuggestionIsSupported(fold: string -> string, root: string, timeline: seq<TimelineEvent>,
                                                 edges: seq<ServiceGraphEdge>)
    requires timeline != [] && root != "" && SeparatesEmpty(fold)
    ensures var best := Suggested(fold, root, timeline, edges);
            && (IsSet(best) <==> Supporting(fold, root, timeline, edges) > 0)
            && (IsSet(best) ==> best in edges && IsSupporting(fold, root, timeline)(best))
  {
    if edges != [] {
      SuggestionIsSupported(fold, root, timeline, edges[..|edges| - 1]);
      var last := edges[|edges| - 1];
      assert last.target == "" ==> !EqualFold(fold, root, last.target);
    }
  }

  /** The rate that edges of the same verdict are compared by. */
  function RateOf(verdict: Verdict, edge: ServiceGraphEdge): real {
    if verdict.Precedes? then edge.callRate else edge.errorRate
  }

  /** When all supporting edges support the cause in the same way, the suggested one is the first of
      those with the highest call rate (if they precede the root) or error rate (if they only fail). */
  lemma {:induction false} SuggestionHasHighestRate(fold: string -> string, root: string, timeline: seq<TimelineEvent>,
                                                    edges: seq<ServiceGraphEdge>, kind: Verdict) returns (at: nat)
    requires timeline != [] && root != "" && SeparatesEmpty(fold) && (kind.Precedes? || kind.ErrorEvidence?)
    requires Supporting(fold, root, timeline, edges) > 0
    requires forall edge <- edges :: IsSupporting(fold, root, timeline)(edge) ==> VerdictOf(fold, root, timeline, edge) == kind
    ensures at < |edges| && Suggested(fold, root, timeline, edges) == edges[at]
    ensures IsSupporting(fold, root, timeline)(edges[at])
    ensures forall j :: 0 <= j < |edges| && IsSupporting(fold, root, timeline)(edges[j]) ==>
              RateOf(kind, edges[j]) <= RateOf(kind, edges[at]) && (j < at ==> RateOf(kind, edges[j]) < RateOf(kind, edges[at]))
  {
    hide VerdictOf, SeparatesEmpty;
    var front, last := edges[..|edges| - 1], edges[|edges| - 1];
    FrontAndLast(edges);
    CountWhole(front, IsSupporting(fold, root, timeline));
    SuggestionIsSupported(fold, root, timeline, front);
    var best, supports := Suggested(fold, root, timeline, front), IsSupporting(fold, root, timeline)(last);
    assert Supporting(fold, root, timeline, edges) == Supporting(fold, root, timeline, front) + if supports then 1 else 0;
    hide Count;
    if Supporting(fold, root, timeline, front) == 0 {
      assert Suggested(fold, root, timeline, edges) == last;
      at := |front|;
    } else {
      var before := SuggestionHasHighestRate(fold, root, timeline, front, kind);
      var takesOver := supports && RateOf(kind, last) > RateOf(kind, best);
      assert Suggested(fold, root, timeline, edges) == if takesOver then last else best;
      hide Suggested;
      at := if takesOver then |front| else before;
    }
  }

  /** `winner` takes over from `loser` and never gives way to it. */
  predicate Dominates(fold: string -> string, root: string, timeline: seq<TimelineEvent>,
                      winner: ServiceGraphEdge, loser: ServiceGraphEdge)
    requires timeline != []
  {
    && Better(VerdictOf(fold, root, timeline, winner), winner, loser) == winner
    && Better(VerdictOf(fold, root, timeline, loser), loser, winner) == winner
  }

  /** No supporting edge but the winner itself resists it. */
  ghost predicate DominatesAll(fold: string -> string, root: string, timeline: seq<TimelineEvent>,
                               winner: ServiceGraphEdge, edges: seq<ServiceGraphEdge>)
    requires timeline != []
  {
    forall edge <- edges :: IsSupporting(fold, root, timeline)(edge) && edge != winner ==>
                              Dominates(fold, root, timeline, winner, edge)
  }

  lemma {:induction false} DominantEdgeIsSuggested(fold: string -> string, root: string, timeline: seq<TimelineEvent>,
                                                   edges: seq<ServiceGraphEdge>, winner: ServiceGraphEdge)
    requires timeline != [] && root != "" && SeparatesEmpty(fold)
    requires IsSupporting(fold, root, timeline)(winner) && DominatesAll(fold, root, timeline, winner, edges)
    ensures winner in edges ==> Suggested(fold, root, timeline, edges) == winner
  {
    if edges != [] {
      var front, last := edges[..|edges| - 1], edges[|edges| - 1];
      assert edges == front + [last];
      DominantEdgeIsSuggested(fold, root, timeline, front, winner);
      SuggestionIsSupported(fold, root, timeline, front);
      var best := Suggested(fold, root, timeline, front);
      assert IsSet(best) ==> best in edges;
      if last == winner {
        assert IsSet(best) && best != winner ==> Dominates(fold, root, timeline, winner, best);
      } else {
        assert last in edges;
      }
    }
  }

  // The other direction: an edge that is not dominated can be listed so that the winner loses.

  function Copies(edge: ServiceGraphEdge, count: nat): (copies: seq<ServiceGraphEdge>)
    ensures |copies| == count && forall x <- copies :: x == edge
  {
    if count == 0 then [] else Copies(edge, count - 1) + [edge]
  }

  lemma {:induction false} CopiesAre(edge: ServiceGraphEdge, count: nat)
    ensures multiset(Copies(edge, count)) == multiset{}[edge := count]
  {
    if count > 0 {
      CopiesAre(edge, count - 1);
    }
  }

  /** Every multiset of edges can be listed. */
  lemma {:induction false} Listing(edges: multiset<ServiceGraphEdge>) returns (listed: seq<ServiceGraphEdge>)
    ensures multiset(listed) == edges
    decreases |edges|
  {
    if edges == multiset{} {
      listed := [];
    } else {
      var edge :| edge in edges;
      var rest := Listing(edges - multiset{edge});
      listed := rest + [edge];
    }
  }

  /** Without the winner among them, further edges cannot make it win. */
  lemma {:induction false} NeverTheWinner(fold: string -> string, root: string, timeline: seq<TimelineEvent>,
                                          before: seq<ServiceGraphEdge>, rest: seq<ServiceGraphEdge>, winner: ServiceGraphEdge)
    requires timeline != [] && winner !in rest && Suggested(fold, root, timeline, before) != winner
    ensures Suggested(fold, root, timeline, before + rest) != winner
  {
    if rest == [] {
      assert before + rest == before;
    } else {
      var front, last := rest[..|rest| - 1], rest[|rest| - 1];
      assert (before + rest)[..|before + rest| - 1] == before + front;
      assert winner !in front;
      NeverTheWinner(fold, root, timeline, before, front, winner);
      assert last in rest;
    }
  }

  lemma {:induction false} CopiesChangeNothing(fold: string -> string, root: string, timeline: seq<TimelineEvent>,
                                               before: seq<ServiceGraphEdge>, edge: ServiceGraphEdge, count: nat)
    requires timeline != []
    requires var best := Suggested(fold, root, timeline, before);
             Better(VerdictOf(fold, root, timeline, edge), edge, best) == best
    ensures Suggested(fold, root, timeline, before + Copies(edge, count)) == Suggested(fold, root, timeline, before)
  {
    if count == 0 {
      assert before + [] == before;
    } else {
      var longer := before + Copies(edge, count);
      assert longer[..|longer| - 1] == before + Copies(edge, count - 1);
      CopiesChangeNothing(fold, root, timeline, before, edge, count - 1);
    }
  }

  lemma OneEdge(fold: string -> string, root: string, timeline: seq<TimelineEvent>, edge: ServiceGraphEdge)
    requires timeline != [] && IsSupporting(fold, root, timeline)(edge)
    ensures Suggested(fold, root, timeline, [edge]) == edge
  {
    assert [edge][..0] == [];
  }

  lemma {:induction false} OnlyCopies(fold: string -> string, root: string, timeline: seq<TimelineEvent>,
                                      edge: ServiceGraphEdge, count: nat)
    requires timeline != [] && count > 0 && IsSupporting(fold, root, timeline)(edge)
    ensures Suggested(fold, root, timeline, Copies(edge, count)) == edge
  {
    if count == 1 {
      assert Copies(edge, 1) == [edge];
      OneEdge(fold, root, timeline, edge);
    } else {
      OnlyCopies(fold, root, timeline, edge, count - 1);
      OneMoreEdge(fold, root, timeline, Copies(edge, count - 1), edge);
    }
  }

  /** An edge that supports the cause replaces the best one so far or leaves it. */
  lemma OneMoreEdge(fold: string -> string, root: string, timeline: seq<TimelineEvent>,
                    before: seq<ServiceGraphEdge>, edge: ServiceGraphEdge)
    requires timeline != []
    ensures Suggested(fold, root, timeline, before + [edge]) ==
            Better(VerdictOf(fold, root, timeline, edge), edge, Suggested(fold, root, timeline, before))
  {
    assert (before + [edge])[..|before|] == before;
  }

  /** The copies of the winner and a rival it does not dominate, so ordered that the rival wins. */
  lemma RivalFirst(fold: string -> string, root: string, timeline: seq<TimelineEvent>,
                   winner: ServiceGraphEdge, rival: ServiceGraphEdge, count: nat) returns (start: seq<ServiceGraphEdge>)
    requires timeline != [] && rival != winner && count > 0
    requires IsSupporting(fold, root, timeline)(winner) && IsSupporting(fold, root, timeline)(rival)
    requires !Dominates(fold, root, timeline, winner, rival)
    ensures multiset(start) == multiset{rival} + multiset{}[winner := count]
    ensures Suggested(fold, root, timeline, start) == rival
  {
    hide Suggested, VerdictOf, IsSupporting;
    CopiesAre(winner, count);
    if Better(VerdictOf(fold, root, timeline, winner), winner, rival) != winner {
      OneEdge(fold, root, timeline, rival);
      CopiesChangeNothing(fold, root, timeline, [rival], winner, count);
      start := [rival] + Copies(winner, count);
    } else {
      OnlyCopies(fold, root, timeline, winner, count);
      OneMoreEdge(fold, root, timeline, Copies(winner, count), rival);
      start := Copies(winner, count) + [rival];
    }
  }

  lemma RivalCanWin(fold: string -> string, root: string, timeline: seq<TimelineEvent>, edges: seq<ServiceGraphEdge>,
                    winner: ServiceGraphEdge, rival: ServiceGraphEdge) returns (order: seq<ServiceGraphEdge>)
    requires timeline != [] && winner in edges && rival in edges && rival != winner
    requires IsSupporting(fold, root, timeline)(winner) && IsSupporting(fold, root, timeline)(rival)
    requires !Dominates(fold, root, timeline, winner, rival)
    ensures multiset(order) == multiset(edges) && Suggested(fold, root, timeline, order) != winner
  {
    hide Suggested, VerdictOf, IsSupporting, Dominates;
    var all := multiset(edges);
    assert winner in all && rival in all;
    var start := RivalFirst(fold, root, timeline, winner, rival, all[winner]);
    var rest := Listing(all - multiset(start));
    assert multiset(start) <= all;
    assert winner !in multiset(rest);
    NeverTheWinner(fold, root, timeline, start, rest, winner);
    order := start + rest;
  }

  /** An edge is suggested in whatever order the edges are listed exactly when it dominates every
      other edge that supports the cause. */
  lemma SuggestionIsStableWhenDominant(fold: string -> string, root: string, timeline: seq<TimelineEvent>,
                                       edges: seq<ServiceGraphEdge>, winner: ServiceGraphEdge)
    requires timeline != [] && root != "" && SeparatesEmpty(fold)
    requires winner in edges && IsSupporting(fold, root, timeline)(winner)
    ensures (forall order :: multiset(order) == multiset(edges) ==> Suggested(fold, root, timeline, order) == winner) <==>
            DominatesAll(fold, root, timeline, winner, edges)
  {
    hide Suggested, VerdictOf, IsSupporting, Dominates;
    if DominatesAll(fold, root, timeline, winner, edges) {
      forall order | multiset(order) == multiset(edges)
        ensures Suggested(fold, root, timeline, order) == winner
      {
        forall edge
          ensures edge in order <==> edge in edges
        {
          assert edge in order <==> edge in multiset(order);
          assert edge in edges <==> edge in multiset(edges);
        }
        DominantEdgeIsSuggested(fold, root, timeline, order, winner);
      }
    } else {
      var rival :| rival in edges && IsSupporting(fold, root, timeline)(rival) && rival != winner
                   && !Dominates(fold, root, timeline, winner, rival);
      var order := RivalCanWin(fold, root, timeline, edges, winner, rival);
    }
  }

  // ---------------------------------------------------------------- who came first

  /** When the root service has no (timed) event on a chronological timeline, nothing precedes it. */
  lemma NothingPrecedesTheStart(fold: string -> string, root: string, timeline: seq<TimelineEvent>, edge: ServiceGraphEdge)
    requires timeline != [] && IsChronological(timeline) && FirstTime(fold, root, timeline) == ZERO_TIME
    ensures VerdictOf(fold, root, timeline, edge) != Precedes
  {
    if Appears(fold, edge.source, timeline) {
      FirstIsEarliest(fold, edge.source, timeline);
      var time := FirstTime(fold, edge.source, timeline);
      var event :| event in timeline && event.time == time;
      var i :| 0 <= i < |timeline| && timeline[i] == event;
      assert i > 0 ==> TimeKey(timeline[0]) <= TimeKey(timeline[i]);
    } else {
      AbsentHasNoTime(fold, edge.source, timeline);
    }
  }

  lemma EarlierIsListedFirst(events: seq<TimelineEvent>, i: nat, k: nat)
    requires IsChronological(events) && i < |events| && k < |events| && events[i].time < events[k].time
    ensures i < k
  {
    assert k < i ==> TimeKey(events[k]) <= TimeKey(events[i]);
  }

  lemma EarlierIsKept(fold: string -> string, root: string, source: string, full: seq<TimelineEvent>, s: Time, r: Time)
    requires IsChronological(full) && Appears(fold, root, Kept(full))
    requires IsEarliest(fold, root, full, r) && IsEarliest(fold, source, full, s) && s < r
    ensures Appears(fold, source, Kept(full))
  {
    var kept := Kept(full);
    var shown :| shown in kept && Concerns(fold, shown, root);
    var k :| 0 <= k < |kept| && kept[k] == shown;
    assert full[k] in full && r <= full[k].time;
    var first :| first in full && Concerns(fold, first, source) && first.time == s;
    var i :| 0 <= i < |full| && full[i] == first;
    EarlierIsListedFirst(full, i, k);
    assert kept[i] == first;
  }

  lemma EarliestIsUnique(fold: string -> string, service: string, events: seq<TimelineEvent>, a: Time, b: Time)
    requires IsEarliest(fold, service, events, a) && IsEarliest(fold, service, events, b)
    ensures a == b
  {
  }

  /** The first events of root and source, over all the anomalies: both have a real time, the
      source's is strictly earlier, and the root's made it onto the timeline. */
  ghost predicate ReallyPrecedes(fold: string -> string, root: string, source: string, full: seq<TimelineEvent>) {
    Appears(fold, root, Kept(full)) &&
    exists s: Time, r: Time ::
      && IsEarliest(fold, source, full, s) && IsEarliest(fold, root, full, r)
      && s != ZERO_TIME && r != ZERO_TIME && s < r
  }

  /** A "precedes" verdict reached on the truncated timeline is right about all the anomalies, and
      truncation hides no precedence as long as the root's own first anomaly is shown. */
  lemma PrecedesIsSoundAndComplete(fold: string -> string, root: string, full: seq<TimelineEvent>, edge: ServiceGraphEdge)
    requires full != [] && IsChronological(full) && EqualFold(fold, edge.target, root)
    ensures VerdictOf(fold, root, Kept(full), edge) == Precedes <==> ReallyPrecedes(fold, root, edge.source, full)
  {
    var kept := Kept(full);
    assert IsChronological(kept);
    var s, r := FirstTime(fold, edge.source, kept), FirstTime(fold, root, kept);
    if VerdictOf(fold, root, kept, edge) == Precedes {
      if r == ZERO_TIME {
        NothingPrecedesTheStart(fold, root, kept, edge);
      } else {
        PresentWhenTimed(fold, edge.source, kept);
        PresentWhenTimed(fold, root, kept);
        EarliestSurvivesTruncation(fold, edge.source, full);
        EarliestSurvivesTruncation(fold, root, full);
      }
    }
    if ReallyPrecedes(fold, root, edge.source, full) {
      var s', r' :| IsEarliest(fold, edge.source, full, s') && IsEarliest(fold, root, full, r')
                    && s' != ZERO_TIME && r' != ZERO_TIME && s' < r';
      EarlierIsKept(fold, root, edge.source, full, s', r');
      EarliestSurvivesTruncation(fold, edge.source, full);
      EarliestSurvivesTruncation(fold, root, full);
      EarliestIsUnique(fold, edge.source, full, s, s');
      EarliestIsUnique(fold, root, full, r, r');
    }
  }

  /** The service's first shown event has a real time. */
  ghost predicate IsTimed(fold: string -> string, service: string, timeline: seq<TimelineEvent>) {
    exists time: Time :: time != ZERO_TIME && IsEarliest(fold, service, timeline, time)
  }

  lemma TimedMeans(fold: string -> string, service: string, timeline: seq<TimelineEvent>)
    requires IsChronological(timeline)
    ensures IsTimed(fold, service, timeline) <==> FirstTime(fold, service, timeline) != ZERO_TIME
  {
    if Appears(fold, service, timeline) {
      FirstIsEarliest(fold, service, timeline);
      forall time: Time | IsEarliest(fold, service, timeline, time)
        ensures time == FirstTime(fold, service, timeline)
      {
        EarliestIsUnique(fold, service, timeline, time, FirstTime(fold, service, timeline));
      }
    } else {
      AbsentHasNoTime(fold, service, timeline);
    }
  }

  /** Which edges support the cause, over all the anomalies: those that lead to the root and whose
      source either really precedes it, or shows no timed event but has errors. */
  lemma SupportMeans(fold: string -> string, root: string, full: seq<TimelineEvent>, edge: ServiceGraphEdge)
    requires full != [] && IsChronological(full)
    ensures IsSupporting(fold, root, Kept(full))(edge) <==>
            EqualFold(fold, edge.target, root) &&
            (ReallyPrecedes(fold, root, edge.source, full) ||
             (!IsTimed(fold, edge.source, Kept(full)) && edge.errorRate > 0.0))
  {
    var kept := Kept(full);
    assert IsChronological(kept);
    hide Kept, FirstTime, ReallyPrecedes, IsTimed;
    TimedMeans(fold, edge.source, kept);
    if EqualFold(fold, edge.target, root) {
      PrecedesIsSoundAndComplete(fold, root, full, edge);
    }
  }

  lemma PresentWhenTimed(fold: string -> string, service: string, events: seq<TimelineEvent>)
    ensures FirstTime(fold, service, events) != ZERO_TIME ==> Appears(fold, service, events)
  {
    if !Appears(fold, service, events) {
      AbsentHasNoTime(fold, service, events);
    }
  }
}
