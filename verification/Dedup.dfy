/** Order-preserving removal of duplicates and empty strings: `uniqueStrings` in
    internal/engine/pipeline.go and `appendUnique` in internal/engine/recommend.go. */
module Dedup {
  /** The non-empty strings of `values`, each at its first occurrence. */
  function FirstOccurrences(values: seq<string>): seq<string> {
    if values == [] then [] else
      var front, last := values[..|values| - 1], values[|values| - 1];
      FirstOccurrences(front) + if last != "" && last !in front then [last] else []
  }

  /** `existing`, then every addition that is neither empty nor there yet. */
  function Appended(existing: seq<string>, additions: seq<string>): seq<string> {
    if additions == [] then existing else
      var before, last := Appended(existing, additions[..|additions| - 1]), additions[|additions| - 1];
      before + if last != "" && last !in before then [last] else []
  }

  predicate NoDuplicates<T(==)>(values: seq<T>) {
    forall i, j :: 0 <= i < j < |values| ==> values[i] != values[j]
  }

  method UniqueStrings(values: seq<string>) returns (result: seq<string>)
    ensures result == FirstOccurrences(values)
  {
    var seen: set<string> := {};
    result := [];
    for i := 0 to |values|
      invariant result == FirstOccurrences(values[..i])
      invariant forall v :: v in seen <==> v in values[..i] && v != ""
    {
      assert values[..i + 1][..i] == values[..i];
      assert values[..i + 1] == values[..i] + [values[i]];
      var v := values[i];
      if v == "" {
        continue;
      }
      if v in seen {
        continue;
      }
      seen := seen + {v};
      result := result + [v];
    }
    assert values[..|values|] == values;
  }

  method AppendUnique(existing: seq<string>, additions: seq<string>) returns (result: seq<string>)
    ensures result == Appended(existing, additions)
  {
    var seen: set<string> := {};
    for i := 0 to |existing|
      invariant forall v :: v in seen <==> v in existing[..i]
    {
      assert existing[..i + 1] == existing[..i] + [existing[i]];
      seen := seen + {existing[i]};
    }
    assert existing[..|existing|] == existing;
    result := existing;
    for i := 0 to |additions|
      invariant result == Appended(existing, additions[..i])
      invariant forall v :: v in seen <==> v in result
    {
      assert additions[..i + 1][..i] == additions[..i];
      var item := additions[i];
      if item == "" {
        continue;
      }
      if item in seen {
        continue;
      }
      result := result + [item];
      seen := seen + {item};
    }
    assert additions[..|additions|] == additions;
  }

  /** Nothing but empty strings is lost, and nothing is kept twice. */
  lemma {:induction false} KeepsEachOnce(values: seq<string>)
    ensures forall v :: v in FirstOccurrences(values) <==> v in values && v != ""
    ensures NoDuplicates(FirstOccurrences(values))
  {
    if values != [] {
      var front, last := values[..|values| - 1], values[|values| - 1];
      assert values == front + [last];
      KeepsEachOnce(front);
    }
  }

  /** What is kept stays in the order in which the values first appear. */
  lemma {:induction false} KeepsOrder(values: seq<string>, i: nat, j: nat)
    requires i < j < |FirstOccurrences(values)|
    ensures var kept := FirstOccurrences(values);
            exists m, n :: 0 <= m < n < |values| && values[m] == kept[i] && values[n] == kept[j] && kept[j] !in values[..n]
  {
    var kept, front, last := FirstOccurrences(values), values[..|values| - 1], values[|values| - 1];
    if j < |FirstOccurrences(front)| {
      KeepsOrder(front, i, j);
      var m, n :| 0 <= m < n < |front| && front[m] == kept[i] && front[n] == kept[j] && kept[j] !in front[..n];
      assert values[m] == kept[i] && values[n] == kept[j] && values[..n] == front[..n];
    } else {
      KeepsEachOnce(front);
      assert kept[i] in FirstOccurrences(front);
      var m :| 0 <= m < |front| && front[m] == kept[i];
      var n := |values| - 1;
      assert values[m] == kept[i] && values[n] == kept[j] && kept[j] !in values[..n];
    }
  }

  /** Appending without duplicates to a deduplicated list is deduplicating the whole. */
  lemma {:induction false} AppendedIsUnique(a: seq<string>, b: seq<string>)
    ensures Appended(FirstOccurrences(a), b) == FirstOccurrences(a + b)
  {
    if b == [] {
      assert a + b == a;
    } else {
      var front, last := b[..|b| - 1], b[|b| - 1];
      AppendedIsUnique(a, front);
      KeepsEachOnce(a + front);
      assert (a + b)[..|a + b| - 1] == a + front;
    }
  }

  /** Deduplicating in two steps is deduplicating once. */
  lemma {:induction false} UniqueTwice(a: seq<string>, b: seq<string>)
    ensures FirstOccurrences(FirstOccurrences(a) + b) == FirstOccurrences(a + b)
  {
    if b == [] {
      assert a + b == a;
      assert FirstOccurrences(a) + b == FirstOccurrences(a);
      UniqueAgain(a);
    } else {
      var front, last, once := b[..|b| - 1], b[|b| - 1], FirstOccurrences(a);
      UniqueTwice(a, front);
      KeepsEachOnce(a);
      hide NoDuplicates;
      assert (a + b)[..|a + b| - 1] == a + front;
      assert (once + b)[..|once + b| - 1] == once + front;
      assert last in once + front <==> last in once || last in front;
    }
  }

  lemma {:induction false} UniqueAgain(a: seq<string>)
    ensures FirstOccurrences(FirstOccurrences(a)) == FirstOccurrences(a)
  {
    if a != [] {
      var front, last := a[..|a| - 1], a[|a| - 1];
      UniqueAgain(front);
      KeepsEachOnce(front);
      if last != "" && last !in front {
        assert (FirstOccurrences(front) + [last])[..|FirstOccurrences(front)|] == FirstOccurrences(front);
      } else {
        assert FirstOccurrences(front) + [] == FirstOccurrences(front);
      }
    }
  }
}
