/** Which elements of a list a loop that filters it reports, and in what order. */
module Selection {
  /** `at` is the positions of exactly the elements that pass the test, in order. */
  ghost predicate Picks<T>(at: seq<nat>, s: seq<T>, test: T -> bool) {
    && (forall k :: 0 <= k < |at| ==> at[k] < |s|)
    && (forall j, k :: 0 <= j < k < |at| ==> at[j] < at[k])
    && (forall i :: 0 <= i < |s| ==> (i in at <==> test(s[i])))
  }

  lemma PickNext<T>(at: seq<nat>, s: seq<T>, test: T -> bool) returns (longer: seq<nat>)
    requires s != [] && Picks(at, s[..|s| - 1], test)
    ensures Picks(longer, s, test)
    ensures longer == at + if test(s[|s| - 1]) then [|s| - 1] else []
  {
    var last: nat := |s| - 1;
    longer := at + if test(s[last]) then [last] else [];
    assert forall i :: 0 <= i < last ==> s[..last][i] == s[i];
    assert last !in at;
  }
}
