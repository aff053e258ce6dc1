/** Go's `sort` package, as far as its callers rely on it. Keys are reals; the sort is ascending. */
module Sorting {
  ghost predicate SortedBy<T>(s: seq<T>, key: T -> real) {
    forall i, j :: 0 <= i < j < |s| ==> key(s[i]) <= key(s[j])
  }

  function Insert<T>(x: T, s: seq<T>, key: T -> real): (r: seq<T>)
    ensures |r| == |s| + 1
  {
    if s == [] || key(s[|s| - 1]) <= key(x) then s + [x]
    else Insert(x, s[..|s| - 1], key) + [s[|s| - 1]]
  }

  /** `sort.SliceStable`. */
  function StableSorted<T>(s: seq<T>, key: T -> real): (r: seq<T>)
    ensures |r| == |s|
  {
    if s == [] then [] else Insert(s[|s| - 1], StableSorted(s[..|s| - 1], key), key)
  }

  /** The elements of `s` with the given key, in the order of `s`. */
  function Tied<T>(s: seq<T>, key: T -> real, k: real): seq<T> {
    if s == [] then [] else
      var last := s[|s| - 1];
      Tied(s[..|s| - 1], key, k) + if key(last) == k then [last] else []
  }

  /** `sort.Slice`: sorted, with nothing lost or added, and no promise about the order of ties. */
  method SortSlice<T>(s: seq<T>, key: T -> real) returns (sorted: seq<T>)
    ensures SortedBy(sorted, key)
    ensures multiset(sorted) == multiset(s)
  {
    StableSortedIsSorted(s, key);
    StableSortedPermutes(s, key);
    sorted := StableSorted(s, key);
  }

  lemma {:induction false} InsertPermutes<T>(x: T, s: seq<T>, key: T -> real)
    ensures multiset(Insert(x, s, key)) == multiset(s) + multiset{x}
  {
    if s != [] && !(key(s[|s| - 1]) <= key(x)) {
      var front := s[..|s| - 1];
      InsertPermutes(x, front, key);
      assert s == front + [s[|s| - 1]];
    }
  }

  lemma {:induction false} InsertKeepsSorted<T>(x: T, s: seq<T>, key: T -> real)
    requires SortedBy(s, key)
    ensures SortedBy(Insert(x, s, key), key)
  {
    if s != [] && !(key(s[|s| - 1]) <= key(x)) {
      var front := s[..|s| - 1];
      InsertKeepsSorted(x, front, key);
      InsertPermutes(x, front, key);
      var inserted := Insert(x, front, key);
      forall i | 0 <= i < |inserted|
        ensures key(inserted[i]) <= key(s[|s| - 1])
      {
        assert inserted[i] in multiset(inserted);
        if inserted[i] != x {
          assert inserted[i] in multiset(front);
          var j :| 0 <= j < |front| && front[j] == inserted[i];
        }
      }
    }
  }

  lemma {:induction false} InsertIsStable<T>(x: T, s: seq<T>, key: T -> real, k: real)
    ensures Tied(Insert(x, s, key), key, k) == Tied(s, key, k) + if key(x) == k then [x] else []
  {
    if s == [] || key(s[|s| - 1]) <= key(x) {
      assert (s + [x])[..|s|] == s;
    } else {
      var front, last := s[..|s| - 1], s[|s| - 1];
      var inserted := Insert(x, front, key);
      InsertIsStable(x, front, key, k);
      assert (inserted + [last])[..|inserted|] == inserted;
      if key(x) == k {
        TiedBelow(s, key, k);
      }
    }
  }

  /** Insertion moves an element only past strictly greater keys, so ties keep their order. */
  lemma TiedBelow<T>(s: seq<T>, key: T -> real, k: real)
    requires s != [] && key(s[|s| - 1]) > k
    ensures Tied(s, key, k) == Tied(s[..|s| - 1], key, k)
  {
  }

  lemma {:induction false} StableSortedPermutes<T>(s: seq<T>, key: T -> real)
    ensures multiset(StableSorted(s, key)) == multiset(s)
  {
    if s != [] {
      var front := s[..|s| - 1];
      StableSortedPermutes(front, key);
      InsertPermutes(s[|s| - 1], StableSorted(front, key), key);
      assert s == front + [s[|s| - 1]];
    }
  }

  lemma {:induction false} StableSortedIsSorted<T>(s: seq<T>, key: T -> real)
    ensures SortedBy(StableSorted(s, key), key)
  {
    if s != [] {
      StableSortedIsSorted(s[..|s| - 1], key);
      InsertKeepsSorted(s[|s| - 1], StableSorted(s[..|s| - 1], key), key);
    }
  }

  lemma {:induction false} StableSortedIsStable<T>(s: seq<T>, key: T -> real, k: real)
    ensures Tied(StableSorted(s, key), key, k) == Tied(s, key, k)
  {
    if s != [] {
      StableSortedIsStable(s[..|s| - 1], key, k);
      InsertIsStable(s[|s| - 1], StableSorted(s[..|s| - 1], key), key, k);
    }
  }

  lemma {:induction false} TiedMember<T>(s: seq<T>, key: T -> real, i: nat)
    requires i < |s|
    ensures Tied(s, key, key(s[i])) != []
  {
    if i < |s| - 1 {
      TiedMember(s[..|s| - 1], key, i);
    }
  }

  lemma {:induction false} TiedFromMember<T>(s: seq<T>, key: T -> real, k: real)
    requires Tied(s, key, k) != []
    ensures exists i :: 0 <= i < |s| && key(s[i]) == k
  {
    if key(s[|s| - 1]) != k {
      TiedFromMember(s[..|s| - 1], key, k);
      var i :| 0 <= i < |s| - 1 && key(s[..|s| - 1][i]) == k;
      assert key(s[i]) == k;
    }
  }

  lemma TiedFront<T>(s: seq<T>, key: T -> real, k: real)
    requires s != []
    ensures var tied, last := Tied(s, key, k), s[|s| - 1];
            if key(last) == k then
              tied != [] && tied[|tied| - 1] == last && Tied(s[..|s| - 1], key, k) == tied[..|tied| - 1]
            else
              Tied(s[..|s| - 1], key, k) == tied
  {
  }

  lemma MaximalKeyIsLast<T>(s: seq<T>, key: T -> real, k: real)
    requires SortedBy(s, key) && Tied(s, key, k) != []
    ensures s != [] && k <= key(s[|s| - 1])
  {
    TiedFromMember(s, key, k);
  }

  lemma LastsAgree<T(!new)>(a: seq<T>, b: seq<T>, key: T -> real)
    requires SortedBy(a, key) && SortedBy(b, key) && a != [] && b != []
    requires forall k :: Tied(a, key, k) == Tied(b, key, k)
    ensures a[|a| - 1] == b[|b| - 1]
  {
    var ka, kb := key(a[|a| - 1]), key(b[|b| - 1]);
    TiedMember(a, key, |a| - 1);
    TiedMember(b, key, |b| - 1);
    assert Tied(a, key, ka) == Tied(b, key, ka);
    assert Tied(a, key, kb) == Tied(b, key, kb);
    MaximalKeyIsLast(a, key, kb);
    MaximalKeyIsLast(b, key, ka);
    TiedFront(a, key, ka);
    TiedFront(b, key, ka);
  }

  /** Sortedness and the order of ties leave no choice: they determine the result, so any stable
      sort returns `StableSorted`. */
  lemma {:induction false} StableSortIsUnique<T(!new)>(a: seq<T>, b: seq<T>, key: T -> real)
    requires SortedBy(a, key) && SortedBy(b, key)
    requires forall k :: Tied(a, key, k) == Tied(b, key, k)
    ensures a == b
  {
    if a == [] || b == [] {
      if a != [] {
        TiedMember(a, key, |a| - 1);
      } else if b != [] {
        TiedMember(b, key, |b| - 1);
      }
    } else {
      LastsAgree(a, b, key);
      var frontA, frontB := a[..|a| - 1], b[..|b| - 1];
      forall k ensures Tied(frontA, key, k) == Tied(frontB, key, k) {
        TiedFront(a, key, k);
        TiedFront(b, key, k);
        assert Tied(a, key, k) == Tied(b, key, k);
      }
      StableSortIsUnique(frontA, frontB, key);
      assert a == frontA + [a[|a| - 1]] && b == frontB + [b[|b| - 1]];
    }
  }

  function Identity(x: real): real {
    x
  }

  lemma SameMultisetSameMembers<T>(a: seq<T>, b: seq<T>, x: T)
    requires multiset(a) == multiset(b) && x in a
    ensures x in b
  {
    assert x in multiset(a);
  }

  lemma FrontMultiset<T>(s: seq<T>)
    requires s != []
    ensures multiset(s[..|s| - 1]) == multiset(s) - multiset{s[|s| - 1]}
  {
    assert s == s[..|s| - 1] + [s[|s| - 1]];
  }

  lemma SortedMaximum<T>(s: seq<T>, key: T -> real, x: T)
    requires SortedBy(s, key) && x in s
    ensures key(x) <= key(s[|s| - 1])
  {
  }

  /** Different elements of `s` have different keys. */
  ghost predicate Separates<T>(key: T -> real, s: seq<T>) {
    forall x, y :: x in s && y in s && key(x) == key(y) ==> x == y
  }

  lemma FrontSorted<T>(s: seq<T>, key: T -> real)
    requires s != [] && SortedBy(s, key)
    ensures SortedBy(s[..|s| - 1], key)
  {
  }

  lemma FrontSeparates<T>(key: T -> real, s: seq<T>)
    requires s != [] && Separates(key, s)
    ensures Separates(key, s[..|s| - 1])
  {
  }

  lemma SameLast<T>(a: seq<T>, b: seq<T>, key: T -> real)
    requires SortedBy(a, key) && SortedBy(b, key) && multiset(a) == multiset(b) && Separates(key, a)
    requires a != [] && b != []
    ensures a[|a| - 1] == b[|b| - 1]
  {
    var x, y := a[|a| - 1], b[|b| - 1];
    SameMultisetSameMembers(a, b, x);
    SameMultisetSameMembers(b, a, y);
    SortedMaximum(a, key, y);
    SortedMaximum(b, key, x);
  }

  lemma SameMultisetSameLength<T>(a: seq<T>, b: seq<T>)
    requires multiset(a) == multiset(b)
    ensures |a| == |b|
  {
    assert |multiset(a)| == |a| && |multiset(b)| == |b|;
  }

  /** When different elements have different keys there is only one sorted order at all. */
  lemma {:induction false} SortedPermutationIsUnique<T>(a: seq<T>, b: seq<T>, key: T -> real)
    requires SortedBy(a, key) && SortedBy(b, key) && multiset(a) == multiset(b)
    requires Separates(key, a)
    ensures a == b
  {
    hide SortedBy, Separates;
    SameMultisetSameLength(a, b);
    if a != [] {
      SameLast(a, b, key);
      FrontMultiset(a);
      FrontMultiset(b);
      FrontSorted(a, key);
      FrontSorted(b, key);
      FrontSeparates(key, a);
      SortedPermutationIsUnique(a[..|a| - 1], b[..|b| - 1], key);
      assert a == a[..|a| - 1] + [a[|a| - 1]] && b == b[..|b| - 1] + [b[|b| - 1]];
    }
  }

  /** `sort.Float64s`: equal numbers cannot be told apart, so the result is fixed. */
  method SortReals(values: seq<real>) returns (sorted: seq<real>)
    ensures sorted == StableSorted(values, Identity)
  {
    sorted := SortSlice(values, Identity);
    StableSortedIsSorted(values, Identity);
    StableSortedPermutes(values, Identity);
    SortedPermutationIsUnique(sorted, StableSorted(values, Identity), Identity);
  }

  /** Cutting a sorted sequence separates small keys from large ones and loses nothing. */
  lemma CutSeparates<T>(s: seq<T>, key: T -> real, cut: nat)
    requires SortedBy(s, key) && cut <= |s|
    ensures SortedBy(s[..cut], key)
    ensures forall a, b :: a in s[..cut] && b in s[cut..] ==> key(a) <= key(b)
    ensures multiset(s) - multiset(s[..cut]) == multiset(s[cut..])
    ensures multiset(s[..cut]) <= multiset(s)
  {
    forall a, b | a in s[..cut] && b in s[cut..]
      ensures key(a) <= key(b)
    {
      var i :| 0 <= i < cut && s[i] == a;
      var j :| cut <= j < |s| && s[j] == b;
    }
    assert s == s[..cut] + s[cut..];
  }
}
