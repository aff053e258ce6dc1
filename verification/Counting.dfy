/** Counting the elements of a sequence that pass a test. */
module Counting {
  function Count<T>(s: seq<T>, test: T -> bool): (count: nat)
    ensures count <= |s|
  {
    if s == [] then 0 else Count(s[..|s| - 1], test) + if test(s[|s| - 1]) then 1 else 0
  }

  lemma {:induction false} CountConcat<T>(a: seq<T>, b: seq<T>, test: T -> bool)
    ensures Count(a + b, test) == Count(a, test) + Count(b, test)
  {
    if b == [] {
      assert a + b == a;
    } else {
      assert (a + b)[..|a + b| - 1] == a + b[..|b| - 1];
      CountConcat(a, b[..|b| - 1], test);
    }
  }

  lemma CountOne<T>(x: T, test: T -> bool)
    ensures Count([x], test) == if test(x) then 1 else 0
  {
    assert [x][..0] == [];
  }

  lemma CountMiddle<T>(before: seq<T>, x: T, after: seq<T>, test: T -> bool)
    ensures Count(before + ([x] + after), test) == Count(before + after, test) + if test(x) then 1 else 0
  {
    hide Count;
    CountConcat(before, [x] + after, test);
    CountConcat([x], after, test);
    CountConcat(before, after, test);
    CountOne(x, test);
  }

  lemma TakeOut<T>(s: seq<T>, j: nat)
    requires j < |s|
    ensures s == s[..j] + ([s[j]] + s[j + 1..])
    ensures multiset(s[..j] + s[j + 1..]) == multiset(s) - multiset{s[j]}
  {
    assert s == s[..j] + ([s[j]] + s[j + 1..]);
  }

  /** Taking an element out of the middle. */
  lemma CountWithout<T>(s: seq<T>, j: nat, test: T -> bool)
    requires j < |s|
    ensures Count(s, test) == Count(s[..j] + s[j + 1..], test) + if test(s[j]) then 1 else 0
    ensures multiset(s[..j] + s[j + 1..]) == multiset(s) - multiset{s[j]}
  {
    hide Count;
    TakeOut(s, j);
    CountMiddle(s[..j], s[j], s[j + 1..], test);
  }

  /** The order of the elements does not matter. */
  lemma {:induction false} CountOfPermutation<T>(a: seq<T>, b: seq<T>, test: T -> bool)
    requires multiset(a) == multiset(b)
    ensures Count(a, test) == Count(b, test)
  {
    if a == [] {
      assert |multiset(b)| == 0;
    } else {
      hide Count;
      var last := a[|a| - 1];
      CountWithout(a, |a| - 1, test);
      assert a[..|a| - 1] + a[|a|..] == a[..|a| - 1];
      assert last in multiset(b);
      var j :| 0 <= j < |b| && b[j] == last;
      CountWithout(b, j, test);
      CountOfPermutation(a[..|a| - 1], b[..j] + b[j + 1..], test);
    }
  }

  lemma FrontAndLast<T>(s: seq<T>)
    requires s != []
    ensures forall x :: x in s <==> x in s[..|s| - 1] || x == s[|s| - 1]
  {
    assert s == s[..|s| - 1] + [s[|s| - 1]];
  }

  lemma {:induction false} CountWhole<T>(s: seq<T>, test: T -> bool)
    ensures Count(s, test) == |s| <==> forall x <- s :: test(x)
    ensures Count(s, test) > 0 <==> exists x <- s :: test(x)
  {
    if s != [] {
      var front, last := s[..|s| - 1], s[|s| - 1];
      assert Count(s, test) == Count(front, test) + if test(last) then 1 else 0;
      hide Count;
      CountWhole(front, test);
      FrontAndLast(s);
    }
  }

  lemma {:induction false} CountAtMost<T>(s: seq<T>, some: T -> bool, more: T -> bool)
    requires forall x <- s :: some(x) ==> more(x)
    ensures Count(s, some) <= Count(s, more)
    ensures Count(s, some) == Count(s, more) <==> forall x <- s :: more(x) ==> some(x)
  {
    if s != [] {
      var front, last := s[..|s| - 1], s[|s| - 1];
      assert Count(s, some) == Count(front, some) + if some(last) then 1 else 0;
      assert Count(s, more) == Count(front, more) + if more(last) then 1 else 0;
      hide Count;
      FrontAndLast(s);
      CountAtMost(front, some, more);
    }
  }
}
