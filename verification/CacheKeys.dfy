/** The keys under which answers are cached (internal/repo/mirador_core.go,
    internal/repo/weaviate_repo.go) and what can be told from them. */
module CacheKeys {
  import opened Decimal
  import opened Models
  import Sorting

  // ---------------------------------------------------------------- separators

  /** `at` is the first (last, when `first` is false) position of `c`. */
  ghost predicate IsEndmost(s: string, c: char, at: nat, first: bool) {
    && at < |s| && s[at] == c
    && forall i :: 0 <= i < |s| && (if first then i < at else i > at) ==> s[i] != c
  }

  lemma EndmostIsUnique(s: string, c: char, a: nat, b: nat, first: bool)
    requires IsEndmost(s, c, a, first) && IsEndmost(s, c, b, first)
    ensures a == b
  {
  }

  lemma SplitAt(a: string, b: string, a': string, b': string, c: char, first: bool)
    requires if first then c !in a && c !in a' else c !in b && c !in b'
    ensures a + [c] + b == a' + [c] + b' <==> a == a' && b == b'
  {
    var s, s' := a + [c] + b, a' + [c] + b';
    assert IsEndmost(s, c, |a|, first);
    assert IsEndmost(s', c, |a'|, first);
    if s == s' {
      EndmostIsUnique(s, c, |a|, |a'|, first);
      assert s[..|a|] == a && s'[..|a'|] == a';
      assert s[|a| + 1..] == b && s'[|a'| + 1..] == b';
    }
  }

  lemma DropPrefix(prefix: string, a: string, b: string)
    ensures prefix + a == prefix + b <==> a == b
  {
    assert (prefix + a)[|prefix|..] == a;
    assert (prefix + b)[|prefix|..] == b;
  }

  // ---------------------------------------------------------------- the service graph

  const SECOND: int := 1_000_000_000
  const UNIX_EPOCH: int := 62_135_596_800

  /** `Time.Unix`: whole seconds since 1970, rounded down. */
  function UnixSeconds(time: Time): int {
    time / SECOND - UNIX_EPOCH
  }

  function GraphKey(tenant: string, start: Time, end: Time): string {
    "servicegraph:" + (tenant + ":" + Itoa(UnixSeconds(start)) + ":" + Itoa(UnixSeconds(end)))
  }

  /** The request sent on a miss. Times are formatted to the second (RFC 3339, section 5.6), in UTC. */
  datatype GraphRequest = GraphRequest(tenant: string, start: string, end: string)

  function RequestFor(rfc3339: int -> string, tenant: string, start: Time, end: Time): GraphRequest {
    GraphRequest(tenant, rfc3339(UnixSeconds(start)), rfc3339(UnixSeconds(end)))
  }

  /** Whatever the tenant is called, its key tells the tenant and the two seconds. */
  lemma GraphKeyIsInjective(tenant: string, start: Time, end: Time, tenant': string, start': Time, end': Time)
    ensures GraphKey(tenant, start, end) == GraphKey(tenant', start', end') <==>
            tenant == tenant' && start / 1_000_000_000 == start' / 1_000_000_000 && end / 1_000_000_000 == end' / 1_000_000_000
  {
    var s, e, s', e' := UnixSeconds(start), UnixSeconds(end), UnixSeconds(start'), UnixSeconds(end');
    hide Itoa;
    DropPrefix("servicegraph:", tenant + ":" + Itoa(s) + ":" + Itoa(e), tenant' + ":" + Itoa(s') + ":" + Itoa(e'));
    NoColon(s);
    NoColon(e);
    NoColon(s');
    NoColon(e');
    SplitAt(tenant + ":" + Itoa(s), Itoa(e), tenant' + ":" + Itoa(s'), Itoa(e'), ':', false);
    SplitAt(tenant, Itoa(s), tenant', Itoa(s'), ':', false);
    ItoaInjective(s, s');
    ItoaInjective(e, e');
  }

  lemma NoColon(n: int)
    ensures ':' !in Itoa(n)
  {
    ItoaCharacters(n, ':');
  }

  /** So requests that share a key are the same request. */
  lemma SameKeySameRequest(rfc3339: int -> string, tenant: string, start: Time, end: Time,
                           tenant': string, start': Time, end': Time)
    requires GraphKey(tenant, start, end) == GraphKey(tenant', start', end')
    ensures RequestFor(rfc3339, tenant, start, end) == RequestFor(rfc3339, tenant', start', end')
  {
    GraphKeyIsInjective(tenant, start, end, tenant', start', end');
  }

  /** And different keys mean different requests, as different seconds are formatted differently. */
  lemma SameRequestSameKey(rfc3339: int -> string, tenant: string, start: Time, end: Time,
                           tenant': string, start': Time, end': Time)
    requires forall a, b :: rfc3339(a) == rfc3339(b) ==> a == b
    ensures GraphKey(tenant, start, end) == GraphKey(tenant', start', end') <==>
            RequestFor(rfc3339, tenant, start, end) == RequestFor(rfc3339, tenant', start', end')
  {
    GraphKeyIsInjective(tenant, start, end, tenant', start', end');
    hide GraphKey;
  }

  // ---------------------------------------------------------------- sorting symptoms

  /** Go's order on strings: byte by byte, a prefix first. */
  predicate AtMost(a: string, b: string) {
    a == "" || (b != "" && (a[0] < b[0] || (a[0] == b[0] && AtMost(a[1..], b[1..]))))
  }

  lemma {:induction false} AtMostIsTotal(a: string, b: string)
    ensures AtMost(a, b) || AtMost(b, a)
    ensures AtMost(a, b) && AtMost(b, a) ==> a == b
  {
    if a != "" && b != "" {
      AtMostIsTotal(a[1..], b[1..]);
      assert a == [a[0]] + a[1..] && b == [b[0]] + b[1..];
    }
  }

  lemma {:induction false} AtMostIsTransitive(a: string, b: string, c: string)
    requires AtMost(a, b) && AtMost(b, c)
    ensures AtMost(a, c)
  {
    if a != "" && a[0] == b[0] == c[0] {
      AtMostIsTransitive(a[1..], b[1..], c[1..]);
    }
  }

  ghost predicate IsSorted(s: seq<string>) {
    forall i, j :: 0 <= i < j < |s| ==> AtMost(s[i], s[j])
  }

  function Insert(x: string, s: seq<string>): (r: seq<string>)
    ensures |r| == |s| + 1
  {
    if s == [] || AtMost(s[|s| - 1], x) then s + [x] else Insert(x, s[..|s| - 1]) + [s[|s| - 1]]
  }

  /** `sort.Strings` of a copy. */
  function SortStrings(s: seq<string>): seq<string> {
    if s == [] then [] else Insert(s[|s| - 1], SortStrings(s[..|s| - 1]))
  }

  lemma FrontIsSorted(s: seq<string>)
    requires s != [] && IsSorted(s)
    ensures IsSorted(s[..|s| - 1])
  {
  }

  lemma LastIsLargest(s: seq<string>, x: string)
    requires IsSorted(s) && x in s
    ensures AtMost(x, s[|s| - 1])
  {
    AtMostIsTotal(x, x);
  }

  lemma {:induction false} InsertPermutes(x: string, s: seq<string>)
    ensures multiset(Insert(x, s)) == multiset(s) + multiset{x}
  {
    if s != [] && !AtMost(s[|s| - 1], x) {
      InsertPermutes(x, s[..|s| - 1]);
      assert s == s[..|s| - 1] + [s[|s| - 1]];
    }
  }

  /** A sorted list stays sorted when something no smaller than its end is put after it. */
  lemma ExtendSorted(s: seq<string>, x: string)
    requires IsSorted(s) && (s == [] || AtMost(s[|s| - 1], x))
    ensures IsSorted(s + [x])
  {
    forall i | 0 <= i < |s|
      ensures AtMost(s[i], x)
    {
      if i < |s| - 1 {
        AtMostIsTransitive(s[i], s[|s| - 1], x);
      }
    }
  }

  lemma {:induction false} InsertSorts(x: string, s: seq<string>)
    requires IsSorted(s)
    ensures IsSorted(Insert(x, s))
  {
    hide AtMost, IsSorted;
    if s == [] || AtMost(s[|s| - 1], x) {
      ExtendSorted(s, x);
    } else {
      var front, last := s[..|s| - 1], s[|s| - 1];
      var inserted := Insert(x, front);
      FrontIsSorted(s);
      InsertSorts(x, front);
      AtMostIsTotal(last, x);
      InsertPermutes(x, front);
      var greatest := inserted[|inserted| - 1];
      assert greatest in multiset(inserted);
      if greatest != x {
        assert greatest in front;
        assert greatest in s;
        LastIsLargest(s, greatest);
      }
      ExtendSorted(inserted, last);
    }
  }

  lemma {:induction false} SortStringsSorts(s: seq<string>)
    ensures IsSorted(SortStrings(s)) && multiset(SortStrings(s)) == multiset(s)
  {
    if s != [] {
      var front, last := s[..|s| - 1], s[|s| - 1];
      SortStringsSorts(front);
      InsertSorts(last, SortStrings(front));
      InsertPermutes(last, SortStrings(front));
      assert s == front + [last];
    }
  }

  lemma SameLargest(a: seq<string>, b: seq<string>)
    requires IsSorted(a) && IsSorted(b) && multiset(a) == multiset(b) && a != [] && b != []
    ensures a[|a| - 1] == b[|b| - 1]
  {
    var x, y := a[|a| - 1], b[|b| - 1];
    Sorting.SameMultisetSameMembers(a, b, x);
    Sorting.SameMultisetSameMembers(b, a, y);
    LastIsLargest(a, y);
    LastIsLargest(b, x);
    AtMostIsTotal(x, y);
  }

  lemma {:induction false} SortedOrderIsUnique(a: seq<string>, b: seq<string>)
    requires IsSorted(a) && IsSorted(b) && multiset(a) == multiset(b)
    ensures a == b
  {
    hide AtMost, IsSorted;
    Sorting.SameMultisetSameLength(a, b);
    if a != [] {
      SameLargest(a, b);
      Sorting.FrontMultiset(a);
      Sorting.FrontMultiset(b);
      FrontIsSorted(a);
      FrontIsSorted(b);
      SortedOrderIsUnique(a[..|a| - 1], b[..|b| - 1]);
      assert a == a[..|a| - 1] + [a[|a| - 1]] && b == b[..|b| - 1] + [b[|b| - 1]];
    }
  }

  /** Sorting forgets the order in which symptoms were given, and nothing else. */
  lemma SortForgetsOrder(a: seq<string>, b: seq<string>)
    ensures SortStrings(a) == SortStrings(b) <==> multiset(a) == multiset(b)
  {
    SortStringsSorts(a);
    SortStringsSorts(b);
    if multiset(a) == multiset(b) {
      SortedOrderIsUnique(SortStrings(a), SortStrings(b));
    }
  }

  // ---------------------------------------------------------------- joining symptoms

  function Join(parts: seq<string>): string {
    if parts == [] then ""
    else if |parts| == 1 then parts[0]
    else parts[0] + "|" + Join(parts[1..])
  }

  predicate NoBars(parts: seq<string>) {
    forall i :: 0 <= i < |parts| ==> '|' !in parts[i]
  }

  lemma {:induction false} JoinWithoutBars(a: seq<string>, b: seq<string>)
    requires a != [] && b != [] && NoBars(a) && NoBars(b)
    ensures Join(a) == Join(b) <==> a == b
  {
    if |a| > 1 && |b| > 1 {
      SplitAt(a[0], Join(a[1..]), b[0], Join(b[1..]), '|', true);
      JoinWithoutBars(a[1..], b[1..]);
      assert a == [a[0]] + a[1..] && b == [b[0]] + b[1..];
    } else if |a| > 1 {
      assert Join(a)[|a[0]|] == '|';
    } else if |b| > 1 {
      assert Join(b)[|b[0]|] == '|';
    }
  }

  /** The text between the bars; a text without bars is one piece. */
  function Cut(text: string): (pieces: seq<string>)
    ensures pieces != [] && NoBars(pieces)
  {
    if text == "" then [""] else
      var rest := Cut(text[1..]);
      if text[0] == '|' then [""] + rest else [[text[0]] + rest[0]] + rest[1..]
  }

  /** All the pieces of all the symptoms; no symptom at all counts as one empty piece. */
  function Pieces(parts: seq<string>): (pieces: seq<string>)
    ensures pieces != [] && NoBars(pieces)
  {
    if parts == [] then [""]
    else if |parts| == 1 then Cut(parts[0])
    else Cut(parts[0]) + Pieces(parts[1..])
  }

  lemma {:induction false} JoinCut(text: string)
    ensures Join(Cut(text)) == text
  {
    if text != "" {
      var rest := Cut(text[1..]);
      JoinCut(text[1..]);
      assert ([""] + rest)[1..] == rest;
      if |rest| > 1 && text[0] != '|' {
        assert ([[text[0]] + rest[0]] + rest[1..])[1..] == rest[1..];
      }
    }
  }

  lemma {:induction false} JoinConcat(a: seq<string>, b: seq<string>)
    requires a != [] && b != []
    ensures Join(a + b) == Join(a) + "|" + Join(b)
  {
    assert (a + b)[1..] == a[1..] + b;
    if |a| > 1 {
      JoinConcat(a[1..], b);
    }
  }

  lemma {:induction false} JoinPieces(parts: seq<string>)
    ensures Join(Pieces(parts)) == Join(parts)
  {
    if |parts| == 1 {
      JoinCut(parts[0]);
    } else if |parts| > 1 {
      JoinCut(parts[0]);
      JoinPieces(parts[1..]);
      JoinConcat(Cut(parts[0]), Pieces(parts[1..]));
    }
  }

  /** Whatever the symptoms are, joining them keeps their pieces, in order, and nothing else. */
  lemma JoinTellsPieces(a: seq<string>, b: seq<string>)
    ensures Join(a) == Join(b) <==> Pieces(a) == Pieces(b)
  {
    JoinPieces(a);
    JoinPieces(b);
    JoinWithoutBars(Pieces(a), Pieces(b));
  }

  lemma {:induction false} CutWithoutBars(text: string)
    requires '|' !in text
    ensures Cut(text) == [text]
  {
    if text != "" {
      CutWithoutBars(text[1..]);
      assert [text[0]] + text[1..] == text;
    }
  }

  lemma {:induction false} PiecesWithoutBars(parts: seq<string>)
    requires parts != [] && NoBars(parts)
    ensures Pieces(parts) == parts
  {
    CutWithoutBars(parts[0]);
    if |parts| > 1 {
      PiecesWithoutBars(parts[1..]);
    }
  }

  // ---------------------------------------------------------------- similar incidents and patterns

  function SimilarKey(tenant: string, symptoms: seq<string>, limit: int): string {
    "weaviate:similar:" + (tenant + ":" + (Itoa(limit) + ":" + Join(SortStrings(symptoms))))
  }

  function PatternKey(tenant: string, service: string): string {
    "weaviate:patterns:" + (tenant + ":" + service)
  }

  /** `text` after `tenant` and a colon reads like `text'` after the longer `tenant'` and a colon. */
  predicate Continues(tenant: string, text: string, tenant': string, text': string) {
    tenant + ":" <= tenant' && text == tenant'[|tenant| + 1..] + ":" + text'
  }

  lemma ContinuedIsSame(tenant: string, text: string, tenant': string, text': string)
    requires Continues(tenant, text, tenant', text')
    ensures tenant + ":" + text == tenant' + ":" + text'
  {
    assert tenant' == tenant + ":" + tenant'[|tenant| + 1..];
  }

  /** Two texts with a colon somewhere are equal when they are split alike, or when one was split at
      an earlier colon than the other. */
  lemma ColonSplit(a: string, b: string, a': string, b': string)
    ensures a + ":" + b == a' + ":" + b' <==>
            (a == a' && b == b') || Continues(a, b, a', b') || Continues(a', b', a, b)
  {
    if a + ":" + b == a' + ":" + b' {
      if |a| < |a'| {
        LongerContinues(a, b, a', b');
      } else if |a'| < |a| {
        LongerContinues(a', b', a, b);
      } else {
        assert a == (a + ":" + b)[..|a|] == a';
        DropPrefix(a + ":", b, b');
      }
    }
    if Continues(a, b, a', b') {
      ContinuedIsSame(a, b, a', b');
    }
    if Continues(a', b', a, b) {
      ContinuedIsSame(a', b', a, b);
    }
  }

  lemma LongerContinues(a: string, b: string, a': string, b': string)
    requires a + ":" + b == a' + ":" + b' && |a| < |a'|
    ensures Continues(a, b, a', b')
  {
    var s, n := a' + ":" + b', |a| + 1;
    assert a + ":" == (a + ":" + b)[..n] == s[..n] == a'[..n];
    assert b == (a + ":" + b)[n..] == s[n..] == a'[n..] + ":" + b';
  }

  // ---------------------------------------------------------------- tenants that share keys

  /** Same name, or one name and a colon begin the other. */
  predicate SharePatternKeys(tenant: string, tenant': string) {
    tenant == tenant' || tenant + ":" <= tenant' || tenant' + ":" <= tenant
  }

  lemma PatternKeyMeans(tenant: string, service: string, tenant': string, service': string)
    ensures PatternKey(tenant, service) == PatternKey(tenant', service') <==>
            || (tenant == tenant' && service == service')
            || Continues(tenant, service, tenant', service')
            || Continues(tenant', service', tenant, service)
  {
    DropPrefix("weaviate:patterns:", tenant + ":" + service, tenant' + ":" + service');
    ColonSplit(tenant, service, tenant', service');
  }

  /** Exactly the tenants whose names are nested can ask for patterns under the same key. */
  lemma PatternKeysAreSharedWhen(tenant: string, tenant': string)
    ensures (exists service, service' :: PatternKey(tenant, service) == PatternKey(tenant', service')) <==>
            SharePatternKeys(tenant, tenant')
  {
    hide PatternKey;
    forall service, service' | PatternKey(tenant, service) == PatternKey(tenant', service')
      ensures SharePatternKeys(tenant, tenant')
    {
      PatternKeyMeans(tenant, service, tenant', service');
    }
    if tenant == tenant' {
      assert PatternKey(tenant, "") == PatternKey(tenant', "");
    } else if tenant + ":" <= tenant' {
      PatternKeyMeans(tenant, tenant'[|tenant| + 1..] + ":" + "", tenant', "");
    } else if tenant' + ":" <= tenant {
      PatternKeyMeans(tenant, "", tenant', tenant[|tenant'| + 1..] + ":" + "");
    }
  }

  /** For all other tenants the key tells tenant and service. */
  lemma PatternKeyIsExact(tenant: string, service: string, tenant': string, service': string)
    requires tenant == tenant' || !SharePatternKeys(tenant, tenant')
    ensures PatternKey(tenant, service) == PatternKey(tenant', service') <==> tenant == tenant' && service == service'
  {
    PatternKeyMeans(tenant, service, tenant', service');
  }

  function UpToLimit(tenant: string, limit: int): string {
    tenant + ":" + Itoa(limit) + ":"
  }

  /** The other tenant's name begins with this tenant's name and something that reads as a limit. */
  ghost predicate HoldsALimit(tenant: string, tenant': string) {
    exists limit: int :: UpToLimit(tenant, limit) <= tenant' + ":"
  }

  ghost predicate ShareSimilarKeys(tenant: string, tenant': string) {
    tenant == tenant' || HoldsALimit(tenant, tenant') || HoldsALimit(tenant', tenant)
  }

  /** The rest of the longer tenant's name, its limit and its symptoms are taken for symptoms. */
  predicate Borrows(tenant: string, limit: int, joined: string, tenant': string, limit': int, joined': string) {
    var start := UpToLimit(tenant, limit);
    start <= tenant' + ":" && joined == (tenant' + ":")[|start|..] + (Itoa(limit') + ":" + joined')
  }

  lemma EndsAtColon(a: string, b: string)
    requires ':' !in b
    ensures !(a + ":" <= b)
  {
    assert (a + ":")[|a|] == ':';
  }

  lemma BorrowedContinues(tenant: string, limit: int, joined: string, tenant': string, limit': int, joined': string)
    ensures Borrows(tenant, limit, joined, tenant', limit', joined') <==>
            Continues(tenant, Itoa(limit) + ":" + joined, tenant', Itoa(limit') + ":" + joined')
  {
    hide Itoa, Borrows, Continues;
    if Continues(tenant, Itoa(limit) + ":" + joined, tenant', Itoa(limit') + ":" + joined') {
      ContinuedBorrows(tenant, limit, joined, tenant', limit', joined');
    }
    if Borrows(tenant, limit, joined, tenant', limit', joined') {
      BorrowingContinues(tenant, limit, joined, tenant', limit', joined');
    }
  }

  lemma ContinuedBorrows(tenant: string, limit: int, joined: string, tenant': string, limit': int, joined': string)
    requires Continues(tenant, Itoa(limit) + ":" + joined, tenant', Itoa(limit') + ":" + joined')
    ensures Borrows(tenant, limit, joined, tenant', limit', joined')
  {
    hide Itoa;
    var n, rest', start := Itoa(limit), Itoa(limit') + ":" + joined', UpToLimit(tenant, limit);
    var more := tenant'[|tenant| + 1..];
    NoColon(limit);
    EndsAtColon(more, n);
    ColonSplit(n, joined, more, rest');
    assert tenant' + ":" == tenant + ":" + (more + ":");
    if n == more {
      assert tenant' + ":" == start;
      assert joined == rest';
    } else {
      var last := more[|n| + 1..];
      assert more == n + ":" + last;
      assert tenant' + ":" == start + (last + ":");
      assert joined == last + ":" + rest';
    }
  }

  lemma BorrowingContinues(tenant: string, limit: int, joined: string, tenant': string, limit': int, joined': string)
    requires Borrows(tenant, limit, joined, tenant', limit', joined')
    ensures Continues(tenant, Itoa(limit) + ":" + joined, tenant', Itoa(limit') + ":" + joined')
  {
    hide Itoa;
    var n, rest', start := Itoa(limit), Itoa(limit') + ":" + joined', UpToLimit(tenant, limit);
    var last := (tenant' + ":")[|start|..];
    assert tenant' + ":" == start + last;
    assert tenant + ":" <= tenant' by {
      assert (tenant' + ":")[..|tenant| + 1] == tenant + ":";
      assert |tenant'| + 1 >= |start| > |tenant| + 1;
    }
    var more := tenant'[|tenant| + 1..];
    assert tenant' + ":" == (tenant + ":") + (more + ":");
    assert start + last == (tenant + ":") + (n + ":" + last);
    DropPrefix(tenant + ":", more + ":", n + ":" + last);
    assert n + ":" + joined == (n + ":" + last) + rest' == more + ":" + rest';
  }

  /** What equal keys mean, whatever the tenants and the symptoms are. */
  lemma SimilarKeyMeans(tenant: string, symptoms: seq<string>, limit: int, tenant': string, symptoms': seq<string>, limit': int)
    ensures var joined, joined' := Join(SortStrings(symptoms)), Join(SortStrings(symptoms'));
            SimilarKey(tenant, symptoms, limit) == SimilarKey(tenant', symptoms', limit') <==>
            || (tenant == tenant' && limit == limit' && joined == joined')
            || Borrows(tenant, limit, joined, tenant', limit', joined')
            || Borrows(tenant', limit', joined', tenant, limit, joined)
  {
    hide Itoa, Join, SortStrings, Borrows;
    var j, j' := Join(SortStrings(symptoms)), Join(SortStrings(symptoms'));
    var rest, rest' := Itoa(limit) + ":" + j, Itoa(limit') + ":" + j';
    DropPrefix("weaviate:similar:", tenant + ":" + rest, tenant' + ":" + rest');
    ColonSplit(tenant, rest, tenant', rest');
    BorrowedContinues(tenant, limit, j, tenant', limit', j');
    BorrowedContinues(tenant', limit', j', tenant, limit, j);
    NoColon(limit);
    NoColon(limit');
    SplitAt(Itoa(limit), j, Itoa(limit'), j', ':', true);
    ItoaInjective(limit, limit');
  }

  lemma ShareByLimit(tenant: string, tenant': string)
    requires HoldsALimit(tenant, tenant')
    ensures exists s, l, s', l' :: SimilarKey(tenant, s, l) == SimilarKey(tenant', s', l')
  {
    hide Itoa, SimilarKey;
    var limit: int :| UpToLimit(tenant, limit) <= tenant' + ":";
    var symptom := (tenant' + ":")[|UpToLimit(tenant, limit)|..] + (Itoa(0) + ":" + "");
    SortOne(symptom);
    SortOne("");
    SimilarKeyMeans(tenant, [symptom], limit, tenant', [""], 0);
    assert SimilarKey(tenant, [symptom], limit) == SimilarKey(tenant', [""], 0);
  }

  /** Exactly the tenants whose names are nested around a limit can ask for similar incidents under
      the same key. */
  lemma SimilarKeysAreSharedWhen(tenant: string, tenant': string)
    ensures (exists s, l, s', l' :: SimilarKey(tenant, s, l) == SimilarKey(tenant', s', l')) <==>
            ShareSimilarKeys(tenant, tenant')
  {
    hide Itoa, SimilarKey, HoldsALimit;
    forall s, l, s', l' | SimilarKey(tenant, s, l) == SimilarKey(tenant', s', l')
      ensures ShareSimilarKeys(tenant, tenant')
    {
      SimilarKeyMeans(tenant, s, l, tenant', s', l');
      BorrowingHoldsALimit(tenant, l, Join(SortStrings(s)), tenant', l', Join(SortStrings(s')));
      BorrowingHoldsALimit(tenant', l', Join(SortStrings(s')), tenant, l, Join(SortStrings(s)));
    }
    if tenant == tenant' {
      assert SimilarKey(tenant, [], 0) == SimilarKey(tenant', [], 0);
    } else if HoldsALimit(tenant, tenant') {
      ShareByLimit(tenant, tenant');
    } else if HoldsALimit(tenant', tenant) {
      ShareByLimit(tenant', tenant);
      var s', l', s, l :| SimilarKey(tenant', s', l') == SimilarKey(tenant, s, l);
      assert SimilarKey(tenant, s, l) == SimilarKey(tenant', s', l');
    }
  }

  lemma BorrowingHoldsALimit(tenant: string, limit: int, joined: string, tenant': string, limit': int, joined': string)
    ensures Borrows(tenant, limit, joined, tenant', limit', joined') ==> HoldsALimit(tenant, tenant')
  {
  }

  lemma SortedKeepsBarsOut(symptoms: seq<string>)
    requires symptoms != [] && NoBars(symptoms)
    ensures SortStrings(symptoms) != [] && NoBars(SortStrings(symptoms))
  {
    var sorted := SortStrings(symptoms);
    SortStringsSorts(symptoms);
    assert |multiset(sorted)| == |multiset(symptoms)|;
    forall i | 0 <= i < |sorted|
      ensures '|' !in sorted[i]
    {
      assert sorted[i] in multiset(symptoms);
    }
  }

  /** For all other tenants, keys are equal exactly when tenant and limit agree and the sorted symptoms
      have the same pieces. For non-empty lists of symptoms without bars that means the same symptoms
      in some order. */
  lemma SimilarKeyIsExact(tenant: string, symptoms: seq<string>, limit: int, tenant': string, symptoms': seq<string>, limit': int)
    requires tenant == tenant' || !ShareSimilarKeys(tenant, tenant')
    ensures SimilarKey(tenant, symptoms, limit) == SimilarKey(tenant', symptoms', limit') <==>
            tenant == tenant' && limit == limit' && Pieces(SortStrings(symptoms)) == Pieces(SortStrings(symptoms'))
    ensures symptoms != [] && NoBars(symptoms) && symptoms' != [] && NoBars(symptoms') ==>
              (SimilarKey(tenant, symptoms, limit) == SimilarKey(tenant', symptoms', limit') <==>
               tenant == tenant' && limit == limit' && multiset(symptoms) == multiset(symptoms'))
  {
    hide SimilarKey, Join, SortStrings, Pieces, HoldsALimit;
    var joined, joined' := Join(SortStrings(symptoms)), Join(SortStrings(symptoms'));
    SimilarKeyMeans(tenant, symptoms, limit, tenant', symptoms', limit');
    NothingBorrowed(tenant, limit, joined, tenant', limit', joined');
    NothingBorrowed(tenant', limit', joined', tenant, limit, joined);
    JoinTellsPieces(SortStrings(symptoms), SortStrings(symptoms'));
    if symptoms != [] && NoBars(symptoms) && symptoms' != [] && NoBars(symptoms') {
      SortedKeepsBarsOut(symptoms);
      SortedKeepsBarsOut(symptoms');
      PiecesWithoutBars(SortStrings(symptoms));
      PiecesWithoutBars(SortStrings(symptoms'));
      SortForgetsOrder(symptoms, symptoms');
    }
  }

  lemma NothingBorrowed(tenant: string, limit: int, joined: string, tenant': string, limit': int, joined': string)
    requires tenant == tenant' || !HoldsALimit(tenant, tenant')
    ensures !Borrows(tenant, limit, joined, tenant', limit', joined')
  {
    if tenant == tenant' {
      assert |UpToLimit(tenant, limit)| > |tenant' + ":"|;
    }
  }

  /** Names that share keys for similar incidents share keys for patterns; names without colons
      share neither. */
  lemma SharingNeedsAColon(tenant: string, tenant': string)
    ensures ShareSimilarKeys(tenant, tenant') ==> SharePatternKeys(tenant, tenant')
    ensures ':' !in tenant && ':' !in tenant' && SharePatternKeys(tenant, tenant') ==> tenant == tenant'
  {
    hide Itoa;
    LimitNests(tenant, tenant');
    LimitNests(tenant', tenant);
    if tenant + ":" <= tenant' {
      assert tenant'[|tenant|] == ':';
    }
    if tenant' + ":" <= tenant {
      assert tenant[|tenant'|] == ':';
    }
  }

  lemma LimitNests(tenant: string, tenant': string)
    ensures HoldsALimit(tenant, tenant') ==> tenant + ":" <= tenant'
  {
    if HoldsALimit(tenant, tenant') {
      var limit: int :| UpToLimit(tenant, limit) <= tenant' + ":";
      var start := UpToLimit(tenant, limit);
      assert (tenant' + ":")[..|start|] == start;
      assert (tenant + ":") == start[..|tenant| + 1];
    }
  }

  lemma SingletonSymptom(tenant: string, symptom: string, limit: int)
    ensures SimilarKey(tenant, [symptom], limit) == "weaviate:similar:" + (tenant + ":" + (Itoa(limit) + ":" + symptom))
  {
    SortOne(symptom);
  }

  lemma SortOne(symptom: string)
    ensures SortStrings([symptom]) == [symptom]
    ensures Join(SortStrings([symptom])) == symptom
  {
    assert [symptom][..0] == [];
  }

  /** Two nested tenants, for either kind of key; */
  lemma TenantsWithColonsCollide()
    ensures PatternKey("a:b", "c") == PatternKey("a", "b:c")
    ensures SimilarKey("a:1", ["x"], 1) == SimilarKey("a", ["1:x"], 1)
  {
    SingletonSymptom("a:1", "x", 1);
    SingletonSymptom("a", "1:x", 1);
    assert Itoa(1) == "1";
  }

  lemma TwoSymptoms()
    ensures Join(SortStrings(["x", "y"])) == "x|y"
  {
    assert ["x", "y"][..1] == ["x"] && ["x"][..0] == [];
    assert SortStrings(["x"]) == ["x"];
    assert AtMost("x", "y");
    assert SortStrings(["x", "y"]) == ["x", "y"];
    assert ["x", "y"][1..] == ["y"];
    assert Join(["y"]) == "y";
    assert "x" + "|" + "y" == "x|y";
  }

  /** a symptom with a bar and its two pieces; */
  lemma SymptomsWithBarsCollide()
    ensures SimilarKey("a", ["x|y"], 1) == SimilarKey("a", ["x", "y"], 1)
  {
    hide Itoa, SortStrings, Join;
    SingletonSymptom("a", "x|y", 1);
    TwoSymptoms();
  }

  /** no symptom and one empty symptom. */
  lemma NoSymptomsCollide()
    ensures SimilarKey("a", [], 1) == SimilarKey("a", [""], 1)
  {
    hide Itoa;
    SingletonSymptom("a", "", 1);
  }

  /** The three kinds of entries can share one cache. */
  lemma KindsDoNotClash(tenant: string, start: Time, end: Time, tenant': string, symptoms: seq<string>, limit: int,
                        tenant'': string, service: string)
    ensures GraphKey(tenant, start, end) != SimilarKey(tenant', symptoms, limit)
    ensures GraphKey(tenant, start, end) != PatternKey(tenant'', service)
    ensures SimilarKey(tenant', symptoms, limit) != PatternKey(tenant'', service)
  {
    assert GraphKey(tenant, start, end)[0] == 's';
    assert SimilarKey(tenant', symptoms, limit)[0] == 'w' && SimilarKey(tenant', symptoms, limit)[9] == 's';
    assert PatternKey(tenant'', service)[0] == 'w' && PatternKey(tenant'', service)[9] == 'p';
  }
}
