/** Paging through the correlation history (`ListCorrelations` in internal/repo/weaviate_repo.go)
    with a backend that returns `limit` records from `offset` on. Records are of any type. */
module Pagination {
  import opened Options
  import opened Decimal

  /** The length of a Go slice is a 64-bit integer. */
  type History<R> = h: seq<R> | |h| <= MAX_INT64 witness []

  function PageLimit(pageSize: int): (limit: nat)
    ensures 1 <= limit <= 100
    ensures 1 <= pageSize <= 100 ==> limit == pageSize
    ensures !(1 <= pageSize <= 100) ==> limit == 20
  {
    if pageSize <= 0 || pageSize > 100 then 20 else pageSize
  }

  /** A token that is not a number, or a negative one, means the beginning. */
  function OffsetOf(token: string): nat {
    if token == "" then 0 else
      var value := Atoi(token);
      if value.Some? && value.value >= 0 then value.value else 0
  }

  /** The backend's answer. */
  function Slice<R>(history: History<R>, limit: nat, offset: nat): seq<R> {
    if offset >= |history| then []
    else if offset + limit <= |history| then history[offset..offset + limit]
    else history[offset..]
  }

  /** The token of the next page; a page that is not full is the last. */
  function NextToken(limit: nat, offset: nat, size: nat): string {
    if size == limit then Itoa(offset + size) else ""
  }

  method ListCorrelations<R>(history: History<R>, pageSize: int, pageToken: string)
    returns (page: seq<R>, nextToken: string)
    ensures page == Slice(history, PageLimit(pageSize), OffsetOf(pageToken))
    ensures nextToken == NextToken(PageLimit(pageSize), OffsetOf(pageToken), |page|)
  {
    hide Itoa, Atoi;
    var limit := pageSize;
    if limit <= 0 || limit > 100 {
      limit := 20;
    }
    var offset := 0;
    if pageToken != "" {
      var v := Atoi(pageToken);
      if v.Some? && v.value >= 0 {
        offset := v.value;
      }
    }
    var response := Slice(history, limit, offset);
    hide Slice;
    page := [];
    for i := 0 to |response|
      invariant page == response[..i]
    {
      page := page + [response[i]];
    }
    assert page == response;
    nextToken := "";
    if |page| == limit {
      nextToken := Itoa(offset + |page|);
    }
  }

  lemma TokenRoundTrip(offset: nat)
    requires offset <= MAX_INT64
    ensures Itoa(offset) != "" && OffsetOf(Itoa(offset)) == offset
  {
    AtoiItoa(offset);
  }

  /** A negative offset or a token with a character that no number has is read as the beginning. */
  lemma BadTokensStartOver(token: string, i: nat, n: int)
    ensures n < 0 ==> OffsetOf(Itoa(n)) == 0
    ensures i < |token| && !IsDigit(token[i]) && (i > 0 || (token[i] != '-' && token[i] != '+')) ==> OffsetOf(token) == 0
  {
    if n < 0 {
      assert Itoa(n)[0] == '-';
    }
    if i < |token| && !IsDigit(token[i]) && i > 0 && (token[0] == '-' || token[0] == '+') {
      assert token[1..][i - 1] == token[i];
    }
  }

  function Flatten<R>(pages: seq<seq<R>>): seq<R> {
    if pages == [] then [] else Flatten(pages[..|pages| - 1]) + pages[|pages| - 1]
  }

  /** A client that follows the tokens from the first page on, asking for a size of its choice each
      time, gets every record exactly once and in order, in pages that are full except the last. */
  method FollowTokens<R>(history: History<R>, sizes: nat -> int) returns (pages: seq<seq<R>>)
    ensures Flatten(pages) == history
    ensures pages != []
    ensures forall i :: 0 <= i < |pages| - 1 ==> |pages[i]| == PageLimit(sizes(i))
    ensures |pages[|pages| - 1]| < PageLimit(sizes(|pages| - 1))
    ensures |pages| <= |history| + 1
  {
    hide Atoi, Itoa, OffsetOf, Slice, NextToken, PageLimit;
    pages := [];
    var token := "";
    ghost var offset := 0;
    FirstToken();
    while true
      invariant offset <= |history| && OffsetOf(token) == offset
      invariant Flatten(pages) == history[..offset]
      invariant forall i :: 0 <= i < |pages| ==> |pages[i]| == PageLimit(sizes(i))
      invariant |pages| <= offset
      decreases |history| - offset
    {
      ghost var before := pages;
      var limit := PageLimit(sizes(|pages|));
      var page, next := ListCorrelations(history, sizes(|pages|), token);
      PageContinues(history, limit, offset);
      pages := pages + [page];
      assert pages[..|before|] == before;
      offset := offset + |page|;
      if next == "" {
        return;
      }
      token := next;
    }
  }

  lemma FirstToken()
    ensures OffsetOf("") == 0
  {
  }

  /** A page continues the history where the token says, and only a short page, which ends it, has
      no next token. */
  lemma PageContinues<R>(history: History<R>, limit: nat, offset: nat)
    requires offset <= |history| && limit > 0
    ensures var page := Slice(history, limit, offset);
            var next := NextToken(limit, offset, |page|);
            && offset + |page| <= |history|
            && history[..offset] + page == history[..offset + |page|]
            && |page| <= limit
            && (next == "" <==> |page| < limit)
            && (next == "" ==> history[..offset + |page|] == history)
            && (next != "" ==> OffsetOf(next) == offset + |page|)
  {
    var page := Slice(history, limit, offset);
    TokenRoundTrip(offset + |page|);
    if |page| < limit {
      assert offset + |page| == |history|;
    }
  }
}
