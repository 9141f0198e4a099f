/** The paginated read all three contracts offer over an append-only log. */
module Paging {
  import opened Soroban

  const MAX_PAGE_SIZE: int := 50

  function Min(a: int, b: int): int {
    if a <= b then a else b
  }

  /** `offset.saturating_add(limit.min(MAX_PAGE_SIZE)).min(count)` on 32-bit numbers. */
  function PageEnd(offset: U32, limit: U32, count: U32): (end: U32) {
    Min(Min(offset + Min(limit, MAX_PAGE_SIZE), U32_MAX), count)
  }

  /** What one read promises: the entries from `offset` on, at most `limit` and at most 50. */
  function Page<T>(log: seq<T>, offset: U32, limit: U32): seq<T> {
    if |log| <= offset then []
    else log[offset..Min(offset + Min(limit, MAX_PAGE_SIZE), |log|)]
  }

  /** A page holds the entries from `offset` on: as many as there are, but at most `limit` and at
      most 50. */
  lemma PageHolds<T>(log: seq<T>, offset: U32, limit: U32)
    ensures var page := Page(log, offset, limit);
            && |page| <= limit && |page| <= 50 && (offset + |page| <= |log| || page == [])
            && (|page| == limit || |page| == 50 || |log| <= offset + |page|)
            && forall i | 0 <= i < |page| :: page[i] == log[offset + i]
  {
  }

  /** A client that keeps reading, each time from just behind the last entry it received. */
  function Walk<T>(log: seq<T>, offset: U32, limit: U32): seq<T>
    requires 1 <= limit && offset <= |log| <= U32_MAX
    decreases |log| - offset
  {
    var page := Page(log, offset, limit);
    if page == [] then [] else page + Walk(log, offset + |page|, limit)
  }

  lemma Cut<T>(log: seq<T>, i: int, j: int)
    requires 0 <= i <= j <= |log|
    ensures log[i..] == log[i..j] + log[j..]
  {
  }

  /** The walk terminates and returns every entry once, in order, for every page size. */
  lemma {:induction false} WalkRecoversLog<T>(log: seq<T>, offset: U32, limit: U32)
    requires 1 <= limit && offset <= |log| <= U32_MAX
    ensures Walk(log, offset, limit) == log[offset..]
    decreases |log| - offset
  {
    var page := Page(log, offset, limit);
    if page != [] {
      var next := offset + |page|;
      assert page == log[offset..next];
      WalkRecoversLog(log, next, limit);
      Cut(log, offset, next);
    } else {
      assert offset == |log|;
    }
  }
}
