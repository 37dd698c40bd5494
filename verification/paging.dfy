/** Keyset paging: reading a table in key order, a page at a time, by "id greater than the last one seen". */
module Paging {

  predicate Increasing(s: seq<nat>) {
    forall i, j :: 0 <= i < j < |s| ==> s[i] < s[j]
  }

  /** The first `limit` members of `pool` above `after`, in order. */
  ghost predicate IsPage(pool: set<nat>, limit: nat, after: nat, page: seq<nat>) {
    && Increasing(page) && |page| <= limit
    && (forall id :: id in page ==> id in pool && id > after)
    && (forall id :: id in pool && id > after && id !in page ==>
          |page| == limit && forall x :: x in page ==> x < id)
  }

  /** `WHERE id > after ORDER BY id LIMIT limit`: a scan of the primary key. */
  method ReadPage(pool: set<nat>, limit: nat, after: nat, bound: nat) returns (page: seq<nat>)
    requires forall id :: id in pool ==> id <= bound
    ensures IsPage(pool, limit, after, page)
  {
    page := [];
    var next := after + 1;
    while next <= bound && |page| < limit
      invariant Increasing(page) && |page| <= limit && next > after
      invariant forall x :: x in page ==> after < x < next && x in pool
      invariant forall id :: id in pool && after < id < next ==> id in page
      decreases bound + 1 - next
    {
      if next in pool {
        IncreasingAppend(page, [next]);
        page := page + [next];
      }
      next := next + 1;
    }
  }

  lemma IncreasingAppend(s: seq<nat>, t: seq<nat>)
    requires Increasing(s) && Increasing(t)
    requires forall x, y :: x in s && y in t ==> x < y
    ensures Increasing(s + t)
  {
    forall i, j | 0 <= i < j < |s + t|
      ensures (s + t)[i] < (s + t)[j]
    {
      if i < |s| <= j {
        assert s[i] in s && t[j - |s|] in t;
      }
    }
  }

  lemma LastIsLargest(s: seq<nat>)
    requires Increasing(s) && s != []
    ensures forall x :: x in s ==> x <= s[|s| - 1]
  {
  }

  /** An increasing listing of at least as many ids as the pool has lists the whole pool. */
  lemma {:induction false} ListsWholePool(s: seq<nat>, pool: set<nat>)
    requires Increasing(s) && (forall x :: x in s ==> x in pool) && |s| >= |pool|
    ensures forall id :: id in pool ==> id in s
  {
    if s != [] {
      var init, last := s[..|s| - 1], s[|s| - 1];
      assert last in s;
      assert forall x :: x in init ==> x in s && x < last;
      ListsWholePool(init, pool - {last});
      assert forall id :: id in pool ==> id == last || id in pool - {last};
    }
  }
}
