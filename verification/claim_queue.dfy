/**
 Claiming queued runs: `SELECT ... FOR UPDATE SKIP LOCKED` in two phases by any number of workers,
 their dispatch steps, and the recovery of abandoned claims.

 A query answer is not computed here: it is any sequence that satisfies the query (ties and the
 random order of regular runs are the database's choice), so every result holds for every choice.
 */
module ClaimQueue {
  import opened Common
  import opened QueuedRuns

  type Table = map<nat, QueuedRun>

  datatype Query = Query(campaign: nat, before: int, limit: nat, callbacksOnly: bool)

  // ---------------------------------------------------------------------------
  // The two queries
  // ---------------------------------------------------------------------------

  predicate Due(rows: Table, q: Query, id: nat) {
    && id in rows && rows[id].campaign == q.campaign && rows[id].state == Queued
    && rows[id].scheduledFor.Some? && rows[id].scheduledFor.value <= q.before
    && (q.callbacksOnly ==> rows[id].retryReason == Some(USER_CALLBACK))
  }

  predicate Regular(rows: Table, campaign: nat, id: nat) {
    id in rows && rows[id].campaign == campaign && rows[id].state == Queued && rows[id].scheduledFor.None?
  }

  function DueSet(rows: Table, q: Query): set<nat> {
    set id | id in rows && Due(rows, q, id)
  }

  function RegularSet(rows: Table, campaign: nat): set<nat> {
    set id | id in rows && Regular(rows, campaign, id)
  }

  /** The due time of a scheduled run. */
  function Time(rows: Table, id: nat): int {
    if id in rows && rows[id].scheduledFor.Some? then rows[id].scheduledFor.value else 0
  }

  predicate Distinct(s: seq<nat>) {
    forall i, j :: 0 <= i < j < |s| ==> s[i] != s[j]
  }

  function Members(s: seq<nat>): set<nat> {
    set id | id in s
  }

  /** `ans` lists at most `limit` members of `pool`, and all of them when there are no more. */
  predicate Limited(pool: set<nat>, limit: nat, ans: seq<nat>) {
    && Distinct(ans) && Members(ans) <= pool && |ans| <= limit
    && (|ans| < limit ==> Members(ans) == pool)
  }

  /** An answer of the scheduled query: the earliest unlocked due runs, in order. */
  ghost predicate ScheduledAnswer(rows: Table, locked: set<nat>, q: Query, ans: seq<nat>) {
    && Limited(DueSet(rows, q) - locked, q.limit, ans)
    && (forall i, j :: 0 <= i < j < |ans| ==> Time(rows, ans[i]) <= Time(rows, ans[j]))
    && (forall i, id :: 0 <= i < |ans| && id in DueSet(rows, q) - locked - Members(ans) ==>
          Time(rows, ans[i]) <= Time(rows, id))
  }

  /** An answer of the regular query, for the slots the first phase left. */
  predicate RegularAnswer(rows: Table, locked: set<nat>, campaign: nat, slots: nat, ans: seq<nat>) {
    Limited(RegularSet(rows, campaign) - locked, slots, ans)
  }

  lemma NothingLeft(pool: set<nat>, taken: set<nat>)
    requires taken <= pool && pool - taken == {}
    ensures taken == pool
  {
    forall id | id in pool
      ensures id in taken
    {
      assert id !in pool - taken;
    }
  }

  lemma {:induction false} EarliestOf(rows: Table, pool: set<nat>) returns (first: nat)
    requires pool != {}
    ensures first in pool && forall id :: id in pool ==> Time(rows, first) <= Time(rows, id)
    decreases pool
  {
    first :| first in pool;
    if pool != {first} {
      var rest := pool - {first};
      var other := EarliestOf(rows, rest);
      if Time(rows, other) < Time(rows, first) {
        first := other;
      }
    }
  }

  /** The scheduled query always has an answer. */
  lemma {:induction false} ScheduledAnswerExists(rows: Table, locked: set<nat>, q: Query) returns (ans: seq<nat>)
    ensures ScheduledAnswer(rows, locked, q, ans)
    decreases q.limit
  {
    ans := [];
    if q.limit > 0 {
      var less := q.(limit := q.limit - 1);
      assert DueSet(rows, less) == DueSet(rows, q);
      ans := ScheduledAnswerExists(rows, locked, less);
      var rest := DueSet(rows, q) - locked - Members(ans);
      if rest != {} {
        var next := EarliestOf(rows, rest);
        var longer := ans + [next];
        assert Members(longer) == Members(ans) + {next};
        assert next !in ans;
        ans := longer;
      } else {
        NothingLeft(DueSet(rows, q) - locked, Members(ans));
      }
    }
  }

  lemma {:induction false} RegularAnswerExists(rows: Table, locked: set<nat>, campaign: nat, slots: nat)
    returns (ans: seq<nat>)
    ensures RegularAnswer(rows, locked, campaign, slots, ans)
  {
    ans := [];
    if slots > 0 {
      ans := RegularAnswerExists(rows, locked, campaign, slots - 1);
      var rest := RegularSet(rows, campaign) - locked - Members(ans);
      if rest != {} {
        var next :| next in rest;
        var longer := ans + [next];
        assert Members(longer) == Members(ans) + {next};
        assert next !in ans;
        ans := longer;
      } else {
        NothingLeft(RegularSet(rows, campaign) - locked, Members(ans));
      }
    }
  }

  // ---------------------------------------------------------------------------
  // One undisturbed claim
  // ---------------------------------------------------------------------------

  /** The rows with the given runs moved to `state`. */
  function Moved(rows: Table, ids: set<nat>, state: RunState): Table {
    map id | id in rows :: if id in ids then rows[id].(state := state) else rows[id]
  }

  /** The two answers a single claim works with. */
  ghost predicate ClaimAnswers(rows: Table, locked: set<nat>, q: Query, scheduled: seq<nat>, regular: seq<nat>) {
    && ScheduledAnswer(rows, locked, q, scheduled)
    && (if q.limit > |scheduled| && !q.callbacksOnly
        then RegularAnswer(rows, locked, q.campaign, q.limit - |scheduled|, regular)
        else regular == [])
  }

  lemma {:induction false} DistinctSize(s: seq<nat>)
    requires Distinct(s)
    ensures |Members(s)| == |s|
  {
    if s != [] {
      var init, last := s[..|s| - 1], s[|s| - 1];
      assert s == init + [last];
      DistinctSize(init);
      assert Members(s) == Members(init) + {last};
      assert last !in Members(init);
    } else {
      assert Members(s) == {};
    }
  }

  function Min(a: nat, b: nat): nat { if a < b then a else b }

  /** The runs a claim may take at all. */
  function Backlog(rows: Table, q: Query): set<nat> {
    DueSet(rows, q) + if q.callbacksOnly then {} else RegularSet(rows, q.campaign)
  }

  lemma LimitedSize(pool: set<nat>, limit: nat, ans: seq<nat>)
    requires Limited(pool, limit, ans)
    ensures |ans| == |Members(ans)| == Min(limit, |pool|)
    ensures |pool| <= limit ==> Members(ans) == pool
  {
    DistinctSize(ans);
    SubsetSize(Members(ans), pool);
  }

  /** A claim takes regular runs only after every due run. */
  lemma DueFirst(rows: Table, q: Query, scheduled: seq<nat>, regular: seq<nat>)
    requires ClaimAnswers(rows, {}, q, scheduled, regular)
    ensures |scheduled| == Min(q.limit, |DueSet(rows, q)|)
    ensures regular != [] ==> DueSet(rows, q) == Members(scheduled) && !q.callbacksOnly
    ensures q.callbacksOnly ==> regular == []
    ensures !q.callbacksOnly ==> |regular| == Min(q.limit - |scheduled|, |RegularSet(rows, q.campaign)|)
    ensures Members(regular) <= RegularSet(rows, q.campaign) && Distinct(regular)
  {
    assert DueSet(rows, q) - {} == DueSet(rows, q);
    assert RegularSet(rows, q.campaign) - {} == RegularSet(rows, q.campaign);
    LimitedSize(DueSet(rows, q), q.limit, scheduled);
    if q.limit > |scheduled| && !q.callbacksOnly {
      LimitedSize(RegularSet(rows, q.campaign), q.limit - |scheduled|, regular);
    }
  }

  /**
   With no other locks a claim is work conserving and respects priority: it takes min(limit, backlog)
   runs, takes a regular run only when every due run was taken, and never passes over an earlier due
   run for a later one.
   */
  lemma ClaimPriority(rows: Table, q: Query, scheduled: seq<nat>, regular: seq<nat>)
    requires ClaimAnswers(rows, {}, q, scheduled, regular)
    ensures |scheduled + regular| == Min(q.limit, |Backlog(rows, q)|)
    ensures Distinct(scheduled + regular) && Members(scheduled + regular) <= Backlog(rows, q)
    ensures regular != [] ==> DueSet(rows, q) == Members(scheduled) && !q.callbacksOnly
    ensures forall taken, left :: taken in scheduled && left in DueSet(rows, q) && left !in scheduled ==>
              Time(rows, taken) <= Time(rows, left)
  {
    var due, reg := DueSet(rows, q), RegularSet(rows, q.campaign);
    DueFirst(rows, q, scheduled, regular);
    assert due !! reg;
    assert |due + reg| == |due| + |reg|;
    assert q.callbacksOnly ==> Backlog(rows, q) == due;
    DistinctUnion(scheduled, regular, due, reg);
    EarlierFirst(rows, q, scheduled, regular);
  }

  lemma EarlierFirst(rows: Table, q: Query, scheduled: seq<nat>, regular: seq<nat>)
    requires ClaimAnswers(rows, {}, q, scheduled, regular)
    ensures forall taken, left :: taken in scheduled && left in DueSet(rows, q) && left !in scheduled ==>
              Time(rows, taken) <= Time(rows, left)
  {
    forall taken, left | taken in scheduled && left in DueSet(rows, q) && left !in scheduled
      ensures Time(rows, taken) <= Time(rows, left)
    {
      var i :| 0 <= i < |scheduled| && scheduled[i] == taken;
      assert left in DueSet(rows, q) - {};
      assert left in DueSet(rows, q) - {} - Members(scheduled);
    }
  }

  lemma DistinctUnion(s: seq<nat>, t: seq<nat>, a: set<nat>, b: set<nat>)
    requires Distinct(s) && Distinct(t) && Members(s) <= a && Members(t) <= b && a !! b
    ensures Distinct(s + t) && Members(s + t) == Members(s) + Members(t)
  {
    forall i, j | 0 <= i < j < |s + t|
      ensures (s + t)[i] != (s + t)[j]
    {
      if i < |s| <= j {
        assert s[i] in Members(s) && t[j - |s|] in Members(t);
      }
    }
  }

  lemma SubsetSize(a: set<nat>, b: set<nat>)
    requires a <= b
    ensures |a| <= |b| && (|a| == |b| ==> a == b)
  {
    assert b == a + (b - a);
  }

  // ---------------------------------------------------------------------------
  // Which runs a claim takes
  // ---------------------------------------------------------------------------

  /**
   A claim may take the run: it is queued in the campaign and either due by the given time, for callbacks only if the
   user asked for it, or unscheduled, unless the claim is for callbacks only.
   */
  predicate Eligible(r: QueuedRun, q: Query) {
    && r.campaign == q.campaign && r.state == Queued
    && match r.scheduledFor
       case Some(time) => time <= q.before && (q.callbacksOnly ==> r.retryReason == Some("user_requested_callback"))
       case None => !q.callbacksOnly
  }

  lemma EligibleExactlyWhen(rows: Table, q: Query, id: nat)
    ensures id in rows && Eligible(rows[id], q) <==>
            id in DueSet(rows, q) || (id in RegularSet(rows, q.campaign) && !q.callbacksOnly)
  {
  }

  /**
   A claim takes eligible runs that nobody has locked, each once and at most the limit; scheduled ones come first, the
   earliest first; and if it takes fewer than the limit, it leaves no such run.
   */
  lemma ClaimTakesEligible(rows: Table, locked: set<nat>, q: Query, scheduled: seq<nat>, regular: seq<nat>)
    requires ClaimAnswers(rows, locked, q, scheduled, regular)
    ensures Distinct(scheduled + regular) && |scheduled + regular| <= q.limit
    ensures forall id :: id in scheduled + regular ==> id in rows && id !in locked && Eligible(rows[id], q)
    ensures |scheduled + regular| < q.limit ==>
              forall id :: id in rows && id !in locked && Eligible(rows[id], q) ==> id in scheduled + regular
    ensures forall i :: 0 <= i < |scheduled| ==> rows[scheduled[i]].scheduledFor.Some?
    ensures forall i, j :: 0 <= i < j < |scheduled| ==>
              rows[scheduled[i]].scheduledFor.value <= rows[scheduled[j]].scheduledFor.value
    ensures forall id :: id in regular ==> rows[id].scheduledFor.None?
  {
    var due, plain := DueSet(rows, q) - locked, RegularSet(rows, q.campaign) - locked;
    forall id
      ensures id in scheduled ==> id in due
      ensures id in regular ==> id in plain
    {
      assert id in scheduled ==> id in Members(scheduled);
      assert id in regular ==> id in Members(regular);
    }
    assert regular == [] ==> Distinct(regular) && Members(regular) <= plain;
    DistinctUnion(scheduled, regular, due, plain);
    forall i | 0 <= i < |scheduled|
      ensures scheduled[i] in DueSet(rows, q)
    {
      assert scheduled[i] in Members(scheduled);
    }
    if |scheduled + regular| < q.limit {
      forall id | id in rows && id !in locked && Eligible(rows[id], q)
        ensures id in scheduled + regular
      {
        EligibleExactlyWhen(rows, q, id);
        assert id in Members(scheduled) || id in Members(regular);
      }
    }
  }

  class CampaignQueue {
    var rows: Table

    constructor (initial: Table)
      ensures rows == initial
    {
      rows := initial;
    }

    /**
     `claim_queued_runs_for_processing` as one transaction, given the database's answers to its two
     queries: the claimed runs are listed scheduled first, and exactly they become `processing`.
     */
    method Claim(q: Query, ghost locked: set<nat>, scheduled: seq<nat>, regular: seq<nat>) returns (claimed: seq<nat>)
      requires ClaimAnswers(rows, locked, q, scheduled, regular)
      modifies this
      ensures claimed == scheduled + regular
      ensures rows == Moved(old(rows), Members(scheduled + regular), Processing)
      ensures rows.Keys == old(rows).Keys && forall id :: id in rows ==>
                rows[id] == if id in claimed then old(rows)[id].(state := Processing) else old(rows)[id]
    {
      claimed := [];
      assert rows == Moved(old(rows), {}, Processing);
      for i := 0 to |scheduled|
        invariant claimed == scheduled[..i]
        invariant rows == Moved(old(rows), Members(scheduled[..i]), Processing)
      {
        assert scheduled[..i + 1] == scheduled[..i] + [scheduled[i]];
        assert scheduled[i] in Members(scheduled);
        rows := rows[scheduled[i] := rows[scheduled[i]].(state := Processing)];
        claimed := claimed + [scheduled[i]];
      }
      if q.limit > |scheduled| && !q.callbacksOnly {
        for i := 0 to |regular|
          invariant claimed == scheduled + regular[..i]
          invariant rows == Moved(old(rows), Members(scheduled + regular[..i]), Processing)
        {
          assert regular[i] in Members(regular);
          assert scheduled + regular[..i + 1] == scheduled + regular[..i] + [regular[i]];
          rows := rows[regular[i] := rows[regular[i]].(state := Processing)];
          claimed := claimed + [regular[i]];
        }
      }
    }

    /** `return_processing_queued_runs_without_workflow`: one conditional UPDATE. */
    method ReturnWithoutWorkflow(ids: seq<nat>, called: set<nat>) returns (count: nat)
      modifies this
      ensures rows == Moved(old(rows), Returnable(old(rows), called, Members(ids)), Queued)
      ensures count == |Returnable(old(rows), called, Members(ids))|
      ensures rows.Keys == old(rows).Keys && forall id :: id in rows ==>
                rows[id] == if id in ids && id !in called && old(rows)[id].state == Processing
                            then old(rows)[id].(state := Queued) else old(rows)[id]
    {
      if ids == [] {
        assert Returnable(rows, called, Members(ids)) == {};
        return 0;
      }
      var hit := set id | id in rows && id in ids && rows[id].state == Processing && id !in called;
      assert hit == Returnable(rows, called, Members(ids));
      rows := map id | id in rows :: if id in hit then rows[id].(state := Queued) else rows[id];
      count := |hit|;
    }
  }

  /** The runs among `ids` that are still being processed and have no workflow run. */
  function Returnable(rows: Table, called: set<nat>, ids: set<nat>): set<nat> {
    set id | id in ids && id in rows && rows[id].state == Processing && id !in called
  }

  // ---------------------------------------------------------------------------
  // Draining a fixed backlog
  // ---------------------------------------------------------------------------

  datatype Claimed = Claimed(scheduled: seq<nat>, regular: seq<nat>)

  /** `rounds[k]` is a possible outcome of the k-th claim in a row, and `tables[k]` the rows before it. */
  ghost predicate Rounds(tables: seq<Table>, rounds: seq<Claimed>, q: Query) {
    && |tables| == |rounds| + 1
    && forall k :: 0 <= k < |rounds| ==>
         && ClaimAnswers(tables[k], {}, q, rounds[k].scheduled, rounds[k].regular)
         && tables[k + 1] == Moved(tables[k], Members(rounds[k].scheduled + rounds[k].regular), Processing)
  }

  lemma MovedBacklog(rows: Table, q: Query, taken: set<nat>)
    ensures Backlog(Moved(rows, taken, Processing), q) == Backlog(rows, q) - taken
  {
  }

  lemma ClaimShrinksBacklog(rows: Table, q: Query, scheduled: seq<nat>, regular: seq<nat>)
    requires ClaimAnswers(rows, {}, q, scheduled, regular)
    ensures |Backlog(Moved(rows, Members(scheduled + regular), Processing), q)|
            == |Backlog(rows, q)| - Min(q.limit, |Backlog(rows, q)|)
  {
    ClaimPriority(rows, q, scheduled, regular);
    var taken := Members(scheduled + regular);
    DistinctSize(scheduled + regular);
    MovedBacklog(rows, q, taken);
    assert Backlog(rows, q) == (Backlog(rows, q) - taken) + taken;
  }

  lemma {:induction false} BacklogAfterRounds(tables: seq<Table>, rounds: seq<Claimed>, q: Query, k: nat)
    requires Rounds(tables, rounds, q) && k <= |rounds|
    ensures |Backlog(tables[k], q)| ==
            if k * q.limit < |Backlog(tables[0], q)| then |Backlog(tables[0], q)| - k * q.limit else 0
  {
    if k > 0 {
      BacklogAfterRounds(tables, rounds, q, k - 1);
      ClaimShrinksBacklog(tables[k - 1], q, rounds[k - 1].scheduled, rounds[k - 1].regular);
      assert k * q.limit == (k - 1) * q.limit + q.limit;
    }
  }

  /** Repeated claims empty a backlog of n runs in exactly ceil(n / limit) rounds, and no fewer. */
  lemma DrainInCeilingRounds(tables: seq<Table>, rounds: seq<Claimed>, q: Query, k: nat)
    requires Rounds(tables, rounds, q) && k <= |rounds| && q.limit > 0
    ensures Backlog(tables[k], q) == {} <==> k >= (|Backlog(tables[0], q)| + q.limit - 1) / q.limit
  {
    BacklogAfterRounds(tables, rounds, q, k);
    CeilingBound(|Backlog(tables[0], q)|, q.limit, k);
  }

  lemma CeilingBound(n: nat, limit: nat, k: nat)
    requires limit > 0
    ensures k * limit >= n <==> k >= (n + limit - 1) / limit
  {
    var c := (n + limit - 1) / limit;
    assert c * limit <= n + limit - 1 < c * limit + limit;
    if k >= c {
      assert k * limit >= c * limit;
    } else {
      assert (c - 1) * limit >= k * limit;
    }
  }
}
