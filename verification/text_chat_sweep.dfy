/**
 The periodic sweep that closes idle text chats: which chats a sweep at a given instant sees, why a sweep
 schedule catches every idle chat, and what one bounded sweep enqueues.  Instants are in seconds.
 */
module TextChatSweep {
  import opened Common
  import opened Paging

  const MIN_TIMEOUT := 60
  const DEFAULT_TIMEOUT := 1800
  const SWEEP_INTERVAL := 5 * 60
  const LOOKBACK := 3 * 60 * 60
  const MAX_TIMEOUT := LOOKBACK - SWEEP_INTERVAL
  const PAGE_SIZE := 500
  const MAX_PAGES := 10
  const ENQUEUE_LIMIT := 500

  /** A text session joined with its run: the three timestamps and the timeout of the run's definition. */
  datatype Chat = Chat(
    textMode: bool,
    completed: bool,
    updatedAt: Option<real>,
    createdAt: Option<real>,
    runCreatedAt: Option<real>,
    timeout: Option<Json>)

  /** Python's `int()` of a configured value; text is parsed by `parse`. */
  function ToInt(v: Json, parse: string -> Option<int>): Option<int> {
    match v
    case Num(n) => Some(n)
    case Bool(b) => Some(if b then 1 else 0)
    case Str(text) => parse(text)
    case _ => None
  }

  function Clamp(timeout: int): (t: int)
    ensures MIN_TIMEOUT <= t <= MAX_TIMEOUT
  {
    var low := if timeout < MIN_TIMEOUT then MIN_TIMEOUT else timeout;
    if low > MAX_TIMEOUT then MAX_TIMEOUT else low
  }

  /** A timeout inside the limits is kept; a missing or unusable one falls back to the default. */
  function TimeoutOf(configured: Option<Json>, parse: string -> Option<int>): (t: int)
    ensures MIN_TIMEOUT <= t <= MAX_TIMEOUT
    ensures configured.Some? && ToInt(configured.value, parse).Some? ==>
              var n := ToInt(configured.value, parse).value;
              (MIN_TIMEOUT <= n <= MAX_TIMEOUT ==> t == n) && (n < MIN_TIMEOUT ==> t == MIN_TIMEOUT)
              && (n > MAX_TIMEOUT ==> t == MAX_TIMEOUT)
    ensures configured.None? || ToInt(configured.value, parse).None? ==> t == DEFAULT_TIMEOUT
  {
    var n := if configured.Some? then ToInt(configured.value, parse) else None;
    Clamp(if n.Some? then n.value else DEFAULT_TIMEOUT)
  }

  predicate Within(t: Option<real>, since: real, before: real) {
    t.Some? && since <= t.value <= before
  }

  /** The query's filter, branch by branch. */
  predicate InactiveFilter(c: Chat, since: real, before: real) {
    && !c.completed
    && (|| Within(c.updatedAt, since, before)
        || (c.updatedAt.None? && Within(c.createdAt, since, before))
        || (c.updatedAt.None? && c.createdAt.None? && Within(c.runCreatedAt, since, before)))
  }

  function LastActivity(c: Chat): Option<real> {
    if c.updatedAt.Some? then c.updatedAt else if c.createdAt.Some? then c.createdAt else c.runCreatedAt
  }

  /** The three branches are one window test on the first timestamp that is set. */
  lemma FilterIsOneWindow(c: Chat, since: real, before: real)
    ensures InactiveFilter(c, since, before) <==> !c.completed && Within(LastActivity(c), since, before)
  {
  }

  /** A sweep at `now` reads the chat. */
  predicate Candidate(c: Chat, now: real) {
    c.textMode && InactiveFilter(c, now - LOOKBACK as real, now - MIN_TIMEOUT as real)
  }

  function Deadline(c: Chat, parse: string -> Option<int>, now: real): real {
    var last := LastActivity(c);
    if last.None? then now else last.value + TimeoutOf(c.timeout, parse) as real
  }

  /** A sweep at `now` closes the chat: it reads it and finds the deadline passed. */
  predicate Overdue(c: Chat, parse: string -> Option<int>, now: real) {
    Candidate(c, now) && Deadline(c, parse, now) <= now
  }

  // ---------------------------------------------------------------------------
  // Overdue, in the chat's own columns
  // ---------------------------------------------------------------------------

  /** `t` is the first of the three timestamps that is set. */
  predicate FirstSet(c: Chat, t: real) {
    || c.updatedAt == Some(t)
    || (c.updatedAt == None && c.createdAt == Some(t))
    || (c.updatedAt == None && c.createdAt == None && c.runCreatedAt == Some(t))
  }

  /** A whole number of seconds is allowed between one minute and five minutes less than three hours. */
  predicate Nearest(configured: int, n: int) {
    if configured < 60 then n == 60 else if configured > 10500 then n == 10500 else n == configured
  }

  /** The chat may stay idle for `n` seconds: the configured number, or half an hour if that is unusable. */
  predicate Allows(c: Chat, parse: string -> Option<int>, n: int) {
    match c.timeout
    case Some(Num(m)) => Nearest(m, n)
    case Some(Bool(_)) => n == 60
    case Some(Str(text)) => if parse(text).Some? then Nearest(parse(text).value, n) else n == 1800
    case _ => n == 1800
  }

  /** An open text chat, still within three hours of its last activity, that was idle longer than it may. */
  ghost predicate IdleTooLong(c: Chat, parse: string -> Option<int>, now: real) {
    && c.textMode && !c.completed
    && exists t: real, n: int :: FirstSet(c, t) && Allows(c, parse, n) && now - 10800.0 <= t && t + n as real <= now
  }

  /** The rows a sweep reads: open text chats last active between three hours and one minute ago. */
  ghost predicate InWindow(c: Chat, now: real) {
    c.textMode && !c.completed && exists t: real :: FirstSet(c, t) && now - 10800.0 <= t <= now - 60.0
  }

  lemma CandidateExactlyWhen(c: Chat, now: real)
    ensures Candidate(c, now) <==> InWindow(c, now)
  {
    FilterIsOneWindow(c, now - LOOKBACK as real, now - MIN_TIMEOUT as real);
    if Candidate(c, now) {
      assert FirstSet(c, LastActivity(c).value);
    }
  }

  lemma DeadlineIs(c: Chat, parse: string -> Option<int>, now: real, t: real, n: int)
    requires FirstSet(c, t) && Allows(c, parse, n)
    ensures LastActivity(c) == Some(t) && Deadline(c, parse, now) == t + n as real && 60 <= n <= 10500
  {
  }

  lemma OverdueExactlyWhen(c: Chat, parse: string -> Option<int>, now: real)
    ensures Overdue(c, parse, now) <==> IdleTooLong(c, parse, now)
  {
    FilterIsOneWindow(c, now - LOOKBACK as real, now - MIN_TIMEOUT as real);
    if Overdue(c, parse, now) {
      var t, n := LastActivity(c).value, TimeoutOf(c.timeout, parse);
      assert FirstSet(c, t) && Allows(c, parse, n);
    }
    if IdleTooLong(c, parse, now) {
      var t: real, n: int :|
        FirstSet(c, t) && Allows(c, parse, n) && now - 10800.0 <= t && t + n as real <= now;
      DeadlineIs(c, parse, now, t, n);
    }
  }

  /** Sweeps in time order, no two successive ones further apart than `interval`. */
  predicate Schedule(sweeps: seq<real>, interval: real) {
    sweeps != [] && forall i :: 0 < i < |sweeps| ==> sweeps[i - 1] <= sweeps[i] <= sweeps[i - 1] + interval
  }

  lemma {:induction false} FirstSweepAfter(sweeps: seq<real>, interval: real, t: real) returns (i: nat)
    requires Schedule(sweeps, interval) && interval >= 0.0 && sweeps[0] <= t <= sweeps[|sweeps| - 1]
    ensures i < |sweeps| && t <= sweeps[i] <= t + interval
  {
    if sweeps[0] == t {
      i := 0;
    } else if t <= sweeps[1] {
      i := 1;
    } else {
      var j := FirstSweepAfter(sweeps[1..], interval, t);
      i := j + 1;
    }
  }

  /**
   For every last activity and every configured timeout, a sweep schedule that spans the end of the allowed idle time
   contains a sweep at most five minutes after it, whose window still holds the chat.
   */
  lemma IdleChatIsCaught(c: Chat, parse: string -> Option<int>, t: real, n: int, sweeps: seq<real>) returns (i: nat)
    requires c.textMode && !c.completed && FirstSet(c, t) && Allows(c, parse, n)
    requires Schedule(sweeps, SWEEP_INTERVAL as real)
    requires sweeps[0] <= t + n as real <= sweeps[|sweeps| - 1]
    ensures i < |sweeps| && t + n as real <= sweeps[i] <= t + n as real + 300.0
    ensures IdleTooLong(c, parse, sweeps[i]) && Overdue(c, parse, sweeps[i])
  {
    i := FirstSweepAfter(sweeps, SWEEP_INTERVAL as real, t + n as real);
    DeadlineIs(c, parse, 0.0, t, n);
    OverdueExactlyWhen(c, parse, sweeps[i]);
  }

  /** Some sweep falls between the deadline and the end of the lookback window. */
  ghost predicate Caught(last: real, timeout: real, lookback: real, sweeps: seq<real>) {
    exists i :: 0 <= i < |sweeps| && last + timeout <= sweeps[i] <= last + lookback
  }

  /** Every schedule spanning the deadline catches the chat. */
  ghost predicate AlwaysCaught(timeout: real, interval: real, lookback: real) {
    forall last: real, sweeps: seq<real> ::
      Schedule(sweeps, interval) && sweeps[0] <= last + timeout <= sweeps[|sweeps| - 1] ==>
        Caught(last, timeout, lookback, sweeps)
  }

  /** The bound behind the largest allowed timeout is exact: one instant more and a schedule misses a chat. */
  lemma CoverageBoundIsExact(timeout: real, interval: real, lookback: real)
    requires interval > 0.0
    ensures AlwaysCaught(timeout, interval, lookback) <==> timeout + interval <= lookback
  {
    if timeout + interval <= lookback {
      forall last: real, sweeps: seq<real> |
        Schedule(sweeps, interval) && sweeps[0] <= last + timeout <= sweeps[|sweeps| - 1]
        ensures Caught(last, timeout, lookback, sweeps)
      {
        var i := FirstSweepAfter(sweeps, interval, last + timeout);
      }
    } else {
      var slack := (timeout + interval - lookback) / 2.0;
      var early := if slack < interval then slack else interval / 2.0;
      var sweeps := [timeout - early, timeout - early + interval];
      assert Schedule(sweeps, interval);
      assert sweeps[0] <= 0.0 + timeout <= sweeps[|sweeps| - 1];
      assert sweeps[0] < 0.0 + timeout && sweeps[1] > 0.0 + lookback;
      assert !Caught(0.0, timeout, lookback, sweeps);
    }
  }

  // ---------------------------------------------------------------------------
  // One sweep
  // ---------------------------------------------------------------------------

  type Chats = map<nat, Chat>

  function Candidates(chats: Chats, now: real): set<nat> {
    set id | id in chats && Candidate(chats[id], now)
  }

  /** The chats that a sweep may enqueue from this table; `fails` are those whose enqueueing raises. */
  function Closable(chats: Chats, parse: string -> Option<int>, fails: nat -> bool, now: real): set<nat> {
    set id | id in chats && Overdue(chats[id], parse, now) && !fails(id)
  }

  lemma ClosableIsIdle(chats: Chats, parse: string -> Option<int>, fails: nat -> bool, now: real)
    ensures forall id :: id in Closable(chats, parse, fails, now) <==>
              id in chats && IdleTooLong(chats[id], parse, now) && !fails(id)
  {
    forall id | id in chats
      ensures Overdue(chats[id], parse, now) <==> IdleTooLong(chats[id], parse, now)
    {
      OverdueExactlyWhen(chats[id], parse, now);
    }
  }

  /** `get_inactive_workflow_run_text_sessions`: page sizes outside 1..500 are pulled into that range. */
  method GetInactive(chats: Chats, now: real, limit: int, after: nat, bound: nat) returns (page: seq<nat>)
    requires forall id :: id in chats ==> id <= bound
    ensures IsPage(Candidates(chats, now), PageSize(limit), after, page)
  {
    page := ReadPage(Candidates(chats, now), PageSize(limit), after, bound);
  }

  function PageSize(limit: int): (n: nat)
    ensures 1 <= n <= 500 && (limit < n ==> n == 1) && (limit > n ==> n == 500)
  {
    if limit > 500 then 500 else if limit < 1 then 1 else limit
  }

  /** In the chats' own columns: a page holds chats in the window, and unless it is full all that are left. */
  lemma PageShowsWindow(chats: Chats, now: real, limit: int, after: nat, page: seq<nat>)
    requires IsPage(Candidates(chats, now), PageSize(limit), after, page)
    ensures forall id :: id in page ==> id > after && id in chats && InWindow(chats[id], now)
    ensures |page| <= 500 && (limit >= 1 ==> |page| <= limit)
    ensures (|page| < limit && |page| < 500) || page == [] ==>
              forall id :: id in chats && id > after && InWindow(chats[id], now) ==> id in page
  {
    forall id | id in chats
      ensures id in Candidates(chats, now) <==> InWindow(chats[id], now)
    {
      CandidateExactlyWhen(chats[id], now);
    }
  }

  /** The inner loop enqueues the overdue chats of one page until the limit is reached; a failure is not counted. */
  method EnqueuePage(chats: Chats, parse: string -> Option<int>, fails: nat -> bool, now: real, page: seq<nat>,
                     before: seq<nat>) returns (enqueued: seq<nat>)
    requires Increasing(page) && (forall id :: id in page ==> id in Candidates(chats, now))
    requires Increasing(before) && |before| < ENQUEUE_LIMIT && forall x, y :: x in before && y in page ==> x < y
    ensures Increasing(enqueued) && |enqueued| <= ENQUEUE_LIMIT && before <= enqueued
    ensures forall id :: id in enqueued ==>
              id in before || (id in page && id in chats && IdleTooLong(chats[id], parse, now) && !fails(id))
    ensures |enqueued| < ENQUEUE_LIMIT ==>
              forall id :: id in page && id in chats && IdleTooLong(chats[id], parse, now) && !fails(id) ==>
                id in enqueued
  {
    ClosableIsIdle(chats, parse, fails, now);
    enqueued := before;
    var i := 0;
    while i < |page| && |enqueued| < ENQUEUE_LIMIT
      invariant 0 <= i <= |page|
      invariant Increasing(enqueued) && |enqueued| <= ENQUEUE_LIMIT && before <= enqueued
      invariant forall id :: id in enqueued ==>
                  id in before || (id in page[..i] && id in Closable(chats, parse, fails, now))
      invariant |enqueued| < ENQUEUE_LIMIT ==>
                  forall id :: id in page[..i] && id in Closable(chats, parse, fails, now) ==> id in enqueued
    {
      var id := page[i];
      assert id in page && page[..i + 1] == page[..i] + [id];
      assert forall x :: x in page[..i] ==> x < id;
      if Deadline(chats[id], parse, now) <= now && !fails(id) {
        IncreasingAppend(enqueued, [id]);
        enqueued := enqueued + [id];
      }
      i := i + 1;
    }
    assert page[..|page|] == page;
  }

  /** The ids that were in the window when one of the first `n` pages was read. */
  function EverCandidates(tables: nat -> Chats, now: real, n: nat): set<nat> {
    if n == 0 then {} else EverCandidates(tables, now, n - 1) + Candidates(tables(n - 1), now)
  }

  /** The ids that could be enqueued when one of the first `n` pages was read. */
  function EverClosable(tables: nat -> Chats, parse: string -> Option<int>, fails: nat -> bool, now: real,
                        n: nat): set<nat>
  {
    if n == 0 then {}
    else EverClosable(tables, parse, fails, now, n - 1) + Closable(tables(n - 1), parse, fails, now)
  }

  /** The chat is overdue and can be enqueued in every table the sweep may read. */
  ghost predicate ClosableThroughout(tables: nat -> Chats, parse: string -> Option<int>, fails: nat -> bool, now: real,
                                     id: nat) {
    forall k: nat :: k < MAX_PAGES ==> id in Closable(tables(k), parse, fails, now)
  }

  lemma {:induction false} EverGrows(tables: nat -> Chats, parse: string -> Option<int>, fails: nat -> bool, now: real,
                                     m: nat, n: nat)
    requires m <= n
    ensures EverCandidates(tables, now, m) <= EverCandidates(tables, now, n)
    ensures EverClosable(tables, parse, fails, now, m) <= EverClosable(tables, parse, fails, now, n)
    decreases n
  {
    if m < n {
      EverGrows(tables, parse, fails, now, m, n - 1);
    }
  }

  lemma ClosableAreCandidates(chats: Chats, parse: string -> Option<int>, fails: nat -> bool, now: real)
    ensures Closable(chats, parse, fails, now) <= Candidates(chats, now)
  {
  }

  /** The window never holds more chats than a sweep scans, nor more to enqueue than it may. */
  ghost predicate WithinBounds(tables: nat -> Chats, parse: string -> Option<int>, fails: nat -> bool, now: real) {
    && |EverCandidates(tables, now, MAX_PAGES)| <= MAX_PAGES * PAGE_SIZE
    && |EverClosable(tables, parse, fails, now, MAX_PAGES)| <= ENQUEUE_LIMIT
  }

  /** What one sweep achieves. */
  ghost predicate Swept(tables: nat -> Chats, parse: string -> Option<int>, fails: nat -> bool, now: real,
                        enqueued: seq<nat>) {
    && Increasing(enqueued) && |enqueued| <= ENQUEUE_LIMIT
    && (forall id :: id in enqueued ==> id in EverClosable(tables, parse, fails, now, MAX_PAGES))
    && (WithinBounds(tables, parse, fails, now) ==>
          forall id: nat :: ClosableThroughout(tables, parse, fails, now, id) ==> id in enqueued)
  }

  /** Where the sweep stands after `pages` pages. */
  ghost predicate Progress(tables: nat -> Chats, parse: string -> Option<int>, fails: nat -> bool, now: real,
                           pages: nat, seen: seq<nat>, enqueued: seq<nat>)
  {
    && Increasing(seen) && (forall id :: id in seen ==> id in EverCandidates(tables, now, pages))
    && Increasing(enqueued) && |enqueued| <= ENQUEUE_LIMIT
    && (forall id :: id in enqueued ==> id in seen && id in EverClosable(tables, parse, fails, now, pages))
    && (|enqueued| < ENQUEUE_LIMIT ==>
          forall id: nat :: id in seen && ClosableThroughout(tables, parse, fails, now, id) ==> id in enqueued)
  }

  /** One page read at `pages` and enqueued keeps the sweep on track. */
  lemma PageProgress(tables: nat -> Chats, parse: string -> Option<int>, fails: nat -> bool, now: real, pages: nat,
                     seen: seq<nat>, before: seq<nat>, page: seq<nat>, enqueued: seq<nat>)
    requires pages < MAX_PAGES && Progress(tables, parse, fails, now, pages, seen, before) && |before| < ENQUEUE_LIMIT
    requires Increasing(page) && (forall id :: id in page ==> id in Candidates(tables(pages), now))
    requires forall x, y :: x in seen && y in page ==> x < y
    requires Increasing(enqueued) && |enqueued| <= ENQUEUE_LIMIT && before <= enqueued
    requires forall id :: id in enqueued ==>
               id in before || (id in page && id in Closable(tables(pages), parse, fails, now))
    requires |enqueued| < ENQUEUE_LIMIT ==>
               forall id :: id in page && id in Closable(tables(pages), parse, fails, now) ==> id in enqueued
    ensures Progress(tables, parse, fails, now, pages + 1, seen + page, enqueued)
  {
    IncreasingAppend(seen, page);
    if |enqueued| < ENQUEUE_LIMIT {
      forall id: nat | id in seen + page && ClosableThroughout(tables, parse, fails, now, id)
        ensures id in enqueued
      {
        assert id in Closable(tables(pages), parse, fails, now);
      }
    }
  }

  /** Between pages: which chats that stay overdue were seen, and how many chats while the sweep goes on. */
  ghost predicate OnTrack(tables: nat -> Chats, parse: string -> Option<int>, fails: nat -> bool, now: real,
                          pages: nat, after: nat, seen: seq<nat>, enqueued: seq<nat>, more: bool)
  {
    && pages <= MAX_PAGES && Progress(tables, parse, fails, now, pages, seen, enqueued)
    && (forall x :: x in seen ==> x <= after)
    && (more ==> |enqueued| < ENQUEUE_LIMIT && |seen| == pages * PAGE_SIZE)
    && (more ==> forall id: nat :: ClosableThroughout(tables, parse, fails, now, id) && id <= after ==> id in seen)
    && (!more && |enqueued| < ENQUEUE_LIMIT ==>
          forall id: nat :: ClosableThroughout(tables, parse, fails, now, id) ==> id in seen)
  }

  lemma SweepStarts(tables: nat -> Chats, parse: string -> Option<int>, fails: nat -> bool, now: real)
    requires forall k: nat, id :: id in tables(k) ==> 0 < id
    ensures OnTrack(tables, parse, fails, now, 0, 0, [], [], true)
  {
    forall id: nat | ClosableThroughout(tables, parse, fails, now, id)
      ensures id > 0
    {
      assert id in Closable(tables(0), parse, fails, now);
    }
  }

  lemma PageOnTrack(tables: nat -> Chats, parse: string -> Option<int>, fails: nat -> bool, now: real, pages: nat,
                    after: nat, seen: seq<nat>, before: seq<nat>, page: seq<nat>, enqueued: seq<nat>)
    requires pages < MAX_PAGES && OnTrack(tables, parse, fails, now, pages, after, seen, before, true)
    requires page != [] && IsPage(Candidates(tables(pages), now), PAGE_SIZE, after, page)
    requires Increasing(enqueued) && |enqueued| <= ENQUEUE_LIMIT && before <= enqueued
    requires var chats := tables(pages);
             forall id :: id in enqueued ==>
               id in before || (id in page && id in chats && IdleTooLong(chats[id], parse, now) && !fails(id))
    requires var chats := tables(pages);
             |enqueued| < ENQUEUE_LIMIT ==>
               forall id :: id in page && id in chats && IdleTooLong(chats[id], parse, now) && !fails(id) ==>
                 id in enqueued
    ensures OnTrack(tables, parse, fails, now, pages + 1, page[|page| - 1], seen + page, enqueued,
                    |enqueued| < ENQUEUE_LIMIT && |page| == PAGE_SIZE)
  {
    ClosableIsIdle(tables(pages), parse, fails, now);
    PageCoversAll(tables, parse, fails, now, pages, after, page);
    PageProgress(tables, parse, fails, now, pages, seen, before, page, enqueued);
    LastIsLargest(page);
    assert page[|page| - 1] in page;
  }

  /** What was enqueued so far lies before a page read above the cursor; an empty page ends the sweep. */
  lemma PageLiesAhead(tables: nat -> Chats, parse: string -> Option<int>, fails: nat -> bool, now: real, pages: nat,
                      after: nat, seen: seq<nat>, before: seq<nat>, page: seq<nat>)
    requires pages < MAX_PAGES && OnTrack(tables, parse, fails, now, pages, after, seen, before, true)
    requires IsPage(Candidates(tables(pages), now), PAGE_SIZE, after, page)
    ensures Increasing(before) && |before| < ENQUEUE_LIMIT && forall x, y :: x in before && y in page ==> x < y
    ensures page == [] ==> OnTrack(tables, parse, fails, now, pages, after, seen, before, false)
  {
    PageCoversAll(tables, parse, fails, now, pages, after, page);
  }

  /**
   `sweep_inactive_text_chat_sessions`.  Other calls change the rows between the pages, so page `k` is read from
   its own table.  The sweep enqueues only chats that were overdue when read, each once and at most the limit; and
   if its bounds suffice, it enqueues every chat that stays overdue.
   */
  method Sweep(tables: nat -> Chats, parse: string -> Option<int>, fails: nat -> bool, now: real, bound: nat)
    returns (enqueued: seq<nat>)
    requires forall k: nat, id :: id in tables(k) ==> 0 < id <= bound
    ensures Swept(tables, parse, fails, now, enqueued)
  {
    enqueued := [];
    ghost var seen: seq<nat> := [];
    var after: nat := 0;
    SweepStarts(tables, parse, fails, now);
    for pages := 0 to MAX_PAGES
      invariant OnTrack(tables, parse, fails, now, pages, after, seen, enqueued, true)
    {
      var page := GetInactive(tables(pages), now, PAGE_SIZE, after, bound);
      PageLiesAhead(tables, parse, fails, now, pages, after, seen, enqueued, page);
      if page == [] {
        SweepEnds(tables, parse, fails, now, pages, after, seen, enqueued, false);
        return;
      }
      ghost var was, before := after, enqueued;
      enqueued := EnqueuePage(tables(pages), parse, fails, now, page, enqueued);
      PageOnTrack(tables, parse, fails, now, pages, was, seen, before, page, enqueued);
      seen := seen + page;
      after := page[|page| - 1];
      if |enqueued| >= ENQUEUE_LIMIT || |page| < PAGE_SIZE {
        SweepEnds(tables, parse, fails, now, pages + 1, after, seen, enqueued, false);
        return;
      }
    }
    SweepEnds(tables, parse, fails, now, MAX_PAGES, after, seen, enqueued, true);
  }

  /** The chat was idle too long when some page was read, and enqueueing it does not fail. */
  ghost predicate SeenIdle(tables: nat -> Chats, parse: string -> Option<int>, fails: nat -> bool, now: real, id: nat) {
    !fails(id) && exists k: nat :: k < 10 && id in tables(k) && IdleTooLong(tables(k)[id], parse, now)
  }

  ghost predicate StaysIdle(tables: nat -> Chats, parse: string -> Option<int>, fails: nat -> bool, now: real,
                            id: nat)
  {
    !fails(id) && forall k: nat :: k < 10 ==> id in tables(k) && IdleTooLong(tables(k)[id], parse, now)
  }

  lemma {:induction false} EverClosableIsSeen(tables: nat -> Chats, parse: string -> Option<int>, fails: nat -> bool,
                                              now: real, n: nat, id: nat)
    requires n <= MAX_PAGES && id in EverClosable(tables, parse, fails, now, n)
    ensures SeenIdle(tables, parse, fails, now, id)
  {
    if id in Closable(tables(n - 1), parse, fails, now) {
      ClosableIsIdle(tables(n - 1), parse, fails, now);
    } else {
      EverClosableIsSeen(tables, parse, fails, now, n - 1, id);
    }
  }

  /**
   In the chats' own columns: a sweep enqueues only chats that were idle too long when read, and, if its bounds
   suffice, every chat that stays so, unless enqueueing it fails.
   */
  lemma SweptIsIdle(tables: nat -> Chats, parse: string -> Option<int>, fails: nat -> bool, now: real,
                    enqueued: seq<nat>)
    requires Swept(tables, parse, fails, now, enqueued)
    ensures forall id :: id in enqueued ==> SeenIdle(tables, parse, fails, now, id)
    ensures |enqueued| <= 500
    ensures |EverCandidates(tables, now, 10)| <= 5000 && |EverClosable(tables, parse, fails, now, 10)| <= 500 ==>
              forall id: nat :: StaysIdle(tables, parse, fails, now, id) ==> id in enqueued
  {
    forall id | id in enqueued
      ensures SeenIdle(tables, parse, fails, now, id)
    {
      EverClosableIsSeen(tables, parse, fails, now, MAX_PAGES, id);
    }
    forall id: nat | StaysIdle(tables, parse, fails, now, id)
      ensures ClosableThroughout(tables, parse, fails, now, id)
    {
      forall k: nat | k < MAX_PAGES
        ensures id in Closable(tables(k), parse, fails, now)
      {
        ClosableIsIdle(tables(k), parse, fails, now);
      }
    }
  }

  /** A chat that stays overdue and lies above the cursor is on the page, or beyond a full one. */
  lemma PageCoversAll(tables: nat -> Chats, parse: string -> Option<int>, fails: nat -> bool, now: real, pages: nat,
                      after: nat, page: seq<nat>)
    requires pages < MAX_PAGES && IsPage(Candidates(tables(pages), now), PAGE_SIZE, after, page)
    ensures forall id: nat :: ClosableThroughout(tables, parse, fails, now, id) && id > after && id !in page ==>
              |page| == PAGE_SIZE && forall x :: x in page ==> x < id
  {
    forall id: nat | ClosableThroughout(tables, parse, fails, now, id) && id > after && id !in page
      ensures |page| == PAGE_SIZE && forall x :: x in page ==> x < id
    {
      assert id in Closable(tables(pages), parse, fails, now);
      assert id in Candidates(tables(pages), now);
    }
  }

  lemma SweepEnds(tables: nat -> Chats, parse: string -> Option<int>, fails: nat -> bool, now: real, pages: nat,
                  after: nat, seen: seq<nat>, enqueued: seq<nat>, more: bool)
    requires OnTrack(tables, parse, fails, now, pages, after, seen, enqueued, more) && (more ==> pages == MAX_PAGES)
    ensures Swept(tables, parse, fails, now, enqueued)
  {
    EverGrows(tables, parse, fails, now, pages, MAX_PAGES);
    if WithinBounds(tables, parse, fails, now) {
      forall id: nat | ClosableThroughout(tables, parse, fails, now, id)
        ensures id in enqueued
      {
        assert id in Closable(tables(0), parse, fails, now);
        ClosableAreCandidates(tables(0), parse, fails, now);
        EverGrows(tables, parse, fails, now, 1, MAX_PAGES);
        assert EverClosable(tables, parse, fails, now, 0) == {} && EverCandidates(tables, now, 0) == {};
        if |enqueued| == ENQUEUE_LIMIT {
          ListsWholePool(enqueued, EverClosable(tables, parse, fails, now, MAX_PAGES));
        } else if more {
          ListsWholePool(seen, EverCandidates(tables, now, MAX_PAGES));
        }
      }
    }
  }

  // ---------------------------------------------------------------------------
  // All sweeps
  // ---------------------------------------------------------------------------

  /** One sweep of a schedule: the tables it read, the enqueueings that failed, and what it enqueued. */
  datatype SweepLog = SweepLog(tables: nat -> Chats, fails: nat -> bool, enqueued: seq<nat>)

  /** Every idle chat is enqueued by one of the scheduled sweeps, if their bounds suffice and enqueueing works. */
  lemma IdleChatIsEnqueued(id: nat, c: Chat, parse: string -> Option<int>, t: real, n: int, sweeps: seq<real>,
                           logs: seq<SweepLog>)
    returns (i: nat)
    requires c.textMode && !c.completed && FirstSet(c, t) && Allows(c, parse, n)
    requires Schedule(sweeps, SWEEP_INTERVAL as real) && |logs| == |sweeps|
    requires sweeps[0] <= t + n as real <= sweeps[|sweeps| - 1]
    requires forall i :: 0 <= i < |logs| ==>
               && Swept(logs[i].tables, parse, logs[i].fails, sweeps[i], logs[i].enqueued)
               && WithinBounds(logs[i].tables, parse, logs[i].fails, sweeps[i])
    requires forall i, k: nat :: 0 <= i < |logs| && k < MAX_PAGES ==>
               id in logs[i].tables(k) && logs[i].tables(k)[id] == c
    ensures i < |logs| && t + n as real <= sweeps[i] <= t + n as real + 300.0
    ensures id in logs[i].enqueued || logs[i].fails(id)
  {
    i := IdleChatIsCaught(c, parse, t, n, sweeps);
    if !logs[i].fails(id) {
      assert ClosableThroughout(logs[i].tables, parse, logs[i].fails, sweeps[i], id);
    }
  }
}
