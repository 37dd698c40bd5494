/**
 What a report does to its delivery, in terms of the exchange that is reported: which attempts are retried, how
 long the retry waits, and what every column of the row shows afterwards.
 */
module WebhookRetries {
  import opened Common
  import opened Paging
  import opened WebhookDelivery
  import opened WebhookWorkers
  import opened WebhookLeases

  /** `base` doubled `k` times. */
  function Doubled(base: nat, k: nat): nat {
    if k == 0 then base else 2 * Doubled(base, k - 1)
  }

  /** The wait after failure number `n`: the base delay, doubled with every further failure up to the cap. */
  function Wait(delays: Delays, n: nat): nat
    requires n >= 1
  {
    if Doubled(delays.base, n - 1) < delays.cap then Doubled(delays.base, n - 1) else delays.cap
  }

  lemma {:induction false} DoublingIsPower(base: nat, k: nat)
    ensures Doubled(base, k) == base * Pow2(k)
  {
    if k > 0 {
      DoublingIsPower(base, k - 1);
      assert base * Pow2(k) == 2 * (base * Pow2(k - 1));
    }
  }

  lemma BackoffIsWait(delays: Delays, n: nat)
    requires n >= 1
    ensures Backoff(delays, n) == Wait(delays, n)
  {
    DoublingIsPower(delays.base, n - 1);
  }

  /** With the delays that are set by default: half a minute, one, two, four and eight minutes, then ten. */
  lemma DefaultWaits()
    ensures Wait(DEFAULT_DELAYS, 1) == 30 && Wait(DEFAULT_DELAYS, 2) == 60 && Wait(DEFAULT_DELAYS, 3) == 120
    ensures Wait(DEFAULT_DELAYS, 4) == 240 && Wait(DEFAULT_DELAYS, 5) == 480
    ensures forall n :: n >= 6 ==> Wait(DEFAULT_DELAYS, n) == 600
  {
    assert Doubled(30, 2) == 120 && Doubled(30, 4) == 480 && Doubled(30, 5) == 960;
    forall n | n >= 6
      ensures Wait(DEFAULT_DELAYS, n) == 600
    {
      DoubledGrows(30, 5, n - 1);
    }
  }

  lemma {:induction false} DoubledGrows(base: nat, j: nat, k: nat)
    requires j <= k
    ensures Doubled(base, j) <= Doubled(base, k)
  {
    if j < k {
      DoubledGrows(base, j, k - 1);
    }
  }

  // ---------------------------------------------------------------------------
  // One report
  // ---------------------------------------------------------------------------

  /** What the report leaves alone, and what every report writes. */
  predicate ReportedBy(before: Delivery, after: Delivery, l: Lease, code: Option<int>) {
    && after.run == before.run && after.node == before.node && after.organization == before.organization
    && after.payload == before.payload && after.maxAttempts == before.maxAttempts
    && after.attempts == l.attempt && after.lastCode == code
  }

  /** The stored error is the reported one, cut to its first 2000 characters. */
  predicate Shows(stored: Option<string>, error: string) {
    stored.Some? && |stored.value| <= 2000 && stored.value <= error && (|error| <= 2000 ==> stored.value == error)
    && (|error| > 2000 ==> |stored.value| == 2000)
  }

  /**
   After a transient failure of attempt `n`: below the row's attempts it is pending and due after exactly the wait
   for failure `n`; otherwise it is a dead letter.
   */
  lemma TransientReport(s: System, w: nat, error: string, code: Option<int>, now: int)
    requires w in s.leases && s.leases[w].id in s.rows && s.leases[w].attempt >= 1
    ensures var l, t := s.leases[w], Next(s, Finish(w, Transient(error, code), now));
            && l.id in t.rows && ReportedBy(s.rows[l.id], t.rows[l.id], l, code) && Shows(t.rows[l.id].lastError, error)
            && (l.attempt < l.maxAttempts ==>
                  t.rows[l.id].status == Pending
                  && t.rows[l.id].scheduledFor == Some(now + Wait(s.delays, l.attempt)))
            && (l.attempt >= l.maxAttempts ==>
                  t.rows[l.id].status == DeadLetter && t.rows[l.id].scheduledFor == None)
  {
    BackoffIsWait(s.delays, s.leases[w].attempt);
  }

  /** A permanent failure makes the row a dead letter at once. */
  lemma PermanentReport(s: System, w: nat, error: string, code: Option<int>, now: int)
    requires w in s.leases && s.leases[w].id in s.rows
    ensures var l, t := s.leases[w], Next(s, Finish(w, Permanent(error, code), now));
            && l.id in t.rows && ReportedBy(s.rows[l.id], t.rows[l.id], l, code) && Shows(t.rows[l.id].lastError, error)
            && t.rows[l.id].status == DeadLetter && t.rows[l.id].scheduledFor == None
  {
  }

  lemma DeliveredReport(s: System, w: nat, code: Option<int>, now: int)
    requires w in s.leases && s.leases[w].id in s.rows
    ensures var l, t := s.leases[w], Next(s, Finish(w, Delivered(code), now));
            && l.id in t.rows && ReportedBy(s.rows[l.id], t.rows[l.id], l, code) && t.rows[l.id].lastError == None
            && t.rows[l.id].status == Succeeded && t.rows[l.id].scheduledFor == None
  {
  }

  /** A report ends the reporter's lease and leaves every other row and lease alone. */
  lemma ReportLeavesOthers(s: System, w: nat, a: Attempt, now: int)
    requires w in s.leases
    ensures var t := Next(s, Finish(w, a, now));
            && t.rows.Keys == s.rows.Keys && t.leases == s.leases - {w} && t.clock == now && t.delays == s.delays
            && forall id :: id in s.rows && id != s.leases[w].id ==> t.rows[id] == s.rows[id]
  {
  }

  /**
   A claim wins exactly on a pending row that is due (or has no time); the row is then scheduled at the lease's end
   and otherwise as it was, and the lease is for the attempt after those counted.
   */
  lemma ClaimWinsExactlyWhen(s: System, w: nat, id: nat, lease: nat, now: int)
    requires w !in s.leases
    ensures var t := Next(s, TryClaim(w, id, lease, now));
            && (w in t.leases <==> id in s.rows && s.rows[id].status == Pending
                                   && (s.rows[id].scheduledFor.Some? ==> s.rows[id].scheduledFor.value <= now))
            && (w in t.leases ==>
                  && t.leases[w] == Lease(id, now + lease, s.rows[id].attempts + 1, s.rows[id].maxAttempts)
                  && t.rows.Keys == s.rows.Keys && t.rows[id] == s.rows[id].(scheduledFor := Some(now + lease)))
            && (forall x :: x in s.rows && (x != id || w !in t.leases) ==> x in t.rows && t.rows[x] == s.rows[x])
            && (forall v :: v in s.leases ==> v in t.leases && t.leases[v] == s.leases[v])
  {
  }

  /** A worker that stops without a report leaves its row as it is; its lease is gone. */
  lemma AbandonLeaves(s: System, w: nat, now: int)
    ensures var t := Next(s, Abandon(w, now));
            && t.rows == s.rows && w !in t.leases && t.clock == now && t.delays == s.delays
            && forall v :: v in s.leases && v != w ==> v in t.leases && t.leases[v] == s.leases[v]
  {
  }

  /** A new delivery is stored beside the others. */
  lemma NewAdds(s: System, id: nat, d: Delivery, now: int)
    requires id !in s.rows
    ensures var t := Next(s, New(id, d, now));
            && t.rows.Keys == s.rows.Keys + {id} && t.rows[id] == d && t.leases == s.leases && t.clock == now
            && forall x :: x in s.rows ==> t.rows[x] == s.rows[x]
  {
  }

  // ---------------------------------------------------------------------------
  // Over a punctual run
  // ---------------------------------------------------------------------------

  lemma {:induction false} DelaysStay(s: System, steps: seq<Step>, k: nat)
    requires k <= |steps|
    ensures At(s, steps, k).delays == s.delays
  {
    if k > 0 { DelaysStay(s, steps, k - 1); }
  }

  /** In a punctual run a reporter's lease is for the attempt after the reports counted so far. */
  lemma ReporterCounts(s: System, steps: seq<Step>, k: nat, id: nat)
    requires Initial(s) && Valid(s, steps) && PunctualRun(s, steps) && k < |steps| && ReportsAt(s, steps, k, id)
    ensures var t, w := At(s, steps, k), steps[k].w;
            && id in t.rows && t.rows[id].status == Pending
            && t.leases[w].attempt == ReportCount(s, steps, k, id) + 1
            && t.leases[w].maxAttempts == t.rows[id].maxAttempts
  {
    RunKeepsInv(s, steps, k);
    AttemptsCountReports(s, steps, k, id);
    assert EnabledAt(s, steps, k) && PunctualAt(s, steps, k);
    assert Live(At(s, steps, k), steps[k].w);
  }

  /**
   Over a punctual run, if the report at step `k` is the `n`-th on its row and transient, the row waits for its next
   attempt as long as failure `n` asks for, unless `n` used up the attempts; then it is a dead letter.
   */
  lemma NthFailureWaits(s: System, steps: seq<Step>, k: nat, id: nat)
    requires Initial(s) && Valid(s, steps) && PunctualRun(s, steps) && k < |steps|
    requires ReportsAt(s, steps, k, id) && steps[k].attempt.Transient?
    ensures var n, t := ReportCount(s, steps, k, id) + 1, At(s, steps, k + 1);
            && id in t.rows && t.rows[id].attempts == n
            && (n < t.rows[id].maxAttempts ==>
                  t.rows[id].status == Pending && t.rows[id].scheduledFor == Some(steps[k].now + Wait(s.delays, n)))
            && (n >= t.rows[id].maxAttempts ==> t.rows[id].status == DeadLetter && t.rows[id].scheduledFor == None)
  {
    ReporterCounts(s, steps, k, id);
    DelaysStay(s, steps, k);
    TransientReport(At(s, steps, k), steps[k].w, steps[k].attempt.error, steps[k].attempt.code, steps[k].now);
  }

  /** A row that is pending in a punctual run has had transient failures only. */
  lemma {:induction false} PendingHadTransients(s: System, steps: seq<Step>, k: nat, j: nat, id: nat)
    requires Initial(s) && Valid(s, steps) && PunctualRun(s, steps) && j < k <= |steps|
    requires id in At(s, steps, k).rows && At(s, steps, k).rows[id].status == Pending && ReportsAt(s, steps, j, id)
    ensures steps[j].attempt.Transient?
  {
    ReporterCounts(s, steps, j, id);
    var t, w := At(s, steps, j), steps[j].w;
    match steps[j].attempt
    case Transient(_, _) =>
    case Delivered(code) =>
      DeliveredReport(t, w, code, steps[j].now);
      TerminalForever(s, steps, j + 1, k, id);
    case Permanent(error, code) =>
      PermanentReport(t, w, error, code, steps[j].now);
      TerminalForever(s, steps, j + 1, k, id);
  }

  // ---------------------------------------------------------------------------
  // Creation and the sweep
  // ---------------------------------------------------------------------------

  /** A delivery is created once per run and node: pending, unattempted, due at the given time, with what was given. */
  lemma CreationOutcome(s: Store, run: nat, node: string, organization: nat, payload: Json, maxAttempts: nat, due: int)
    requires s.next !in s.rows
    ensures var t := Apply(s, Create(run, node, organization, payload, maxAttempts, due));
            if exists id :: id in s.rows && s.rows[id].run == run && s.rows[id].node == node then t == s
            else
              && t.rows.Keys == s.rows.Keys + {s.next} && t.next == s.next + 1
              && (forall id :: id in s.rows ==> t.rows[id] == s.rows[id])
              && var d := t.rows[s.next];
                 && d.run == run && d.node == node && d.organization == organization && d.payload == payload
                 && d.maxAttempts == maxAttempts && d.status == Pending && d.attempts == 0
                 && d.scheduledFor == Some(due) && d.lastCode == None && d.lastError == None
  {
  }

  /** The sweep looks for exactly the rows that a claim at that moment would win. */
  lemma DueIsWinnable(s: System, w: nat, id: nat, lease: nat, now: int)
    requires Kept(s) && w !in s.leases
    ensures Due(s.rows, id, now) <==> w in Next(s, TryClaim(w, id, lease, now)).leases
  {
  }

  /** A page of the sweep holds pending rows that are due, above the cursor, and unless it is full all of them. */
  lemma DuePageShows(rows: Table, now: int, limit: nat, after: nat, page: seq<nat>)
    requires IsPage(DueSet(rows, now), limit, after, page)
    ensures |page| <= limit
    ensures forall id :: id in page ==>
              && id > after && id in rows && rows[id].status == Pending
              && rows[id].scheduledFor.Some? && rows[id].scheduledFor.value <= now
    ensures |page| < limit ==>
              forall id: nat ::
                (id > after && id in rows && rows[id].status == Pending
                 && rows[id].scheduledFor.Some? && rows[id].scheduledFor.value <= now) ==> id in page
  {
    forall id: nat | id in rows
      ensures id in DueSet(rows, now) <==>
                rows[id].status == Pending && rows[id].scheduledFor.Some? && rows[id].scheduledFor.value <= now
    {
    }
  }
}
