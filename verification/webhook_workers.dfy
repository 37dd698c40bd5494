/**
 The workers around the delivery rows (`deliver_webhook`): claim, one attempt, one report.

 The reports check neither status nor lease, so safety rests on timing.  If every worker reports before its own
 lease runs out, the module proves that terminal rows stay terminal and that attempts are counted; without that
 assumption, it says which reports change a terminal row and shows runs that do.
 */
module WebhookWorkers {
  import opened Common
  import opened WebhookDelivery

  /** A worker's claim: the row, when the lease ends, and the number of the attempt it makes. */
  datatype Lease = Lease(id: nat, until: int, attempt: nat, maxAttempts: nat)

  /** The retry delays, which the environment may set; 30 and 600 seconds otherwise. */
  datatype Delays = Delays(base: nat, cap: nat)

  datatype System = System(rows: Table, leases: map<nat, Lease>, clock: int, delays: Delays)

  /** How the HTTP exchange ended. */
  datatype Attempt =
    | Delivered(code: Option<int>)
    | Transient(error: string, code: Option<int>)
    | Permanent(error: string, code: Option<int>)

  datatype Step =
    | TryClaim(w: nat, id: nat, lease: nat, now: int)
    | Finish(w: nat, attempt: Attempt, now: int)
    | Abandon(w: nat, now: int)  // crash, or a success that could not be recorded
    | New(id: nat, delivery: Delivery, now: int)

  const DEFAULT_DELAYS := Delays(30, 600)

  function Pow2(n: nat): (p: nat)
    ensures p >= 1
  {
    if n == 0 then 1 else 2 * Pow2(n - 1)
  }

  /** Capped exponential backoff after `attempt` failures. */
  function Backoff(c: Delays, attempt: nat): (delay: nat)
    ensures delay <= c.cap
    ensures attempt > 0 ==> delay >= if c.base < c.cap then c.base else c.cap
  {
    var exponential := if attempt == 0 then c.base / 2 else c.base * Pow2(attempt - 1);
    if exponential < c.cap then exponential else c.cap
  }

  /** One more failure doubles the delay until the cap is reached. */
  lemma BackoffDoubles(c: Delays, attempt: nat)
    requires attempt > 0
    ensures Backoff(c, attempt + 1) == if 2 * Backoff(c, attempt) < c.cap then 2 * Backoff(c, attempt) else c.cap
  {
    assert c.base * Pow2(attempt) == 2 * (c.base * Pow2(attempt - 1));
  }

  /** Transient failures retry until the attempts are used up; permanent ones park the row at once. */
  function OutcomeOf(c: Delays, l: Lease, a: Attempt, now: int): Outcome {
    match a
    case Delivered(code) => Success(code)
    case Transient(error, code) =>
      if l.attempt >= l.maxAttempts then Dead(error, code) else Retry(now + Backoff(c, l.attempt), error, code)
    case Permanent(error, code) => Dead(error, code)
  }

  predicate Enabled(s: System, step: Step) {
    && step.now >= s.clock
    && match step
       case TryClaim(w, _, _, _) => w !in s.leases
       case Finish(w, _, _) => w in s.leases
       case Abandon(w, _) => w in s.leases
       case New(id, d, _) => id !in s.rows && d.status == Pending && d.scheduledFor.Some? && d.attempts == 0
  }

  /** The timing assumption: a report comes before the reporter's own lease has run out. */
  predicate Punctual(s: System, step: Step) {
    step.Finish? && step.w in s.leases ==> step.now < s.leases[step.w].until
  }

  function Next(s: System, step: Step): System {
    match step
    case TryClaim(w, id, lease, now) =>
      if Claimable(s.rows, id, now) then
        var d := s.rows[id];
        s.(rows := Claimed(s.rows, id, now, lease),
           leases := s.leases[w := Lease(id, now + lease, d.attempts + 1, d.maxAttempts)], clock := now)
      else s.(clock := now)
    case Finish(w, a, now) =>
      if w in s.leases then
        var l := s.leases[w];
        s.(rows := Reported(s.rows, l.id, l.attempt, OutcomeOf(s.delays, l, a, now)), leases := s.leases - {w},
           clock := now)
      else s.(clock := now)
    case Abandon(w, now) => s.(leases := s.leases - {w}, clock := now)
    case New(id, d, now) => s.(rows := s.rows[id := d], clock := now)
  }

  /** The system after the first `k` steps. */
  function At(s: System, steps: seq<Step>, k: nat): System
    requires k <= |steps|
  {
    if k == 0 then s else Next(At(s, steps, k - 1), steps[k - 1])
  }

  predicate EnabledAt(s: System, steps: seq<Step>, k: nat)
    requires k < |steps|
  {
    Enabled(At(s, steps, k), steps[k])
  }

  predicate PunctualAt(s: System, steps: seq<Step>, k: nat)
    requires k < |steps|
  {
    Punctual(At(s, steps, k), steps[k])
  }

  ghost predicate Valid(s: System, steps: seq<Step>) {
    forall k: nat :: k < |steps| ==> EnabledAt(s, steps, k)
  }

  ghost predicate PunctualRun(s: System, steps: seq<Step>) {
    forall k: nat :: k < |steps| ==> PunctualAt(s, steps, k)
  }

  predicate Initial(s: System) {
    s.leases == map[] && forall id :: id in s.rows ==>
      s.rows[id].status == Pending && s.rows[id].scheduledFor.Some? && s.rows[id].attempts == 0
  }

  /** A lease that has not run out. */
  predicate Live(s: System, w: nat) {
    w in s.leases && s.clock < s.leases[w].until
  }

  /** At least one attempt is always made. */
  function Ceiling(d: Delivery): nat {
    if d.maxAttempts == 0 then 1 else d.maxAttempts
  }

  predicate RowOk(d: Delivery) {
    && (d.status == Pending <==> d.scheduledFor.Some?)
    && d.attempts <= Ceiling(d) && (d.status == Pending ==> d.attempts < Ceiling(d))
  }

  /** A live lease is the one its pending row is scheduled by. */
  predicate LeaseMatches(s: System, w: nat)
    requires w in s.leases
  {
    var l := s.leases[w];
    && l.id in s.rows && s.rows[l.id].status == Pending && s.rows[l.id].scheduledFor == Some(l.until)
    && l.attempt == s.rows[l.id].attempts + 1 && l.maxAttempts == s.rows[l.id].maxAttempts
  }

  ghost predicate Inv(s: System) {
    && (forall id :: id in s.rows ==> RowOk(s.rows[id]))
    && (forall w :: Live(s, w) ==> LeaseMatches(s, w))
    && (forall v, w :: Live(s, v) && Live(s, w) && s.leases[v].id == s.leases[w].id ==> v == w)
  }

  /** Time passing and leases ending keep the rules, whatever happens to rows without a live lease. */
  lemma FewerLeasesKeepInv(s: System, t: System)
    requires Inv(s) && (forall id :: id in t.rows ==> RowOk(t.rows[id]))
    requires forall v :: Live(t, v) ==> Live(s, v) && t.leases[v] == s.leases[v]
    requires forall v :: Live(t, v) ==> s.leases[v].id in t.rows && t.rows[s.leases[v].id] == s.rows[s.leases[v].id]
    ensures Inv(t)
  {
  }

  lemma ClaimKeepsInv(s: System, w: nat, id: nat, lease: nat, now: int)
    requires Inv(s) && Enabled(s, TryClaim(w, id, lease, now))
    ensures Inv(Next(s, TryClaim(w, id, lease, now)))
  {
    var t := Next(s, TryClaim(w, id, lease, now));
    if Claimable(s.rows, id, now) {
      forall v | Live(t, v) && v != w
        ensures Live(s, v) && s.leases[v].id != id && LeaseMatches(t, v)
      {
        assert Live(s, v) && LeaseMatches(s, v);
      }
    } else {
      FewerLeasesKeepInv(s, t);
    }
  }

  lemma FinishKeepsInv(s: System, w: nat, a: Attempt, now: int)
    requires Inv(s) && Enabled(s, Finish(w, a, now)) && Punctual(s, Finish(w, a, now))
    ensures Inv(Next(s, Finish(w, a, now)))
  {
    assert Live(s, w);
    FewerLeasesKeepInv(s, Next(s, Finish(w, a, now)));
  }

  lemma StepKeepsInv(s: System, step: Step)
    requires Inv(s) && Enabled(s, step) && Punctual(s, step)
    ensures Inv(Next(s, step))
  {
    match step
    case TryClaim(w, id, lease, now) => ClaimKeepsInv(s, w, id, lease, now);
    case Finish(w, a, now) => FinishKeepsInv(s, w, a, now);
    case Abandon(w, now) => FewerLeasesKeepInv(s, Next(s, step));
    case New(id, d, now) => FewerLeasesKeepInv(s, Next(s, step));
  }

  lemma {:induction false} RunKeepsInv(s: System, steps: seq<Step>, k: nat)
    requires Initial(s) && Valid(s, steps) && PunctualRun(s, steps) && k <= |steps|
    ensures Inv(At(s, steps, k))
  {
    if k > 0 {
      RunKeepsInv(s, steps, k - 1);
      assert EnabledAt(s, steps, k - 1) && PunctualAt(s, steps, k - 1);
      StepKeepsInv(At(s, steps, k - 1), steps[k - 1]);
    }
  }

  lemma TerminalStep(s: System, step: Step, id: nat)
    requires Inv(s) && Enabled(s, step) && Punctual(s, step)
    requires id in s.rows && s.rows[id].status != Pending
    ensures id in Next(s, step).rows && Next(s, step).rows[id] == s.rows[id]
  {
    if step.Finish? {
      assert Live(s, step.w);
    }
  }

  /** In every punctual run a succeeded or dead-lettered row is never touched again. */
  lemma {:induction false} TerminalForever(s: System, steps: seq<Step>, i: nat, j: nat, id: nat)
    requires Initial(s) && Valid(s, steps) && PunctualRun(s, steps) && i <= j <= |steps|
    requires id in At(s, steps, i).rows && At(s, steps, i).rows[id].status != Pending
    ensures id in At(s, steps, j).rows && At(s, steps, j).rows[id] == At(s, steps, i).rows[id]
    decreases j
  {
    if i < j {
      TerminalForever(s, steps, i, j - 1, id);
      RunKeepsInv(s, steps, j - 1);
      assert EnabledAt(s, steps, j - 1) && PunctualAt(s, steps, j - 1);
      TerminalStep(At(s, steps, j - 1), steps[j - 1], id);
    }
  }

  /** The step reports an attempt on `id`. */
  predicate FinishesOn(s: System, step: Step, id: nat) {
    step.Finish? && step.w in s.leases && s.leases[step.w].id == id
  }

  lemma AttemptStep(s: System, step: Step, id: nat)
    requires Inv(s) && Enabled(s, step) && Punctual(s, step)
    ensures var t := Next(s, step);
            if id in s.rows
            then id in t.rows && t.rows[id].attempts == s.rows[id].attempts + (if FinishesOn(s, step, id) then 1 else 0)
            else !FinishesOn(s, step, id) && (id in t.rows ==> t.rows[id].attempts == 0)
  {
    if step.Finish? {
      assert Live(s, step.w);
    }
  }

  function ReportCount(s: System, steps: seq<Step>, k: nat, id: nat): nat
    requires k <= |steps|
  {
    if k == 0 then 0
    else ReportCount(s, steps, k - 1, id) + if FinishesOn(At(s, steps, k - 1), steps[k - 1], id) then 1 else 0
  }

  /** The stored attempt count is the number of reports made, and never passes the row's ceiling. */
  lemma {:induction false} AttemptsCountReports(s: System, steps: seq<Step>, k: nat, id: nat)
    requires Initial(s) && Valid(s, steps) && PunctualRun(s, steps) && k <= |steps|
    ensures var t := At(s, steps, k);
            if id in t.rows
            then t.rows[id].attempts == ReportCount(s, steps, k, id) <= Ceiling(t.rows[id])
                 && (ReportCount(s, steps, k, id) == Ceiling(t.rows[id]) ==> t.rows[id].status != Pending)
            else ReportCount(s, steps, k, id) == 0
  {
    RunKeepsInv(s, steps, k);
    if k > 0 {
      AttemptsCountReports(s, steps, k - 1, id);
      RunKeepsInv(s, steps, k - 1);
      assert EnabledAt(s, steps, k - 1) && PunctualAt(s, steps, k - 1);
      AttemptStep(At(s, steps, k - 1), steps[k - 1], id);
    }
  }

  /** Whether a report with this outcome gives a row with the status another one. */
  predicate Flips(status: Status, outcome: Outcome) {
    match outcome
    case Success(_) => status != Succeeded
    case Retry(_, _, _) => status != Pending
    case Dead(_, _) => status != DeadLetter
  }

  /**
   A step changes a terminal status exactly when it reports on that row an outcome that stands for another
   status: a retry reopens the row, and a success and a dead letter replace each other.
   */
  lemma TerminalLeftExactlyWhen(s: System, step: Step, id: nat)
    requires Enabled(s, step) && id in s.rows && s.rows[id].status != Pending
    ensures id in Next(s, step).rows
    ensures Next(s, step).rows[id].status != s.rows[id].status
            <==> FinishesOn(s, step, id)
                 && Flips(s.rows[id].status, OutcomeOf(s.delays, s.leases[step.w], step.attempt, step.now))
    ensures !FinishesOn(s, step, id) ==> Next(s, step).rows[id] == s.rows[id]
  {
  }

  /** Step `k` reports on the row. */
  predicate ReportsAt(s: System, steps: seq<Step>, k: nat, id: nat)
    requires k < |steps|
  {
    FinishesOn(At(s, steps, k), steps[k], id)
  }

  /** Without any timing assumption: a terminal row changes in no way until another report on it arrives. */
  lemma {:induction false} TerminalUntilReport(s: System, steps: seq<Step>, i: nat, j: nat, id: nat)
    requires Valid(s, steps) && i <= j <= |steps|
    requires id in At(s, steps, i).rows && At(s, steps, i).rows[id].status != Pending
    requires forall k: nat :: i <= k < j ==> !ReportsAt(s, steps, k, id)
    ensures id in At(s, steps, j).rows && At(s, steps, j).rows[id] == At(s, steps, i).rows[id]
    decreases j
  {
    if i < j {
      TerminalUntilReport(s, steps, i, j - 1, id);
      assert EnabledAt(s, steps, j - 1) && !ReportsAt(s, steps, j - 1, id);
      TerminalLeftExactlyWhen(At(s, steps, j - 1), steps[j - 1], id);
    }
  }

  // ---------------------------------------------------------------------------
  // What late reports do
  // ---------------------------------------------------------------------------

  const ONE_DELIVERY := System(map[1 := Fresh(7, "node", 1, Null, 5, 0)], map[], 0, DEFAULT_DELAYS)

  /** Worker 1 outlives its lease, worker 2 claims the row and reports `first`, then worker 1 reports `late`. */
  function LateReport(first: Attempt, late: Attempt): seq<Step> {
    [TryClaim(1, 1, 90, 0), TryClaim(2, 1, 90, 100), Finish(2, first, 110), Finish(1, late, 120)]
  }

  lemma LateReportRuns(first: Attempt, late: Attempt)
    ensures var s, steps := ONE_DELIVERY, LateReport(first, late);
            && Initial(s) && Valid(s, steps) && !PunctualRun(s, steps)
            && var d := Claimed(Claimed(s.rows, 1, 0, 90), 1, 100, 90);
            var lease := Lease(1, 90, 1, 5);
            var reported := Reported(d, 1, 1, OutcomeOf(s.delays, lease, first, 110));
            && At(s, steps, 3).rows == reported
            && At(s, steps, 4).rows == Reported(reported, 1, 1, OutcomeOf(s.delays, lease, late, 120))
  {
    var s, steps := ONE_DELIVERY, LateReport(first, late);
    var s1 := Next(s, steps[0]);
    var s2 := Next(s1, steps[1]);
    var s3 := Next(s2, steps[2]);
    assert At(s, steps, 0) == s && At(s, steps, 1) == s1 && At(s, steps, 2) == s2 && At(s, steps, 3) == s3;
    assert At(s, steps, 4) == Next(s3, steps[3]);
    assert s1.leases[1] == Lease(1, 90, 1, 5) && s2.leases[2] == Lease(1, 190, 1, 5) && s3.leases[1] == s1.leases[1];
    assert !Punctual(s3, steps[3]) && !PunctualAt(s, steps, 3);
  }

  /** Without the timing assumption: a late transient report turns a delivered row back to pending. */
  lemma LateReportReopens() returns (s: System, steps: seq<Step>)
    ensures Initial(s) && Valid(s, steps) && |steps| == 4 && !PunctualRun(s, steps)
    ensures 1 in At(s, steps, 3).rows && At(s, steps, 3).rows[1].status == Succeeded
    ensures 1 in At(s, steps, 4).rows && At(s, steps, 4).rows[1].status == Pending
  {
    s, steps := ONE_DELIVERY, LateReport(Delivered(Some(200)), Transient("timeout", None));
    LateReportRuns(Delivered(Some(200)), Transient("timeout", None));
  }

  /** A late permanent failure buries a delivered row. */
  lemma LateReportBuries() returns (s: System, steps: seq<Step>)
    ensures Initial(s) && Valid(s, steps) && |steps| == 4 && !PunctualRun(s, steps)
    ensures 1 in At(s, steps, 3).rows && At(s, steps, 3).rows[1].status == Succeeded
    ensures 1 in At(s, steps, 4).rows && At(s, steps, 4).rows[1].status == DeadLetter
  {
    s, steps := ONE_DELIVERY, LateReport(Delivered(Some(200)), Permanent("HTTP 404", Some(404)));
    LateReportRuns(Delivered(Some(200)), Permanent("HTTP 404", Some(404)));
  }

  /** A late success turns a dead letter into a delivered row. */
  lemma LateReportRevives() returns (s: System, steps: seq<Step>)
    ensures Initial(s) && Valid(s, steps) && |steps| == 4 && !PunctualRun(s, steps)
    ensures 1 in At(s, steps, 3).rows && At(s, steps, 3).rows[1].status == DeadLetter
    ensures 1 in At(s, steps, 4).rows && At(s, steps, 4).rows[1].status == Succeeded
  {
    s, steps := ONE_DELIVERY, LateReport(Permanent("HTTP 404", Some(404)), Delivered(Some(200)));
    LateReportRuns(Permanent("HTTP 404", Some(404)), Delivered(Some(200)));
  }

  /** After a late retry report two workers hold live leases on one delivery. */
  lemma TwoLiveLeases() returns (s: System, steps: seq<Step>)
    ensures Initial(s) && Valid(s, steps) && |steps| == 4 && !PunctualRun(s, steps)
    ensures var t := At(s, steps, 4); Live(t, 2) && Live(t, 3) && t.leases[2].id == t.leases[3].id
  {
    s := ONE_DELIVERY;
    steps := [TryClaim(1, 1, 90, 0), TryClaim(2, 1, 90, 100), Finish(1, Transient("timeout", None), 110),
              TryClaim(3, 1, 90, 140)];
    var s1 := Next(s, steps[0]);
    var s2 := Next(s1, steps[1]);
    var s3 := Next(s2, steps[2]);
    assert At(s, steps, 0) == s && At(s, steps, 1) == s1 && At(s, steps, 2) == s2 && At(s, steps, 3) == s3;
    assert s2.leases[1] == Lease(1, 90, 1, 5) && s2.leases[2] == Lease(1, 190, 1, 5);
    assert Pow2(0) == 1 && s3.rows[1].scheduledFor == Some(140);
    assert At(s, steps, 4) == Next(s3, steps[3]);
    assert !Punctual(s2, steps[2]) && !PunctualAt(s, steps, 2);
  }
}
