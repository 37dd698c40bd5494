/**
 Leases without any assumption on the timing of reports: exactly when a run leaves every delivery to one worker
 at a time, and exactly when the stored attempt counts are right.
 */
module WebhookLeases {
  import opened Common
  import opened WebhookDelivery
  import opened WebhookWorkers

  // ---------------------------------------------------------------------------
  // What every run keeps
  // ---------------------------------------------------------------------------

  /** A lease, live or not, is on a stored row and for an attempt that the row allows. */
  predicate Fits(s: System, w: nat)
    requires w in s.leases
  {
    var l := s.leases[w];
    l.id in s.rows && l.maxAttempts == s.rows[l.id].maxAttempts && l.attempt <= Ceiling(s.rows[l.id])
  }

  ghost predicate Kept(s: System) {
    && (forall id :: id in s.rows ==> RowOk(s.rows[id]))
    && (forall w :: w in s.leases ==> Fits(s, w))
  }

  lemma StepKeeps(s: System, step: Step)
    requires Kept(s) && Enabled(s, step)
    ensures Kept(Next(s, step))
  {
    var t := Next(s, step);
    forall w | w in t.leases
      ensures Fits(t, w)
    {
      assert w in s.leases ==> Fits(s, w);
    }
    if step.Finish? {
      assert Fits(s, step.w);
    }
  }

  lemma {:induction false} RunKeeps(s: System, steps: seq<Step>, k: nat)
    requires Initial(s) && Valid(s, steps) && k <= |steps|
    ensures Kept(At(s, steps, k))
  {
    if k > 0 {
      RunKeeps(s, steps, k - 1);
      assert EnabledAt(s, steps, k - 1);
      StepKeeps(At(s, steps, k - 1), steps[k - 1]);
    }
  }

  /** Late or not, no report carries the stored count past the row's ceiling. */
  lemma AttemptsWithinCeiling(s: System, steps: seq<Step>, k: nat, id: nat)
    requires Initial(s) && Valid(s, steps) && k <= |steps| && id in At(s, steps, k).rows
    ensures var d := At(s, steps, k).rows[id];
            && (d.attempts <= d.maxAttempts || d.attempts == 1)
            && (d.status == Pending ==> d.attempts < d.maxAttempts || d.attempts == 0)
  {
    RunKeeps(s, steps, k);
  }

  // ---------------------------------------------------------------------------
  // One worker at a time
  // ---------------------------------------------------------------------------

  /** No delivery has two live leases. */
  ghost predicate OneEach(s: System) {
    forall v, w :: Live(s, v) && Live(s, w) && s.leases[v].id == s.leases[w].id ==> v == w
  }

  /** No delivery has two live leases, now or after a claim that can come next. */
  ghost predicate Safe(s: System) {
    && OneEach(s)
    && forall w, id, lease, now :: Enabled(s, TryClaim(w, id, lease, now)) ==>
         OneEach(Next(s, TryClaim(w, id, lease, now)))
  }

  /** The row of a live lease, if pending, is not due before the lease ends. */
  predicate Covered(s: System, w: nat)
    requires w in s.leases
  {
    var l := s.leases[w];
    l.id in s.rows && s.rows[l.id].status == Pending ==>
      s.rows[l.id].scheduledFor.Some? && s.rows[l.id].scheduledFor.value >= l.until
  }

  ghost predicate Guarded(s: System) {
    OneEach(s) && forall w :: Live(s, w) ==> Covered(s, w)
  }

  /** The step is a report that reschedules the row to before the end of another worker's lease on it. */
  ghost predicate Undercuts(s: System, step: Step) {
    && step.Finish? && step.w in s.leases
    && var outcome := OutcomeOf(s.delays, s.leases[step.w], step.attempt, step.now);
       outcome.Retry? && exists v :: v != step.w && CutShort(s, v, s.leases[step.w].id, outcome.at)
  }

  /** Worker `v` holds a lease on the row that lasts beyond `at`. */
  predicate CutShort(s: System, v: nat, id: nat, at: int) {
    v in s.leases && s.leases[v].id == id && at < s.leases[v].until
  }

  lemma {:induction false} Outside(ws: set<nat>) returns (w: nat)
    ensures forall v :: v in ws ==> v < w
  {
    if ws == {} {
      w := 0;
    } else {
      var v :| v in ws;
      var u := Outside(ws - {v});
      assert forall x :: x in ws ==> x == v || x in ws - {v};
      w := if v < u then u else v + 1;
    }
  }

  /** A state is safe exactly when every live lease covers its row. */
  lemma SafeExactlyWhen(s: System)
    requires Kept(s)
    ensures Safe(s) <==> Guarded(s)
  {
    if Guarded(s) {
      forall w, id, lease, now | Enabled(s, TryClaim(w, id, lease, now))
        ensures OneEach(Next(s, TryClaim(w, id, lease, now)))
      {
        ClaimKeepsOne(s, w, id, lease, now);
      }
    }
    if Safe(s) {
      forall v | Live(s, v)
        ensures Covered(s, v)
      {
        if !Covered(s, v) {
          UncoveredIsUnsafe(s, v);
        }
      }
    }
  }

  lemma ClaimKeepsOne(s: System, w: nat, id: nat, lease: nat, now: int)
    requires Guarded(s) && Enabled(s, TryClaim(w, id, lease, now))
    ensures OneEach(Next(s, TryClaim(w, id, lease, now)))
  {
    var t := Next(s, TryClaim(w, id, lease, now));
    forall v | Live(t, v) && v != w
      ensures Live(s, v) && t.leases[v] == s.leases[v] && (w in t.leases ==> s.leases[v].id != t.leases[w].id)
    {
      assert Live(s, v) && Covered(s, v);
    }
  }

  /** A claim that comes when the uncovered row is due makes a second live lease. */
  lemma UncoveredIsUnsafe(s: System, v: nat)
    requires Kept(s) && Live(s, v) && !Covered(s, v)
    ensures !Safe(s)
  {
    var l := s.leases[v];
    var due := s.rows[l.id].scheduledFor.value;
    var now := if due < s.clock then s.clock else due;
    var w := Outside(s.leases.Keys);
    var claim := TryClaim(w, l.id, 1, now);
    assert Enabled(s, claim) && Claimable(s.rows, l.id, now);
    var t := Next(s, claim);
    assert v != w && Live(t, v) && Live(t, w) && t.leases[v].id == t.leases[w].id;
  }

  lemma ClaimKeepsGuard(s: System, w: nat, id: nat, lease: nat, now: int)
    requires Kept(s) && Guarded(s) && Enabled(s, TryClaim(w, id, lease, now))
    ensures Guarded(Next(s, TryClaim(w, id, lease, now)))
  {
    ClaimKeepsOne(s, w, id, lease, now);
    var t := Next(s, TryClaim(w, id, lease, now));
    forall v | Live(t, v)
      ensures Covered(t, v)
    {
      assert v != w ==> Live(s, v) && Covered(s, v);
    }
  }

  /** Leases that end, and rows that no lease is on, leave the guard as it was. */
  lemma FewerLeasesKeepGuard(s: System, t: System)
    requires Guarded(s)
    requires forall v :: Live(t, v) ==> Live(s, v) && t.leases[v] == s.leases[v] && Covered(t, v)
    ensures Guarded(t)
  {
  }

  lemma QuietKeepsGuard(s: System, step: Step)
    requires Kept(s) && Guarded(s) && Enabled(s, step) && (step.Abandon? || step.New?)
    ensures Guarded(Next(s, step))
  {
    var t := Next(s, step);
    forall v | Live(t, v)
      ensures Live(s, v) && t.leases[v] == s.leases[v] && Covered(t, v)
    {
      assert Live(s, v) && Covered(s, v) && Fits(s, v);
    }
    FewerLeasesKeepGuard(s, t);
  }

  lemma ReportKeepsGuard(s: System, step: Step)
    requires Kept(s) && Guarded(s) && Enabled(s, step) && step.Finish? && !Undercuts(s, step)
    ensures Guarded(Next(s, step))
  {
    var t := Next(s, step);
    var outcome := OutcomeOf(s.delays, s.leases[step.w], step.attempt, step.now);
    forall v | Live(t, v)
      ensures Live(s, v) && t.leases[v] == s.leases[v] && Covered(t, v)
    {
      assert Live(s, v) && Covered(s, v);
      assert outcome.Retry? ==> !CutShort(s, v, s.leases[step.w].id, outcome.at);
    }
    FewerLeasesKeepGuard(s, t);
  }

  lemma UndercutBreaksGuard(s: System, step: Step)
    requires Kept(s) && Enabled(s, step) && Undercuts(s, step)
    ensures !Guarded(Next(s, step))
  {
    var l, t := s.leases[step.w], Next(s, step);
    var outcome := OutcomeOf(s.delays, l, step.attempt, step.now);
    var v :| v != step.w && CutShort(s, v, l.id, outcome.at);
    assert Fits(s, step.w) && outcome.at >= step.now;
    assert Live(t, v) && t.rows[l.id].status == Pending && t.rows[l.id].scheduledFor == Some(outcome.at);
    assert !Covered(t, v);
  }

  /** One step from a guarded state: the guard is lost exactly by an undercutting report. */
  lemma GuardLostExactlyWhen(s: System, step: Step)
    requires Kept(s) && Guarded(s) && Enabled(s, step)
    ensures Guarded(Next(s, step)) <==> !Undercuts(s, step)
  {
    if Undercuts(s, step) {
      UndercutBreaksGuard(s, step);
    } else {
      match step
      case TryClaim(w, id, lease, now) => ClaimKeepsGuard(s, w, id, lease, now);
      case Finish(_, _, _) => ReportKeepsGuard(s, step);
      case Abandon(_, _) => QuietKeepsGuard(s, step);
      case New(_, _, _) => QuietKeepsGuard(s, step);
    }
  }

  ghost predicate SafeAt(s: System, steps: seq<Step>, k: nat)
    requires k <= |steps|
  {
    Safe(At(s, steps, k))
  }

  ghost predicate UndercutsAt(s: System, steps: seq<Step>, k: nat)
    requires k < |steps|
  {
    Undercuts(At(s, steps, k), steps[k])
  }

  lemma {:induction false} GuardedUntil(s: System, steps: seq<Step>, k: nat)
    requires Initial(s) && Valid(s, steps) && k <= |steps|
    requires forall i: nat :: i < k ==> !UndercutsAt(s, steps, i)
    ensures Guarded(At(s, steps, k))
  {
    if k > 0 {
      GuardedUntil(s, steps, k - 1);
      RunKeeps(s, steps, k - 1);
      assert EnabledAt(s, steps, k - 1) && !UndercutsAt(s, steps, k - 1);
      GuardLostExactlyWhen(At(s, steps, k - 1), steps[k - 1]);
    }
  }

  /**
   Over any run: every state leaves each delivery to one worker, whatever claim comes next, if and only if no
   report reschedules a row to before the end of another worker's lease on it.
   */
  lemma OneWorkerExactlyWhen(s: System, steps: seq<Step>)
    requires Initial(s) && Valid(s, steps)
    ensures (forall k: nat :: k <= |steps| ==> SafeAt(s, steps, k))
            <==> (forall k: nat :: k < |steps| ==> !UndercutsAt(s, steps, k))
  {
    if forall k: nat :: k < |steps| ==> !UndercutsAt(s, steps, k) {
      forall k: nat | k <= |steps|
        ensures SafeAt(s, steps, k)
      {
        GuardedUntil(s, steps, k);
        RunKeeps(s, steps, k);
        SafeExactlyWhen(At(s, steps, k));
      }
    }
    if forall k: nat :: k <= |steps| ==> SafeAt(s, steps, k) {
      forall k: nat | k < |steps|
        ensures !UndercutsAt(s, steps, k)
      {
        SafeNeverUndercuts(s, steps, k);
      }
    }
  }

  lemma SafeNeverUndercuts(s: System, steps: seq<Step>, k: nat)
    requires Initial(s) && Valid(s, steps) && k < |steps| && SafeAt(s, steps, k + 1)
    ensures !UndercutsAt(s, steps, k)
  {
    RunKeeps(s, steps, k);
    RunKeeps(s, steps, k + 1);
    SafeExactlyWhen(At(s, steps, k + 1));
    assert EnabledAt(s, steps, k);
    if UndercutsAt(s, steps, k) {
      UndercutBreaksGuard(At(s, steps, k), steps[k]);
    }
  }

  /** A worker that reports before its own lease runs out is the only one with a live lease, and undercuts nobody. */
  lemma PunctualNeverUndercuts(s: System, step: Step)
    requires Kept(s) && OneEach(s) && Enabled(s, step) && Punctual(s, step)
    ensures !Undercuts(s, step)
  {
    if step.Finish? {
      assert Live(s, step.w);
    }
  }

  lemma {:induction false} PunctualRunNeverUndercuts(s: System, steps: seq<Step>, k: nat)
    requires Initial(s) && Valid(s, steps) && PunctualRun(s, steps) && k <= |steps|
    ensures forall i: nat :: i < k ==> !UndercutsAt(s, steps, i)
  {
    if k > 0 {
      PunctualRunNeverUndercuts(s, steps, k - 1);
      GuardedUntil(s, steps, k - 1);
      RunKeeps(s, steps, k - 1);
      assert EnabledAt(s, steps, k - 1) && PunctualAt(s, steps, k - 1);
      PunctualNeverUndercuts(At(s, steps, k - 1), steps[k - 1]);
    }
  }

  /** In every punctual run, at every moment, a delivery has at most one live lease. */
  lemma OneLiveLease(s: System, steps: seq<Step>, k: nat, v: nat, w: nat)
    requires Initial(s) && Valid(s, steps) && PunctualRun(s, steps) && k <= |steps|
    requires var t := At(s, steps, k); Live(t, v) && Live(t, w) && t.leases[v].id == t.leases[w].id
    ensures v == w
  {
    PunctualRunNeverUndercuts(s, steps, k);
    GuardedUntil(s, steps, k);
  }

  // ---------------------------------------------------------------------------
  // Attempt counts
  // ---------------------------------------------------------------------------

  /** Worker `w` claimed at step `i` and still held that lease before step `k`. */
  ghost predicate HeldSince(s: System, steps: seq<Step>, i: nat, k: nat, w: nat)
    requires k <= |steps|
  {
    i < k && w !in At(s, steps, i).leases && forall m: nat :: i < m <= k ==> w in At(s, steps, m).leases
  }

  lemma {:induction false} HeldExists(s: System, steps: seq<Step>, k: nat, w: nat) returns (i: nat)
    requires Initial(s) && k <= |steps| && w in At(s, steps, k).leases
    ensures HeldSince(s, steps, i, k, w)
  {
    if w in At(s, steps, k - 1).leases {
      i := HeldExists(s, steps, k - 1, w);
    } else {
      i := k - 1;
    }
  }

  /** The lease is the one that the claim gave: for the attempt after those counted then. */
  lemma {:induction false} HeldLease(s: System, steps: seq<Step>, i: nat, k: nat, w: nat)
    requires Valid(s, steps) && k <= |steps| && HeldSince(s, steps, i, k, w)
    ensures var l, rows := At(s, steps, k).leases[w], At(s, steps, i).rows;
            steps[i].TryClaim? && l.id in rows && l.attempt == rows[l.id].attempts + 1
    decreases k
  {
    if i + 1 < k {
      HeldLease(s, steps, i, k - 1, w);
      assert EnabledAt(s, steps, k - 1) && w in At(s, steps, k - 1).leases && w in At(s, steps, k).leases;
    } else {
      assert w in At(s, steps, i + 1).leases;
    }
  }

  /** Step `k` reports on the row, and another report on it came in after the reporter's claim. */
  ghost predicate Overtaken(s: System, steps: seq<Step>, k: nat, id: nat)
    requires k < |steps|
  {
    ReportsAt(s, steps, k, id)
    && exists i: nat, j: nat :: HeldSince(s, steps, i, k, steps[k].w) && i < j < k && ReportsAt(s, steps, j, id)
  }

  /** The stored attempt count is the number of reports made. */
  predicate CountIsRight(s: System, steps: seq<Step>, k: nat, id: nat)
    requires k <= |steps|
  {
    id in At(s, steps, k).rows ==> At(s, steps, k).rows[id].attempts == ReportCount(s, steps, k, id)
  }

  lemma {:induction false} NoReportsBefore(s: System, steps: seq<Step>, k: nat, id: nat)
    requires Initial(s) && Valid(s, steps) && k <= |steps| && id !in At(s, steps, k).rows
    ensures ReportCount(s, steps, k, id) == 0
  {
    if k > 0 {
      assert EnabledAt(s, steps, k - 1);
      RunKeeps(s, steps, k - 1);
      NoReportsBefore(s, steps, k - 1, id);
    }
  }

  /** Between two moments as many reports are counted as none exactly when there is none. */
  lemma {:induction false} CountGrows(s: System, steps: seq<Step>, i: nat, k: nat, id: nat)
    requires i <= k <= |steps|
    ensures ReportCount(s, steps, i, id) <= ReportCount(s, steps, k, id)
    ensures ReportCount(s, steps, i, id) == ReportCount(s, steps, k, id)
            <==> forall j: nat :: i <= j < k ==> !ReportsAt(s, steps, j, id)
    decreases k
  {
    if i < k {
      CountGrows(s, steps, i, k - 1, id);
      assert ReportsAt(s, steps, k - 1, id) <==> FinishesOn(At(s, steps, k - 1), steps[k - 1], id);
    }
  }

  /** One step: a report stores its lease's attempt, and so counts as one exactly if that is the next attempt. */
  lemma StepCounts(s: System, step: Step, id: nat)
    requires Kept(s) && Enabled(s, step) && id in s.rows
    ensures id in Next(s, step).rows
    ensures Next(s, step).rows[id].attempts
            == if FinishesOn(s, step, id) then s.leases[step.w].attempt else s.rows[id].attempts
  {
  }

  /** If the count was right up to a report, it stays right exactly when the report was not overtaken. */
  lemma ReportCounts(s: System, steps: seq<Step>, k: nat, id: nat)
    requires Initial(s) && Valid(s, steps) && k < |steps| && ReportsAt(s, steps, k, id)
    requires forall m: nat :: m <= k ==> CountIsRight(s, steps, m, id)
    ensures CountIsRight(s, steps, k + 1, id) <==> !Overtaken(s, steps, k, id)
  {
    RunKeeps(s, steps, k);
    assert EnabledAt(s, steps, k) && CountIsRight(s, steps, k, id);
    StepCounts(At(s, steps, k), steps[k], id);
    var w := steps[k].w;
    var i := HeldExists(s, steps, k, w);
    HeldCount(s, steps, i, k, id);
    if Overtaken(s, steps, k, id) {
      var i: nat, j: nat :| HeldSince(s, steps, i, k, w) && i < j < k && ReportsAt(s, steps, j, id);
      HeldCount(s, steps, i, k, id);
    } else {
      assert forall j: nat :: i < j < k ==> !ReportsAt(s, steps, j, id);
    }
  }

  /** The lease's attempt follows the reports counted at its claim; they are all exactly if none came since. */
  lemma HeldCount(s: System, steps: seq<Step>, i: nat, k: nat, id: nat)
    requires Initial(s) && Valid(s, steps) && k < |steps| && ReportsAt(s, steps, k, id)
    requires HeldSince(s, steps, i, k, steps[k].w) && CountIsRight(s, steps, i, id)
    ensures At(s, steps, k).leases[steps[k].w].attempt == ReportCount(s, steps, i, id) + 1
    ensures ReportCount(s, steps, i, id) == ReportCount(s, steps, k, id)
            <==> forall j: nat :: i < j < k ==> !ReportsAt(s, steps, j, id)
  {
    HeldLease(s, steps, i, k, steps[k].w);
    CountGrows(s, steps, i, k, id);
    assert !ReportsAt(s, steps, i, id);
  }

  lemma OthersCount(s: System, steps: seq<Step>, k: nat, id: nat)
    requires Initial(s) && Valid(s, steps) && k < |steps| && !ReportsAt(s, steps, k, id)
    requires CountIsRight(s, steps, k, id)
    ensures CountIsRight(s, steps, k + 1, id)
  {
    RunKeeps(s, steps, k);
    assert EnabledAt(s, steps, k);
    if id in At(s, steps, k).rows {
      StepCounts(At(s, steps, k), steps[k], id);
    } else {
      NoReportsBefore(s, steps, k, id);
    }
  }

  lemma {:induction false} RightUntil(s: System, steps: seq<Step>, k: nat, id: nat)
    requires Initial(s) && Valid(s, steps) && k <= |steps|
    requires forall j: nat :: j < k ==> !Overtaken(s, steps, j, id)
    ensures forall m: nat :: m <= k ==> CountIsRight(s, steps, m, id)
  {
    if k == 0 {
      assert At(s, steps, 0) == s;
    } else {
      RightUntil(s, steps, k - 1, id);
      assert !Overtaken(s, steps, k - 1, id) && CountIsRight(s, steps, k - 1, id);
      if ReportsAt(s, steps, k - 1, id) {
        ReportCounts(s, steps, k - 1, id);
      } else {
        OthersCount(s, steps, k - 1, id);
      }
    }
  }

  /**
   Over any run: the stored attempt count is at every moment the number of reports made if and only if no report
   on the row was overtaken by another one since its claim.
   */
  lemma CountsExactlyWhen(s: System, steps: seq<Step>, id: nat)
    requires Initial(s) && Valid(s, steps)
    ensures (forall k: nat :: k <= |steps| ==> CountIsRight(s, steps, k, id))
            <==> (forall k: nat :: k < |steps| ==> !Overtaken(s, steps, k, id))
  {
    if forall k: nat :: k < |steps| ==> !Overtaken(s, steps, k, id) {
      RightUntil(s, steps, |steps|, id);
    }
    if forall k: nat :: k <= |steps| ==> CountIsRight(s, steps, k, id) {
      forall k: nat | k < |steps|
        ensures !Overtaken(s, steps, k, id)
      {
        assert CountIsRight(s, steps, k + 1, id);
        if ReportsAt(s, steps, k, id) {
          ReportCounts(s, steps, k, id);
        }
      }
    }
  }

  // ---------------------------------------------------------------------------
  // Two late reports
  // ---------------------------------------------------------------------------

  /** Being late is not enough: a late success after a success leaves the row to one worker throughout. */
  lemma LateButSafe() returns (s: System, steps: seq<Step>)
    ensures Initial(s) && Valid(s, steps) && |steps| == 4 && !PunctualRun(s, steps)
    ensures forall k: nat :: k <= |steps| ==> SafeAt(s, steps, k)
  {
    s, steps := ONE_DELIVERY, LateReport(Delivered(Some(200)), Delivered(Some(200)));
    LateReportRuns(Delivered(Some(200)), Delivered(Some(200)));
    OneWorkerExactlyWhen(s, steps);
  }

  /** Two reports, one of them late, leave a stored count of one. */
  lemma LateReportUncounted() returns (s: System, steps: seq<Step>)
    ensures Initial(s) && Valid(s, steps) && |steps| == 4 && !PunctualRun(s, steps)
    ensures 1 in At(s, steps, 4).rows && At(s, steps, 4).rows[1].attempts == 1 && ReportCount(s, steps, 4, 1) == 2
  {
    var late := Transient("timeout", None);
    s, steps := ONE_DELIVERY, LateReport(late, late);
    LateReportRuns(late, late);
    var s1 := Next(s, steps[0]);
    var s2 := Next(s1, steps[1]);
    var s3 := Next(s2, steps[2]);
    assert At(s, steps, 0) == s && At(s, steps, 1) == s1 && At(s, steps, 2) == s2 && At(s, steps, 3) == s3;
    assert FinishesOn(s2, steps[2], 1) && FinishesOn(s3, steps[3], 1);
    assert !FinishesOn(s, steps[0], 1) && !FinishesOn(s1, steps[1], 1);
  }
}
