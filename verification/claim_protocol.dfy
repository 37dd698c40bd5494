/**
 The interleavings of the claim protocol: any number of workers lock, commit, dispatch, fail, put back
 and crash, while runs are added and cancelled.

 A worker's transaction is split at every point where another worker can act.  Row locks are what the
 open transactions hold; a cancellation waits for the lock, so it is one step on an unlocked row.
 */
module ClaimProtocol {
  import opened Common
  import opened QueuedRuns
  import opened ClaimQueue

  /** An open claim transaction: the rows locked so far. `regular` is `None` before the second query. */
  datatype Txn = Txn(query: Query, scheduled: seq<nat>, regular: Option<seq<nat>>)

  /** A worker's batch: the runs it claimed and may put back, and those it has not dispatched yet. */
  datatype Batch = Batch(held: set<nat>, pending: set<nat>)

  datatype System = System(
    rows: Table,
    txns: map<nat, Txn>,
    batches: map<nat, Batch>,
    calls: multiset<nat>)  // queued runs of the stored workflow runs

  datatype Step =
    | LockScheduled(w: nat, q: Query, answer: seq<nat>)
    | LockRegular(w: nat, answer: seq<nat>)
    | Commit(w: nat)
    | Rollback(w: nat)
    | Dispatch(w: nat, id: nat)          // creates the workflow run
    | MarkProcessed(w: nat, id: nat)
    | MarkFailed(w: nat, id: nat)
    | Reschedule(w: nat, id: nat, time: int)  // callback outside sociable hours
    | PutBack(w: nat, ids: set<nat>)     // recovery of undispatched claims
    | Crash(w: nat)
    | Insert(id: nat, row: QueuedRun)
    | Cancel(id: nat)

  function Held(t: Txn): set<nat> {
    Members(t.scheduled) + (if t.regular.Some? then Members(t.regular.value) else {})
  }

  function Locked(s: System): set<nat> {
    set w, id | w in s.txns && id in Held(s.txns[w]) :: id
  }

  function BatchOf(s: System, w: nat): Batch {
    if w in s.batches then s.batches[w] else Batch({}, {})
  }

  function Called(s: System): set<nat> {
    set id | id in s.calls
  }

  function Slots(t: Txn): int {
    t.query.limit - |t.scheduled|
  }

  /** The second query runs only with slots left and not for a callbacks-only claim. */
  predicate WantsRegular(t: Txn) {
    Slots(t) > 0 && !t.query.callbacksOnly
  }

  ghost predicate Enabled(s: System, step: Step) {
    match step
    case LockScheduled(w, q, answer) => w !in s.txns && ScheduledAnswer(s.rows, Locked(s), q, answer)
    case LockRegular(w, answer) =>
      && w in s.txns && s.txns[w].regular.None? && WantsRegular(s.txns[w])
      && RegularAnswer(s.rows, Locked(s), s.txns[w].query.campaign, Slots(s.txns[w]), answer)
    case Commit(w) => w in s.txns && (s.txns[w].regular.Some? || !WantsRegular(s.txns[w]))
    case Rollback(w) => w in s.txns
    case Dispatch(w, id) => id in BatchOf(s, w).pending
    case MarkProcessed(w, id) => id in BatchOf(s, w).held && id !in BatchOf(s, w).pending && id in s.rows
    case MarkFailed(w, id) => id in BatchOf(s, w).held && id in s.rows
    case Reschedule(w, id, _) => id in BatchOf(s, w).pending && id in s.rows
    case PutBack(w, ids) => ids <= BatchOf(s, w).held
    case Crash(w) => true
    case Insert(id, row) => id !in s.rows && id !in s.calls && row.state == Queued
    case Cancel(id) => id in s.rows && s.rows[id].state == Queued && id !in Locked(s)
  }

  function Apply(s: System, step: Step): System {
    match step
    case LockScheduled(w, q, answer) => s.(txns := s.txns[w := Txn(q, answer, None)])
    case LockRegular(w, answer) =>
      if w in s.txns then s.(txns := s.txns[w := s.txns[w].(regular := Some(answer))]) else s
    case Commit(w) =>
      if w in s.txns then
        var ids, b := Held(s.txns[w]), BatchOf(s, w);
        s.(rows := Moved(s.rows, ids, Processing),
           txns := s.txns - {w},
           batches := s.batches[w := Batch(b.held + ids, b.pending + ids)])
      else s
    case Rollback(w) => s.(txns := s.txns - {w})
    case Dispatch(w, id) =>
      var b := BatchOf(s, w);
      s.(calls := s.calls + multiset{id}, batches := s.batches[w := b.(pending := b.pending - {id})])
    case MarkProcessed(w, id) =>
      var b := BatchOf(s, w);
      s.(rows := Moved(s.rows, {id}, Processed), batches := s.batches[w := Batch(b.held - {id}, b.pending - {id})])
    case MarkFailed(w, id) =>
      var b := BatchOf(s, w);
      s.(rows := Moved(s.rows, {id}, Failed), batches := s.batches[w := b.(pending := b.pending - {id})])
    case Reschedule(w, id, time) =>
      var b := BatchOf(s, w);
      s.(rows := if id in s.rows then s.rows[id := s.rows[id].(state := Queued, scheduledFor := Some(time))]
                 else s.rows,
         batches := s.batches[w := Batch(b.held - {id}, b.pending - {id})])
    case PutBack(w, ids) =>
      s.(rows := Moved(s.rows, Returnable(s.rows, Called(s), ids), Queued), batches := s.batches - {w})
    case Crash(w) => s.(txns := s.txns - {w}, batches := s.batches - {w})
    case Insert(id, row) => s.(rows := s.rows[id := row.(id := id)])
    case Cancel(id) => s.(rows := Moved(s.rows, {id}, Cancelled))
  }

  // ---------------------------------------------------------------------------
  // Invariant
  // ---------------------------------------------------------------------------

  predicate IsQueued(s: System, id: nat) {
    id in s.rows && s.rows[id].state == Queued
  }

  /** Worker `w` has row `id` locked. */
  predicate Holds(s: System, w: nat, id: nat) {
    w in s.txns && id in Held(s.txns[w])
  }

  /** Row `id` is in the batch of worker `w`. */
  predicate InBatch(s: System, w: nat, id: nat) {
    id in BatchOf(s, w).held
  }

  predicate Pending(s: System, w: nat, id: nat) {
    id in BatchOf(s, w).pending
  }

  /** Locks are pairwise disjoint and held on queued rows only. */
  ghost predicate LocksOk(s: System) {
    && (forall w, id :: Holds(s, w, id) ==> IsQueued(s, id))
    && (forall v, w, id :: Holds(s, v, id) && Holds(s, w, id) ==> v == w)
  }

  /** A run is in one worker's batch at most, is not queued while it is there, and is pending only uncalled. */
  ghost predicate BatchesOk(s: System) {
    && (forall w, id :: InBatch(s, w, id) ==> id in s.rows && s.rows[id].state != Queued)
    && (forall v, w, id :: InBatch(s, v, id) && InBatch(s, w, id) ==> v == w)
    && (forall w, id :: Pending(s, w, id) ==>
          InBatch(s, w, id) && s.rows[id].state == Processing && id !in s.calls)
  }

  /** A queued run has no workflow run, and no run ever has two. */
  ghost predicate CallsOk(s: System) {
    forall id :: id in s.calls ==> id in s.rows && s.rows[id].state != Queued && s.calls[id] == 1
  }

  ghost predicate Inv(s: System) {
    LocksOk(s) && BatchesOk(s) && CallsOk(s)
  }

  lemma LockKeepsInv(s: System, t: System, w: nat, more: set<nat>)
    requires Inv(s) && t == s.(txns := t.txns)
    requires forall v, id :: Holds(t, v, id) ==> Holds(s, v, id) || (v == w && id in more)
    requires forall id :: id in more ==> IsQueued(s, id) && id !in Locked(s)
    ensures Inv(t)
  {
    assert forall v, id :: Holds(s, v, id) ==> id in Locked(s);
    assert forall v, id :: InBatch(t, v, id) == InBatch(s, v, id) && Pending(t, v, id) == Pending(s, v, id);
  }

  lemma FirstLockKeepsInv(s: System, w: nat, q: Query, answer: seq<nat>)
    requires Inv(s) && Enabled(s, LockScheduled(w, q, answer))
    ensures Inv(Apply(s, LockScheduled(w, q, answer)))
  {
    var t := Apply(s, LockScheduled(w, q, answer));
    assert forall v, id :: Holds(t, v, id) ==> Holds(s, v, id) || (v == w && id in Members(answer));
    LockKeepsInv(s, t, w, Members(answer));
  }

  lemma SecondLockKeepsInv(s: System, w: nat, answer: seq<nat>)
    requires Inv(s) && Enabled(s, LockRegular(w, answer))
    ensures Inv(Apply(s, LockRegular(w, answer)))
  {
    var t := Apply(s, LockRegular(w, answer));
    assert forall v, id :: Holds(t, v, id) ==> Holds(s, v, id) || (v == w && id in Members(answer));
    LockKeepsInv(s, t, w, Members(answer));
  }

  lemma RollbackKeepsInv(s: System, w: nat)
    requires Inv(s)
    ensures Inv(Apply(s, Rollback(w)))
  {
    var t := Apply(s, Rollback(w));
    assert forall v, id :: Holds(t, v, id) ==> Holds(s, v, id);
    LockKeepsInv(s, t, w, {});
  }

  /** What the commit of worker `w` makes of locks, batches and rows. */
  ghost predicate Committed(s: System, t: System, w: nat) {
    && t.calls == s.calls && t.rows.Keys == s.rows.Keys
    && (forall v, id :: Holds(t, v, id) <==> v != w && Holds(s, v, id))
    && (forall v, id :: InBatch(t, v, id) <==> InBatch(s, v, id) || (v == w && Holds(s, w, id)))
    && (forall v, id :: Pending(t, v, id) <==> Pending(s, v, id) || (v == w && Holds(s, w, id)))
    && (forall id :: id in s.rows ==> t.rows[id].state == if Holds(s, w, id) then Processing else s.rows[id].state)
  }

  lemma CommittedKeepsInv(s: System, t: System, w: nat)
    requires Inv(s) && Committed(s, t, w)
    ensures Inv(t)
  {
  }

  lemma CommitChanges(s: System, w: nat)
    requires w in s.txns
    ensures Committed(s, Apply(s, Commit(w)), w)
  {
    var t := Apply(s, Commit(w));
    forall v, id
      ensures Holds(t, v, id) <==> v != w && Holds(s, v, id)
      ensures InBatch(t, v, id) <==> InBatch(s, v, id) || (v == w && Holds(s, w, id))
      ensures Pending(t, v, id) <==> Pending(s, v, id) || (v == w && Holds(s, w, id))
    {
      CommitChangesAt(s, w, v, id);
    }
  }

  lemma CommitChangesAt(s: System, w: nat, v: nat, id: nat)
    requires w in s.txns
    ensures var t := Apply(s, Commit(w));
            && (Holds(t, v, id) <==> v != w && Holds(s, v, id))
            && (InBatch(t, v, id) <==> InBatch(s, v, id) || (v == w && Holds(s, w, id)))
            && (Pending(t, v, id) <==> Pending(s, v, id) || (v == w && Holds(s, w, id)))
  {
  }

  lemma CommitKeepsInv(s: System, w: nat)
    requires Inv(s) && w in s.txns
    ensures Inv(Apply(s, Commit(w)))
  {
    CommitChanges(s, w);
    CommittedKeepsInv(s, Apply(s, Commit(w)), w);
  }

  /** A step that only shrinks locks and batches keeps the rules if the rows it requeues are free. */
  lemma ShrinkKeepsInv(s: System, t: System)
    requires Inv(s) && s.rows.Keys == t.rows.Keys && CallsOk(t)
    requires forall v, id :: Holds(t, v, id) ==> Holds(s, v, id)
    requires forall v, id :: InBatch(t, v, id) ==> InBatch(s, v, id)
    requires forall v, id :: Pending(t, v, id) ==> Pending(s, v, id) && InBatch(t, v, id) && id !in t.calls
    requires forall id :: IsQueued(s, id) ==> IsQueued(t, id)
    requires forall v, id :: InBatch(t, v, id) && IsQueued(t, id) ==> IsQueued(s, id)
    requires forall v, id :: Pending(t, v, id) ==> t.rows[id] == s.rows[id]
    ensures Inv(t)
  {
  }

  lemma DispatchKeepsInv(s: System, w: nat, id: nat)
    requires Inv(s) && Enabled(s, Dispatch(w, id))
    ensures Inv(Apply(s, Dispatch(w, id)))
  {
    var t := Apply(s, Dispatch(w, id));
    assert Pending(s, w, id);
    assert forall v, x :: Holds(t, v, x) == Holds(s, v, x) && InBatch(t, v, x) == InBatch(s, v, x);
    assert forall v, x :: Pending(t, v, x) <==> Pending(s, v, x) && !(v == w && x == id);
    ShrinkKeepsInv(s, t);
  }

  lemma MarkKeepsCalls(s: System, w: nat, id: nat, step: Step)
    requires Inv(s) && Enabled(s, step) && (step == MarkProcessed(w, id) || step == MarkFailed(w, id))
    ensures var t := Apply(s, step);
            CallsOk(t) && t.rows.Keys == s.rows.Keys && (forall x :: IsQueued(t, x) == IsQueued(s, x))
  {
    assert InBatch(s, w, id);
  }

  lemma MarkBatches(s: System, w: nat, id: nat, step: Step)
    requires step == MarkProcessed(w, id) || step == MarkFailed(w, id)
    ensures var t := Apply(s, step);
            && t.txns == s.txns && t.calls == s.calls
            && (forall v, x :: InBatch(t, v, x) <==> InBatch(s, v, x) && !(step.MarkProcessed? && v == w && x == id))
            && (forall v, x :: Pending(t, v, x) <==> Pending(s, v, x) && !(v == w && x == id))
            && (forall x :: x in s.rows && x != id ==> x in t.rows && t.rows[x] == s.rows[x])
  {
  }

  lemma MarkKeepsInv(s: System, w: nat, id: nat, step: Step)
    requires Inv(s) && Enabled(s, step) && (step == MarkProcessed(w, id) || step == MarkFailed(w, id))
    ensures Inv(Apply(s, step))
  {
    var t := Apply(s, step);
    MarkKeepsCalls(s, w, id, step);
    MarkBatches(s, w, id, step);
    assert InBatch(s, w, id) && !Pending(t, w, id);
    assert forall v, x :: Holds(t, v, x) == Holds(s, v, x);
    ShrinkKeepsInv(s, t);
  }

  lemma RescheduleKeepsInv(s: System, w: nat, id: nat, time: int)
    requires Inv(s) && Enabled(s, Reschedule(w, id, time))
    ensures Inv(Apply(s, Reschedule(w, id, time)))
  {
    var t := Apply(s, Reschedule(w, id, time));
    assert Pending(s, w, id);
    assert forall v, x :: Holds(t, v, x) == Holds(s, v, x);
    assert forall v, x :: InBatch(t, v, x) <==> InBatch(s, v, x) && !(v == w && x == id);
    assert forall v, x :: Pending(t, v, x) <==> Pending(s, v, x) && !(v == w && x == id);
    ShrinkKeepsInv(s, t);
  }

  lemma PutBackKeepsCalls(s: System, w: nat, ids: set<nat>)
    requires Inv(s) && Enabled(s, PutBack(w, ids))
    ensures var t := Apply(s, PutBack(w, ids));
            && CallsOk(t) && t.rows.Keys == s.rows.Keys
            && (forall x :: x in s.rows && !InBatch(s, w, x) ==> t.rows[x] == s.rows[x])
            && (forall x :: IsQueued(s, x) ==> IsQueued(t, x))
  {
    assert forall id :: id in ids ==> InBatch(s, w, id);
  }

  lemma BatchDropped(s: System, t: System, w: nat)
    requires t.batches == s.batches - {w}
    ensures forall v, x :: InBatch(t, v, x) <==> InBatch(s, v, x) && v != w
    ensures forall v, x :: Pending(t, v, x) <==> Pending(s, v, x) && v != w
  {
  }

  lemma PutBackKeepsInv(s: System, w: nat, ids: set<nat>)
    requires Inv(s) && Enabled(s, PutBack(w, ids))
    ensures Inv(Apply(s, PutBack(w, ids)))
  {
    var t := Apply(s, PutBack(w, ids));
    PutBackKeepsCalls(s, w, ids);
    BatchDropped(s, t, w);
    assert forall v, x :: Holds(t, v, x) == Holds(s, v, x);
    ShrinkKeepsInv(s, t);
  }

  lemma CrashKeepsInv(s: System, w: nat)
    requires Inv(s)
    ensures Inv(Apply(s, Crash(w)))
  {
    var t := Apply(s, Crash(w));
    assert forall v, x :: Holds(t, v, x) <==> Holds(s, v, x) && v != w;
    BatchDropped(s, t, w);
    ShrinkKeepsInv(s, t);
  }

  /** A change to one row that nobody holds and no workflow run refers to. */
  lemma FreeRowKeepsInv(s: System, t: System, id: nat)
    requires Inv(s) && t.txns == s.txns && t.batches == s.batches && t.calls == s.calls && id !in s.calls
    requires forall v :: !Holds(s, v, id) && !InBatch(s, v, id)
    requires forall x :: x in s.rows && x != id ==> x in t.rows && t.rows[x] == s.rows[x]
    ensures Inv(t)
  {
    assert forall v, x :: Holds(t, v, x) == Holds(s, v, x);
    assert forall v, x :: InBatch(t, v, x) == InBatch(s, v, x) && Pending(t, v, x) == Pending(s, v, x);
  }

  lemma InsertKeepsInv(s: System, id: nat, row: QueuedRun)
    requires Inv(s) && Enabled(s, Insert(id, row))
    ensures Inv(Apply(s, Insert(id, row)))
  {
    FreeRowKeepsInv(s, Apply(s, Insert(id, row)), id);
  }

  lemma CancelKeepsInv(s: System, id: nat)
    requires Inv(s) && Enabled(s, Cancel(id))
    ensures Inv(Apply(s, Cancel(id)))
  {
    assert forall v, x :: Holds(s, v, x) ==> x in Locked(s);
    FreeRowKeepsInv(s, Apply(s, Cancel(id)), id);
  }

  lemma StepKeepsInv(s: System, step: Step)
    requires Inv(s) && Enabled(s, step)
    ensures Inv(Apply(s, step))
  {
    match step
    case LockScheduled(w, q, answer) => FirstLockKeepsInv(s, w, q, answer);
    case LockRegular(w, answer) => SecondLockKeepsInv(s, w, answer);
    case Commit(w) => CommitKeepsInv(s, w);
    case Rollback(w) => RollbackKeepsInv(s, w);
    case Insert(id, row) => InsertKeepsInv(s, id, row);
    case Cancel(id) => CancelKeepsInv(s, id);
    case Dispatch(w, id) => DispatchKeepsInv(s, w, id);
    case MarkProcessed(w, id) => MarkKeepsInv(s, w, id, step);
    case MarkFailed(w, id) => MarkKeepsInv(s, w, id, step);
    case Reschedule(w, id, time) => RescheduleKeepsInv(s, w, id, time);
    case PutBack(w, ids) => PutBackKeepsInv(s, w, ids);
    case Crash(w) => CrashKeepsInv(s, w);
  }

  // ---------------------------------------------------------------------------
  // Whole runs
  // ---------------------------------------------------------------------------

  /** No worker is active; the table may hold any rows, its queued runs not yet called. */
  ghost predicate Initial(s: System) {
    s.txns == map[] && s.batches == map[] && CallsOk(s)
  }

  lemma InitialInv(s: System)
    requires Initial(s)
    ensures Inv(s)
  {
  }

  ghost predicate Valid(s: System, steps: seq<Step>)
    decreases |steps|
  {
    steps == [] || (Enabled(s, steps[0]) && Valid(Apply(s, steps[0]), steps[1..]))
  }

  /** The system after the first `k` steps. */
  function At(s: System, steps: seq<Step>, k: nat): System
    requires k <= |steps|
    decreases k
  {
    if k == 0 then s else At(Apply(s, steps[0]), steps[1..], k - 1)
  }

  /** Every reachable state keeps the lock, batch and call rules. */
  lemma {:induction false} RunKeepsInv(s: System, steps: seq<Step>, k: nat)
    requires Inv(s) && Valid(s, steps) && k <= |steps|
    ensures Inv(At(s, steps, k)) && (k < |steps| ==> Enabled(At(s, steps, k), steps[k]))
    ensures k < |steps| ==> At(s, steps, k + 1) == Apply(At(s, steps, k), steps[k])
    decreases k
  {
    if k > 0 {
      StepKeepsInv(s, steps[0]);
      RunKeepsInv(Apply(s, steps[0]), steps[1..], k - 1);
    }
  }

  /**
   Safety over every interleaving: lock sets are disjoint, a queued run never has a workflow run, and
   no queued run is ever called twice.
   */
  lemma ExclusionInEveryRun(s: System, steps: seq<Step>, k: nat)
    requires Initial(s) && Valid(s, steps) && k <= |steps|
    ensures var t := At(s, steps, k);
            && (forall v, w :: v in t.txns && w in t.txns && v != w ==> Held(t.txns[v]) !! Held(t.txns[w]))
            && (forall id :: IsQueued(t, id) ==> id !in t.calls)
            && (forall id :: t.calls[id] <= 1)
  {
    InitialInv(s);
    RunKeepsInv(s, steps, k);
    var t := At(s, steps, k);
    forall v, w | v in t.txns && w in t.txns && v != w
      ensures Held(t.txns[v]) !! Held(t.txns[w])
    {
      forall id | id in Held(t.txns[v]) && id in Held(t.txns[w])
        ensures false
      {
        assert Holds(t, v, id) && Holds(t, w, id);
      }
    }
  }

  /** Step `k` commits a claim that includes run `id`. */
  predicate ClaimsAt(s: System, steps: seq<Step>, k: nat, id: nat)
    requires k < |steps|
  {
    steps[k].Commit? && Holds(At(s, steps, k), steps[k].w, id)
  }

  /** Step `k` puts run `id` back into the queue. */
  predicate ReturnedAt(s: System, steps: seq<Step>, k: nat, id: nat)
    requires k < |steps|
  {
    !IsQueued(At(s, steps, k), id) && IsQueued(At(s, steps, k + 1), id)
  }

  lemma {:induction false} StaysClaimed(s: System, steps: seq<Step>, i: nat, j: nat, id: nat)
    requires i <= j <= |steps| && !IsQueued(At(s, steps, i), id)
    requires forall k :: i <= k < j ==> !ReturnedAt(s, steps, k, id)
    ensures !IsQueued(At(s, steps, j), id)
    decreases j - i
  {
    if i < j {
      StaysClaimed(s, steps, i, j - 1, id);
      assert !ReturnedAt(s, steps, j - 1, id);
    }
  }

  lemma CommitTakes(s: System, w: nat, id: nat)
    requires Inv(s) && Holds(s, w, id)
    ensures IsQueued(s, id) && !IsQueued(Apply(s, Commit(w)), id)
  {
  }

  /** No run is claimed twice without being put back into the queue in between. */
  lemma NoDoubleClaim(s: System, steps: seq<Step>, i: nat, j: nat, id: nat)
    requires Initial(s) && Valid(s, steps) && i < j < |steps|
    requires ClaimsAt(s, steps, i, id) && ClaimsAt(s, steps, j, id)
    ensures exists k :: i < k < j && ReturnedAt(s, steps, k, id)
  {
    InitialInv(s);
    RunKeepsInv(s, steps, i);
    RunKeepsInv(s, steps, j);
    assert IsQueued(At(s, steps, j), id);
    CommitTakes(At(s, steps, i), steps[i].w, id);
    if forall k :: i < k < j ==> !ReturnedAt(s, steps, k, id) {
      StaysClaimed(s, steps, i + 1, j, id);
    }
  }

  /** Only the three documented steps return a run to the queue, and never one that was called. */
  lemma OnlyPutBackOrReschedule(s: System, step: Step, id: nat)
    requires Inv(s) && Enabled(s, step) && id in s.rows
    requires !IsQueued(s, id) && IsQueued(Apply(s, step), id)
    ensures id !in s.calls && s.rows[id].state == Processing
    ensures (step.PutBack? && id in step.ids && InBatch(s, step.w, id))
            || (step.Reschedule? && step.id == id && Pending(s, step.w, id))
  {
    match step
    case Reschedule(w, x, _) => assert Pending(s, w, x);
    case _ =>
  }

  /** The steps of one undisturbed claim. */
  function ClaimSteps(w: nat, q: Query, scheduled: seq<nat>, regular: seq<nat>): seq<Step> {
    if q.limit > |scheduled| && !q.callbacksOnly
    then [LockScheduled(w, q, scheduled), LockRegular(w, regular), Commit(w)]
    else [LockScheduled(w, q, scheduled), Commit(w)]
  }

  lemma LockedAfterFirstPhase(s: System, w: nat, q: Query, answer: seq<nat>)
    requires w !in s.txns
    ensures Locked(Apply(s, LockScheduled(w, q, answer))) == Locked(s) + Members(answer)
  {
    var t := Apply(s, LockScheduled(w, q, answer));
    forall id
      ensures id in Locked(t) <==> id in Locked(s) || id in Members(answer)
    {
      if id in Locked(t) {
        var v :| v in t.txns && id in Held(t.txns[v]);
        assert v != w ==> v in s.txns && t.txns[v] == s.txns[v];
      }
      if id in Locked(s) {
        var v :| v in s.txns && id in Held(s.txns[v]);
        assert v in t.txns && t.txns[v] == s.txns[v];
      }
      if id in Members(answer) {
        assert w in t.txns && id in Held(t.txns[w]);
      }
    }
  }

  lemma ValidCons(s: System, step: Step, rest: seq<Step>)
    requires Enabled(s, step) && Valid(Apply(s, step), rest)
    ensures Valid(s, [step] + rest)
    ensures At(s, [step] + rest, 1 + |rest|) == At(Apply(s, step), rest, |rest|)
  {
  }

  lemma ThreeSteps(s: System, a: Step, b: Step, c: Step)
    requires Enabled(s, a) && Enabled(Apply(s, a), b) && Enabled(Apply(Apply(s, a), b), c)
    ensures Valid(s, [a] + ([b] + ([c] + [])))
    ensures At(s, [a] + ([b] + ([c] + [])), 3) == Apply(Apply(Apply(s, a), b), c)
  {
    ValidCons(Apply(Apply(s, a), b), c, []);
    ValidCons(Apply(s, a), b, [c] + []);
    ValidCons(s, a, [b] + ([c] + []));
  }

  /** The claim of a batch that needs the second query, in three steps. */
  lemma TwoPhaseClaim(s: System, w: nat, q: Query, scheduled: seq<nat>, regular: seq<nat>)
    requires w !in s.txns && ClaimAnswers(s.rows, Locked(s), q, scheduled, regular)
    requires q.limit > |scheduled| && !q.callbacksOnly
    ensures var steps := [LockScheduled(w, q, scheduled)] + ([LockRegular(w, regular)] + ([Commit(w)] + []));
            && Valid(s, steps)
            && At(s, steps, 3).rows == Moved(s.rows, Members(scheduled + regular), Processing)
            && At(s, steps, 3).txns == s.txns
  {
    var s1 := Apply(s, LockScheduled(w, q, scheduled));
    LockedAfterFirstPhase(s, w, q, scheduled);
    assert RegularSet(s.rows, q.campaign) - Locked(s1) == RegularSet(s.rows, q.campaign) - Locked(s);
    ThreeSteps(s, LockScheduled(w, q, scheduled), LockRegular(w, regular), Commit(w));
    assert Members(scheduled + regular) == Members(scheduled) + Members(regular);
    assert Apply(Apply(s1, LockRegular(w, regular)), Commit(w)).txns == s.txns;
  }

  /** The claim of a batch that the scheduled runs fill, or of callbacks only. */
  lemma OnePhaseClaim(s: System, w: nat, q: Query, scheduled: seq<nat>)
    requires w !in s.txns && ClaimAnswers(s.rows, Locked(s), q, scheduled, [])
    requires q.limit <= |scheduled| || q.callbacksOnly
    ensures var steps := [LockScheduled(w, q, scheduled)] + ([Commit(w)] + []);
            && Valid(s, steps)
            && At(s, steps, 2).rows == Moved(s.rows, Members(scheduled), Processing)
            && At(s, steps, 2).txns == s.txns
  {
  }

  /** Run without interruption, the split transaction does what the single claim does. */
  lemma UndisturbedClaim(s: System, w: nat, q: Query, scheduled: seq<nat>, regular: seq<nat>)
    requires w !in s.txns && ClaimAnswers(s.rows, Locked(s), q, scheduled, regular)
    ensures var steps := ClaimSteps(w, q, scheduled, regular);
            && Valid(s, steps)
            && At(s, steps, |steps|).rows == Moved(s.rows, Members(scheduled + regular), Processing)
            && At(s, steps, |steps|).txns == s.txns
  {
    if q.limit > |scheduled| && !q.callbacksOnly {
      TwoPhaseClaim(s, w, q, scheduled, regular);
      assert [LockScheduled(w, q, scheduled)] + ([LockRegular(w, regular)] + ([Commit(w)] + []))
             == ClaimSteps(w, q, scheduled, regular);
    } else {
      OnePhaseClaim(s, w, q, scheduled);
      assert scheduled + regular == scheduled;
      assert [LockScheduled(w, q, scheduled)] + ([Commit(w)] + []) == ClaimSteps(w, q, scheduled, regular);
    }
  }

  // ---------------------------------------------------------------------------
  // What the steps write
  // ---------------------------------------------------------------------------

  /** The state the step writes to the row, if it writes one. */
  ghost function Written(s: System, step: Step, id: nat): Option<RunState> {
    match step
    case Commit(w) => if Holds(s, w, id) then Some(Processing) else None
    case MarkProcessed(_, x) => if x == id then Some(Processed) else None
    case MarkFailed(_, x) => if x == id then Some(Failed) else None
    case Reschedule(_, x, _) => if x == id then Some(Queued) else None
    case PutBack(_, ids) =>
      if id in ids && id !in s.calls && id in s.rows && s.rows[id].state == Processing then Some(Queued) else None
    case Cancel(x) => if x == id then Some(Cancelled) else None
    case _ => None
  }

  /** One step: the row keeps every column but the state that is written and, rescheduled, its time. */
  lemma StepWrites(s: System, step: Step, id: nat)
    requires Enabled(s, step) && id in s.rows
    ensures var t, r, written := Apply(s, step), s.rows[id], Written(s, step, id);
            && id in t.rows && t.rows[id].state == (if written.Some? then written.value else r.state)
            && t.rows[id].scheduledFor
               == (if step.Reschedule? && step.id == id then Some(step.time) else r.scheduledFor)
            && t.rows[id] == r.(state := t.rows[id].state, scheduledFor := t.rows[id].scheduledFor)
  {
  }

  /** A workflow run is created by dispatching only, one for the dispatched run. */
  lemma StepCalls(s: System, step: Step, id: nat)
    ensures Apply(s, step).calls[id] == s.calls[id] + if step.Dispatch? && step.id == id then 1 else 0
  {
  }

  /** A new row is queued under its key, as it was given. */
  lemma InsertWrites(s: System, id: nat, row: QueuedRun)
    requires Enabled(s, Insert(id, row))
    ensures id in Apply(s, Insert(id, row)).rows && Apply(s, Insert(id, row)).rows[id] == row.(id := id)
    ensures Apply(s, Insert(id, row)).rows[id].state == Queued
  {
  }

  /** The last state that steps `i` to `k` wrote to the row, if any did. */
  ghost function LastWritten(s: System, steps: seq<Step>, i: nat, k: nat, id: nat): Option<RunState>
    requires i <= k <= |steps|
    decreases k
  {
    if i == k then None
    else
      var written := Written(At(s, steps, k - 1), steps[k - 1], id);
      if written.Some? then written else LastWritten(s, steps, i, k - 1, id)
  }

  /** In every interleaving a stored run is never lost, and its state is the last one written to it. */
  lemma {:induction false} StateIsLastWritten(s: System, steps: seq<Step>, i: nat, k: nat, id: nat)
    requires Initial(s) && Valid(s, steps) && i <= k <= |steps| && id in At(s, steps, i).rows
    ensures id in At(s, steps, k).rows
    ensures var last := LastWritten(s, steps, i, k, id);
            At(s, steps, k).rows[id].state == if last.Some? then last.value else At(s, steps, i).rows[id].state
    decreases k
  {
    if i < k {
      StateIsLastWritten(s, steps, i, k - 1, id);
      InitialInv(s);
      RunKeepsInv(s, steps, k - 1);
      StepWrites(At(s, steps, k - 1), steps[k - 1], id);
    }
  }

  /** Which runs a worker's batch holds after a step, and which of them still wait to be dispatched. */
  lemma StepBatches(s: System, step: Step, v: nat, id: nat)
    requires Enabled(s, step)
    ensures InBatch(Apply(s, step), v, id) <==>
            match step
            case Commit(w) => InBatch(s, v, id) || (v == w && Holds(s, w, id))
            case MarkProcessed(w, x) => InBatch(s, v, id) && !(v == w && id == x)
            case Reschedule(w, x, _) => InBatch(s, v, id) && !(v == w && id == x)
            case PutBack(w, _) => InBatch(s, v, id) && v != w
            case Crash(w) => InBatch(s, v, id) && v != w
            case _ => InBatch(s, v, id)
    ensures Pending(Apply(s, step), v, id) <==>
            match step
            case Commit(w) => Pending(s, v, id) || (v == w && Holds(s, w, id))
            case Dispatch(w, x) => Pending(s, v, id) && !(v == w && id == x)
            case MarkProcessed(w, x) => Pending(s, v, id) && !(v == w && id == x)
            case MarkFailed(w, x) => Pending(s, v, id) && !(v == w && id == x)
            case Reschedule(w, x, _) => Pending(s, v, id) && !(v == w && id == x)
            case PutBack(w, _) => Pending(s, v, id) && v != w
            case Crash(w) => Pending(s, v, id) && v != w
            case _ => Pending(s, v, id)
  {
  }

  /** Which rows a worker has locked after a step. */
  lemma StepLocks(s: System, step: Step, v: nat, id: nat)
    requires Enabled(s, step)
    ensures Holds(Apply(s, step), v, id) <==>
            match step
            case LockScheduled(w, _, answer) => Holds(s, v, id) || (v == w && id in answer)
            case LockRegular(w, answer) => Holds(s, v, id) || (v == w && id in answer)
            case Commit(w) => Holds(s, v, id) && v != w
            case Rollback(w) => Holds(s, v, id) && v != w
            case Crash(w) => Holds(s, v, id) && v != w
            case _ => Holds(s, v, id)
  {
  }
}
