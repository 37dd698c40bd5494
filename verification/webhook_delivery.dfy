/**
 Durable webhook deliveries: the stored rows, the client's conditional updates, and the keyset-paged
 sweep over the due rows.  Instants and durations are whole seconds.
 */
module WebhookDelivery {
  import opened Common
  import opened Paging

  datatype Status = Pending | Succeeded | DeadLetter

  datatype Delivery = Delivery(
    run: nat,
    node: string,
    organization: nat,
    payload: Json,
    maxAttempts: nat,
    status: Status,
    attempts: nat,
    scheduledFor: Option<int>,
    lastCode: Option<int>,
    lastError: Option<string>)

  type Table = map<nat, Delivery>

  const ERROR_LENGTH := 2000

  /** What a worker reports about one attempt. */
  datatype Outcome =
    | Success(code: Option<int>)
    | Retry(at: int, error: string, code: Option<int>)
    | Dead(error: string, code: Option<int>)

  function Clip(error: string): string {
    if |error| > ERROR_LENGTH then error[..ERROR_LENGTH] else error
  }

  predicate Claimable(rows: Table, id: nat, now: int) {
    id in rows && rows[id].status == Pending && (rows[id].scheduledFor.None? || rows[id].scheduledFor.value <= now)
  }

  /** The conditional UPDATE of a claim; a row that does not match is left alone. */
  function Claimed(rows: Table, id: nat, now: int, lease: nat): Table {
    if Claimable(rows, id, now) then rows[id := rows[id].(scheduledFor := Some(now + lease))] else rows
  }

  /** The unconditional UPDATE of a report: it looks at neither the status nor the lease. */
  function Reported(rows: Table, id: nat, attempts: nat, outcome: Outcome): Table {
    if id !in rows then rows
    else
      var d := rows[id].(attempts := attempts);
      match outcome
      case Success(code) =>
        rows[id := d.(status := Succeeded, scheduledFor := None, lastCode := code, lastError := None)]
      case Retry(at, error, code) =>
        rows[id := d.(status := Pending, scheduledFor := Some(at), lastCode := code, lastError := Some(Clip(error)))]
      case Dead(error, code) =>
        rows[id := d.(status := DeadLetter, scheduledFor := None, lastCode := code, lastError := Some(Clip(error)))]
  }

  // ---------------------------------------------------------------------------
  // Creation
  // ---------------------------------------------------------------------------

  datatype Error = RunNotFound | NoOrganization | WrongOrganization

  function Fresh(run: nat, node: string, organization: nat, payload: Json, maxAttempts: nat, due: int): Delivery {
    Delivery(run, node, organization, payload, maxAttempts, Pending, 0, Some(due), None, None)
  }

  predicate Exists(rows: Table, run: nat, node: string) {
    exists id :: id in rows && rows[id].run == run && rows[id].node == node
  }

  /** The idempotency key: at most one delivery per run and webhook node. */
  ghost predicate UniqueNodes(rows: Table) {
    forall a, b :: a in rows && b in rows && rows[a].run == rows[b].run && rows[a].node == rows[b].node ==> a == b
  }

  /** A row is scheduled exactly while it is pending. */
  ghost predicate PendingIffScheduled(rows: Table) {
    forall id :: id in rows ==> (rows[id].status == Pending <==> rows[id].scheduledFor.Some?)
  }

  ghost predicate KeysBelow(rows: Table, next: nat) {
    next > 0 && forall id :: id in rows ==> 0 < id < next
  }

  // ---------------------------------------------------------------------------
  // Histories of client calls, without any assumption on the workers
  // ---------------------------------------------------------------------------

  datatype Event =
    | Create(run: nat, node: string, organization: nat, payload: Json, maxAttempts: nat, due: int)
    | Claim(id: nat, now: int, lease: nat)
    | Report(id: nat, attempts: nat, outcome: Outcome)

  datatype Store = Store(rows: Table, next: nat)

  function Apply(s: Store, e: Event): Store {
    match e
    case Create(run, node, organization, payload, maxAttempts, due) =>
      if Exists(s.rows, run, node) then s
      else Store(s.rows[s.next := Fresh(run, node, organization, payload, maxAttempts, due)], s.next + 1)
    case Claim(id, now, lease) => s.(rows := Claimed(s.rows, id, now, lease))
    case Report(id, attempts, outcome) => s.(rows := Reported(s.rows, id, attempts, outcome))
  }

  /** The store after the first `k` events of a history that starts empty. */
  function After(events: seq<Event>, k: nat): Store
    requires k <= |events|
  {
    if k == 0 then Store(map[], 1) else Apply(After(events, k - 1), events[k - 1])
  }

  ghost predicate RowsOk(s: Store) {
    PendingIffScheduled(s.rows) && UniqueNodes(s.rows) && KeysBelow(s.rows, s.next)
  }

  lemma CreateKeepsRows(s: Store, e: Event)
    requires RowsOk(s) && e.Create?
    ensures RowsOk(Apply(s, e))
  {
    var t := Apply(s, e);
    assert s.next !in s.rows;
    assert forall id :: id in t.rows ==> id == s.next || id in s.rows;
  }

  /** Writing the schedule and the result of one row. */
  lemma WriteKeepsRows(s: Store, id: nat, d: Delivery)
    requires RowsOk(s) && id in s.rows && d.run == s.rows[id].run && d.node == s.rows[id].node
    requires d.status == Pending <==> d.scheduledFor.Some?
    ensures RowsOk(s.(rows := s.rows[id := d]))
  {
    var rows := s.rows[id := d];
    assert forall x :: x in s.rows ==> rows[x].run == s.rows[x].run && rows[x].node == s.rows[x].node;
  }

  /** Claims and reports write the schedule and the result of one row at most. */
  lemma WorkerKeepsRows(s: Store, e: Event)
    requires RowsOk(s) && !e.Create?
    ensures RowsOk(Apply(s, e))
  {
    var t := Apply(s, e);
    if t != s {
      WriteKeepsRows(s, e.id, t.rows[e.id]);
    }
  }

  /** From `due` on, every sweep sees the row unless it changes. */
  ghost predicate VisibleFrom(rows: Table, id: nat, due: int) {
    forall now :: now >= due ==> Due(rows, id, now)
  }

  /** However the workers behave, a delivery is never pending without a time, so no sweep can miss it for good. */
  lemma {:induction false} EveryPendingIsVisible(events: seq<Event>, k: nat)
    requires k <= |events|
    ensures PendingIffScheduled(After(events, k).rows)
    ensures UniqueNodes(After(events, k).rows) && KeysBelow(After(events, k).rows, After(events, k).next)
    ensures forall id :: id in After(events, k).rows && After(events, k).rows[id].status == Pending ==>
              exists due :: VisibleFrom(After(events, k).rows, id, due)
  {
    if k > 0 {
      EveryPendingIsVisible(events, k - 1);
      if events[k - 1].Create? {
        CreateKeepsRows(After(events, k - 1), events[k - 1]);
      } else {
        WorkerKeepsRows(After(events, k - 1), events[k - 1]);
      }
    }
    var rows := After(events, k).rows;
    forall id | id in rows && rows[id].status == Pending
      ensures exists due :: VisibleFrom(rows, id, due)
    {
      assert VisibleFrom(rows, id, rows[id].scheduledFor.value);
    }
  }

  /** Event `k` is a claim of `id` that won. */
  predicate Wins(events: seq<Event>, k: nat, id: nat)
    requires k < |events|
  {
    events[k].Claim? && events[k].id == id && Claimable(After(events, k).rows, id, events[k].now)
  }

  predicate Reports(e: Event, id: nat) {
    e.Report? && e.id == id
  }

  lemma {:induction false} LeaseHolds(events: seq<Event>, i: nat, j: nat, id: nat)
    requires i < j <= |events| && Wins(events, i, id)
    requires forall k :: i < k < j ==> !Reports(events[k], id)
    ensures var rows := After(events, j).rows;
            id in rows && rows[id].scheduledFor.Some? && rows[id].scheduledFor.value >= events[i].now + events[i].lease
    decreases j
  {
    EveryPendingIsVisible(events, j - 1);
    if i + 1 < j {
      LeaseHolds(events, i, j - 1, id);
    }
  }

  /** Two winning claims with no report between them are at least a lease apart, whatever else happens. */
  lemma WinsAreALeaseApart(events: seq<Event>, i: nat, j: nat, id: nat)
    requires i < j < |events| && Wins(events, i, id) && Wins(events, j, id)
    requires forall k :: i < k < j ==> !Reports(events[k], id)
    ensures events[j].now >= events[i].now + events[i].lease
  {
    LeaseHolds(events, i, j, id);
  }

  // ---------------------------------------------------------------------------
  // The sweep
  // ---------------------------------------------------------------------------

  predicate Due(rows: Table, id: nat, now: int) {
    id in rows && rows[id].status == Pending && rows[id].scheduledFor.Some? && rows[id].scheduledFor.value <= now
  }

  function DueSet(rows: Table, now: int): set<nat> {
    set id | id in rows && Due(rows, id, now)
  }

  /** `get_due_webhook_deliveries`. */
  method GetDue(rows: Table, now: int, limit: nat, after: nat, bound: nat) returns (page: seq<nat>)
    requires forall id :: id in rows ==> id <= bound
    ensures IsPage(DueSet(rows, now), limit, after, page)
  {
    page := ReadPage(DueSet(rows, now), limit, after, bound);
  }

  /** Row `id` was due when some page before `pages` was read. */
  ghost predicate SeenDue(tables: nat -> Table, clock: nat -> int, pages: nat, id: nat) {
    exists k: nat :: k < pages && Due(tables(k), id, clock(k))
  }

  /** Row `id` was due when each page before `pages` was read. */
  ghost predicate DueThroughout(tables: nat -> Table, clock: nat -> int, pages: nat, id: nat) {
    forall k: nat :: k < pages ==> Due(tables(k), id, clock(k))
  }

  /**
   `sweep_webhook_deliveries`: pages until one comes back short.  Other workers claim, report and create
   between the pages, so page `k` is read from its own table `tables(k)` at its own time `clock(k)`.
   No id is enqueued twice, every enqueued row was due when its page was read, and every row that stays due
   through the sweep is enqueued.
   */
  method Sweep(tables: nat -> Table, clock: nat -> int, bound: nat, limit: nat) returns (enqueued: seq<nat>, pages: nat)
    requires limit > 0 && forall k: nat, id :: id in tables(k) ==> 0 < id <= bound
    ensures Increasing(enqueued) && pages > 0
    ensures forall id :: id in enqueued ==> SeenDue(tables, clock, pages, id)
    ensures forall id: nat :: DueThroughout(tables, clock, pages, id) ==> id in enqueued
  {
    var after: nat := 0;
    var more := true;
    enqueued, pages := [], 0;
    while more
      invariant Increasing(enqueued) && (more ==> after <= bound) && (!more ==> pages > 0)
      invariant (pages == 0 ==> after == 0) && forall x :: x in enqueued ==> x <= after
      invariant forall id :: id in enqueued ==> SeenDue(tables, clock, pages, id)
      invariant forall id: nat :: DueThroughout(tables, clock, pages, id) ==>
                  id in enqueued || (more && (id > after || pages == 0))
      decreases more, bound - after
    {
      var page := GetDue(tables(pages), clock(pages), limit, after, bound);
      ghost var was, seen := after, enqueued;
      if |page| > 0 {
        after := page[|page| - 1];
        LastIsLargest(page);
        assert after in page && after in DueSet(tables(pages), clock(pages));
      }
      IncreasingAppend(enqueued, page);
      enqueued := enqueued + page;
      more := |page| == limit;
      forall id: nat | DueThroughout(tables, clock, pages + 1, id)
        ensures id in enqueued || (more && id > after)
      {
        assert DueThroughout(tables, clock, pages, id);
        assert Due(tables(pages), id, clock(pages)) && id in DueSet(tables(pages), clock(pages));
      }
      forall id | id in enqueued
        ensures SeenDue(tables, clock, pages + 1, id)
      {
        if id in seen {
          assert SeenDue(tables, clock, pages, id);
        }
      }
      pages := pages + 1;
    }
  }

  // ---------------------------------------------------------------------------
  // The client
  // ---------------------------------------------------------------------------

  class WebhookDeliveryClient {
    var rows: Table
    var next: nat

    ghost function State(): Store
      reads this
    {
      Store(rows, next)
    }

    constructor ()
      ensures State() == Store(map[], 1)
    {
      rows, next := map[], 1;
    }

    /** Get-or-create on (run, node). `organizations` gives the organization that owns each stored run. */
    method GetOrCreate(run: nat, node: string, organization: nat, payload: Json, maxAttempts: nat,
                       scheduledFor: Option<int>, now: int, organizations: map<nat, Option<nat>>)
      returns (r: Result<(nat, bool), Error>)
      requires UniqueNodes(rows)
      modifies this
      ensures run !in organizations ==> r == Err(RunNotFound)
      ensures run in organizations && organizations[run] == None ==> r == Err(NoOrganization)
      ensures run in organizations && organizations[run].Some? && organizations[run].value != organization ==>
                r == Err(WrongOrganization)
      ensures r.Err? ==> State() == old(State())
      ensures r.Ok? ==>
                var due := if scheduledFor.Some? then scheduledFor.value else now;
                && State() == Apply(old(State()), Create(run, node, organization, payload, maxAttempts, due))
                && r.value.0 in rows && rows[r.value.0].run == run && rows[r.value.0].node == node
                && (r.value.1 <==> !Exists(old(rows), run, node))
      ensures run in organizations && organizations[run] == Some(organization) ==> r.Ok?
    {
      if run !in organizations { return Err(RunNotFound); }
      if organizations[run] == None { return Err(NoOrganization); }
      if organizations[run].value != organization { return Err(WrongOrganization); }
      if Exists(rows, run, node) {
        var id :| id in rows && rows[id].run == run && rows[id].node == node;
        return Ok((id, false));
      }
      var due := if scheduledFor.Some? then scheduledFor.value else now;
      rows := rows[next := Fresh(run, node, organization, payload, maxAttempts, due)];
      next := next + 1;
      r := Ok((next - 1, true));
    }

    /** The claimed row, or `None` when the conditional update matched nothing. */
    method ClaimDelivery(id: nat, lease: nat, now: int) returns (r: Option<Delivery>)
      modifies this`rows
      ensures State() == Apply(old(State()), Claim(id, now, lease))
      ensures r.Some? <==> Claimable(old(rows), id, now)
      ensures r.Some? ==> r.value == rows[id] && r.value.scheduledFor == Some(now + lease)
    {
      if id in rows && rows[id].status == Pending
         && (rows[id].scheduledFor.None? || rows[id].scheduledFor.value <= now) {
        rows := rows[id := rows[id].(scheduledFor := Some(now + lease))];
        return Some(rows[id]);
      }
      return None;
    }

    method MarkSucceeded(id: nat, attempts: nat, code: Option<int>)
      modifies this`rows
      ensures State() == Apply(old(State()), Report(id, attempts, Success(code)))
    {
      if id in rows {
        rows := rows[id := rows[id].(status := Succeeded, attempts := attempts, lastCode := code, lastError := None,
                                     scheduledFor := None)];
      }
    }

    method ScheduleRetry(id: nat, attempts: nat, at: int, error: string, code: Option<int>)
      modifies this`rows
      ensures State() == Apply(old(State()), Report(id, attempts, Retry(at, error, code)))
    {
      if id in rows {
        rows := rows[id := rows[id].(status := Pending, attempts := attempts, scheduledFor := Some(at),
                                     lastError := Some(Clip(error)), lastCode := code)];
      }
    }

    method MarkDeadLetter(id: nat, attempts: nat, error: string, code: Option<int>)
      modifies this`rows
      ensures State() == Apply(old(State()), Report(id, attempts, Dead(error, code)))
    {
      if id in rows {
        rows := rows[id := rows[id].(status := DeadLetter, attempts := attempts, lastError := Some(Clip(error)),
                                     lastCode := code, scheduledFor := None)];
      }
    }
  }
}
