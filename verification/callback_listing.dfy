/**
 The unified list of scheduled callbacks: standalone callbacks and campaign callbacks, each cut to
 offset + limit rows by its own query, then merged, sorted and sliced.
 */
module CallbackListing {
  import opened Common
  import opened QueuedRuns
  import opened StableSort

  datatype Callback = Callback(
    id: nat,
    organization: nat,
    workflow: nat,
    originalRun: nat,
    status: string,
    scheduledFor: int,
    toNumber: string,
    fromNumber: string,
    summary: string,
    chainDepth: nat)

  datatype Campaign = Campaign(organization: nat, workflow: nat, name: string)

  /** The tables, the two callback tables listed the way the database orders them: latest first, NULLs first. */
  datatype Tables = Tables(
    callbacks: seq<Callback>,
    runs: seq<QueuedRun>,
    campaigns: map<nat, Campaign>,
    workflows: map<nat, string>)

  datatype Source = All | Standalone | FromCampaign | Other

  datatype Query = Query(
    organization: nat,
    status: Option<string>,
    source: Source,
    campaign: Option<nat>,
    workflow: Option<nat>,
    limit: int,
    offset: int)

  datatype Item = Item(
    id: nat,
    source: Source,
    status: string,
    firesIn: Option<int>,
    wasLate: Option<nat>,
    toNumber: Json,
    fromNumber: Json,
    summary: Json,
    chainDepth: Json,
    workflow: nat,
    workflowName: Option<string>,
    campaign: Option<nat>,
    campaignName: Option<string>,
    originalRun: Json)

  // ---------------------------------------------------------------------------
  // The two queries
  // ---------------------------------------------------------------------------

  /** A query parameter that is present and truthy. */
  predicate Given(id: Option<nat>) {
    id.Some? && id.value != 0
  }

  predicate StatusGiven(q: Query) {
    q.status.Some? && q.status.value != ""
  }

  function StateName(s: RunState): string {
    match s
    case Queued => "queued"
    case Processing => "processing"
    case Processed => "processed"
    case Failed => "failed"
    case Cancelled => "cancelled"
  }

  /** The status shown for a queued run. */
  function ShownStatus(s: RunState): string {
    match s
    case Queued => "pending"
    case Processed => "completed"
    case _ => StateName(s)
  }

  /** The condition the campaign query puts on the state for a requested status. */
  predicate StateMatches(s: RunState, status: string) {
    if status == "pending" then s.Queued?
    else if status == "completed" then s.Processed?
    else StateName(s) == status
  }

  predicate CallbackMatches(q: Query, c: Callback) {
    && c.organization == q.organization
    && (StatusGiven(q) ==> c.status == q.status.value)
    && (Given(q.workflow) ==> c.workflow == q.workflow.value)
  }

  predicate RunMatches(db: Tables, q: Query, r: QueuedRun) {
    && r.campaign in db.campaigns
    && db.campaigns[r.campaign].organization == q.organization
    && r.retryReason == Some(USER_CALLBACK)
    && (Given(q.campaign) ==> r.campaign == q.campaign.value)
    && (Given(q.workflow) ==> db.campaigns[r.campaign].workflow == q.workflow.value)
    && (StatusGiven(q) ==> StateMatches(r.state, q.status.value))
  }

  /** `WHERE`: the rows to keep. */
  function Where<T>(rows: seq<T>, keep: T -> bool): seq<T> {
    if rows == [] then []
    else
      var last := rows[|rows| - 1];
      Where(rows[..|rows| - 1], keep) + if keep(last) then [last] else []
  }

  /** The positions of the rows to keep. */
  function Positions<T>(rows: seq<T>, keep: T -> bool): (at: seq<nat>)
    ensures forall i :: 0 <= i < |at| ==> at[i] < |rows|
    ensures forall i, j :: 0 <= i < j < |at| ==> at[i] < at[j]
  {
    if rows == [] then []
    else Positions(rows[..|rows| - 1], keep) + if keep(rows[|rows| - 1]) then [|rows| - 1] else []
  }

  lemma {:induction false} PositionsMatch<T>(rows: seq<T>, keep: T -> bool, k: nat)
    requires k < |rows|
    ensures k in Positions(rows, keep) <==> keep(rows[k])
  {
    var n := |rows| - 1;
    if k < n {
      assert rows[..n][k] == rows[k];
      PositionsMatch(rows[..n], keep, k);
    } else {
      assert forall i :: 0 <= i < |Positions(rows[..n], keep)| ==> Positions(rows[..n], keep)[i] < n;
    }
  }

  /** The filter lists exactly the matching rows, each as often as it is stored and in the order of the table. */
  lemma {:induction false} WhereKeepsOrder<T>(rows: seq<T>, keep: T -> bool)
    ensures |Where(rows, keep)| == |Positions(rows, keep)|
    ensures forall i :: 0 <= i < |Where(rows, keep)| ==> Where(rows, keep)[i] == rows[Positions(rows, keep)[i]]
    ensures forall k: nat :: k < |rows| ==> (k in Positions(rows, keep) <==> keep(rows[k]))
  {
    if rows != [] {
      var n := |rows| - 1;
      WhereKeepsOrder(rows[..n], keep);
      forall i | 0 <= i < |Positions(rows[..n], keep)|
        ensures rows[..n][Positions(rows[..n], keep)[i]] == rows[Positions(rows[..n], keep)[i]]
      {
      }
      forall k: nat | k < |rows|
        ensures k in Positions(rows, keep) <==> keep(rows[k])
      {
        PositionsMatch(rows, keep, k);
      }
    }
  }

  lemma {:induction false} WhereMembers<T>(rows: seq<T>, keep: T -> bool, x: T)
    ensures x in Where(rows, keep) <==> x in rows && keep(x)
  {
    if rows != [] {
      var n := |rows| - 1;
      WhereMembers(rows[..n], keep, x);
      assert rows == rows[..n] + [rows[n]];
    }
  }

  function Callbacks(q: Query, rows: seq<Callback>): seq<Callback> {
    Where(rows, c => CallbackMatches(q, c))
  }

  function Runs(db: Tables, q: Query, rows: seq<QueuedRun>): (out: seq<QueuedRun>)
    ensures forall r :: r in out ==> r in rows && RunMatches(db, q, r)
  {
    var keep := r => RunMatches(db, q, r);
    assert forall r :: r in Where(rows, keep) ==> r in rows && RunMatches(db, q, r) by {
      forall r | r in Where(rows, keep)
        ensures r in rows && keep(r)
      {
        WhereMembers(rows, keep, r);
      }
    }
    Where(rows, keep)
  }

  /** Which of the two queries are made. */
  predicate WantsStandalone(q: Query) {
    q.source in {All, Standalone} && !Given(q.campaign)
  }

  predicate WantsCampaign(q: Query) {
    q.source in {All, FromCampaign}
  }

  function StandaloneRows(db: Tables, q: Query): seq<Callback> {
    if WantsStandalone(q) then Callbacks(q, db.callbacks) else []
  }

  function CampaignRows(db: Tables, q: Query): (out: seq<QueuedRun>)
    ensures forall r :: r in out ==> r in db.runs && RunMatches(db, q, r)
  {
    if WantsCampaign(q) then Runs(db, q, db.runs) else []
  }

  /** `ORDER BY scheduled_for DESC` on a column without NULLs. */
  ghost predicate CallbacksOrdered(rows: seq<Callback>) {
    forall i, j :: 0 <= i < j < |rows| ==> rows[i].scheduledFor >= rows[j].scheduledFor
  }

  /** `ORDER BY scheduled_for DESC` on a nullable column: NULLs come first. */
  predicate NullsFirst(a: Option<int>, b: Option<int>) {
    a.None? || (b.Some? && a.value >= b.value)
  }

  ghost predicate RunsOrdered(rows: seq<QueuedRun>) {
    forall i, j :: 0 <= i < j < |rows| ==> NullsFirst(rows[i].scheduledFor, rows[j].scheduledFor)
  }

  // ---------------------------------------------------------------------------
  // The items
  // ---------------------------------------------------------------------------

  function Or(a: Json, b: Json): Json {
    if Truthy(a) then a else b
  }

  function NameOf(names: map<nat, string>, id: nat): Option<string> {
    if id in names then Some(names[id]) else None
  }

  /** The name shown for a workflow; ids that are falsy are never looked up. */
  function WorkflowName(db: Tables, id: nat): Option<string> {
    if id != 0 then NameOf(db.workflows, id) else None
  }

  /** A pending callback shows the seconds until it fires, and how late it is once they are negative. */
  function FiresIn(status: string, scheduled: Option<int>, now: int): Option<int> {
    if scheduled.Some? && status == "pending" then Some(scheduled.value - now) else None
  }

  function WasLate(status: string, scheduled: Option<int>, now: int): Option<nat> {
    if scheduled.Some? && status == "pending" && scheduled.value < now then Some(now - scheduled.value) else None
  }

  function CallbackItem(db: Tables, now: int, c: Callback): Entry<Item> {
    Entry(Some(c.scheduledFor), Item(
      c.id, Standalone, c.status, FiresIn(c.status, Some(c.scheduledFor), now),
      WasLate(c.status, Some(c.scheduledFor), now), Str(c.toNumber), Str(c.fromNumber), Str(c.summary),
      Num(if c.chainDepth == 0 then 1 else c.chainDepth), c.workflow, WorkflowName(db, c.workflow),
      None, None, Num(c.originalRun)))
  }

  function RunItem(db: Tables, now: int, r: QueuedRun): Entry<Item>
    requires r.campaign in db.campaigns
  {
    var camp := db.campaigns[r.campaign];
    var status := ShownStatus(r.state);
    var cv := r.context;
    Entry(r.scheduledFor, Item(
      r.id, FromCampaign, status, FiresIn(status, r.scheduledFor, now), WasLate(status, r.scheduledFor, now),
      Or(Field(cv, "called_number"), Field(cv, "to_number")),
      Or(Field(cv, "caller_number"), Field(cv, "from_number")),
      Field(cv, "conversation_summary"),
      if cv.Obj? && "callback_chain_depth" in cv.fields then cv.fields["callback_chain_depth"] else Num(1),
      camp.workflow, WorkflowName(db, camp.workflow), Some(r.campaign), Some(camp.name),
      Field(cv, "original_run_id")))
  }

  function CallbackItems(db: Tables, now: int, rows: seq<Callback>): seq<Entry<Item>> {
    seq(|rows|, i requires 0 <= i < |rows| => CallbackItem(db, now, rows[i]))
  }

  function RunItems(db: Tables, now: int, rows: seq<QueuedRun>): seq<Entry<Item>>
    requires forall r :: r in rows ==> r.campaign in db.campaigns
  {
    seq(|rows|, i requires 0 <= i < |rows| => RunItem(db, now, rows[i]))
  }

  /** Every matching callback of both sources, latest first: the listing the pages are meant to cut. */
  function FullListing(db: Tables, q: Query, now: int): seq<Entry<Item>> {
    Sort(CallbackItems(db, now, StandaloneRows(db, q)) + RunItems(db, now, CampaignRows(db, q)))
  }

  // ---------------------------------------------------------------------------
  // NULL times
  // ---------------------------------------------------------------------------

  function NullCount(rows: seq<QueuedRun>): (k: nat)
    ensures k <= |rows|
    ensures forall i :: 0 <= i < k ==> rows[i].scheduledFor.None?
    ensures k < |rows| ==> rows[k].scheduledFor.Some?
  {
    if rows == [] || rows[0].scheduledFor.Some? then 0 else 1 + NullCount(rows[1..])
  }

  /** How many of the standalone rows are scheduled no earlier than a time. */
  function NotEarlier(rows: seq<Callback>, time: int): (k: nat)
    ensures k <= |rows|
  {
    if rows == [] || rows[0].scheduledFor < time then 0 else 1 + NotEarlier(rows[1..], time)
  }

  /**
   The campaign rows without a time are too few to push timed ones out of a truncated query: all of them are
   untimed, or they are no more than the standalone rows listed before the latest timed campaign row.
   */
  predicate NullsHarmless(callbacks: seq<Callback>, runs: seq<QueuedRun>) {
    var nulls := NullCount(runs);
    nulls == |runs| || nulls <= NotEarlier(callbacks, runs[nulls].scheduledFor.value)
  }

  lemma FilteredCallbacksOrdered(q: Query, rows: seq<Callback>)
    requires CallbacksOrdered(rows)
    ensures CallbacksOrdered(Callbacks(q, rows))
  {
    WhereKeepsOrder(rows, c => CallbackMatches(q, c));
  }

  lemma FilteredRunsOrdered(db: Tables, q: Query, rows: seq<QueuedRun>)
    requires RunsOrdered(rows)
    ensures RunsOrdered(Runs(db, q, rows))
  {
    WhereKeepsOrder(rows, r => RunMatches(db, q, r));
  }

  lemma RowsOrdered(db: Tables, q: Query)
    requires CallbacksOrdered(db.callbacks) && RunsOrdered(db.runs)
    ensures CallbacksOrdered(StandaloneRows(db, q)) && RunsOrdered(CampaignRows(db, q))
  {
    FilteredCallbacksOrdered(q, db.callbacks);
    FilteredRunsOrdered(db, q, db.runs);
  }

  lemma {:induction false} LeadIsNotEarlier(db: Tables, now: int, rows: seq<Callback>, t: seq<Entry<Item>>)
    requires t != [] && t[0].time.Some?
    ensures Lead(CallbackItems(db, now, rows), t) == NotEarlier(rows, t[0].time.value)
  {
    if rows != [] {
      assert CallbackItems(db, now, rows)[1..] == CallbackItems(db, now, rows[1..]);
      LeadIsNotEarlier(db, now, rows[1..], t);
    }
  }

  /** The page computed from the truncated queries. */
  function Page(db: Tables, now: int, callbacks: seq<Callback>, runs: seq<QueuedRun>, offset: nat, limit: nat)
    : seq<Entry<Item>>
    requires forall r :: r in runs ==> r.campaign in db.campaigns
  {
    Slice(Sort(CallbackItems(db, now, Take(callbacks, offset + limit))
               + RunItems(db, now, Take(runs, offset + limit))), offset, limit)
  }

  ghost predicate PageExact(
      db: Tables, now: int, callbacks: seq<Callback>, runs: seq<QueuedRun>, offset: nat, limit: nat)
    requires forall r :: r in runs ==> r.campaign in db.campaigns
  {
    Page(db, now, callbacks, runs, offset, limit)
    == Slice(Sort(CallbackItems(db, now, callbacks) + RunItems(db, now, runs)), offset, limit)
  }

  lemma PageIsTruncation(
      db: Tables, now: int, callbacks: seq<Callback>, runs: seq<QueuedRun>, offset: nat, limit: nat)
    requires forall r :: r in runs ==> r.campaign in db.campaigns
    ensures PageExact(db, now, callbacks, runs, offset, limit)
            == PageIsRight(CallbackItems(db, now, callbacks), RunItems(db, now, runs), offset, limit)
  {
    var n := offset + limit;
    assert CallbackItems(db, now, Take(callbacks, n)) == Take(CallbackItems(db, now, callbacks), n);
    assert RunItems(db, now, Take(runs, n)) == Take(RunItems(db, now, runs), n);
  }

  lemma CallbackItemsOrdered(db: Tables, now: int, callbacks: seq<Callback>)
    requires CallbacksOrdered(callbacks)
    ensures LatestFirst(CallbackItems(db, now, callbacks)) && Timed(CallbackItems(db, now, callbacks))
  {
  }

  /** The timed campaign rows, which come last, give timed items in order. */
  lemma TimedItemsOrdered(db: Tables, now: int, runs: seq<QueuedRun>)
    requires forall r :: r in runs ==> r.campaign in db.campaigns
    requires RunsOrdered(runs) && forall i :: 0 <= i < |runs| ==> runs[i].scheduledFor.Some?
    ensures LatestFirst(RunItems(db, now, runs)) && Timed(RunItems(db, now, runs))
  {
    var t := RunItems(db, now, runs);
    forall i, j | 0 <= i < j < |t|
      ensures Geq(t[i].time, t[j].time)
    {
      assert NullsFirst(runs[i].scheduledFor, runs[j].scheduledFor);
    }
  }

  lemma ItemsSplit(db: Tables, now: int, runs: seq<QueuedRun>, k: nat)
    requires k <= |runs| && forall r :: r in runs ==> r.campaign in db.campaigns
    ensures RunItems(db, now, runs[..k]) + RunItems(db, now, runs[k..]) == RunItems(db, now, runs)
  {
  }

  lemma TailOrdered(runs: seq<QueuedRun>, k: nat)
    requires RunsOrdered(runs) && k <= |runs|
    ensures RunsOrdered(runs[k..])
  {
  }

  /** The campaign items split into the untimed ones, which the database lists first, and the timed ones. */
  lemma SplitRows(db: Tables, now: int, callbacks: seq<Callback>, runs: seq<QueuedRun>)
    returns (u: seq<Entry<Item>>, t: seq<Entry<Item>>)
    requires forall r :: r in runs ==> r.campaign in db.campaigns
    requires RunsOrdered(runs)
    ensures u + t == RunItems(db, now, runs)
    ensures Untimed(u) && LatestFirst(t) && Timed(t)
    ensures (t == [] || |u| <= Lead(CallbackItems(db, now, callbacks), t)) <==> NullsHarmless(callbacks, runs)
  {
    var nulls := NullCount(runs);
    u, t := RunItems(db, now, runs[..nulls]), RunItems(db, now, runs[nulls..]);
    ItemsSplit(db, now, runs, nulls);
    TimedTail(runs);
    TailOrdered(runs, nulls);
    TimedItemsOrdered(db, now, runs[nulls..]);
    if t != [] {
      LeadIsNotEarlier(db, now, callbacks, t);
    }
  }

  /**
   Every page cut from the truncated sources is that page of the full listing if and only if the untimed
   campaign rows are harmless; without untimed rows they always are.
   */
  lemma PagesExactExactlyWhen(db: Tables, now: int, callbacks: seq<Callback>, runs: seq<QueuedRun>)
    requires forall r :: r in runs ==> r.campaign in db.campaigns
    requires CallbacksOrdered(callbacks) && RunsOrdered(runs)
    ensures (forall offset: nat, limit: nat :: PageExact(db, now, callbacks, runs, offset, limit))
            <==> NullsHarmless(callbacks, runs)
  {
    var a := CallbackItems(db, now, callbacks);
    var u, t := SplitRows(db, now, callbacks, runs);
    CallbackItemsOrdered(db, now, callbacks);
    PagesRightExactlyWhen(a, u, t);
    forall offset: nat, limit: nat
      ensures PageExact(db, now, callbacks, runs, offset, limit) == PageIsRight(a, u + t, offset, limit)
    {
      PageIsTruncation(db, now, callbacks, runs, offset, limit);
    }
    if !NullsHarmless(callbacks, runs) {
      var offset: nat, limit: nat :| !PageIsRight(a, u + t, offset, limit);
      assert !PageExact(db, now, callbacks, runs, offset, limit);
    }
  }

  lemma TimedTail(runs: seq<QueuedRun>)
    requires RunsOrdered(runs)
    ensures forall i :: NullCount(runs) <= i < |runs| ==> runs[i].scheduledFor.Some?
  {
  }

  /**
   The status filter keeps exactly the campaign callbacks shown with that status, unless the caller asks for
   a raw state name that is never shown: "queued" or "processed" match rows listed under another status.
   */
  lemma FilterMeansShownExactlyWhen(status: string)
    ensures (forall s :: StateMatches(s, status) <==> ShownStatus(s) == status)
            <==> status != "queued" && status != "processed"
  {
    assert |"pending"| == 7 && |"completed"| == 9 && |"queued"| == 6 && |"processed"| == 9;
    assert |"processing"| == 10 && |"failed"| == 6 && |"cancelled"| == 9;
    assert "completed"[0] != "processed"[0] && "cancelled"[1] != "completed"[1] && "failed"[0] != "queued"[0];
    assert StateMatches(Queued, "queued") && ShownStatus(Queued) != "queued";
    assert StateMatches(Processed, "processed") && ShownStatus(Processed) != "processed";
  }

  // ---------------------------------------------------------------------------
  // The route
  // ---------------------------------------------------------------------------

  /** Python's `s[start:stop]`: negative positions count from the end, and all are cut to the list. */
  function PySlice<T>(s: seq<T>, start: int, stop: int): seq<T> {
    var lo, hi := Clip(start, |s|), Clip(stop, |s|);
    if lo < hi then s[lo..hi] else []
  }

  function Clip(i: int, size: nat): (k: nat)
    ensures k <= size
  {
    if i < 0 then (if i + size < 0 then 0 else i + size) else if i > size then size else i
  }

  lemma PySliceIsSlice<T>(s: seq<T>, offset: nat, limit: nat)
    ensures PySlice(s, offset, offset + limit) == Slice(s, offset, limit)
  {
  }

  /** How many rows each query may return. */
  function RowLimit(q: Query): nat {
    if q.offset + q.limit < 0 then 0 else q.offset + q.limit
  }

  /** The merged and sorted rows of the truncated sources. */
  function Truncated(db: Tables, q: Query, now: int): seq<Entry<Item>> {
    TakeMembers(CampaignRows(db, q), RowLimit(q));
    Sort(CallbackItems(db, now, Take(StandaloneRows(db, q), RowLimit(q)))
         + RunItems(db, now, Take(CampaignRows(db, q), RowLimit(q))))
  }

  lemma ListingSizes(db: Tables, q: Query, now: int)
    ensures |FullListing(db, q, now)| == |StandaloneRows(db, q)| + |CampaignRows(db, q)|
    ensures |Truncated(db, q, now)|
            == |Take(StandaloneRows(db, q), RowLimit(q))| + |Take(CampaignRows(db, q), RowLimit(q))|
  {
    var n := RowLimit(q);
    SortIsStable(CallbackItems(db, now, StandaloneRows(db, q)) + RunItems(db, now, CampaignRows(db, q)), None);
    SortIsStable(CallbackItems(db, now, Take(StandaloneRows(db, q), n))
                 + RunItems(db, now, Take(CampaignRows(db, q), n)), None);
  }

  lemma PageOfListing(db: Tables, q: Query, now: int)
    requires CallbacksOrdered(db.callbacks) && RunsOrdered(db.runs) && q.offset >= 0 && q.limit >= 0
    ensures NullsHarmless(StandaloneRows(db, q), CampaignRows(db, q))
            ==> PySlice(Truncated(db, q, now), q.offset, q.offset + q.limit)
                == PySlice(FullListing(db, q, now), q.offset, q.offset + q.limit)
  {
    RowsOrdered(db, q);
    PagesExactExactlyWhen(db, now, StandaloneRows(db, q), CampaignRows(db, q));
    PySliceIsSlice(Truncated(db, q, now), q.offset, q.limit);
    PySliceIsSlice(FullListing(db, q, now), q.offset, q.limit);
    assert NullsHarmless(StandaloneRows(db, q), CampaignRows(db, q))
           ==> PageExact(db, now, StandaloneRows(db, q), CampaignRows(db, q), q.offset, q.limit);
  }

  datatype Listing = Listing(items: seq<Entry<Item>>, total: nat, hasMore: bool)

  /**
   The route.  The page is cut from the truncated sources, and is that page of the full listing when NULL times are
   harmless and offset and limit are not negative.  The total counts the truncated sources.  More rows are reported
   exactly when there are more, neither source is empty and the page does not end at 0.
   */
  method ListCallbacks(db: Tables, q: Query, now: int) returns (r: Result<Listing, string>)
    requires CallbacksOrdered(db.callbacks) && RunsOrdered(db.runs)
    ensures r.Err? <==> q.offset + q.limit < 0 && (WantsStandalone(q) || WantsCampaign(q))
    ensures r.Ok? ==> r.value.items == PySlice(Truncated(db, q, now), q.offset, q.offset + q.limit)
    ensures r.Ok? && q.offset >= 0 && q.limit >= 0 && NullsHarmless(StandaloneRows(db, q), CampaignRows(db, q))
            ==> r.value.items == PySlice(FullListing(db, q, now), q.offset, q.offset + q.limit)
    ensures r.Ok? && q.offset + q.limit >= 0 ==>
              (r.value.hasMore <==> && |FullListing(db, q, now)| > q.offset + q.limit > 0
                                    && StandaloneRows(db, q) != [] && CampaignRows(db, q) != [])
    ensures r.Ok? && q.offset + q.limit < 0 ==> r.value.items == [] && r.value.total == 0 && r.value.hasMore
    ensures r.Ok? ==> r.value.total <= |FullListing(db, q, now)|
    ensures r.Ok? && q.offset + q.limit >= 0 ==>
              (r.value.total == |FullListing(db, q, now)|
               <==> |StandaloneRows(db, q)| <= q.offset + q.limit && |CampaignRows(db, q)| <= q.offset + q.limit)
  {
    var limit := q.offset + q.limit;
    var callbacks: seq<Callback>, runs: seq<QueuedRun> := [], [];
    if WantsStandalone(q) {
      if limit < 0 {
        return Err("LIMIT must not be negative");
      }
      callbacks := Take(StandaloneRows(db, q), limit);
    }
    if WantsCampaign(q) {
      if limit < 0 {
        return Err("LIMIT must not be negative");
      }
      runs := Take(CampaignRows(db, q), limit);
    }
    assert callbacks == Take(StandaloneRows(db, q), RowLimit(q)) && runs == Take(CampaignRows(db, q), RowLimit(q));
    assert forall r :: r in runs ==> r in CampaignRows(db, q);
    var names := FetchWorkflowNames(db, callbacks, runs);
    var merged := MergeStandalone(db, now, names, callbacks);
    merged := MergeCampaign(db, now, names, runs, merged);
    merged := Sort(merged);
    ListingSizes(db, q, now);
    if q.offset >= 0 && q.limit >= 0 {
      PageOfListing(db, q, now);
    }
    r := Ok(Listing(PySlice(merged, q.offset, limit), |merged|, |merged| > limit));
  }

  method MergeStandalone(db: Tables, now: int, names: map<nat, string>, callbacks: seq<Callback>)
    returns (merged: seq<Entry<Item>>)
    requires forall c :: c in callbacks ==> NameOf(names, c.workflow) == WorkflowName(db, c.workflow)
    ensures merged == CallbackItems(db, now, callbacks)
  {
    merged := [];
    for i := 0 to |callbacks|
      invariant merged == CallbackItems(db, now, callbacks[..i])
    {
      var cb := callbacks[i];
      var firesIn := cb.scheduledFor - now;
      var wasLate: Option<nat> := None;
      if firesIn < 0 && cb.status == "pending" {
        wasLate := Some(-firesIn);
      }
      var fis: Option<int> := None;
      if cb.status == "pending" {
        fis := Some(firesIn);
      }
      var item := Item(
        cb.id, Standalone, cb.status, fis, wasLate, Str(cb.toNumber), Str(cb.fromNumber), Str(cb.summary),
        Num(if cb.chainDepth != 0 then cb.chainDepth else 1), cb.workflow, NameOf(names, cb.workflow), None, None,
        Num(cb.originalRun));
      assert Entry(Some(cb.scheduledFor), item) == CallbackItem(db, now, cb);
      merged := merged + [Entry(Some(cb.scheduledFor), item)];
    }
    assert callbacks[..|callbacks|] == callbacks;
  }

  method MergeCampaign(
      db: Tables, now: int, names: map<nat, string>, runs: seq<QueuedRun>, standalone: seq<Entry<Item>>)
    returns (merged: seq<Entry<Item>>)
    requires forall r :: r in runs ==> r.campaign in db.campaigns
    requires forall r :: r in runs ==>
               var w := db.campaigns[r.campaign].workflow; NameOf(names, w) == WorkflowName(db, w)
    ensures merged == standalone + RunItems(db, now, runs)
  {
    merged := standalone;
    for i := 0 to |runs|
      invariant merged == standalone + RunItems(db, now, runs[..i])
    {
      var qr := runs[i];
      var camp := db.campaigns[qr.campaign];
      var status := StateName(qr.state);
      if qr.state.Queued? {
        status := "pending";
      } else if qr.state.Processed? {
        status := "completed";
      }
      var wasLate: Option<nat> := None;
      var fis: Option<int> := None;
      if qr.scheduledFor.Some? && status == "pending" {
        fis := Some(qr.scheduledFor.value - now);
        if fis.value < 0 {
          wasLate := Some(-fis.value);
        }
      }
      var cv := qr.context;
      var depth := Num(1);
      if cv.Obj? && "callback_chain_depth" in cv.fields {
        depth := cv.fields["callback_chain_depth"];
      }
      var item := Item(
        qr.id, FromCampaign, status, fis, wasLate, Or(Field(cv, "called_number"), Field(cv, "to_number")),
        Or(Field(cv, "caller_number"), Field(cv, "from_number")), Field(cv, "conversation_summary"), depth,
        camp.workflow, NameOf(names, camp.workflow), Some(qr.campaign), Some(camp.name),
        Field(cv, "original_run_id"));
      assert Entry(qr.scheduledFor, item) == RunItem(db, now, qr);
      merged := merged + [Entry(qr.scheduledFor, item)];
    }
    assert runs[..|runs|] == runs;
  }

  /** Names of the workflows the rows refer to: looking a row's workflow up there is looking it up in the table. */
  method FetchWorkflowNames(db: Tables, callbacks: seq<Callback>, runs: seq<QueuedRun>)
    returns (names: map<nat, string>)
    requires forall r :: r in runs ==> r.campaign in db.campaigns
    ensures forall c :: c in callbacks ==> NameOf(names, c.workflow) == WorkflowName(db, c.workflow)
    ensures forall r :: r in runs ==>
               var w := db.campaigns[r.campaign].workflow; NameOf(names, w) == WorkflowName(db, w)
  {
    var ids: set<nat> := {};
    for i := 0 to |callbacks|
      invariant 0 !in ids
      invariant forall c :: c in callbacks[..i] && c.workflow != 0 ==> c.workflow in ids
    {
      if callbacks[i].workflow != 0 {
        ids := ids + {callbacks[i].workflow};
      }
    }
    for i := 0 to |runs|
      invariant 0 !in ids
      invariant forall c :: c in callbacks && c.workflow != 0 ==> c.workflow in ids
      invariant forall r :: r in runs[..i] && db.campaigns[r.campaign].workflow != 0
                  ==> db.campaigns[r.campaign].workflow in ids
    {
      var camp := db.campaigns[runs[i].campaign];
      if camp.workflow != 0 {
        ids := ids + {camp.workflow};
      }
    }
    names := map id | id in ids && id in db.workflows :: db.workflows[id];
  }
}
