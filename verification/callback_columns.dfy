/** Which callbacks the unified list contains, and what each entry shows, column by column. */
module CallbackColumns {
  import opened Common
  import opened QueuedRuns
  import opened StableSort
  import opened CallbackListing

  // ---------------------------------------------------------------------------
  // Which rows are listed
  // ---------------------------------------------------------------------------

  /** A filter on an id: none is given, it is 0, or it is met. */
  predicate Passes(filter: Option<nat>, id: nat) {
    filter == None || filter == Some(0) || filter == Some(id)
  }

  /** The names under which a state is found: the one it is stored under and the one it is shown with. */
  predicate FoundUnder(s: RunState, status: string) {
    match s
    case Queued => status == "queued" || status == "pending"
    case Processing => status == "processing"
    case Processed => status == "processed" || status == "completed"
    case Failed => status == "failed"
    case Cancelled => status == "cancelled"
  }

  predicate CallbackListed(q: Query, c: Callback) {
    && (q.source == All || q.source == Standalone) && (q.campaign == None || q.campaign == Some(0))
    && c.organization == q.organization && Passes(q.workflow, c.workflow)
    && (q.status == None || q.status == Some("") || q.status == Some(c.status))
  }

  predicate RunListed(db: Tables, q: Query, r: QueuedRun) {
    && (q.source == All || q.source == FromCampaign)
    && r.retryReason == Some("user_requested_callback") && r.campaign in db.campaigns
    && db.campaigns[r.campaign].organization == q.organization
    && Passes(q.campaign, r.campaign) && Passes(q.workflow, db.campaigns[r.campaign].workflow)
    && (q.status == None || q.status == Some("") || FoundUnder(r.state, q.status.value))
  }

  lemma StatesFound(s: RunState, status: string)
    ensures StateMatches(s, status) <==> FoundUnder(s, status)
  {
    assert |"pending"| == 7 && |"completed"| == 9 && |"queued"| == 6 && |"processed"| == 9;
    assert |"processing"| == 10 && |"failed"| == 6 && |"cancelled"| == 9;
    assert "completed"[0] != "processed"[0] && "cancelled"[1] != "completed"[1] && "failed"[0] != "queued"[0];
  }

  lemma CallbackRowsListed(db: Tables, q: Query, c: Callback)
    ensures c in StandaloneRows(db, q) <==> c in db.callbacks && CallbackListed(q, c)
  {
    if WantsStandalone(q) {
      WhereMembers(db.callbacks, x => CallbackMatches(q, x), c);
    }
  }

  lemma RunRowsListed(db: Tables, q: Query, r: QueuedRun)
    ensures r in CampaignRows(db, q) <==> r in db.runs && RunListed(db, q, r)
  {
    if q.status.Some? {
      StatesFound(r.state, q.status.value);
    }
    if WantsCampaign(q) {
      WhereMembers(db.runs, x => RunMatches(db, q, x), r);
    }
  }

  // ---------------------------------------------------------------------------
  // What an entry shows
  // ---------------------------------------------------------------------------

  /** The name of a stored workflow; 0 is no workflow. */
  predicate ShowsName(db: Tables, workflow: nat, shown: Option<string>) {
    shown == if workflow != 0 && workflow in db.workflows then Some(db.workflows[workflow]) else None
  }

  /** While pending: the seconds until it fires, negative once it is late, and how late it is. */
  predicate ShowsTimes(pending: bool, scheduled: Option<int>, now: int, firesIn: Option<int>, wasLate: Option<nat>) {
    if !pending || scheduled == None then firesIn == None && wasLate == None
    else
      && firesIn == Some(scheduled.value - now)
      && (scheduled.value >= now ==> wasLate == None)
      && (scheduled.value < now ==> wasLate.Some? && scheduled.value + wasLate.value == now)
  }

  predicate ShowsCallback(db: Tables, now: int, c: Callback, e: Entry<Item>) {
    && e.time == Some(c.scheduledFor) && e.value.id == c.id && e.value.source == Standalone
    && e.value.status == c.status
    && ShowsTimes(c.status == "pending", Some(c.scheduledFor), now, e.value.firesIn, e.value.wasLate)
    && e.value.toNumber == Str(c.toNumber) && e.value.fromNumber == Str(c.fromNumber)
    && e.value.summary == Str(c.summary)
    && e.value.chainDepth == Num(if c.chainDepth > 1 then c.chainDepth else 1)
    && e.value.workflow == c.workflow && ShowsName(db, c.workflow, e.value.workflowName)
    && e.value.campaign == None && e.value.campaignName == None && e.value.originalRun == Num(c.originalRun)
  }

  /** The first of the two context values that is truthy, else the second, else nothing. */
  predicate ShowsEither(context: Json, first: string, second: string, shown: Json) {
    if context.Obj? && first in context.fields && Truthy(context.fields[first]) then shown == context.fields[first]
    else if context.Obj? && second in context.fields then shown == context.fields[second]
    else shown == Null
  }

  predicate ShowsContext(context: Json, key: string, otherwise: Json, shown: Json) {
    shown == if context.Obj? && key in context.fields then context.fields[key] else otherwise
  }

  predicate ShownAs(s: RunState, status: string) {
    match s
    case Queued => status == "pending"
    case Processing => status == "processing"
    case Processed => status == "completed"
    case Failed => status == "failed"
    case Cancelled => status == "cancelled"
  }

  predicate ShowsRun(db: Tables, now: int, r: QueuedRun, e: Entry<Item>) {
    && r.campaign in db.campaigns
    && e.time == r.scheduledFor && e.value.id == r.id && e.value.source == FromCampaign
    && ShownAs(r.state, e.value.status)
    && ShowsTimes(r.state.Queued?, r.scheduledFor, now, e.value.firesIn, e.value.wasLate)
    && ShowsEither(r.context, "called_number", "to_number", e.value.toNumber)
    && ShowsEither(r.context, "caller_number", "from_number", e.value.fromNumber)
    && ShowsContext(r.context, "conversation_summary", Null, e.value.summary)
    && ShowsContext(r.context, "callback_chain_depth", Num(1), e.value.chainDepth)
    && ShowsContext(r.context, "original_run_id", Null, e.value.originalRun)
    && e.value.workflow == db.campaigns[r.campaign].workflow
    && ShowsName(db, db.campaigns[r.campaign].workflow, e.value.workflowName)
    && e.value.campaign == Some(r.campaign) && e.value.campaignName == Some(db.campaigns[r.campaign].name)
  }

  lemma CallbackShown(db: Tables, now: int, c: Callback, e: Entry<Item>)
    ensures e == CallbackItem(db, now, c) <==> ShowsCallback(db, now, c, e)
  {
  }

  lemma StatusNames(s: RunState)
    ensures ShownStatus(s) == "pending" <==> s.Queued?
    ensures ShownAs(s, ShownStatus(s))
  {
    assert |"pending"| == 7 && |"completed"| == 9 && |"processing"| == 10 && |"failed"| == 6 && |"cancelled"| == 9;
  }

  lemma RunShown(db: Tables, now: int, r: QueuedRun, e: Entry<Item>)
    requires r.campaign in db.campaigns
    ensures e == RunItem(db, now, r) <==> ShowsRun(db, now, r, e)
  {
    StatusNames(r.state);
  }

  // ---------------------------------------------------------------------------
  // The listing
  // ---------------------------------------------------------------------------

  /** The entry shows a row that the query asks for. */
  ghost predicate Asked(db: Tables, q: Query, now: int, e: Entry<Item>) {
    || (exists c :: c in db.callbacks && CallbackListed(q, c) && ShowsCallback(db, now, c, e))
    || (exists r :: r in db.runs && RunListed(db, q, r) && ShowsRun(db, now, r, e))
  }

  lemma CallbackEntries(db: Tables, q: Query, now: int, e: Entry<Item>)
    ensures e in CallbackItems(db, now, StandaloneRows(db, q)) <==>
            exists c :: c in db.callbacks && CallbackListed(q, c) && ShowsCallback(db, now, c, e)
  {
    var rows := StandaloneRows(db, q);
    var items := CallbackItems(db, now, rows);
    if e in items {
      var i :| 0 <= i < |items| && items[i] == e;
      assert rows[i] in rows;
      CallbackRowsListed(db, q, rows[i]);
      CallbackShown(db, now, rows[i], e);
    }
    if c :| c in db.callbacks && CallbackListed(q, c) && ShowsCallback(db, now, c, e) {
      CallbackRowsListed(db, q, c);
      CallbackShown(db, now, c, e);
      var i :| 0 <= i < |rows| && rows[i] == c;
      assert items[i] == e;
    }
  }

  lemma RunEntries(db: Tables, q: Query, now: int, e: Entry<Item>)
    ensures e in RunItems(db, now, CampaignRows(db, q)) <==>
            exists r :: r in db.runs && RunListed(db, q, r) && ShowsRun(db, now, r, e)
  {
    var rows := CampaignRows(db, q);
    var items := RunItems(db, now, rows);
    if e in items {
      var i :| 0 <= i < |items| && items[i] == e;
      assert rows[i] in rows;
      RunRowsListed(db, q, rows[i]);
      RunShown(db, now, rows[i], e);
    }
    if r :| r in db.runs && RunListed(db, q, r) && ShowsRun(db, now, r, e) {
      RunRowsListed(db, q, r);
      RunShown(db, now, r, e);
      var i :| 0 <= i < |rows| && rows[i] == r;
      assert items[i] == e;
    }
  }

  /** The full listing contains exactly the entries of the rows that the query asks for, latest first. */
  lemma ListingShowsAsked(db: Tables, q: Query, now: int, e: Entry<Item>)
    ensures e in FullListing(db, q, now) <==> Asked(db, q, now, e)
    ensures LatestFirst(FullListing(db, q, now))
  {
    var a, b := CallbackItems(db, now, StandaloneRows(db, q)), RunItems(db, now, CampaignRows(db, q));
    SortKeeps(a + b, e);
    CallbackEntries(db, q, now, e);
    RunEntries(db, q, now, e);
  }

  lemma {:induction false} AtMembers<T>(s: seq<Entry<T>>, e: Entry<T>)
    ensures e in s <==> e in At(s, e.time)
  {
    if s != [] {
      AtMembers(s[1..], e);
      assert s == [s[0]] + s[1..];
    }
  }

  lemma SortKeeps<T>(s: seq<Entry<T>>, e: Entry<T>)
    ensures LatestFirst(Sort(s)) && (e in Sort(s) <==> e in s)
  {
    SortIsStable(s, e.time);
    AtMembers(s, e);
    AtMembers(Sort(s), e);
  }

  /** Position `i` of `size` lies from `start` on and before `stop`, where a negative bound counts from the end. */
  predicate Between(i: nat, size: nat, start: int, stop: int) {
    && (if start >= 0 then i >= start else i - size >= start)
    && (if stop >= 0 then i < stop else i - size < stop)
  }

  /** A Python slice is the stretch of the positions that lie between its bounds. */
  lemma PySliceTakes<T>(s: seq<T>, start: int, stop: int) returns (lo: nat, hi: nat)
    ensures lo <= hi <= |s| && PySlice(s, start, stop) == s[lo..hi]
    ensures forall i: nat :: i < |s| ==> (lo <= i < hi <==> Between(i, |s|, start, stop))
  {
    lo, hi := Clip(start, |s|), Clip(stop, |s|);
    if lo >= hi {
      hi := lo;
    }
  }
}
