/**
 What the columns of text-chat sessions and run records hold after any mix of calls: each the value that the last
 successful call gave it; and which answer each call gets.
 */
module SessionColumns {
  import opened Common
  import opened TextSession

  // ---------------------------------------------------------------------------
  // Which answer a call gets
  // ---------------------------------------------------------------------------

  /** The call names a revision that the stored session no longer has. */
  predicate Stale(s: Store, id: nat, expected: Option<int>) {
    id in s.sessions && expected.Some? && expected.value != s.sessions[id].revision
  }

  lemma CallOutcome(s: Store, c: Call)
    ensures var r := Apply(s, c);
            match c
            case Ensure(id, _, _) =>
              if id in s.sessions || id in s.runs then r.Ok? else r == Err(NotFound)
            case Update(id, _, _, expected) =>
              if id !in s.sessions then r == Err(NotFound)
              else if Stale(s, id, expected) then r == Err(Conflict(expected.value, s.sessions[id].revision))
              else r.Ok?
            case Complete(id, _, expected) =>
              if id !in s.sessions then r == Err(NotFound)
              else if Stale(s, id, expected) then r == Err(Conflict(expected.value, s.sessions[id].revision))
              else if id !in s.runs then r == Err(NotFound)
              else r.Ok?
            case UpdateRun(id, _) => if id in s.runs then r.Ok? else r == Err(NotFound)
  {
  }

  /** A call touches no row but the session and the run of its own id, and drops none. */
  lemma OthersStay(s: Store, c: Call, id: nat)
    requires id != c.id
    ensures id in Step(s, c).sessions <==> id in s.sessions
    ensures id in Step(s, c).runs <==> id in s.runs
    ensures id in s.sessions ==> Step(s, c).sessions[id] == s.sessions[id]
    ensures id in s.runs ==> Step(s, c).runs[id] == s.runs[id]
  {
  }

  /** A session that is created has revision 0 and what was given, an empty dictionary where that is falsy. */
  lemma CreatedSession(s: Store, id: nat, data: Option<Json>, checkpoint: Option<Json>)
    requires id !in s.sessions && id in s.runs
    ensures var t := Step(s, Ensure(id, data, checkpoint));
            && id in t.sessions && t.sessions[id].revision == 0 && t.runs == s.runs
            && (data.Some? && Truthy(data.value) ==> t.sessions[id].data == data.value)
            && (data.None? || !Truthy(data.value) ==> t.sessions[id].data == Obj(map[]))
            && (checkpoint.Some? && Truthy(checkpoint.value) ==> t.sessions[id].checkpoint == checkpoint.value)
            && (checkpoint.None? || !Truthy(checkpoint.value) ==> t.sessions[id].checkpoint == Obj(map[]))
  {
  }

  // ---------------------------------------------------------------------------
  // Sessions
  // ---------------------------------------------------------------------------

  datatype SessionColumn = DataColumn | CheckpointColumn

  function InSession(t: Session, col: SessionColumn): Json {
    if col.DataColumn? then t.data else t.checkpoint
  }

  /** What a write to session `id` gives the column. */
  function GivenToSession(c: Call, id: nat, col: SessionColumn): Option<Json> {
    match c
    case Update(i, data, checkpoint, _) => if i != id then None else if col.DataColumn? then data else checkpoint
    case Complete(i, d, _) => if i != id then None else if col.DataColumn? then Some(d.data) else d.checkpoint
    case _ => None
  }

  function LastToSession(s: Store, calls: seq<Call>, k: nat, id: nat, col: SessionColumn): Json
    requires id in s.sessions && k <= |calls|
  {
    if k == 0 then InSession(s.sessions[id], col)
    else
      var given := GivenToSession(calls[k - 1], id, col);
      if given.Some? && Apply(At(s, calls, k - 1), calls[k - 1]).Ok? then given.value
      else LastToSession(s, calls, k - 1, id, col)
  }

  lemma SessionStep(s: Store, c: Call, id: nat, col: SessionColumn)
    requires id in s.sessions
    ensures id in Step(s, c).sessions
    ensures var given := GivenToSession(c, id, col);
            InSession(Step(s, c).sessions[id], col)
            == if given.Some? && Apply(s, c).Ok? then given.value else InSession(s.sessions[id], col)
  {
  }

  /** Session data and checkpoint are what the last successful write gave them, else what was stored. */
  lemma {:induction false} SessionHoldsLastGiven(s: Store, calls: seq<Call>, k: nat, id: nat, col: SessionColumn)
    requires id in s.sessions && k <= |calls|
    ensures id in At(s, calls, k).sessions
    ensures InSession(At(s, calls, k).sessions[id], col) == LastToSession(s, calls, k, id, col)
  {
    if k > 0 {
      SessionHoldsLastGiven(s, calls, k - 1, id, col);
      SessionStep(At(s, calls, k - 1), calls[k - 1], id, col);
    }
  }

  // ---------------------------------------------------------------------------
  // Runs
  // ---------------------------------------------------------------------------

  /** The columns of a run that are replaced, not merged. */
  datatype RunColumn =
    | StateColumn
    | UsageColumn
    | CostColumn
    | ExtractedColumn
    | RecordingColumn
    | TranscriptColumn
    | BackendColumn

  function InRun(r: Run, col: RunColumn): Option<Json> {
    match col
    case StateColumn => Some(Str(r.state))
    case UsageColumn => Some(Obj(r.usage))
    case CostColumn => Some(Obj(r.cost))
    case ExtractedColumn => r.extracted
    case RecordingColumn => Some(Str(r.files.recording))
    case TranscriptColumn => Some(Str(r.files.transcript))
    case BackendColumn => Some(Str(r.files.backend))
  }

  /** An empty text gives nothing. */
  function GivenText(text: string): Option<Json> {
    if |text| > 0 then Some(Str(text)) else None
  }

  /** A missing or empty dictionary gives nothing. */
  function GivenDict(d: Option<Dict>): Option<Json> {
    if d.Some? && |d.value| > 0 then Some(Obj(d.value)) else None
  }

  /** What a call gives the column of run `id`; a completion gives state and usage even when they are empty. */
  function GivenToRun(c: Call, id: nat, col: RunColumn): Option<Json> {
    match c
    case Complete(i, d, _) =>
      if i != id then None
      else
        (match col
         case StateColumn => Some(Str(d.state))
         case UsageColumn => Some(Obj(d.usage))
         case _ => None)
    case UpdateRun(i, d) =>
      if i != id then None
      else
        (match col
         case StateColumn => GivenText(d.state)
         case UsageColumn => GivenDict(d.usage)
         case CostColumn => GivenDict(d.cost)
         case ExtractedColumn => d.extracted
         case RecordingColumn => GivenText(d.files.recording)
         case TranscriptColumn => GivenText(d.files.transcript)
         case BackendColumn => GivenText(d.files.backend))
    case _ => None
  }

  function LastToRun(s: Store, calls: seq<Call>, k: nat, id: nat, col: RunColumn): Option<Json>
    requires id in s.runs && k <= |calls|
  {
    if k == 0 then InRun(s.runs[id], col)
    else
      var given := GivenToRun(calls[k - 1], id, col);
      if given.Some? && Apply(At(s, calls, k - 1), calls[k - 1]).Ok? then given
      else LastToRun(s, calls, k - 1, id, col)
  }

  lemma EmptyDict(d: Dict)
    ensures |d| > 0 <==> d != map[]
  {
    if |d| > 0 {
      assert d.Keys != {};
    }
    if d != map[] {
      var key :| key in d;
      assert key in d.Keys;
    }
  }

  lemma RunStep(s: Store, c: Call, id: nat, col: RunColumn)
    requires id in s.runs
    ensures id in Step(s, c).runs
    ensures var given := GivenToRun(c, id, col);
            InRun(Step(s, c).runs[id], col)
            == if given.Some? && Apply(s, c).Ok? then given else InRun(s.runs[id], col)
  {
    if c.UpdateRun? {
      if c.change.usage.Some? { EmptyDict(c.change.usage.value); }
      if c.change.cost.Some? { EmptyDict(c.change.cost.value); }
    }
  }

  /** Every replaced column of a run is what the last successful call gave it, else what was stored. */
  lemma {:induction false} RunHoldsLastGiven(s: Store, calls: seq<Call>, k: nat, id: nat, col: RunColumn)
    requires id in s.runs && k <= |calls|
    ensures id in At(s, calls, k).runs && InRun(At(s, calls, k).runs[id], col) == LastToRun(s, calls, k, id, col)
  {
    if k > 0 {
      RunHoldsLastGiven(s, calls, k - 1, id, col);
      RunStep(At(s, calls, k - 1), calls[k - 1], id, col);
    }
  }

  /** The call completes run `id`. */
  predicate Completes(s: Store, c: Call, id: nat) {
    c.id == id && Apply(s, c).Ok? && (c.Complete? || (c.UpdateRun? && c.change.completed))
  }

  predicate CompletesAt(s: Store, calls: seq<Call>, k: nat, id: nat)
    requires k < |calls|
  {
    Completes(At(s, calls, k), calls[k], id)
  }

  /** A run is completed exactly if it was, or some call so far completed it. */
  lemma {:induction false} CompletedExactlyWhen(s: Store, calls: seq<Call>, k: nat, id: nat)
    requires id in s.runs && k <= |calls|
    ensures id in At(s, calls, k).runs
    ensures At(s, calls, k).runs[id].completed <==>
            s.runs[id].completed || exists j: nat :: j < k && CompletesAt(s, calls, j, id)
  {
    if k > 0 {
      CompletedExactlyWhen(s, calls, k - 1, id);
      var t, c := At(s, calls, k - 1), calls[k - 1];
      assert id in Step(t, c).runs && (Step(t, c).runs[id].completed <==> t.runs[id].completed || Completes(t, c, id));
      assert CompletesAt(s, calls, k - 1, id) <==> Completes(t, c, id);
    }
  }
}
