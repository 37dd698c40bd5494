/**
 Text-chat sessions and run records: optimistic concurrency by revision, atomic completion of a session
 with its run, and the key-wise merging of the run's context dictionaries.
 */
module TextSession {
  import opened Common

  type Dict = map<string, Json>

  datatype Session = Session(revision: nat, data: Json, checkpoint: Json)

  datatype Run = Run(
    state: string,
    completed: bool,
    usage: Dict,
    initial: Dict,
    gathered: Dict,
    logs: Dict,
    annotations: Dict,
    extra: Dict,
    cost: Dict,
    extracted: Option<Json>,
    files: Files)

  /** Where the recording and the transcript are stored; a missing value is empty. */
  datatype Files = Files(recording: string, transcript: string, backend: string)

  /** Rows by workflow run id; a session belongs to the run of the same id. */
  datatype Store = Store(sessions: map<nat, Session>, runs: map<nat, Run>)

  datatype Error = NotFound | Conflict(expected: int, actual: nat)

  /** The calls of the two clients.  `None` is an omitted argument. */
  datatype Call =
    | Ensure(id: nat, data: Option<Json>, checkpoint: Option<Json>)
    | Update(id: nat, data: Option<Json>, checkpoint: Option<Json>, expected: Option<int>)
    | Complete(id: nat, completion: Completion, expected: Option<int>)
    | UpdateRun(id: nat, change: RunChange)

  datatype Completion = Completion(
    data: Json,
    checkpoint: Option<Json>,
    usage: Dict,
    initial: Option<Dict>,
    gathered: Dict,
    logs: Dict,
    state: string)

  datatype RunChange = RunChange(
    completed: bool,
    usage: Option<Dict>,
    initial: Option<Dict>,
    gathered: Option<Dict>,
    logs: Option<Dict>,
    annotations: Option<Dict>,
    extra: Option<Dict>,
    cost: Option<Dict>,
    extracted: Option<Json>,
    files: Files,
    state: string)

  function Given<T>(change: Option<T>, otherwise: T): T {
    if change.Some? then change.value else otherwise
  }

  /** A falsy dictionary argument is ignored; any other is merged over the stored one. */
  function Merged(stored: Dict, patch: Option<Dict>): Dict {
    if patch.Some? && patch.value != map[] then MergeDict(stored, patch.value) else stored
  }

  /** A falsy dictionary argument is ignored; any other replaces the stored one. */
  function Replaced(stored: Dict, value: Option<Dict>): Dict {
    if value.Some? && value.value != map[] then value.value else stored
  }

  predicate RevisionMatches(s: Session, expected: Option<int>) {
    expected.None? || expected.value == s.revision
  }

  function Opened(data: Option<Json>, checkpoint: Option<Json>): Session {
    Session(0, if data.Some? && Truthy(data.value) then data.value else Obj(map[]),
            if checkpoint.Some? && Truthy(checkpoint.value) then checkpoint.value else Obj(map[]))
  }

  function CompletedRun(r: Run, c: Completion): Run {
    r.(state := c.state, completed := true, usage := c.usage, initial := Merged(r.initial, c.initial),
       gathered := MergeDict(r.gathered, c.gathered), logs := MergeDict(r.logs, c.logs))
  }

  /** An empty text argument is ignored. */
  function NonEmpty(value: string, otherwise: string): string {
    if value != "" then value else otherwise
  }

  function ChangedRun(r: Run, c: RunChange): Run {
    Run(NonEmpty(c.state, r.state), r.completed || c.completed, Replaced(r.usage, c.usage),
        Merged(r.initial, c.initial), Merged(r.gathered, c.gathered), Merged(r.logs, c.logs),
        Merged(r.annotations, c.annotations), Merged(r.extra, c.extra), Replaced(r.cost, c.cost),
        if c.extracted.Some? then c.extracted else r.extracted,
        Files(NonEmpty(c.files.recording, r.files.recording), NonEmpty(c.files.transcript, r.files.transcript),
              NonEmpty(c.files.backend, r.files.backend)))
  }

  /** One call as a transaction. */
  function Apply(s: Store, c: Call): Result<Store, Error> {
    match c
    case Ensure(id, data, checkpoint) =>
      if id in s.sessions then Ok(s)
      else if id !in s.runs then Err(NotFound)
      else Ok(s.(sessions := s.sessions[id := Opened(data, checkpoint)]))
    case Update(id, data, checkpoint, expected) =>
      if id !in s.sessions then Err(NotFound)
      else
        var t := s.sessions[id];
        if !RevisionMatches(t, expected) then Err(Conflict(expected.value, t.revision))
        else
          var written := Session(t.revision + 1, Given(data, t.data), Given(checkpoint, t.checkpoint));
          Ok(s.(sessions := s.sessions[id := written]))
    case Complete(id, completion, expected) =>
      if id !in s.sessions then Err(NotFound)
      else
        var t := s.sessions[id];
        if !RevisionMatches(t, expected) then Err(Conflict(expected.value, t.revision))
        else if id !in s.runs then Err(NotFound)
        else
          var written := Session(t.revision + 1, completion.data, Given(completion.checkpoint, t.checkpoint));
          Ok(Store(s.sessions[id := written],
                   s.runs[id := CompletedRun(s.runs[id], completion)]))
    case UpdateRun(id, change) =>
      if id !in s.runs then Err(NotFound)
      else Ok(s.(runs := s.runs[id := ChangedRun(s.runs[id], change)]))
  }

  function Step(s: Store, c: Call): Store {
    var r := Apply(s, c);
    if r.Ok? then r.value else s
  }

  /** The store after the first `k` calls. */
  function At(s: Store, calls: seq<Call>, k: nat): Store
    requires k <= |calls|
  {
    if k == 0 then s else Step(At(s, calls, k - 1), calls[k - 1])
  }

  // ---------------------------------------------------------------------------
  // Revisions
  // ---------------------------------------------------------------------------

  /** The call writes the session of run `id` and succeeds. */
  predicate Wins(s: Store, c: Call, id: nat) {
    (c.Update? || c.Complete?) && c.id == id && Apply(s, c).Ok?
  }

  function WinCount(s: Store, calls: seq<Call>, k: nat, id: nat): nat
    requires k <= |calls|
  {
    if k == 0 then 0 else WinCount(s, calls, k - 1, id) + if Wins(At(s, calls, k - 1), calls[k - 1], id) then 1 else 0
  }

  /** A session is never lost, and its revision counts exactly the successful writes. */
  lemma {:induction false} RevisionCountsWins(s: Store, calls: seq<Call>, k: nat, id: nat)
    requires id in s.sessions && k <= |calls|
    ensures id in At(s, calls, k).sessions
    ensures At(s, calls, k).sessions[id].revision == s.sessions[id].revision + WinCount(s, calls, k, id)
  {
    if k > 0 {
      RevisionCountsWins(s, calls, k - 1, id);
    }
  }

  lemma {:induction false} WinCountGrows(s: Store, calls: seq<Call>, i: nat, j: nat, id: nat)
    requires i <= j <= |calls|
    ensures WinCount(s, calls, i, id) <= WinCount(s, calls, j, id)
  {
    if i < j {
      WinCountGrows(s, calls, i, j - 1, id);
    }
  }

  /** Whatever the other calls are, two writers that expect the same revision do not both win. */
  lemma {:induction false} AtMostOneWinner(s: Store, calls: seq<Call>, i: nat, j: nat, id: nat, r: int)
    requires id in s.sessions && i < j < |calls|
    requires Wins(At(s, calls, i), calls[i], id) && calls[i].expected == Some(r)
    ensures !(Wins(At(s, calls, j), calls[j], id) && calls[j].expected == Some(r))
  {
    RevisionCountsWins(s, calls, i, id);
    RevisionCountsWins(s, calls, j, id);
    assert WinCount(s, calls, i + 1, id) == WinCount(s, calls, i, id) + 1;
    WinCountGrows(s, calls, i + 1, j, id);
  }

  /** Writers of session `id` that all read revision `r`. */
  predicate ShareRevision(calls: seq<Call>, id: nat, r: int) {
    forall c :: c in calls ==> (c.Update? || c.Complete?) && c.id == id && c.expected == Some(r)
  }

  /** Of any writers sharing the current revision exactly one wins, and it is the first to get the row lock. */
  lemma {:induction false} ExactlyOneWinner(s: Store, calls: seq<Call>, k: nat, id: nat)
    requires id in s.sessions && id in s.runs && 0 < k <= |calls|
    requires ShareRevision(calls, id, s.sessions[id].revision)
    ensures WinCount(s, calls, k, id) == 1 && Wins(s, calls[0], id)
  {
    assert calls[0] in calls && At(s, calls, 0) == s;
    if k > 1 {
      ExactlyOneWinner(s, calls, k - 1, id);
      RevisionCountsWins(s, calls, k - 1, id);
      assert calls[k - 1] in calls;
    }
  }

  // ---------------------------------------------------------------------------
  // Read-modify-write: no lost updates
  // ---------------------------------------------------------------------------

  /** What a writer read before computing its new session data. */
  datatype Copy = Copy(revision: nat, data: Json)

  datatype Chat = Chat(store: Store, copies: map<nat, Copy>)

  /** A writer reads the session, or writes `change` applied to what it read, naming the revision it read. */
  datatype Move =
    | Read(writer: nat)
    | Write(writer: nat, change: Json -> Json, completion: Option<Completion>)

  /** The client call a write makes: a plain update, or a completion carrying the changed data. */
  function CallOf(id: nat, copy: Copy, change: Json -> Json, completion: Option<Completion>): Call {
    match completion
    case None => Update(id, Some(change(copy.data)), None, Some(copy.revision))
    case Some(c) => Complete(id, c.(data := change(copy.data)), Some(copy.revision))
  }

  function Moved(chat: Chat, id: nat, m: Move): Chat {
    match m
    case Read(w) =>
      if id in chat.store.sessions then
        chat.(copies := chat.copies[w := Copy(chat.store.sessions[id].revision, chat.store.sessions[id].data)])
      else chat
    case Write(w, change, completion) =>
      if w in chat.copies then chat.(store := Step(chat.store, CallOf(id, chat.copies[w], change, completion)))
      else chat
  }

  function ChatAt(chat: Chat, id: nat, moves: seq<Move>, k: nat): Chat
    requires k <= |moves|
  {
    if k == 0 then chat else Moved(ChatAt(chat, id, moves, k - 1), id, moves[k - 1])
  }

  predicate WriteWins(chat: Chat, id: nat, m: Move) {
    m.Write? && m.writer in chat.copies
    && Apply(chat.store, CallOf(id, chat.copies[m.writer], m.change, m.completion)).Ok?
  }

  /** The changes of the winning writes, in revision order. */
  function Winners(chat: Chat, id: nat, moves: seq<Move>, k: nat): seq<Json -> Json>
    requires k <= |moves|
  {
    if k == 0 then []
    else
      Winners(chat, id, moves, k - 1)
      + if WriteWins(ChatAt(chat, id, moves, k - 1), id, moves[k - 1]) then [moves[k - 1].change] else []
  }

  /** The changes applied one after the other, as a single writer would. */
  function Fold(data: Json, changes: seq<Json -> Json>): Json {
    if changes == [] then data else changes[|changes| - 1](Fold(data, changes[..|changes| - 1]))
  }

  /** A copy of the current revision is a copy of the current data. */
  ghost predicate CopiesOk(chat: Chat, id: nat) {
    id in chat.store.sessions && forall w :: w in chat.copies ==>
      && chat.copies[w].revision <= chat.store.sessions[id].revision
      && (chat.copies[w].revision == chat.store.sessions[id].revision ==>
            chat.copies[w].data == chat.store.sessions[id].data)
  }

  lemma MoveStep(chat: Chat, id: nat, m: Move)
    requires CopiesOk(chat, id)
    ensures CopiesOk(Moved(chat, id, m), id)
    ensures var s, t := chat.store.sessions[id], Moved(chat, id, m).store.sessions[id];
            if WriteWins(chat, id, m) then t.revision == s.revision + 1 && t.data == m.change(s.data) else t == s
  {
  }

  /**
   No update is lost: in every interleaving of reads and writes the final data is the sequential fold of the
   winning changes, and the revision counts them.
   */
  lemma {:induction false} NoLostUpdates(chat: Chat, id: nat, moves: seq<Move>, k: nat)
    requires id in chat.store.sessions && chat.copies == map[] && k <= |moves|
    ensures CopiesOk(ChatAt(chat, id, moves, k), id)
    ensures var s, t := chat.store.sessions[id], ChatAt(chat, id, moves, k).store.sessions[id];
            var winners := Winners(chat, id, moves, k);
            t.data == Fold(s.data, winners) && t.revision == s.revision + |winners|
  {
    if k > 0 {
      NoLostUpdates(chat, id, moves, k - 1);
      MoveStep(ChatAt(chat, id, moves, k - 1), id, moves[k - 1]);
      var winners := Winners(chat, id, moves, k);
      var before := Winners(chat, id, moves, k - 1);
      if winners != before {
        assert winners[..|winners| - 1] == before;
      }
    }
  }

  // ---------------------------------------------------------------------------
  // Context dictionaries
  // ---------------------------------------------------------------------------

  datatype Field = Initial | Gathered | Logs | Annotations | Extra

  function Get(r: Run, f: Field): Dict {
    match f
    case Initial => r.initial
    case Gathered => r.gathered
    case Logs => r.logs
    case Annotations => r.annotations
    case Extra => r.extra
  }

  /** What a successful call writes into a context field of run `id`. */
  function PatchOf(c: Call, id: nat, f: Field): Dict {
    if c.id != id then map[]
    else
      match c
      case Complete(_, d, _) =>
        (match f
         case Initial => Given(d.initial, map[])
         case Gathered => d.gathered
         case Logs => d.logs
         case _ => map[])
      case UpdateRun(_, d) =>
        (match f
         case Initial => Given(d.initial, map[])
         case Gathered => Given(d.gathered, map[])
         case Logs => Given(d.logs, map[])
         case Annotations => Given(d.annotations, map[])
         case Extra => Given(d.extra, map[]))
      case _ => map[]
  }

  /** The patches of the first `k` calls that succeeded, in order. */
  function Patches(s: Store, calls: seq<Call>, k: nat, id: nat, f: Field): seq<Dict>
    requires k <= |calls|
  {
    if k == 0 then []
    else
      Patches(s, calls, k - 1, id, f)
      + if Apply(At(s, calls, k - 1), calls[k - 1]).Ok? then [PatchOf(calls[k - 1], id, f)] else []
  }

  /** The value of `key` after the patches: that of the last patch naming it, or the stored one. */
  function LastNamed(stored: Dict, ps: seq<Dict>, key: string): Option<Json> {
    if ps == [] then (if key in stored then Some(stored[key]) else None)
    else if key in ps[|ps| - 1] then Some(ps[|ps| - 1][key])
    else LastNamed(stored, ps[..|ps| - 1], key)
  }

  function ValueAt(d: Dict, key: string): Option<Json> {
    if key in d then Some(d[key]) else None
  }

  /** One call merges its patch into every context field, and completion is never undone. */
  lemma StepMerges(s: Store, c: Call, id: nat, f: Field, key: string)
    requires id in s.runs
    ensures id in Step(s, c).runs && (s.runs[id].completed ==> Step(s, c).runs[id].completed)
    ensures ValueAt(Get(Step(s, c).runs[id], f), key) ==
            if Apply(s, c).Ok? && key in PatchOf(c, id, f) then Some(PatchOf(c, id, f)[key])
            else ValueAt(Get(s.runs[id], f), key)
  {
  }

  /**
   Over any mix of run updates and completions, every key of a context field has the value of the last
   successful patch that names it (so no key ever disappears), and a completed run stays completed.
   */
  lemma {:induction false} ContextIsLastPatch(s: Store, calls: seq<Call>, k: nat, id: nat, f: Field, key: string)
    requires id in s.runs && k <= |calls|
    ensures id in At(s, calls, k).runs && (s.runs[id].completed ==> At(s, calls, k).runs[id].completed)
    ensures ValueAt(Get(At(s, calls, k).runs[id], f), key) ==
            LastNamed(Get(s.runs[id], f), Patches(s, calls, k, id, f), key)
    ensures key in Get(s.runs[id], f) ==> key in Get(At(s, calls, k).runs[id], f)
  {
    if k > 0 {
      ContextIsLastPatch(s, calls, k - 1, id, f, key);
      StepMerges(At(s, calls, k - 1), calls[k - 1], id, f, key);
      var ps := Patches(s, calls, k - 1, id, f);
      var p := PatchOf(calls[k - 1], id, f);
      if Apply(At(s, calls, k - 1), calls[k - 1]).Ok? {
        assert Patches(s, calls, k, id, f) == ps + [p] && (ps + [p])[..|ps|] == ps;
      } else {
        assert Patches(s, calls, k, id, f) == ps;
      }
    }
  }

  // ---------------------------------------------------------------------------
  // The clients
  // ---------------------------------------------------------------------------

  class TextSessionClient {
    var sessions: map<nat, Session>
    var runs: map<nat, Run>

    ghost function State(): Store
      reads this
    {
      Store(sessions, runs)
    }

    constructor (initial: Store)
      ensures State() == initial
    {
      sessions, runs := initial.sessions, initial.runs;
    }

    method EnsureSession(id: nat, data: Option<Json>, checkpoint: Option<Json>) returns (r: Result<Session, Error>)
      modifies this`sessions
      ensures State() == Step(old(State()), Ensure(id, data, checkpoint))
      ensures r.Ok? <==> Apply(old(State()), Ensure(id, data, checkpoint)).Ok?
      ensures r.Ok? ==> && id in sessions && r.value == sessions[id]
                        && (id in old(sessions) ==> r.value == old(sessions)[id])
    {
      if id in sessions { return Ok(sessions[id]); }
      if id !in runs { return Err(NotFound); }
      sessions := sessions[id := Opened(data, checkpoint)];
      r := Ok(sessions[id]);
    }

    method UpdateSession(id: nat, data: Option<Json>, checkpoint: Option<Json>, expected: Option<int>)
      returns (r: Result<Session, Error>)
      modifies this`sessions
      ensures var after := Apply(old(State()), Update(id, data, checkpoint, expected));
              && State() == Step(old(State()), Update(id, data, checkpoint, expected))
              && (after.Err? ==> r == Err(after.error))
              && (after.Ok? ==> id in sessions && r == Ok(sessions[id]))
    {
      if id !in sessions { return Err(NotFound); }
      var row := sessions[id];
      if expected.Some? && row.revision != expected.value { return Err(Conflict(expected.value, row.revision)); }
      if data.Some? { row := row.(data := data.value); }
      if checkpoint.Some? { row := row.(checkpoint := checkpoint.value); }
      row := row.(revision := row.revision + 1);
      sessions := sessions[id := row];
      r := Ok(row);
    }

    /** Both rows change, or neither does. */
    method CompleteSession(id: nat, c: Completion, expected: Option<int>) returns (r: Result<Session, Error>)
      modifies this
      ensures var after := Apply(old(State()), Complete(id, c, expected));
              && State() == Step(old(State()), Complete(id, c, expected))
              && (after.Err? ==> r == Err(after.error) && State() == old(State()))
              && (after.Ok? ==> id in sessions && id in runs && r == Ok(sessions[id]) && runs[id].completed
                                && sessions[id].data == c.data && runs[id].state == c.state)
    {
      if id !in sessions { return Err(NotFound); }
      var row := sessions[id];
      if expected.Some? && row.revision != expected.value { return Err(Conflict(expected.value, row.revision)); }
      if id !in runs { return Err(NotFound); }
      var run := runs[id];
      row := row.(data := c.data);
      if c.checkpoint.Some? { row := row.(checkpoint := c.checkpoint.value); }
      row := row.(revision := row.revision + 1);
      run := run.(usage := c.usage);
      var initial := MergeInto(run.initial, c.initial);
      run := run.(initial := initial);
      run := run.(gathered := run.gathered + c.gathered);
      run := run.(logs := run.logs + c.logs);
      run := run.(state := c.state, completed := true);
      assert run == CompletedRun(runs[id], c);
      sessions, runs := sessions[id := row], runs[id := run];
      r := Ok(row);
    }

    /** Merges a truthy dictionary argument over the stored one. */
    static method MergeInto(stored: Dict, patch: Option<Dict>) returns (d: Dict)
      ensures d == Merged(stored, patch)
    {
      d := stored;
      if patch.Some? && patch.value != map[] {
        d := d + patch.value;
      }
    }

    static method StoredFiles(stored: Files, change: Files) returns (f: Files)
      ensures f == Files(NonEmpty(change.recording, stored.recording), NonEmpty(change.transcript, stored.transcript),
                         NonEmpty(change.backend, stored.backend))
    {
      f := stored;
      if change.recording != "" { f := f.(recording := change.recording); }
      if change.transcript != "" { f := f.(transcript := change.transcript); }
      if change.backend != "" { f := f.(backend := change.backend); }
    }

    method UpdateWorkflowRun(id: nat, c: RunChange) returns (r: Result<Run, Error>)
      modifies this`runs
      ensures var after := Apply(old(State()), UpdateRun(id, c));
              && State() == Step(old(State()), UpdateRun(id, c))
              && (after.Err? ==> r == Err(after.error))
              && (after.Ok? ==> id in runs && r == Ok(runs[id]))
    {
      if id !in runs { return Err(NotFound); }
      var run := runs[id];
      var files := StoredFiles(run.files, c.files);
      run := run.(files := files, usage := Replaced(run.usage, c.usage), cost := Replaced(run.cost, c.cost));
      var initial := MergeInto(run.initial, c.initial);
      var gathered := MergeInto(run.gathered, c.gathered);
      var logs := MergeInto(run.logs, c.logs);
      var annotations := MergeInto(run.annotations, c.annotations);
      var extra := MergeInto(run.extra, c.extra);
      run := run.(initial := initial, gathered := gathered, logs := logs, annotations := annotations, extra := extra);
      if c.extracted.Some? { run := run.(extracted := c.extracted); }
      if c.completed { run := run.(completed := true); }
      if c.state != "" { run := run.(state := c.state); }
      runs := runs[id := run];
      r := Ok(run);
    }
  }
}
