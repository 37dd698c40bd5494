/**
 Workflow versioning: every workflow keeps a history of definitions that are drafts, published or archived.
 Drafts are edited in place, published, discarded, or opened from an older version.
 */
module WorkflowVersions {
  import opened Common

  datatype Status = Draft | Published | Archived

  /** The behavioural snapshot a definition carries. */
  datatype Snapshot = Snapshot(json: Json, configurations: Json, variables: Json, schema: Json)

  /** A save request: `None` leaves a field as it is. */
  datatype Patch = Patch(
    json: Option<Json>,
    configurations: Option<Json>,
    variables: Option<Json>,
    schema: Option<Json>)

  datatype Definition = Definition(id: nat, version: nat, status: Status, isCurrent: bool, content: Snapshot)

  /** A workflow row with its definitions in insertion order; `legacy` are the unversioned columns. */
  datatype Workflow = Workflow(definitions: seq<Definition>, released: Option<nat>, legacy: Snapshot)

  /** A run belongs to a workflow and is bound to one of its definitions, or to none. */
  datatype Run = Run(workflow: nat, definition: Option<nat>)

  datatype Store = Store(
    workflows: map<nat, Workflow>,
    runs: map<nat, Run>,
    nextWorkflow: nat,
    nextDefinition: nat,
    nextRun: nat)

  datatype Error = NotFound | NoDraft | DraftExists | VersionNotFound

  const EMPTY_DICT: Json := Obj(map[])
  const EMPTY_LIST: Json := List([])
  const EMPTY_STORE: Store := Store(map[], map[], 1, 1, 1)
  const BLANK: Snapshot := Snapshot(EMPTY_DICT, EMPTY_DICT, EMPTY_DICT, EMPTY_LIST)

  function Pick(change: Option<Json>, otherwise: Json): Json {
    if change.Some? then change.value else otherwise
  }

  function Overlay(s: Snapshot, p: Patch): Snapshot {
    Snapshot(Pick(p.json, s.json), Pick(p.configurations, s.configurations), Pick(p.variables, s.variables),
             Pick(p.schema, s.schema))
  }

  /** The first definition with the given status, as the queries' `first()` finds it. */
  function FirstWith(ds: seq<Definition>, status: Status): (i: Option<nat>)
    ensures i.Some? ==> i.value < |ds| && ds[i.value].status == status
    ensures i.Some? ==> forall k :: 0 <= k < i.value ==> ds[k].status != status
    ensures i.None? ==> forall k :: 0 <= k < |ds| ==> ds[k].status != status
  {
    if ds == [] then None
    else if ds[0].status == status then Some(0)
    else
      match FirstWith(ds[1..], status)
      case None => None
      case Some(i) => Some(i + 1)
  }

  function FirstId(ds: seq<Definition>, id: nat): (i: Option<nat>)
    ensures i.Some? ==> i.value < |ds| && ds[i.value].id == id
    ensures i.None? ==> forall k :: 0 <= k < |ds| ==> ds[k].id != id
  {
    if ds == [] then None
    else if ds[0].id == id then Some(0)
    else
      match FirstId(ds[1..], id)
      case None => None
      case Some(i) => Some(i + 1)
  }

  function MaxVersion(ds: seq<Definition>): (m: nat)
    ensures forall d :: d in ds ==> d.version <= m
    ensures m > 0 ==> exists d :: d in ds && d.version == m
  {
    if ds == [] then 0
    else
      var m := MaxVersion(ds[..|ds| - 1]);
      if ds[|ds| - 1].version > m then ds[|ds| - 1].version else m
  }

  // ---------------------------------------------------------------------------
  // Transactions on one workflow
  // ---------------------------------------------------------------------------

  function Created(id: nat, json: Json, schema: Json): Workflow {
    var content := Snapshot(json, EMPTY_DICT, EMPTY_DICT, if Truthy(schema) then schema else EMPTY_LIST);
    Workflow([Definition(id, 1, Published, true, content)], Some(id), content)
  }

  /** What a draft opened now would start from. */
  function PublishedContent(ds: seq<Definition>): Snapshot {
    match FirstWith(ds, Published)
    case None => BLANK
    case Some(i) => ds[i].content
  }

  function NewDraft(ds: seq<Definition>, id: nat, content: Snapshot): Definition {
    Definition(id, MaxVersion(ds) + 1, Draft, false, content)
  }

  /** Edits the draft in place, or opens one with the next version number; `id` is the fresh key. */
  function Save(w: Workflow, id: nat, p: Patch): Workflow {
    match FirstWith(w.definitions, Draft)
    case Some(i) =>
      var content := Overlay(w.definitions[i].content, p);
      w.(definitions := w.definitions[i := w.definitions[i].(content := content)], legacy := content)
    case None =>
      var content := Overlay(PublishedContent(w.definitions), p);
      w.(definitions := w.definitions + [NewDraft(w.definitions, id, content)], legacy := content)
  }

  function Archive(ds: seq<Definition>): seq<Definition> {
    seq(|ds|, i requires 0 <= i < |ds| =>
      if ds[i].status == Published then ds[i].(status := Archived, isCurrent := false) else ds[i])
  }

  /** The legacy columns take three of the four fields; the post-call schema is not among them. */
  function Publish(w: Workflow): Result<Workflow, Error> {
    match FirstWith(w.definitions, Draft)
    case None => Err(NoDraft)
    case Some(i) =>
      var d := w.definitions[i];
      Ok(Workflow(Archive(w.definitions)[i := d.(status := Published, isCurrent := true)], Some(d.id),
                  d.content.(schema := w.legacy.schema)))
  }

  /** Deletes the draft; the legacy columns keep what the draft wrote there. */
  function Discard(w: Workflow): Result<Workflow, Error> {
    match FirstWith(w.definitions, Draft)
    case None => Err(NoDraft)
    case Some(i) => Ok(w.(definitions := w.definitions[..i] + w.definitions[i + 1..]))
  }

  /** Opens a draft from an older version; the post-call schema is not copied. */
  function Revert(w: Workflow, id: nat, source: nat): Result<Workflow, Error> {
    if FirstWith(w.definitions, Draft).Some? then Err(DraftExists)
    else
      match FirstId(w.definitions, source)
      case None => Err(VersionNotFound)
      case Some(i) =>
        var content := w.definitions[i].content.(schema := EMPTY_LIST);
        Ok(w.(definitions := w.definitions + [NewDraft(w.definitions, id, content)]))
  }

  /** The definition a new run is bound to: the draft if asked for and there is one, else the released one. */
  function Target(w: Workflow, useDraft: bool): Option<nat> {
    var draft := FirstWith(w.definitions, Draft);
    if useDraft && draft.Some? then Some(w.definitions[draft.value].id)
    else if w.released.Some? then w.released
    else CurrentId(w.definitions)
  }

  function CurrentId(ds: seq<Definition>): Option<nat> {
    if ds == [] then None else if ds[0].isCurrent then Some(ds[0].id) else CurrentId(ds[1..])
  }

  /** The runs after the definition `id` was deleted: whatever referred to it refers to none. */
  function Unbound(runs: map<nat, Run>, id: nat): map<nat, Run> {
    map r | r in runs :: if runs[r].definition == Some(id) then runs[r].(definition := None) else runs[r]
  }

  // ---------------------------------------------------------------------------
  // The invariant of a version history
  // ---------------------------------------------------------------------------

  predicate HasDraft(w: Workflow) {
    w.definitions != [] && w.definitions[|w.definitions| - 1].status == Draft
  }

  /** Index of the newest definition that is not a draft. */
  function Head(w: Workflow): int {
    if HasDraft(w) then |w.definitions| - 2 else |w.definitions| - 1
  }

  /**
   Version numbers are 1..n; a draft, if any, is number n and the only one; exactly one definition is
   published, it has the largest non-draft number, and it alone is current and released.
   */
  ghost predicate History(w: Workflow) {
    && Head(w) >= 0
    && (forall i :: 0 <= i < |w.definitions| ==>
          var d := w.definitions[i];
          && d.version == i + 1
          && (d.status == Draft <==> i > Head(w))
          && (d.status == Published <==> i == Head(w))
          && (d.isCurrent <==> i == Head(w)))
    && w.released == Some(w.definitions[Head(w)].id)
  }

  ghost predicate IdsBelow(w: Workflow, next: nat) {
    && (forall i :: 0 <= i < |w.definitions| ==> w.definitions[i].id < next)
    && (forall i, j :: 0 <= i < j < |w.definitions| ==> w.definitions[i].id < w.definitions[j].id)
  }

  lemma NumbersAreDense(w: Workflow)
    requires History(w)
    ensures MaxVersion(w.definitions) == |w.definitions|
  {
    var ds := w.definitions;
    assert ds[|ds| - 1] in ds && ds[|ds| - 1].version == |ds|;
    assert forall d :: d in ds ==> d.version <= |ds|;
  }

  lemma {:induction false} FirstIs(ds: seq<Definition>, status: Status, i: nat)
    requires i < |ds| && ds[i].status == status && (forall k :: 0 <= k < i ==> ds[k].status != status)
    ensures FirstWith(ds, status) == Some(i)
  {
    var f := FirstWith(ds, status);
    assert f.Some? && ds[f.value].status == status;
  }

  /** The queries' `first()` finds the draft and the published definition where the history has them. */
  lemma HistoryFacts(w: Workflow)
    requires History(w)
    ensures MaxVersion(w.definitions) == |w.definitions|
    ensures FirstWith(w.definitions, Draft) == if HasDraft(w) then Some(|w.definitions| - 1) else None
    ensures FirstWith(w.definitions, Published) == Some(Head(w))
    ensures PublishedContent(w.definitions) == w.definitions[Head(w)].content
  {
    NumbersAreDense(w);
    FirstIs(w.definitions, Published, Head(w));
    if HasDraft(w) {
      FirstIs(w.definitions, Draft, |w.definitions| - 1);
    } else {
      assert FirstWith(w.definitions, Draft).None?;
    }
  }

  /** Which transactions a well-formed history lets through. */
  lemma Refusals(w: Workflow, next: nat, source: nat)
    requires History(w)
    ensures Publish(w).Ok? <==> HasDraft(w)
    ensures Discard(w).Ok? <==> HasDraft(w)
    ensures Revert(w, next, source).Ok? <==> !HasDraft(w) && FirstId(w.definitions, source).Some?
  {
    HistoryFacts(w);
  }

  lemma CreatedKeepsHistory(id: nat, json: Json, schema: Json)
    ensures History(Created(id, json, schema)) && IdsBelow(Created(id, json, schema), id + 1)
  {
  }

  /** Appending a draft with the next version number keeps the history. */
  lemma OpenKeepsHistory(w: Workflow, next: nat, content: Snapshot, t: Workflow)
    requires History(w) && IdsBelow(w, next) && !HasDraft(w) && t.released == w.released
    requires t.definitions == w.definitions + [Definition(next, |w.definitions| + 1, Draft, false, content)]
    ensures History(t) && IdsBelow(t, next + 1) && HasDraft(t)
  {
    assert Head(t) == Head(w) == |w.definitions| - 1;
  }

  /** Editing the content of the draft keeps the history. */
  lemma EditKeepsHistory(w: Workflow, next: nat, content: Snapshot, t: Workflow)
    requires History(w) && IdsBelow(w, next) && HasDraft(w) && t.released == w.released
    requires var n := |w.definitions| - 1; t.definitions == w.definitions[n := w.definitions[n].(content := content)]
    ensures History(t) && IdsBelow(t, next)
  {
    assert Head(t) == Head(w) == |w.definitions| - 2;
  }

  lemma SaveKeepsHistory(w: Workflow, next: nat, p: Patch)
    requires History(w) && IdsBelow(w, next)
    ensures History(Save(w, next, p)) && IdsBelow(Save(w, next, p), if HasDraft(w) then next else next + 1)
    ensures |Save(w, next, p).definitions| == |w.definitions| + if HasDraft(w) then 0 else 1
  {
    HistoryFacts(w);
    if HasDraft(w) {
      EditKeepsHistory(w, next, Overlay(w.definitions[|w.definitions| - 1].content, p), Save(w, next, p));
    } else {
      OpenKeepsHistory(w, next, Overlay(PublishedContent(w.definitions), p), Save(w, next, p));
    }
  }

  lemma ArchiveAt(w: Workflow, i: nat)
    requires History(w) && i < |w.definitions| && i <= Head(w)
    ensures Archive(w.definitions)[i] == w.definitions[i].(status := Archived, isCurrent := false)
  {
    assert w.definitions[i].status != Draft && w.definitions[i].isCurrent == (i == Head(w));
  }

  /** Publishing promotes the last definition and archives the one before it; the others stay as they are. */
  lemma PublishShape(w: Workflow)
    requires History(w) && Publish(w).Ok?
    ensures var t, last := Publish(w).value, |w.definitions| - 1;
            && HasDraft(w) && |t.definitions| == last + 1
            && t.definitions[last] == w.definitions[last].(status := Published, isCurrent := true)
            && t.released == Some(w.definitions[last].id)
            && (forall i :: 0 <= i < last ==>
                  t.definitions[i] == w.definitions[i].(status := Archived, isCurrent := false))
  {
    HistoryFacts(w);
    var t, last := Publish(w).value, |w.definitions| - 1;
    forall i | 0 <= i < last
      ensures t.definitions[i] == w.definitions[i].(status := Archived, isCurrent := false)
    {
      ArchiveAt(w, i);
    }
  }

  lemma PublishKeepsHistory(w: Workflow, next: nat)
    requires History(w) && IdsBelow(w, next) && Publish(w).Ok?
    ensures History(Publish(w).value) && IdsBelow(Publish(w).value, next)
    ensures |Publish(w).value.definitions| == |w.definitions|
  {
    PublishShape(w);
    var t, last := Publish(w).value, |w.definitions| - 1;
    assert Head(t) == last;
    forall i | 0 <= i <= last
      ensures t.definitions[i].version == i + 1 && t.definitions[i].status != Draft
      ensures t.definitions[i].isCurrent == (i == last) && t.definitions[i].id == w.definitions[i].id
    {
      assert w.definitions[i].version == i + 1;
    }
  }

  lemma DiscardShape(w: Workflow)
    requires History(w) && HasDraft(w)
    ensures var r := Discard(w);
            && r.Ok? && r.value.legacy == w.legacy && r.value.released == w.released && Head(r.value) == Head(w)
            && r.value.definitions == w.definitions[..|w.definitions| - 1]
  {
    HistoryFacts(w);
  }

  /** Dropping the draft keeps the history. */
  lemma CloseKeepsHistory(w: Workflow, next: nat, t: Workflow)
    requires History(w) && IdsBelow(w, next) && HasDraft(w) && t.released == w.released
    requires t.definitions == w.definitions[..|w.definitions| - 1]
    ensures History(t) && IdsBelow(t, next) && !HasDraft(t)
  {
    assert Head(t) == Head(w) == |w.definitions| - 2;
  }

  lemma DiscardKeepsHistory(w: Workflow, next: nat)
    requires History(w) && IdsBelow(w, next) && Discard(w).Ok?
    ensures History(Discard(w).value) && IdsBelow(Discard(w).value, next)
    ensures Discard(w).value.definitions == w.definitions[..|w.definitions| - 1]
  {
    Refusals(w, next, next);
    DiscardShape(w);
    CloseKeepsHistory(w, next, Discard(w).value);
  }

  lemma RevertKeepsHistory(w: Workflow, next: nat, source: nat)
    requires History(w) && IdsBelow(w, next) && Revert(w, next, source).Ok?
    ensures History(Revert(w, next, source).value) && IdsBelow(Revert(w, next, source).value, next + 1)
    ensures |Revert(w, next, source).value.definitions| == |w.definitions| + 1
  {
    HistoryFacts(w);
    var i := FirstId(w.definitions, source).value;
    OpenKeepsHistory(w, next, w.definitions[i].content.(schema := EMPTY_LIST), Revert(w, next, source).value);
  }

  // ---------------------------------------------------------------------------
  // Histories over all workflows
  // ---------------------------------------------------------------------------

  datatype Op =
    | OpCreate(json: Json, schema: Json)
    | OpSave(w: nat, patch: Patch)
    | OpUpdate(w: nat, patch: Patch)  // `update_workflow`: saves only when some versioned field is given
    | OpPublish(w: nat)
    | OpDiscard(w: nat)
    | OpRevert(w: nat, source: nat)
    | OpRun(w: nat, useDraft: bool)  // a run of the workflow is created

  predicate AnyField(p: Patch) {
    p.json.Some? || p.configurations.Some? || p.variables.Some? || p.schema.Some?
  }

  function ValueOr(r: Result<Workflow, Error>, otherwise: Workflow): Workflow {
    if r.Ok? then r.value else otherwise
  }

  /** What the operation makes of its workflow; a failing transaction leaves it as it was. */
  function Effect(w: Workflow, next: nat, op: Op): Workflow {
    match op
    case OpCreate(_, _) => w
    case OpSave(_, p) => Save(w, next, p)
    case OpUpdate(_, p) => if AnyField(p) then Save(w, next, p) else w
    case OpPublish(_) => ValueOr(Publish(w), w)
    case OpDiscard(_) => ValueOr(Discard(w), w)
    case OpRevert(_, source) => ValueOr(Revert(w, next, source), w)
    case OpRun(_, _) => w
  }

  /** What the operation makes of the runs: a new one, or those of the deleted draft lose their definition. */
  function RunsAfter(runs: map<nat, Run>, next: nat, w: Workflow, op: Op): map<nat, Run> {
    match op
    case OpRun(v, useDraft) => runs[next := Run(v, Target(w, useDraft))]
    case OpDiscard(_) =>
      var draft := FirstWith(w.definitions, Draft);
      if draft.Some? then Unbound(runs, w.definitions[draft.value].id) else runs
    case _ => runs
  }

  /** The next free definition key: one is used up when a definition is inserted. */
  function NextKey(before: Workflow, after: Workflow, next: nat): nat {
    if |after.definitions| > |before.definitions| then next + 1 else next
  }

  function Step(s: Store, op: Op): Store {
    if op.OpCreate? then
      s.(workflows := s.workflows[s.nextWorkflow := Created(s.nextDefinition, op.json, op.schema)],
         nextWorkflow := s.nextWorkflow + 1, nextDefinition := s.nextDefinition + 1)
    else if op.w in s.workflows then
      var before := s.workflows[op.w];
      var after := Effect(before, s.nextDefinition, op);
      s.(workflows := s.workflows[op.w := after], nextDefinition := NextKey(before, after, s.nextDefinition),
         runs := RunsAfter(s.runs, s.nextRun, before, op), nextRun := if op.OpRun? then s.nextRun + 1 else s.nextRun)
    else s
  }

  ghost predicate Inv(s: Store) {
    forall w :: w in s.workflows ==>
      w < s.nextWorkflow && History(s.workflows[w]) && IdsBelow(s.workflows[w], s.nextDefinition)
  }

  lemma EffectKeepsHistory(w: Workflow, next: nat, op: Op)
    requires History(w) && IdsBelow(w, next)
    ensures var t := Effect(w, next, op); History(t) && IdsBelow(t, NextKey(w, t, next))
  {
    match op
    case OpCreate(_, _) =>
    case OpSave(_, p) => SaveKeepsHistory(w, next, p);
    case OpUpdate(_, p) => if AnyField(p) { SaveKeepsHistory(w, next, p); }
    case OpPublish(_) => if Publish(w).Ok? { PublishKeepsHistory(w, next); }
    case OpDiscard(_) => if Discard(w).Ok? { DiscardKeepsHistory(w, next); }
    case OpRevert(_, source) => if Revert(w, next, source).Ok? { RevertKeepsHistory(w, next, source); }
    case OpRun(_, _) =>
  }

  lemma PutKeepsInv(s: Store, w: nat, t: Workflow, after: Store)
    requires Inv(s) && History(t) && IdsBelow(t, after.nextDefinition)
    requires after.workflows == s.workflows[w := t] && s.nextDefinition <= after.nextDefinition
    requires w < after.nextWorkflow && s.nextWorkflow <= after.nextWorkflow
    ensures Inv(after)
  {
  }

  lemma StepKeepsInv(s: Store, op: Op)
    requires Inv(s)
    ensures Inv(Step(s, op))
  {
    if op.OpCreate? {
      CreatedKeepsHistory(s.nextDefinition, op.json, op.schema);
      PutKeepsInv(s, s.nextWorkflow, Created(s.nextDefinition, op.json, op.schema), Step(s, op));
    } else if op.w in s.workflows {
      EffectKeepsHistory(s.workflows[op.w], s.nextDefinition, op);
      PutKeepsInv(s, op.w, Effect(s.workflows[op.w], s.nextDefinition, op), Step(s, op));
    }
  }

  /** The store after the first `k` operations. */
  function At(s: Store, ops: seq<Op>, k: nat): Store
    requires k <= |ops|
  {
    if k == 0 then s else Step(At(s, ops, k - 1), ops[k - 1])
  }

  /** Every workflow keeps a well-formed version history through every sequence of operations. */
  lemma {:induction false} HistoryAlways(s: Store, ops: seq<Op>, k: nat)
    requires Inv(s) && k <= |ops|
    ensures Inv(At(s, ops, k))
  {
    if k > 0 {
      HistoryAlways(s, ops, k - 1);
      StepKeepsInv(At(s, ops, k - 1), ops[k - 1]);
    }
  }

  // ---------------------------------------------------------------------------
  // Published content does not change
  // ---------------------------------------------------------------------------

  /** Definition `i` of workflow `w` exists and is no draft. */
  predicate Frozen(s: Store, w: nat, i: nat) {
    w in s.workflows && i < |s.workflows[w].definitions| && s.workflows[w].definitions[i].status != Draft
  }

  /** The two definitions agree on everything but the publication marks. */
  predicate SameSnapshot(a: Definition, b: Definition) {
    a.id == b.id && a.version == b.version && a.content == b.content
  }

  /** Definition `i` is no draft before, and afterwards it is the same definition, still no draft. */
  predicate KeptFrozen(w: Workflow, t: Workflow, i: nat) {
    && i < |w.definitions| && i < |t.definitions| && t.definitions[i].status != Draft
    && SameSnapshot(t.definitions[i], w.definitions[i])
    && (w.definitions[i].status == Archived ==> t.definitions[i].status == Archived)
  }

  lemma EffectKeepsFrozen(w: Workflow, next: nat, op: Op, i: nat)
    requires History(w) && i <= Head(w)
    ensures KeptFrozen(w, Effect(w, next, op), i)
  {
  }

  lemma StepAt(s: Store, op: Op, w: nat)
    requires Inv(s) && w in s.workflows
    ensures w in Step(s, op).workflows
    ensures Step(s, op).workflows[w]
            == if !op.OpCreate? && op.w == w then Effect(s.workflows[w], s.nextDefinition, op) else s.workflows[w]
  {
  }

  lemma StepKeepsFrozen(s: Store, op: Op, w: nat, i: nat)
    requires Inv(s) && Frozen(s, w, i)
    ensures Frozen(Step(s, op), w, i)
    ensures KeptFrozen(s.workflows[w], Step(s, op).workflows[w], i)
  {
    StepAt(s, op, w);
    if !op.OpCreate? && op.w == w {
      EffectKeepsFrozen(s.workflows[w], s.nextDefinition, op, i);
    }
  }

  /** Whatever is done later, a definition that is not a draft keeps its number and its whole content. */
  lemma {:induction false} FrozenForever(s: Store, ops: seq<Op>, i: nat, j: nat, w: nat, d: nat)
    requires Inv(s) && i <= j <= |ops| && Frozen(At(s, ops, i), w, d)
    ensures Frozen(At(s, ops, j), w, d)
    ensures SameSnapshot(At(s, ops, j).workflows[w].definitions[d], At(s, ops, i).workflows[w].definitions[d])
    decreases j
  {
    if i < j {
      FrozenForever(s, ops, i, j - 1, w, d);
      HistoryAlways(s, ops, j - 1);
      StepKeepsFrozen(At(s, ops, j - 1), ops[j - 1], w, d);
    }
  }

  lemma FoundAt(w: Workflow, next: nat, d: nat)
    requires IdsBelow(w, next) && d < |w.definitions|
    ensures FirstId(w.definitions, w.definitions[d].id) == Some(d)
  {
  }

  /** A save overlays the patch on the draft and leaves every other stored definition alone. */
  lemma SaveAt(w: Workflow, next: nat, p: Patch, d: nat)
    requires History(w) && d < |w.definitions|
    ensures var v := w.definitions[d];
            d < |Save(w, next, p).definitions|
            && Save(w, next, p).definitions[d] == if v.status == Draft then v.(content := Overlay(v.content, p)) else v
  {
  }

  // ---------------------------------------------------------------------------
  // A draft is the published content overlaid with the saved patches
  // ---------------------------------------------------------------------------

  function OverlayAll(s: Snapshot, ps: seq<Patch>): Snapshot {
    if ps == [] then s else Overlay(OverlayAll(s, ps[..|ps| - 1]), ps[|ps| - 1])
  }

  /** The patches saved to workflow `w`, in order. */
  function PatchesOn(ops: seq<Op>, w: nat): seq<Patch> {
    if ops == [] then []
    else
      var p := PatchOn(ops[|ops| - 1], w);
      PatchesOn(ops[..|ops| - 1], w) + if p.Some? then [p.value] else []
  }

  /** The last definition of `w` is a draft with key `d`. */
  predicate OpenDraft(w: Workflow, d: nat) {
    HasDraft(w) && w.definitions[|w.definitions| - 1].id == d
  }

  function LastContent(w: Workflow): Snapshot
    requires w.definitions != []
  {
    w.definitions[|w.definitions| - 1].content
  }

  lemma SaveShape(w: Workflow, next: nat, p: Patch)
    requires History(w)
    ensures var t, n := Save(w, next, p), |w.definitions|;
            if HasDraft(w)
            then t.definitions == w.definitions[n - 1 := w.definitions[n - 1].(content := Overlay(LastContent(w), p))]
            else |t.definitions| == n + 1 && t.definitions[n].id == next
    ensures Save(w, next, p).definitions != [] && Save(w, next, p).legacy == LastContent(Save(w, next, p))
  {
    HistoryFacts(w);
  }

  lemma SaveContinues(w: Workflow, next: nat, p: Patch, d: nat)
    requires History(w) && IdsBelow(w, next) && d < next && OpenDraft(Save(w, next, p), d)
    ensures OpenDraft(w, d) && LastContent(Save(w, next, p)) == Overlay(LastContent(w), p)
    ensures Head(Save(w, next, p)) == Head(w) && Save(w, next, p).definitions[Head(w)] == w.definitions[Head(w)]
    ensures Save(w, next, p).legacy == LastContent(Save(w, next, p))
  {
    SaveShape(w, next, p);
  }

  lemma PublishCloses(w: Workflow, next: nat)
    requires History(w) && IdsBelow(w, next) && Publish(w).Ok?
    ensures !HasDraft(Publish(w).value)
  {
  }

  lemma DiscardCloses(w: Workflow, next: nat)
    requires History(w) && IdsBelow(w, next) && Discard(w).Ok?
    ensures !HasDraft(Discard(w).value)
  {
  }

  lemma RevertOpensNew(w: Workflow, next: nat, source: nat, d: nat)
    requires History(w) && Revert(w, next, source).Ok? && d < next
    ensures !OpenDraft(Revert(w, next, source).value, d)
  {
  }

  /** The patch an operation saves to workflow `w`, if any. */
  function PatchOn(op: Op, w: nat): Option<Patch> {
    match op
    case OpSave(v, p) => if v == w then Some(p) else None
    case OpUpdate(v, p) => if v == w && AnyField(p) then Some(p) else None
    case _ => None
  }

  /** A draft with an old key was already open before the operation, which can only have saved to it. */
  lemma EffectContinues(w: Workflow, next: nat, op: Op, d: nat)
    requires History(w) && IdsBelow(w, next) && d < next && OpenDraft(Effect(w, next, op), d)
    ensures OpenDraft(w, d)
    ensures var p := if op.OpCreate? then None else PatchOn(op, op.w);
            LastContent(Effect(w, next, op)) == if p.Some? then Overlay(LastContent(w), p.value) else LastContent(w)
    ensures Head(Effect(w, next, op)) == Head(w) && Effect(w, next, op).definitions[Head(w)] == w.definitions[Head(w)]
    ensures Effect(w, next, op).legacy
            == if !op.OpCreate? && PatchOn(op, op.w).Some? then LastContent(Effect(w, next, op)) else w.legacy
  {
    match op
    case OpSave(_, p) => SaveContinues(w, next, p, d);
    case OpUpdate(_, p) => if AnyField(p) { SaveContinues(w, next, p, d); }
    case OpPublish(_) => if Publish(w).Ok? { PublishCloses(w, next); }
    case OpDiscard(_) => if Discard(w).Ok? { DiscardCloses(w, next); }
    case OpRevert(_, source) => if Revert(w, next, source).Ok? { RevertOpensNew(w, next, source, d); }
    case OpCreate(_, _) =>
    case OpRun(_, _) =>
  }

  lemma DraftContinues(s: Store, op: Op, w: nat, d: nat)
    requires Inv(s) && w in s.workflows && d < s.nextDefinition
    requires w in Step(s, op).workflows && OpenDraft(Step(s, op).workflows[w], d)
    ensures var v, t, p := s.workflows[w], Step(s, op).workflows[w], PatchOn(op, w);
            && OpenDraft(v, d)
            && LastContent(t) == (if p.Some? then Overlay(LastContent(v), p.value) else LastContent(v))
            && Head(t) == Head(v) && t.definitions[Head(v)] == v.definitions[Head(v)]
            && t.legacy == (if p.Some? then LastContent(t) else v.legacy)
  {
    if !op.OpCreate? && op.w == w {
      EffectContinues(s.workflows[w], s.nextDefinition, op, d);
    }
  }

  lemma OverlayOne(s: Snapshot, p: Patch)
    ensures OverlayAll(s, [p]) == Overlay(s, p)
  {
  }

  /** The operation saves to workflow `w` (and so opens a draft when there is none). */
  predicate SavesTo(op: Op, w: nat) {
    PatchOn(op, w).Some?
  }

  /** The operation opens a draft on `w`: a save, or a revert to an older version. */
  predicate Opens(s: Store, op: Op, w: nat) {
    && w in s.workflows && !HasDraft(s.workflows[w])
    && (SavesTo(op, w) || (op.OpRevert? && op.w == w && Revert(s.workflows[w], s.nextDefinition, op.source).Ok?))
  }

  /** What the draft starts from: the published content, or the older version without its post-call schema. */
  function Origin(s: Store, op: Op, w: nat): Snapshot
    requires Opens(s, op, w)
  {
    var v := s.workflows[w];
    if op.OpRevert? then v.definitions[FirstId(v.definitions, op.source).value].content.(schema := EMPTY_LIST)
    else PublishedContent(v.definitions)
  }

  /**
   As long as a draft stays open, its content is what it started from overlaid with every patch saved since, in
   order; the published definition has not changed at all; and the unversioned columns show the draft once it
   was saved, and what they showed before it until then.
   */
  lemma {:induction false} DraftIsOverlay(s: Store, ops: seq<Op>, k: nat, w: nat)
    requires Inv(s) && 0 < k <= |ops| && Opens(s, ops[0], w)
    requires w in At(s, ops, k).workflows && OpenDraft(At(s, ops, k).workflows[w], s.nextDefinition)
    ensures var v, t, ps := s.workflows[w], At(s, ops, k).workflows[w], PatchesOn(ops[..k], w);
            && Head(v) >= 0 && Head(t) == Head(v) && t.definitions[Head(v)] == v.definitions[Head(v)]
            && LastContent(t) == OverlayAll(Origin(s, ops[0], w), ps)
            && t.legacy == if ps == [] then v.legacy else LastContent(t)
  {
    assert ops[..k][..k - 1] == ops[..k - 1] && ops[..k][k - 1] == ops[k - 1];
    if k == 1 {
      assert At(s, ops, 0) == s && PatchesOn(ops[..0], w) == [];
      DraftOpens(s, ops[0], w);
    } else {
      HistoryAlways(s, ops, k - 1);
      KeysGrow(s, ops, k - 1, w);
      DraftContinues(At(s, ops, k - 1), ops[k - 1], w, s.nextDefinition);
      DraftIsOverlay(s, ops, k - 1, w);
      OverlayNext(Origin(s, ops[0], w), PatchesOn(ops[..k - 1], w), PatchOn(ops[k - 1], w));
    }
  }

  lemma OverlayNext(s: Snapshot, ps: seq<Patch>, p: Option<Patch>)
    ensures OverlayAll(s, ps + if p.Some? then [p.value] else []) ==
            if p.Some? then Overlay(OverlayAll(s, ps), p.value) else OverlayAll(s, ps)
  {
    if p.Some? {
      assert (ps + [p.value])[..|ps|] == ps;
    } else {
      assert ps + [] == ps;
    }
  }

  lemma SaveOpens(w: Workflow, next: nat, p: Patch)
    requires History(w) && !HasDraft(w)
    ensures OpenDraft(Save(w, next, p), next)
    ensures LastContent(Save(w, next, p)) == Overlay(PublishedContent(w.definitions), p) == Save(w, next, p).legacy
    ensures Head(Save(w, next, p)) == Head(w) && Save(w, next, p).definitions[Head(w)] == w.definitions[Head(w)]
  {
    HistoryFacts(w);
  }

  lemma RevertOpens(w: Workflow, next: nat, source: nat)
    requires History(w) && !HasDraft(w) && Revert(w, next, source).Ok?
    ensures var t := Revert(w, next, source).value;
            && OpenDraft(t, next) && t.legacy == w.legacy
            && LastContent(t) == w.definitions[FirstId(w.definitions, source).value].content.(schema := EMPTY_LIST)
            && Head(t) == Head(w) && t.definitions[Head(w)] == w.definitions[Head(w)]
  {
  }

  /** The opening operation puts the draft there under a fresh key. */
  lemma DraftOpens(s: Store, op: Op, w: nat)
    requires Inv(s) && Opens(s, op, w)
    ensures w in Step(s, op).workflows && Step(s, op).nextDefinition > s.nextDefinition
    ensures var v, t, p := s.workflows[w], Step(s, op).workflows[w], PatchOn(op, w);
            var ps := if p.Some? then [p.value] else [];
            && OpenDraft(t, s.nextDefinition) && LastContent(t) == OverlayAll(Origin(s, op, w), ps)
            && t.legacy == (if p.Some? then LastContent(t) else v.legacy)
            && Head(t) == Head(v) >= 0 && t.definitions[Head(v)] == v.definitions[Head(v)]
  {
    var v := s.workflows[w];
    if op.OpRevert? {
      RevertOpens(v, s.nextDefinition, op.source);
    } else {
      var p := PatchOn(op, w).value;
      SaveOpens(v, s.nextDefinition, p);
      SaveKeepsHistory(v, s.nextDefinition, p);
      OverlayOne(Origin(s, op, w), p);
    }
  }

  /** After the opening operation, the draft's key is in use. */
  lemma {:induction false} KeysGrow(s: Store, ops: seq<Op>, k: nat, w: nat)
    requires Inv(s) && 0 < k <= |ops| && Opens(s, ops[0], w)
    ensures At(s, ops, k).nextDefinition > s.nextDefinition && w in At(s, ops, k).workflows
  {
    if k > 1 {
      KeysGrow(s, ops, k - 1, w);
    } else {
      assert At(s, ops, 0) == s;
      DraftOpens(s, ops[0], w);
    }
  }

  // ---------------------------------------------------------------------------
  // Publishing, reverting and the legacy columns
  // ---------------------------------------------------------------------------

  /** Reverting to a version and publishing reproduces it, except that the post-call schema comes back empty. */
  lemma RevertThenPublish(w: Workflow, next: nat, source: nat)
    requires History(w) && IdsBelow(w, next) && Revert(w, next, source).Ok?
    ensures var origin := w.definitions[FirstId(w.definitions, source).value].content;
            var r := Publish(Revert(w, next, source).value);
            && r.Ok? && History(r.value)
            && (var now := r.value.definitions[Head(r.value)].content;
                && now.json == origin.json
                && now.configurations == origin.configurations && now.variables == origin.variables
                && (now == origin <==> origin.schema == EMPTY_LIST))
  {
    RevertKeepsHistory(w, next, source);
    RevertShape(w, next, source);
    var t := Revert(w, next, source).value;
    HistoryFacts(t);
    PublishShape(t);
    PublishKeepsHistory(t, next + 1);
  }

  lemma RevertShape(w: Workflow, next: nat, source: nat)
    requires Revert(w, next, source).Ok?
    ensures var t, n := Revert(w, next, source).value, |w.definitions|;
            && FirstId(w.definitions, source).Some? && |t.definitions| == n + 1 && HasDraft(t)
            && t.definitions[n].content
               == w.definitions[FirstId(w.definitions, source).value].content.(schema := EMPTY_LIST)
  {
  }

  /** The unversioned columns show the released content. */
  predicate LegacyInSync(w: Workflow)
    requires Head(w) >= 0
  {
    w.legacy == w.definitions[Head(w)].content
  }

  /** Publishing syncs the legacy columns unless the draft's post-call schema was never written there. */
  lemma PublishSyncsLegacyExactlyWhen(w: Workflow, next: nat)
    requires History(w) && IdsBelow(w, next) && HasDraft(w)
    ensures var r := Publish(w);
            && r.Ok? && Head(r.value) >= 0
            && r.value.definitions[Head(r.value)].content == w.definitions[|w.definitions| - 1].content
            && (LegacyInSync(r.value) <==> w.legacy.schema == w.definitions[|w.definitions| - 1].content.schema)
  {
  }

  /**
   Discarding a draft, after whatever history since it was opened, leaves the unversioned columns in sync exactly
   when all its saved patches together changed nothing; a draft never saved leaves them as they were.
   */
  lemma DiscardSyncsLegacyExactlyWhen(s: Store, ops: seq<Op>, k: nat, w: nat)
    requires Inv(s) && 0 < k <= |ops| && Opens(s, ops[0], w)
    requires w in At(s, ops, k).workflows && OpenDraft(At(s, ops, k).workflows[w], s.nextDefinition)
    ensures var v, ps, r := s.workflows[w], PatchesOn(ops[..k], w), Discard(At(s, ops, k).workflows[w]);
            && Head(v) >= 0 && r.Ok? && Head(r.value) == Head(v)
            && r.value.definitions[Head(v)] == v.definitions[Head(v)]
            && (LegacyInSync(r.value) <==>
                  if ps == [] then LegacyInSync(v)
                  else OverlayAll(Origin(s, ops[0], w), ps) == v.definitions[Head(v)].content)
  {
    HistoryAlways(s, ops, k);
    DraftIsOverlay(s, ops, k, w);
    DiscardShape(At(s, ops, k).workflows[w]);
  }

  lemma {:induction false} SavedOnce(s: Store, ops: seq<Op>, k: nat, w: nat)
    requires 0 < k <= |ops| && SavesTo(ops[0], w)
    ensures PatchesOn(ops[..k], w) != []
  {
    assert ops[..k][..k - 1] == ops[..k - 1] && ops[..k][k - 1] == ops[k - 1];
    if k > 1 {
      SavedOnce(s, ops, k - 1, w);
    }
  }

  /**
   Publishing a draft, after whatever history since it was opened, leaves the unversioned columns in sync exactly
   when the draft was saved at least once or they held an empty post-call schema when it was opened by a revert.
   */
  lemma PublishSyncsAfterHistory(s: Store, ops: seq<Op>, k: nat, w: nat)
    requires Inv(s) && 0 < k <= |ops| && Opens(s, ops[0], w)
    requires w in At(s, ops, k).workflows && OpenDraft(At(s, ops, k).workflows[w], s.nextDefinition)
    ensures var r := Publish(At(s, ops, k).workflows[w]);
            && r.Ok? && Head(r.value) >= 0
            && (LegacyInSync(r.value)
                <==> PatchesOn(ops[..k], w) != [] || s.workflows[w].legacy.schema == EMPTY_LIST)
  {
    HistoryAlways(s, ops, k);
    DraftIsOverlay(s, ops, k, w);
    PublishSyncsLegacyExactlyWhen(At(s, ops, k).workflows[w], At(s, ops, k).nextDefinition);
    if SavesTo(ops[0], w) {
      SavedOnce(s, ops, k, w);
    }
  }

  // ---------------------------------------------------------------------------
  // Concrete histories
  // ---------------------------------------------------------------------------

  const WITH_SCHEMA: Workflow := Created(1, Str("v1"), List([Str("name")]))

  /** Reverting to version 1 and publishing loses its post-call schema. */
  lemma RevertLosesSchema()
    ensures var t := Revert(WITH_SCHEMA, 2, 1);
            && t.Ok? && Publish(t.value).Ok?
            && |Publish(t.value).value.definitions| == 2
            && Publish(t.value).value.definitions[1].content == Snapshot(Str("v1"), EMPTY_DICT, EMPTY_DICT, EMPTY_LIST)
            && WITH_SCHEMA.definitions[0].content.schema == List([Str("name")])
  {
    CreatedKeepsHistory(1, Str("v1"), List([Str("name")]));
    RevertKeepsHistory(WITH_SCHEMA, 2, 1);
    PublishShape(Revert(WITH_SCHEMA, 2, 1).value);
  }

  /** Saving a change and discarding it leaves the change in the unversioned columns. */
  lemma DiscardLeavesDraftBehind()
    ensures var saved := Save(WITH_SCHEMA, 2, Patch(Some(Str("v2")), None, None, None));
            && Discard(saved).Ok? && Discard(saved).value.definitions == WITH_SCHEMA.definitions
            && Discard(saved).value.legacy.json == Str("v2") && WITH_SCHEMA.definitions[0].content.json == Str("v1")
  {
    CreatedKeepsHistory(1, Str("v1"), List([Str("name")]));
    SaveOpens(WITH_SCHEMA, 2, Patch(Some(Str("v2")), None, None, None));
    SaveKeepsHistory(WITH_SCHEMA, 2, Patch(Some(Str("v2")), None, None, None));
    DiscardShape(Save(WITH_SCHEMA, 2, Patch(Some(Str("v2")), None, None, None)));
  }

  // ---------------------------------------------------------------------------
  // The client
  // ---------------------------------------------------------------------------

  class WorkflowClient {
    var workflows: map<nat, Workflow>
    var runs: map<nat, Run>
    var nextWorkflow: nat
    var nextDefinition: nat
    var nextRun: nat

    ghost function State(): Store
      reads this
    {
      Store(workflows, runs, nextWorkflow, nextDefinition, nextRun)
    }

    constructor ()
      ensures State() == EMPTY_STORE && Inv(State())
    {
      workflows, runs, nextWorkflow, nextDefinition, nextRun := map[], map[], 1, 1, 1;
    }

    /** `_next_version_number`: one above the largest stored number, or 1. */
    static method NextVersionNumber(ds: seq<Definition>) returns (n: nat)
      ensures n == MaxVersion(ds) + 1
    {
      var currentMax := 0;
      for i := 0 to |ds|
        invariant currentMax == MaxVersion(ds[..i])
      {
        assert ds[..i + 1][..i] == ds[..i];
        if ds[i].version > currentMax {
          currentMax := ds[i].version;
        }
      }
      assert ds[..|ds|] == ds;
      n := currentMax + 1;
    }

    method CreateWorkflow(json: Json, schema: Json) returns (id: nat)
      modifies this
      ensures State() == Step(old(State()), OpCreate(json, schema)) && id == old(nextWorkflow)
    {
      id := nextWorkflow;
      var stored := if Truthy(schema) then schema else EMPTY_LIST;
      var content := Snapshot(json, EMPTY_DICT, EMPTY_DICT, stored);
      var definition := Definition(nextDefinition, 1, Published, true, content);
      workflows := workflows[id := Workflow([definition], Some(definition.id), content)];
      nextWorkflow, nextDefinition := nextWorkflow + 1, nextDefinition + 1;
    }

    /** Edits the draft in place, or creates one on top of the published definition. */
    method SaveDraft(w: nat, p: Patch) returns (r: Result<Definition, Error>)
      modifies this
      ensures State() == Step(old(State()), OpSave(w, p))
      ensures r.Ok? <==> w in old(workflows)
      ensures r.Ok? ==> r.value in workflows[w].definitions && r.value.status == Draft
    {
      if w !in workflows { return Err(NotFound); }
      var row := workflows[w];
      var saved, draft, isNew := SavedRow(row, nextDefinition, p);
      workflows := workflows[w := saved];
      if isNew {
        nextDefinition := nextDefinition + 1;
      }
      r := Ok(draft);
    }

    /** The row after the save and its draft, which may have been opened by it. */
    static method SavedRow(row: Workflow, next: nat, p: Patch)
      returns (saved: Workflow, draft: Definition, isNew: bool)
      ensures saved == Save(row, next, p)
      ensures draft in saved.definitions && draft.status == Draft
      ensures isNew <==> |saved.definitions| > |row.definitions|
    {
      var ds := row.definitions;
      var i := FirstWith(ds, Draft);
      isNew := i.None?;
      if i.Some? {
        var content := ds[i.value].content;
        if p.json.Some? { content := content.(json := p.json.value); }
        if p.configurations.Some? { content := content.(configurations := p.configurations.value); }
        if p.variables.Some? { content := content.(variables := p.variables.value); }
        if p.schema.Some? { content := content.(schema := p.schema.value); }
        draft := ds[i.value].(content := content);
        ds := ds[i.value := draft];
        assert draft == ds[i.value];
      } else {
        var published := FirstWith(ds, Published);
        var base := if published.Some? then ds[published.value].content else BLANK;
        var version := NextVersionNumber(ds);
        draft := Definition(next, version, Draft, false, Overlay(base, p));
        ds := ds + [draft];
        assert draft == ds[|ds| - 1];
      }
      saved := row.(definitions := ds, legacy := draft.content);
    }

    /** Archives what is published and promotes the draft. */
    method PublishDraft(w: nat) returns (r: Result<nat, Error>)
      modifies this
      ensures State() == Step(old(State()), OpPublish(w))
      ensures r.Ok? <==> w in old(workflows) && Publish(old(workflows)[w]).Ok?
      ensures r.Ok? ==> workflows[w].released == Some(r.value)
    {
      if w !in workflows { return Err(NoDraft); }
      var row := workflows[w];
      var ds := row.definitions;
      var i := FirstWith(ds, Draft);
      if i.None? { return Err(NoDraft); }
      var draft := ds[i.value].(status := Published, isCurrent := true);
      for k := 0 to |ds|
        invariant |ds| == |row.definitions|
        invariant forall j :: 0 <= j < k ==> ds[j] == Archive(row.definitions)[j]
        invariant forall j :: k <= j < |ds| ==> ds[j] == row.definitions[j]
      {
        if ds[k].status == Published {
          ds := ds[k := ds[k].(status := Archived, isCurrent := false)];
        }
      }
      assert ds == Archive(row.definitions);
      ds := ds[i.value := draft];
      var legacy := row.legacy.(json := draft.content.json, configurations := draft.content.configurations,
                                variables := draft.content.variables);
      workflows := workflows[w := Workflow(ds, Some(draft.id), legacy)];
      r := Ok(draft.id);
    }

    /** Deletes the draft; the runs bound to it are kept, bound to no definition. */
    method DiscardDraft(w: nat) returns (r: Result<(), Error>)
      modifies this
      ensures State() == Step(old(State()), OpDiscard(w))
      ensures r.Ok? <==> w in old(workflows) && Discard(old(workflows)[w]).Ok?
    {
      if w !in workflows { return Err(NoDraft); }
      var row := workflows[w];
      var i := FirstWith(row.definitions, Draft);
      if i.None? { return Err(NoDraft); }
      runs := Unbound(runs, row.definitions[i.value].id);
      workflows := workflows[w := row.(definitions := row.definitions[..i.value] + row.definitions[i.value + 1..])];
      r := Ok(());
    }

    method RevertToVersion(w: nat, source: nat) returns (r: Result<nat, Error>)
      modifies this
      ensures State() == Step(old(State()), OpRevert(w, source))
      ensures r.Ok? <==> w in old(workflows) && Revert(old(workflows)[w], old(nextDefinition), source).Ok?
      ensures w in old(workflows) && r.Err? ==> Revert(old(workflows)[w], old(nextDefinition), source) == Err(r.error)
    {
      if w !in workflows { return Err(VersionNotFound); }
      var row := workflows[w];
      if FirstWith(row.definitions, Draft).Some? { return Err(DraftExists); }
      var i := FirstId(row.definitions, source);
      if i.None? { return Err(VersionNotFound); }
      var version := NextVersionNumber(row.definitions);
      var from := row.definitions[i.value].content;
      var content := Snapshot(from.json, from.configurations, from.variables, EMPTY_LIST);
      var draft := Definition(nextDefinition, version, Draft, false, content);
      assert draft == NewDraft(row.definitions, nextDefinition, from.(schema := EMPTY_LIST));
      row := row.(definitions := row.definitions + [draft]);
      assert Revert(workflows[w], nextDefinition, source) == Ok(row);
      workflows := workflows[w := row];
      r := Ok(nextDefinition);
      nextDefinition := nextDefinition + 1;
    }

    /** Creates a run, bound to the draft if asked for and there is one, else to the released definition. */
    method CreateRun(w: nat, useDraft: bool) returns (r: Result<nat, Error>)
      modifies this
      ensures State() == Step(old(State()), OpRun(w, useDraft))
      ensures r == if w in old(workflows) then Ok(old(nextRun)) else Err(NotFound)
    {
      if w !in workflows { return Err(NotFound); }
      assert workflows[w := workflows[w]] == workflows;
      runs := runs[nextRun := Run(w, Target(workflows[w], useDraft))];
      r := Ok(nextRun);
      nextRun := nextRun + 1;
    }

    /** `update_workflow`, reduced to its versioned fields. */
    method UpdateWorkflow(w: nat, p: Patch) returns (r: Result<(), Error>)
      modifies this
      ensures State() == Step(old(State()), OpUpdate(w, p))
      ensures r.Ok? <==> w in old(workflows)
    {
      if w !in workflows { return Err(NotFound); }
      if AnyField(p) {
        var saved := SaveDraft(w, p);
      } else {
        assert workflows[w := workflows[w]] == workflows;
      }
      r := Ok(());
    }
  }
}
