/**
 What the four columns of a draft hold after any history: each the value of the last save that gives it, and the
 exact conditions under which saves, updates and reverts open a draft.
 */
module DraftColumns {
  import opened Common
  import opened WorkflowVersions

  datatype Column = JsonColumn | ConfigurationsColumn | VariablesColumn | SchemaColumn

  function Stored(s: Snapshot, c: Column): Json {
    match c
    case JsonColumn => s.json
    case ConfigurationsColumn => s.configurations
    case VariablesColumn => s.variables
    case SchemaColumn => s.schema
  }

  function Given(p: Patch, c: Column): Option<Json> {
    match c
    case JsonColumn => p.json
    case ConfigurationsColumn => p.configurations
    case VariablesColumn => p.variables
    case SchemaColumn => p.schema
  }

  lemma SameColumns(a: Snapshot, b: Snapshot)
    requires forall c :: Stored(a, c) == Stored(b, c)
    ensures a == b
  {
    assert Stored(a, JsonColumn) == Stored(b, JsonColumn);
    assert Stored(a, ConfigurationsColumn) == Stored(b, ConfigurationsColumn);
    assert Stored(a, VariablesColumn) == Stored(b, VariablesColumn);
    assert Stored(a, SchemaColumn) == Stored(b, SchemaColumn);
  }

  /** The patch a save or an update of workflow `w` carries, whether or not it gives anything. */
  function Carried(op: Op, w: nat): Option<Patch> {
    match op
    case OpSave(v, p) => if v == w then Some(p) else None
    case OpUpdate(v, p) => if v == w then Some(p) else None
    case _ => None
  }

  /** The value the last of the first `k` operations on `w` that gives the column gave it, or else `start`. */
  function LastGiven(start: Json, ops: seq<Op>, k: nat, w: nat, c: Column): Json
    requires k <= |ops|
  {
    if k == 0 then start
    else
      var given := GivenBy(ops[k - 1], w, c);
      if given.Some? then given.value else LastGiven(start, ops, k - 1, w, c)
  }

  lemma OverlayColumn(s: Snapshot, p: Patch, c: Column)
    ensures Stored(Overlay(s, p), c) == if Given(p, c).Some? then Given(p, c).value else Stored(s, c)
  {
  }

  /** What the operation gives the column. */
  function GivenBy(op: Op, w: nat, c: Column): Option<Json> {
    var p := Carried(op, w);
    if p.Some? then Given(p.value, c) else None
  }

  /** An update that gives nothing saves nothing, and would have changed nothing. */
  lemma GivenIsSaved(op: Op, w: nat, c: Column)
    ensures GivenBy(op, w, c) == if PatchOn(op, w).Some? then Given(PatchOn(op, w).value, c) else None
  {
  }

  lemma PatchesNext(ops: seq<Op>, k: nat, w: nat)
    requires 0 < k <= |ops|
    ensures var p := PatchOn(ops[k - 1], w);
            PatchesOn(ops[..k], w) == PatchesOn(ops[..k - 1], w) + if p.Some? then [p.value] else []
  {
    assert ops[..k][..k - 1] == ops[..k - 1] && ops[..k][k - 1] == ops[k - 1];
  }

  lemma {:induction false} OverlayAllColumn(s: Snapshot, ops: seq<Op>, k: nat, w: nat, c: Column)
    requires k <= |ops|
    ensures Stored(OverlayAll(s, PatchesOn(ops[..k], w)), c) == LastGiven(Stored(s, c), ops, k, w, c)
  {
    if k == 0 {
      assert ops[..0] == [];
    } else {
      var before, p := PatchesOn(ops[..k - 1], w), PatchOn(ops[k - 1], w);
      OverlayAllColumn(s, ops, k - 1, w, c);
      PatchesNext(ops, k, w);
      OverlayNext(s, before, p);
      GivenIsSaved(ops[k - 1], w, c);
      if p.Some? {
        OverlayColumn(OverlayAll(s, before), p.value, c);
      }
    }
  }

  /** What a draft opened by a save or an update starts from, column by column: the published definition. */
  lemma SaveStartsFromPublished(s: Store, op: Op, w: nat)
    requires Inv(s) && Opens(s, op, w) && !op.OpRevert?
    ensures Head(s.workflows[w]) >= 0 && s.workflows[w].definitions[Head(s.workflows[w])].status == Published
    ensures Origin(s, op, w) == s.workflows[w].definitions[Head(s.workflows[w])].content
  {
    HistoryFacts(s.workflows[w]);
  }

  /** A draft opened by a revert starts from the older version, its post-call schema emptied. */
  lemma RevertStartsFromVersion(s: Store, op: Op, w: nat, i: nat, c: Column)
    requires Inv(s) && Opens(s, op, w) && op.OpRevert?
    requires i < |s.workflows[w].definitions| && s.workflows[w].definitions[i].id == op.source
    ensures Stored(Origin(s, op, w), c)
            == if c.SchemaColumn? then List([]) else Stored(s.workflows[w].definitions[i].content, c)
  {
    FoundAt(s.workflows[w], s.nextDefinition, i);
  }

  /**
   While a draft stays open, whatever else happens: each of its columns holds what the last save or update of the
   workflow gave it, else what the draft started from; and so do the unversioned columns once it was saved.
   */
  lemma DraftHoldsLastGiven(s: Store, ops: seq<Op>, k: nat, w: nat, c: Column)
    requires Inv(s) && 0 < k <= |ops| && Opens(s, ops[0], w)
    requires w in At(s, ops, k).workflows && OpenDraft(At(s, ops, k).workflows[w], s.nextDefinition)
    ensures var t, last := At(s, ops, k).workflows[w], LastGiven(Stored(Origin(s, ops[0], w), c), ops, k, w, c);
            && t.definitions != [] && Stored(t.definitions[|t.definitions| - 1].content, c) == last
            && (SavedBefore(ops, k, w) ==> Stored(t.legacy, c) == last)
            && (!SavedBefore(ops, k, w) ==> Stored(t.legacy, c) == Stored(s.workflows[w].legacy, c))
  {
    DraftIsOverlay(s, ops, k, w);
    OverlayAllColumn(Origin(s, ops[0], w), ops, k, w, c);
    SavedExactlyWhen(ops, k, w);
  }

  /** One of the first `k` operations saved to the workflow: a save, or an update that gives some column. */
  predicate SavedBefore(ops: seq<Op>, k: nat, w: nat)
    requires k <= |ops|
  {
    exists i: nat :: i < k && Saves(ops[i], w)
  }

  predicate Saves(op: Op, w: nat) {
    (op.OpSave? && op.w == w) || (op.OpUpdate? && op.w == w && exists c :: Given(op.patch, c).Some?)
  }

  lemma SavesExactlyWhen(op: Op, w: nat)
    ensures Saves(op, w) <==> PatchOn(op, w).Some?
  {
    if op.OpUpdate? && AnyField(op.patch) {
      var p := op.patch;
      var c := if p.json.Some? then JsonColumn else if p.configurations.Some? then ConfigurationsColumn
               else if p.variables.Some? then VariablesColumn else SchemaColumn;
      assert Given(p, c).Some?;
    }
  }

  lemma {:induction false} SavedExactlyWhen(ops: seq<Op>, k: nat, w: nat)
    requires k <= |ops|
    ensures SavedBefore(ops, k, w) <==> PatchesOn(ops[..k], w) != []
  {
    if k > 0 {
      SavedExactlyWhen(ops, k - 1, w);
      SavesExactlyWhen(ops[k - 1], w);
      assert ops[..k][..k - 1] == ops[..k - 1] && ops[..k][k - 1] == ops[k - 1];
      assert SavedBefore(ops, k, w) <==> SavedBefore(ops, k - 1, w) || Saves(ops[k - 1], w);
    }
  }

  /**
   A workflow without a draft gets one exactly by a save, by an update that gives some column, or by a revert to a
   version it has.
   */
  lemma DraftOpensExactlyWhen(s: Store, op: Op, w: nat)
    requires Inv(s) && w in s.workflows && !HasDraft(s.workflows[w])
    ensures w in Step(s, op).workflows
    ensures HasDraft(Step(s, op).workflows[w]) <==>
            || Saves(op, w)
            || (op.OpRevert? && op.w == w
                && exists i: nat :: i < |s.workflows[w].definitions| && s.workflows[w].definitions[i].id == op.source)
  {
    var v := s.workflows[w];
    StepAt(s, op, w);
    SavesExactlyWhen(op, w);
    Refusals(v, s.nextDefinition, if op.OpRevert? then op.source else 0);
    if op.OpRevert? && op.w == w && Revert(v, s.nextDefinition, op.source).Ok? {
      RevertOpens(v, s.nextDefinition, op.source);
      var i := FirstId(v.definitions, op.source).value;
      assert v.definitions[i].id == op.source;
    }
    if PatchOn(op, w).Some? {
      SaveOpens(v, s.nextDefinition, PatchOn(op, w).value);
    }
  }

  /** A new workflow shows what it was created with in its only version and in the unversioned columns. */
  lemma CreatedShows(s: Store, json: Json, schema: Json)
    requires Inv(s)
    ensures s.nextWorkflow in Step(s, OpCreate(json, schema)).workflows
    ensures var t := Step(s, OpCreate(json, schema)).workflows[s.nextWorkflow];
            && |t.definitions| == 1 && t.definitions[0].version == 1 && t.definitions[0].status == Published
            && t.definitions[0].id == s.nextDefinition && t.released == Some(s.nextDefinition)
            && t.definitions[0].content.json == json == t.legacy.json
            && t.definitions[0].content.configurations == Obj(map[]) == t.legacy.configurations
            && t.definitions[0].content.variables == Obj(map[]) == t.legacy.variables
            && t.definitions[0].content.schema == t.legacy.schema
            && t.legacy.schema == if Truthy(schema) then schema else List([])
  {
  }

  /** Publishing keeps every column of the draft, and writes all but the schema to the unversioned columns. */
  lemma PublishedColumns(w: Workflow, c: Column)
    requires History(w) && HasDraft(w)
    ensures var r, last := Publish(w), |w.definitions| - 1;
            && r.Ok? && |r.value.definitions| == last + 1
            && Stored(r.value.definitions[last].content, c) == Stored(w.definitions[last].content, c)
            && Stored(r.value.legacy, c)
               == if c.SchemaColumn? then Stored(w.legacy, c) else Stored(w.definitions[last].content, c)
  {
    HistoryFacts(w);
    PublishShape(w);
  }

  /** Publishing and discarding need a draft; a revert needs that there is none, and the version asked for. */
  lemma RefusedExactlyWhen(w: Workflow, id: nat, source: nat)
    ensures var open := exists d :: d in w.definitions && d.status == Draft;
            && (if open then Publish(w).Ok? else Publish(w) == Err(NoDraft))
            && (if open then Discard(w).Ok? else Discard(w) == Err(NoDraft))
            && (if open then Revert(w, id, source) == Err(DraftExists)
                else if exists d :: d in w.definitions && d.id == source then Revert(w, id, source).Ok?
                else Revert(w, id, source) == Err(VersionNotFound))
  {
    var draft, version := FirstWith(w.definitions, Draft), FirstId(w.definitions, source);
    assert draft.Some? ==> w.definitions[draft.value] in w.definitions;
    assert version.Some? ==> w.definitions[version.value] in w.definitions;
  }

  /** The definition a new run is bound to, for any columns: the draft on request, the released one, a current one. */
  lemma RunBindsTo(w: Workflow, useDraft: bool)
    ensures var t, open := Target(w, useDraft), exists d :: d in w.definitions && d.status == Draft;
            && (useDraft && open ==> t.Some? && exists d :: d in w.definitions && d.status == Draft && d.id == t.value)
            && (!(useDraft && open) && w.released.Some? ==> t == w.released)
            && (!(useDraft && open) && w.released == None ==>
                  (if exists d :: d in w.definitions && d.isCurrent
                   then t.Some? && exists d :: d in w.definitions && d.isCurrent && d.id == t.value
                   else t == None))
  {
    var draft := FirstWith(w.definitions, Draft);
    assert draft.Some? ==> w.definitions[draft.value] in w.definitions;
    CurrentIsMarked(w.definitions);
  }

  lemma {:induction false} CurrentIsMarked(ds: seq<Definition>)
    ensures if exists d :: d in ds && d.isCurrent
            then CurrentId(ds).Some? && exists d :: d in ds && d.isCurrent && d.id == CurrentId(ds).value
            else CurrentId(ds) == None
  {
    if ds != [] {
      assert ds == [ds[0]] + ds[1..];
      if !ds[0].isCurrent {
        CurrentIsMarked(ds[1..]);
      } else {
        assert ds[0] in ds;
      }
    }
  }
}
