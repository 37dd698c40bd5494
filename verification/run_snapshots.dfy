/**
 The configuration snapshots that workflow runs read: a run is bound to a definition when it is created and reads
 that definition's configurations ever after, through saves, publishing, discards and reverts.
 */
module RunSnapshots {
  import opened Common
  import opened WorkflowVersions

  /** A falsy configuration is read as an empty dictionary. */
  function Shown(configurations: Json): Json {
    if Truthy(configurations) then configurations else EMPTY_DICT
  }

  /** The definition of workflow `w` with the given key. */
  function DefinitionOf(s: Store, w: nat, id: nat): Option<Definition> {
    if w !in s.workflows then None
    else
      match FirstId(s.workflows[w].definitions, id)
      case None => None
      case Some(i) => Some(s.workflows[w].definitions[i])
  }

  function BoundTo(s: Store, r: nat): Option<Definition> {
    if r in s.runs && s.runs[r].definition.Some? then DefinitionOf(s, s.runs[r].workflow, s.runs[r].definition.value)
    else None
  }

  /** What `get_workflow_run_configurations` gives for run `r`. */
  function RunConfigurations(s: Store, r: nat): Json {
    var d := BoundTo(s, r);
    if d.Some? then Shown(d.value.content.configurations) else EMPTY_DICT
  }

  /** A run reads the configurations of the definition it is bound to, an empty dictionary if there are none. */
  lemma ReadsDefinition(s: Store, r: nat)
    ensures r !in s.runs || s.runs[r].definition.None? ==> RunConfigurations(s, r) == Obj(map[])
    ensures r in s.runs && s.runs[r].definition.Some? ==>
              var w, id := s.runs[r].workflow, s.runs[r].definition.value;
              if w in s.workflows && exists i :: 0 <= i < |s.workflows[w].definitions|
                                                 && s.workflows[w].definitions[i].id == id
              then exists i :: 0 <= i < |s.workflows[w].definitions| && s.workflows[w].definitions[i].id == id
                               && var c := s.workflows[w].definitions[i].content.configurations;
                                  RunConfigurations(s, r) == if Truthy(c) then c else Obj(map[])
              else RunConfigurations(s, r) == Obj(map[])
  {
  }

  // ---------------------------------------------------------------------------
  // References between runs and definitions
  // ---------------------------------------------------------------------------

  /** Run `r` has an issued key and refers to a stored definition of its workflow, or to none. */
  predicate RunBound(s: Store, r: nat)
    requires r in s.runs
  {
    r < s.nextRun && s.runs[r].workflow in s.workflows && (s.runs[r].definition.Some? ==> BoundTo(s, r).Some?)
  }

  /** Definition keys are unique over all workflows, and a run refers to a stored definition of its workflow. */
  ghost predicate Bound(s: Store) {
    && Inv(s)
    && (forall v, w, id: nat :: DefinitionOf(s, v, id).Some? && DefinitionOf(s, w, id).Some? ==> v == w)
    && (forall r :: r in s.runs ==> RunBound(s, r))
  }

  /** Positions keep their keys; a definition is only ever appended under a fresh key or dropped as a draft. */
  ghost predicate KeysKept(before: seq<Definition>, after: seq<Definition>, next: nat) {
    && |before| - 1 <= |after| <= |before| + 1
    && (forall i :: 0 <= i < |before| && i < |after| ==> after[i].id == before[i].id)
    && (|after| > |before| ==> after[|before|].id == next)
  }

  lemma KeysAfter(before: seq<Definition>, after: seq<Definition>, next: nat, id: nat)
    requires KeysKept(before, after, next)
    ensures FirstId(after, id).Some? ==> FirstId(before, id).Some? || (id == next && |after| > |before|)
    ensures FirstId(before, id).Some? ==>
              FirstId(after, id).Some? || (|after| < |before| && before[|before| - 1].id == id)
  {
    var a, b := FirstId(after, id), FirstId(before, id);
    if a.Some? && a.value < |before| {
      assert before[a.value].id == id;
    }
    if b.Some? && b.value < |after| {
      assert after[b.value].id == id;
    }
  }

  // ---------------------------------------------------------------------------
  // One operation on one definition
  // ---------------------------------------------------------------------------

  /** What one operation on its workflow makes of a definition. */
  function Changed(d: Definition, op: Op): Option<Definition> {
    match op
    case OpSave(_, p) => Some(if d.status == Draft then d.(content := Overlay(d.content, p)) else d)
    case OpUpdate(_, p) => Some(if AnyField(p) && d.status == Draft then d.(content := Overlay(d.content, p)) else d)
    case OpDiscard(_) => if d.status == Draft then None else Some(d)
    case OpPublish(_) => Some(if d.status == Draft then d.(status := Published) else d)
    case _ => Some(d)
  }

  /** The two agree on what a run reads and on whether that can still change. */
  predicate SameReading(a: Definition, b: Definition) {
    a.id == b.id && a.content == b.content && (a.status == Draft <==> b.status == Draft)
  }

  /** What became of definition `i` of `w` in `t`. */
  predicate Follows(w: Workflow, t: Workflow, op: Op, i: nat)
    requires i < |w.definitions|
  {
    var c := Changed(w.definitions[i], op);
    (i < |t.definitions| <==> c.Some?) && (i < |t.definitions| ==> SameReading(t.definitions[i], c.value))
  }

  lemma SaveFollows(w: Workflow, next: nat, p: Patch, op: Op, i: nat)
    requires History(w) && i < |w.definitions|
    requires op.OpSave? || (op.OpUpdate? && AnyField(p))
    requires op.patch == p
    ensures Follows(w, Save(w, next, p), op, i)
  {
    SaveAt(w, next, p, i);
  }

  lemma PublishFollows(w: Workflow, op: Op, i: nat)
    requires History(w) && HasDraft(w) && Publish(w).Ok? && i < |w.definitions| && op.OpPublish?
    ensures Follows(w, Publish(w).value, op, i)
  {
    PublishShape(w);
    assert w.definitions[i].status == Draft <==> i == |w.definitions| - 1;
  }

  lemma DiscardFollows(w: Workflow, op: Op, i: nat)
    requires History(w) && HasDraft(w) && Discard(w).Ok? && i < |w.definitions| && op.OpDiscard?
    ensures Follows(w, Discard(w).value, op, i)
  {
    DiscardShape(w);
    assert w.definitions[i].status == Draft <==> i == |w.definitions| - 1;
  }

  lemma RevertFollows(w: Workflow, next: nat, op: Op, i: nat)
    requires i < |w.definitions| && op.OpRevert? && Revert(w, next, op.source).Ok?
    ensures Follows(w, Revert(w, next, op.source).value, op, i)
  {
  }

  /** An operation that is refused, or touches no definition, leaves them all. */
  lemma UntouchedFollows(w: Workflow, op: Op, i: nat)
    requires History(w) && i < |w.definitions|
    requires match op
             case OpSave(_, _) => false
             case OpUpdate(_, p) => !AnyField(p)
             case OpPublish(_) => !HasDraft(w)
             case OpDiscard(_) => !HasDraft(w)
             case _ => true
    ensures Follows(w, w, op, i)
  {
  }

  /** The definition at a position after the operation. */
  lemma EffectAt(w: Workflow, next: nat, op: Op, i: nat)
    requires History(w) && i < |w.definitions|
    ensures Follows(w, Effect(w, next, op), op, i)
  {
    match op
    case OpSave(_, p) => SaveFollows(w, next, p, op, i);
    case OpUpdate(_, p) => if AnyField(p) { SaveFollows(w, next, p, op, i); } else { UntouchedFollows(w, op, i); }
    case OpPublish(v) =>
      Refusals(w, next, v);
      if HasDraft(w) { PublishFollows(w, op, i); } else { UntouchedFollows(w, op, i); }
    case OpDiscard(v) =>
      Refusals(w, next, v);
      if HasDraft(w) { DiscardFollows(w, op, i); } else { UntouchedFollows(w, op, i); }
    case OpRevert(_, source) =>
      if Revert(w, next, source).Ok? { RevertFollows(w, next, op, i); } else { UntouchedFollows(w, op, i); }
    case OpCreate(_, _) => UntouchedFollows(w, op, i);
    case OpRun(_, _) => UntouchedFollows(w, op, i);
  }

  /** At most one definition more or less, a new one under the next key. */
  predicate Sized(w: Workflow, next: nat, t: Workflow) {
    var before, after := |w.definitions|, |t.definitions|;
    before - 1 <= after <= before + 1 && (after > before ==> t.definitions[before].id == next)
  }

  lemma SaveSized(w: Workflow, next: nat, p: Patch)
    requires History(w)
    ensures Sized(w, next, Save(w, next, p)) && |Save(w, next, p).definitions| >= |w.definitions|
  {
    SaveShape(w, next, p);
  }

  lemma PublishSized(w: Workflow, next: nat)
    requires Publish(w).Ok?
    ensures Sized(w, next, Publish(w).value) && |Publish(w).value.definitions| == |w.definitions|
  {
  }

  lemma DiscardSized(w: Workflow, next: nat)
    requires Discard(w).Ok?
    ensures Sized(w, next, Discard(w).value)
  {
  }

  lemma RevertSized(w: Workflow, next: nat, source: nat)
    requires Revert(w, next, source).Ok?
    ensures Sized(w, next, Revert(w, next, source).value)
    ensures |Revert(w, next, source).value.definitions| > |w.definitions|
  {
  }

  lemma EffectSize(w: Workflow, next: nat, op: Op)
    requires History(w)
    ensures Sized(w, next, Effect(w, next, op))
  {
    match op
    case OpSave(_, p) => SaveSized(w, next, p);
    case OpUpdate(_, p) => if AnyField(p) { SaveSized(w, next, p); }
    case OpPublish(_) => if Publish(w).Ok? { PublishSized(w, next); }
    case OpDiscard(_) => if Discard(w).Ok? { DiscardSized(w, next); }
    case OpRevert(_, source) => if Revert(w, next, source).Ok? { RevertSized(w, next, source); }
    case OpCreate(_, _) =>
    case OpRun(_, _) =>
  }

  lemma EffectKeepsKeys(w: Workflow, next: nat, op: Op)
    requires History(w) && IdsBelow(w, next)
    ensures KeysKept(w.definitions, Effect(w, next, op).definitions, next)
  {
    EffectSize(w, next, op);
    forall i | 0 <= i < |w.definitions| && i < |Effect(w, next, op).definitions|
      ensures Effect(w, next, op).definitions[i].id == w.definitions[i].id
    {
      EffectAt(w, next, op, i);
    }
  }

  // ---------------------------------------------------------------------------
  // One operation on the store
  // ---------------------------------------------------------------------------

  /** The operation acts on the existing workflow `w`. */
  predicate Touches(s: Store, op: Op, w: nat) {
    !op.OpCreate? && op.w == w && w in s.workflows
  }

  lemma StoredBelow(s: Store, w: nat, id: nat)
    requires Inv(s) && DefinitionOf(s, w, id).Some?
    ensures id < s.nextDefinition
  {
  }

  /** An operation gives no workflow a key but a fresh one. */
  lemma StepKeys(s: Store, op: Op, w: nat, id: nat)
    requires Inv(s) && DefinitionOf(Step(s, op), w, id).Some?
    ensures DefinitionOf(s, w, id).Some?
            || (id == s.nextDefinition && (if op.OpCreate? then w == s.nextWorkflow else op.w == w))
  {
    if Touches(s, op, w) {
      EffectKeepsKeys(s.workflows[w], s.nextDefinition, op);
      KeysAfter(s.workflows[w].definitions, Step(s, op).workflows[w].definitions, s.nextDefinition, id);
    }
  }

  /** What a definition becomes in the store, found by its key. */
  lemma StepDefinition(s: Store, op: Op, w: nat, id: nat)
    requires Inv(s) && DefinitionOf(s, w, id).Some?
    ensures var d, e := DefinitionOf(s, w, id).value, DefinitionOf(Step(s, op), w, id);
            var c := if Touches(s, op, w) then Changed(d, op) else Some(d);
            e.Some? == c.Some? && (e.Some? ==> SameReading(e.value, c.value))
  {
    if Touches(s, op, w) {
      var v, t := s.workflows[w], Step(s, op).workflows[w];
      var i := FirstId(v.definitions, id).value;
      EffectAt(v, s.nextDefinition, op, i);
      StepKeepsInv(s, op);
      EffectKeepsKeys(v, s.nextDefinition, op);
      KeysAfter(v.definitions, t.definitions, s.nextDefinition, id);
      if i < |t.definitions| {
        FoundAt(t, Step(s, op).nextDefinition, i);
      } else {
        NotFoundShorter(v, s.nextDefinition, t.definitions, id);
      }
    }
  }

  /** A dropped last key is not found any more. */
  lemma NotFoundShorter(v: Workflow, next: nat, after: seq<Definition>, id: nat)
    requires IdsBelow(v, next) && KeysKept(v.definitions, after, next) && FirstId(v.definitions, id).Some?
    requires FirstId(v.definitions, id).value >= |after|
    ensures FirstId(after, id).None?
  {
  }

  lemma DraftKey(w: Workflow, next: nat, id: nat)
    requires History(w) && IdsBelow(w, next) && FirstId(w.definitions, id).Some?
    ensures w.definitions[FirstId(w.definitions, id).value].status == Draft
            <==> HasDraft(w) && w.definitions[|w.definitions| - 1].id == id
  {
    FoundAt(w, next, |w.definitions| - 1);
  }

  lemma DiscardRuns(runs: map<nat, Run>, next: nat, w: Workflow, v: nat)
    requires History(w)
    ensures RunsAfter(runs, next, w, OpDiscard(v))
            == if HasDraft(w) then Unbound(runs, w.definitions[|w.definitions| - 1].id) else runs
  {
    HistoryFacts(w);
  }

  /** The key of the draft of `w` is the definition of run `r` exactly when `r` is bound to that draft. */
  lemma RunOnDraft(s: Store, w: nat, r: nat)
    requires Bound(s) && r in s.runs && w in s.workflows && HasDraft(s.workflows[w])
    ensures s.runs[r].definition == Some(s.workflows[w].definitions[|s.workflows[w].definitions| - 1].id)
            <==> s.runs[r].workflow == w && BoundTo(s, r).Some? && BoundTo(s, r).value.status == Draft
  {
    var v, run := s.workflows[w], s.runs[r];
    var key := v.definitions[|v.definitions| - 1].id;
    FoundAt(v, s.nextDefinition, |v.definitions| - 1);
    assert DefinitionOf(s, w, key).Some?;
    if run.definition.Some? {
      assert DefinitionOf(s, run.workflow, run.definition.value).Some?;
      if run.workflow == w {
        DraftKey(v, s.nextDefinition, run.definition.value);
      }
    }
  }

  lemma NoDraftBound(s: Store, r: nat)
    requires Bound(s) && r in s.runs && BoundTo(s, r).Some? && !HasDraft(s.workflows[s.runs[r].workflow])
    ensures BoundTo(s, r).value.status != Draft
  {
    DraftKey(s.workflows[s.runs[r].workflow], s.nextDefinition, s.runs[r].definition.value);
  }

  /** The definition run `r` has after the operation: a draft that is discarded is lost. */
  function Rebound(s: Store, op: Op, r: nat): Option<nat>
    requires r in s.runs
  {
    if BoundTo(s, r).Some? && BoundTo(s, r).value.status == Draft && op.OpDiscard? && op.w == s.runs[r].workflow
    then None else s.runs[r].definition
  }

  lemma DiscardRun(s: Store, w: nat, r: nat)
    requires Bound(s) && r in s.runs && w in s.workflows
    ensures var runs := RunsAfter(s.runs, s.nextRun, s.workflows[w], OpDiscard(w));
            r in runs && runs[r] == s.runs[r].(definition := Rebound(s, OpDiscard(w), r))
  {
    DiscardRuns(s.runs, s.nextRun, s.workflows[w], w);
    if HasDraft(s.workflows[w]) {
      RunOnDraft(s, w, r);
    } else if BoundTo(s, r).Some? && s.runs[r].workflow == w {
      NoDraftBound(s, r);
    }
  }

  /** A run stays, keeps its workflow, and loses its definition exactly when that is a draft being discarded. */
  lemma StepRun(s: Store, op: Op, r: nat)
    requires Bound(s) && r in s.runs
    ensures r in Step(s, op).runs && Step(s, op).runs[r] == s.runs[r].(definition := Rebound(s, op, r))
  {
    if op.OpDiscard? && op.w in s.workflows {
      DiscardRun(s, op.w, r);
    } else if op.OpDiscard? {
      assert Step(s, op) == s;
    }
  }

  lemma StepBoundTo(s: Store, op: Op, r: nat)
    requires Bound(s) && r in s.runs
    ensures var d, e := BoundTo(s, r), BoundTo(Step(s, op), r);
            var c := if d.None? then None else if Touches(s, op, s.runs[r].workflow) then Changed(d.value, op) else d;
            e.Some? == c.Some? && (e.Some? ==> SameReading(e.value, c.value))
  {
    StepRun(s, op, r);
    if BoundTo(s, r).Some? {
      StepDefinition(s, op, s.runs[r].workflow, s.runs[r].definition.value);
    }
  }

  lemma TargetIs(w: Workflow, useDraft: bool)
    requires History(w)
    ensures Target(w, useDraft)
            == Some(w.definitions[if useDraft && HasDraft(w) then |w.definitions| - 1 else Head(w)].id)
  {
    HistoryFacts(w);
  }

  lemma NewRunBound(s: Store, w: nat, useDraft: bool)
    requires Inv(s) && w in s.workflows
    ensures var t, v := Step(s, OpRun(w, useDraft)), s.workflows[w];
            && t.workflows == s.workflows && s.nextRun in t.runs && t.runs[s.nextRun].workflow == w
            && BoundTo(t, s.nextRun)
               == Some(v.definitions[if useDraft && HasDraft(v) then |v.definitions| - 1 else Head(v)])
  {
    var v, t := s.workflows[w], Step(s, OpRun(w, useDraft));
    TargetIs(v, useDraft);
    FoundAt(v, s.nextDefinition, if useDraft && HasDraft(v) then |v.definitions| - 1 else Head(v));
    assert t.workflows == s.workflows;
    assert t.runs[s.nextRun] == Run(w, Target(v, useDraft));
  }

  lemma StepKeepsUnique(s: Store, op: Op, v: nat, w: nat, id: nat)
    requires Bound(s) && DefinitionOf(Step(s, op), v, id).Some? && DefinitionOf(Step(s, op), w, id).Some?
    ensures v == w
  {
    StepKeys(s, op, v, id);
    StepKeys(s, op, w, id);
    if DefinitionOf(s, v, id).Some? { StoredBelow(s, v, id); }
    if DefinitionOf(s, w, id).Some? { StoredBelow(s, w, id); }
  }

  lemma StepKeepsRunBound(s: Store, op: Op, r: nat)
    requires Bound(s) && r in Step(s, op).runs
    ensures RunBound(Step(s, op), r)
  {
    if r in s.runs {
      StepRun(s, op, r);
      StepBoundTo(s, op, r);
    } else {
      NewRunBound(s, op.w, op.useDraft);
    }
  }

  /** Every operation keeps keys unique and every run bound to a stored definition of its workflow, or to none. */
  lemma StepKeepsBound(s: Store, op: Op)
    requires Bound(s)
    ensures Bound(Step(s, op))
  {
    var t := Step(s, op);
    StepKeepsInv(s, op);
    forall v, w, id: nat | DefinitionOf(t, v, id).Some? && DefinitionOf(t, w, id).Some?
      ensures v == w
    {
      StepKeepsUnique(s, op, v, w, id);
    }
    forall r | r in t.runs
      ensures RunBound(t, r)
    {
      StepKeepsRunBound(s, op, r);
    }
  }

  lemma {:induction false} BoundAlways(s: Store, ops: seq<Op>, k: nat)
    requires Bound(s) && k <= |ops|
    ensures Bound(At(s, ops, k))
  {
    if k > 0 {
      BoundAlways(s, ops, k - 1);
      StepKeepsBound(At(s, ops, k - 1), ops[k - 1]);
    }
  }

  /** It holds of the empty tables, and so after every history. */
  lemma BoundFromStart(ops: seq<Op>, k: nat)
    requires k <= |ops|
    ensures Bound(At(EMPTY_STORE, ops, k))
  {
    BoundAlways(EMPTY_STORE, ops, k);
  }

  // ---------------------------------------------------------------------------
  // What runs read
  // ---------------------------------------------------------------------------

  /** The run is bound to a definition that is published or archived. */
  predicate OnFrozen(s: Store, r: nat) {
    BoundTo(s, r).Some? && BoundTo(s, r).value.status != Draft
  }

  lemma StepKeepsReading(s: Store, op: Op, r: nat)
    requires Bound(s) && r in s.runs && OnFrozen(s, r)
    ensures r in Step(s, op).runs && OnFrozen(Step(s, op), r)
    ensures RunConfigurations(Step(s, op), r) == RunConfigurations(s, r)
  {
    StepRun(s, op, r);
    StepBoundTo(s, op, r);
  }

  /** A run bound to a published or archived definition reads the same configurations for ever. */
  lemma {:induction false} RunSnapshotImmutable(s: Store, ops: seq<Op>, i: nat, j: nat, r: nat)
    requires Bound(s) && i <= j <= |ops| && r in At(s, ops, i).runs && OnFrozen(At(s, ops, i), r)
    ensures r in At(s, ops, j).runs && OnFrozen(At(s, ops, j), r)
    ensures RunConfigurations(At(s, ops, j), r) == RunConfigurations(At(s, ops, i), r)
    decreases j
  {
    if i < j {
      RunSnapshotImmutable(s, ops, i, j - 1, r);
      BoundAlways(s, ops, j - 1);
      StepKeepsReading(At(s, ops, j - 1), ops[j - 1], r);
    }
  }

  /** A run started on the released version reads for ever the configurations published at its start. */
  lemma ReleasedRunIsImmutable(s: Store, ops: seq<Op>, j: nat, w: nat)
    requires Bound(s) && w in s.workflows && 0 < j <= |ops| && ops[0] == OpRun(w, false)
    ensures Head(s.workflows[w]) >= 0
    ensures RunConfigurations(At(s, ops, j), s.nextRun)
            == Shown(s.workflows[w].definitions[Head(s.workflows[w])].content.configurations)
  {
    assert At(s, ops, 0) == s && At(s, ops, 1) == Step(s, OpRun(w, false));
    NewRunBound(s, w, false);
    RunSnapshotImmutable(s, ops, 1, j, s.nextRun);
  }

  /**
   A run bound to a draft has no such guarantee.  What a run reads changes exactly when it is bound to a draft and
   the operation saves other configurations to it, or discards it while it shows any.
   */
  lemma DraftSnapshotChangesExactlyWhen(s: Store, op: Op, r: nat)
    requires Bound(s) && r in s.runs
    ensures var d, w := BoundTo(s, r), s.runs[r].workflow;
            RunConfigurations(Step(s, op), r) != RunConfigurations(s, r)
            <==> d.Some? && d.value.status == Draft
                 && (|| (PatchOn(op, w).Some? && PatchOn(op, w).value.configurations.Some?
                         && Shown(PatchOn(op, w).value.configurations.value) != Shown(d.value.content.configurations))
                     || (op == OpDiscard(w) && Shown(d.value.content.configurations) != EMPTY_DICT))
  {
    StepBoundTo(s, op, r);
  }
}
