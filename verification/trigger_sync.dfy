/** Agent triggers: globally unique paths, each owned by one workflow and reconciled with its definition. */
module TriggerSync {
  import opened Common

  datatype State = Active | Archived

  datatype Trigger = Trigger(workflow: nat, organization: nat, state: State)

  /** The table, keyed by its unique `trigger_path`. */
  type Table = map<string, Trigger>

  /** A call of the synchronisation for a workflow. */
  datatype Request = Request(workflow: nat, organization: nat, paths: set<string>)

  // ---------------------------------------------------------------------------
  // Specification
  // ---------------------------------------------------------------------------

  /** Requested paths that another workflow owns, whatever their state. */
  function Conflicts(t: Table, paths: set<string>, workflow: nat): set<string> {
    set p | p in paths && p in t && t[p].workflow != workflow
  }

  function ActivePaths(t: Table, workflow: nat): set<string> {
    set p | p in t && t[p].workflow == workflow && t[p].state.Active?
  }

  function Reconciled(t: Table, r: Request): Table {
    map p | p in t.Keys + r.paths ::
      if p !in t then Trigger(r.workflow, r.organization, Active)
      else if t[p].workflow != r.workflow then t[p]
      else t[p].(state := if p in r.paths then Active else Archived)
  }

  /** The table after a call; a call with conflicts changes nothing. */
  function Sync(t: Table, r: Request): Table {
    if Conflicts(t, r.paths, r.workflow) != {} then t else Reconciled(t, r)
  }

  predicate Succeeds(t: Table, r: Request) {
    Conflicts(t, r.paths, r.workflow) == {}
  }

  function Run(t: Table, calls: seq<Request>): Table
    decreases |calls|
  {
    if calls == [] then t else Run(Sync(t, calls[0]), calls[1..])
  }

  // ---------------------------------------------------------------------------
  // One call
  // ---------------------------------------------------------------------------

  /** After a call succeeds, the workflow's active paths are exactly the requested ones; no other row moved. */
  lemma ActiveIsRequested(t: Table, r: Request)
    ensures Succeeds(t, r) ==> ActivePaths(Sync(t, r), r.workflow) == r.paths
    ensures !Succeeds(t, r) ==> Sync(t, r) == t
    ensures forall w :: w != r.workflow ==> ActivePaths(Sync(t, r), w) == ActivePaths(t, w)
    ensures forall p :: p in t && (t[p].workflow != r.workflow || !Succeeds(t, r)) ==> Sync(t, r)[p] == t[p]
  {
    if Succeeds(t, r) {
      forall p | p in r.paths
        ensures p in ActivePaths(Reconciled(t, r), r.workflow)
      {
        assert p in t && t[p].workflow != r.workflow ==> p in Conflicts(t, r.paths, r.workflow);
      }
    }
    forall w | w != r.workflow
      ensures ActivePaths(Sync(t, r), w) == ActivePaths(t, w)
    {
    }
  }

  /** Row by row after a successful call: new paths belong to the caller, and its other rows only change their state. */
  lemma SyncedRows(t: Table, r: Request, p: string)
    requires Succeeds(t, r)
    ensures p in Sync(t, r) <==> p in t || p in r.paths
    ensures p !in t && p in r.paths ==>
              && Sync(t, r)[p].workflow == r.workflow && Sync(t, r)[p].organization == r.organization
              && Sync(t, r)[p].state == Active
    ensures p in t && t[p].workflow == r.workflow ==>
              && Sync(t, r)[p].organization == t[p].organization && Sync(t, r)[p].workflow == t[p].workflow
              && Sync(t, r)[p].state == if p in r.paths then Active else Archived
    ensures p in t && t[p].workflow != r.workflow ==> Sync(t, r)[p] == t[p]
  {
  }

  lemma ConflictsAreForeign(t: Table, r: Request)
    ensures !Succeeds(t, r) <==> exists p :: p in r.paths && p in t && t[p].workflow != r.workflow
  {
    if p :| p in r.paths && p in t && t[p].workflow != r.workflow {
      assert p in Conflicts(t, r.paths, r.workflow);
    }
    if p :| p in Conflicts(t, r.paths, r.workflow) {
      assert p in r.paths && p in t && t[p].workflow != r.workflow;
    }
  }

  lemma OwnersKept(t: Table, r: Request)
    ensures forall p :: p in t ==> p in Sync(t, r) && Sync(t, r)[p].workflow == t[p].workflow
    ensures forall p :: p in Sync(t, r) && p !in t
              ==> p in r.paths && Succeeds(t, r) && Sync(t, r)[p].workflow == r.workflow
    ensures Succeeds(t, r) ==> forall p :: p in r.paths ==> p in Sync(t, r) && Sync(t, r)[p].workflow == r.workflow
  {
    ConflictsAreForeign(t, r);
  }

  lemma SyncIsIdempotent(t: Table, r: Request)
    ensures Succeeds(Sync(t, r), r) == Succeeds(t, r)
    ensures Sync(Sync(t, r), r) == Sync(t, r)
  {
  }

  /**
   An earlier synchronisation of the same workflow leaves no trace but archived rows: the later one succeeds
   as it would alone, gives the same active paths, and the tables agree on every path that it or the original
   table names.
   */
  lemma LastSyncWins(t: Table, a: Request, b: Request)
    requires a.workflow == b.workflow
    ensures var t1 := Sync(t, a);
            && Succeeds(t1, b) == Succeeds(t, b)
            && (Succeeds(t, b) ==>
                  && ActivePaths(Sync(t1, b), b.workflow) == b.paths == ActivePaths(Sync(t, b), b.workflow)
                  && (forall p :: p in t ==> Sync(t1, b)[p] == Sync(t, b)[p])
                  && (forall p :: p in Sync(t1, b) && p !in Sync(t, b)
                        ==> p in a.paths && Sync(t1, b)[p] == Trigger(a.workflow, a.organization, Archived)))
  {
    var t1 := Sync(t, a);
    ConflictsAreForeign(t, b);
    ConflictsAreForeign(t1, b);
    OwnersKept(t, a);
    ActiveIsRequested(t1, b);
    ActiveIsRequested(t, b);
  }

  // ---------------------------------------------------------------------------
  // Histories of calls
  // ---------------------------------------------------------------------------

  /** No path is ever deleted and no path ever changes its owner. */
  lemma {:induction false} OwnerForever(t: Table, calls: seq<Request>)
    ensures forall p :: p in t ==> p in Run(t, calls) && Run(t, calls)[p].workflow == t[p].workflow
    decreases |calls|
  {
    if calls != [] {
      OwnersKept(t, calls[0]);
      OwnerForever(Sync(t, calls[0]), calls[1..]);
    }
  }

  /** The table before call `i`. */
  function Before(t: Table, calls: seq<Request>, i: nat): Table
    requires i <= |calls|
  {
    Run(t, calls[..i])
  }

  /** Call `i` claimed one of the paths for a workflow other than `workflow`. */
  ghost predicate ClaimsAway(t: Table, calls: seq<Request>, i: nat, paths: set<string>, workflow: nat) {
    && i < |calls|
    && Succeeds(Before(t, calls, i), calls[i])
    && calls[i].workflow != workflow
    && calls[i].paths * paths != {}
  }

  lemma BeforeTail(t: Table, calls: seq<Request>, i: nat)
    requires i < |calls|
    ensures Before(t, calls, i + 1) == Before(Sync(t, calls[0]), calls[1..], i)
    ensures Before(t, calls, 0) == t
  {
    assert calls[..i + 1][0] == calls[0] && calls[..i + 1][1..] == calls[1..][..i];
  }

  lemma OneCallClaims(t: Table, r: Request, paths: set<string>, workflow: nat)
    requires Conflicts(t, paths, workflow) == {}
    ensures Conflicts(Sync(t, r), paths, workflow) != {}
            <==> Succeeds(t, r) && r.workflow != workflow && r.paths * paths != {}
  {
  }

  /**
   The upfront availability check guards the later synchronisation: whatever calls run in between, it then fails
   if and only if one of them claimed a checked path for another workflow.
   */
  lemma {:induction false} CheckThenSync(t: Table, calls: seq<Request>, r: Request)
    requires Conflicts(t, r.paths, r.workflow) == {}
    ensures !Succeeds(Run(t, calls), r) <==> exists i: nat :: ClaimsAway(t, calls, i, r.paths, r.workflow)
    decreases |calls|
  {
    if calls != [] {
      var t1, rest := Sync(t, calls[0]), calls[1..];
      BeforeTail(t, calls, 0);
      OneCallClaims(t, calls[0], r.paths, r.workflow);
      forall i: nat | i < |rest|
        ensures ClaimsAway(t1, rest, i, r.paths, r.workflow) <==> ClaimsAway(t, calls, i + 1, r.paths, r.workflow)
      {
        BeforeTail(t, calls, i);
      }
      if Succeeds(t1, r) {
        CheckThenSync(t1, rest, r);
        assert !ClaimsAway(t, calls, 0, r.paths, r.workflow);
        if exists i: nat :: ClaimsAway(t, calls, i, r.paths, r.workflow) {
          var i: nat :| ClaimsAway(t, calls, i, r.paths, r.workflow);
          assert ClaimsAway(t1, rest, i - 1, r.paths, r.workflow);
        }
        if exists i: nat :: ClaimsAway(t1, rest, i, r.paths, r.workflow) {
          var i: nat :| ClaimsAway(t1, rest, i, r.paths, r.workflow);
          assert ClaimsAway(t, calls, i + 1, r.paths, r.workflow);
        }
      } else {
        assert ClaimsAway(t, calls, 0, r.paths, r.workflow);
        OwnerForever(t1, rest);
        var p :| p in Conflicts(t1, r.paths, r.workflow);
        assert p in Conflicts(Run(t1, rest), r.paths, r.workflow);
      }
    }
  }

  /** The paths of a workflow's last successful call, or those active before the calls. */
  function LastRequested(t: Table, calls: seq<Request>, workflow: nat): set<string>
    decreases |calls|
  {
    if calls == [] then ActivePaths(t, workflow)
    else
      var last := |calls| - 1;
      if calls[last].workflow == workflow && Succeeds(Before(t, calls, last), calls[last]) then calls[last].paths
      else LastRequested(t, calls[..last], workflow)
  }

  lemma {:induction false} RunAppend(t: Table, calls: seq<Request>, r: Request)
    ensures Run(t, calls + [r]) == Sync(Run(t, calls), r)
    decreases |calls|
  {
    if calls == [] {
      assert ([] + [r])[1..] == [];
    } else {
      assert (calls + [r])[1..] == calls[1..] + [r];
      RunAppend(Sync(t, calls[0]), calls[1..], r);
    }
  }

  /** After any history, a workflow's active paths are those of its last successful call. */
  lemma {:induction false} ActiveAfterHistory(t: Table, calls: seq<Request>, workflow: nat)
    ensures ActivePaths(Run(t, calls), workflow) == LastRequested(t, calls, workflow)
    decreases |calls|
  {
    if calls != [] {
      var last := |calls| - 1;
      ActiveAfterHistory(t, calls[..last], workflow);
      assert calls == calls[..last] + [calls[last]];
      RunAppend(t, calls[..last], calls[last]);
      ActiveIsRequested(Run(t, calls[..last]), calls[last]);
    }
  }

  function WithState(t: Table, workflow: nat, paths: set<string>, from: Option<State>, to: State): Table {
    map p | p in t ::
      if t[p].workflow == workflow && p in paths && (from.Some? ==> t[p].state == from.value)
      then t[p].(state := to) else t[p]
  }

  function Owned(t: Table, workflow: nat): set<string> {
    set p | p in t && t[p].workflow == workflow
  }

  /** Archiving, reactivating and inserting one after the other reconciles the table. */
  lemma ReconciledInSteps(t: Table, r: Request)
    requires Succeeds(t, r)
    ensures var own := Owned(t, r.workflow);
            var archived := WithState(t, r.workflow, own - r.paths, None, Archived);
            WithState(archived, r.workflow, r.paths * own, Some(Archived), Active)
            + (map p | p in r.paths - own :: Trigger(r.workflow, r.organization, Active))
            == Reconciled(t, r)
  {
    ConflictsAreForeign(t, r);
  }

  // ---------------------------------------------------------------------------
  // The client
  // ---------------------------------------------------------------------------

  class AgentTriggerClient {
    var triggers: Table

    constructor ()
      ensures triggers == map[]
    {
      triggers := map[];
    }

    /** Paths in use by a workflow other than the excluded one; without one, every path in use. */
    method CheckTriggerPathConflicts(paths: set<string>, exclude: Option<nat>) returns (conflicts: set<string>)
      ensures exclude.Some? ==> conflicts == Conflicts(triggers, paths, exclude.value)
      ensures exclude.None? ==> conflicts == paths * triggers.Keys
    {
      if paths == {} {
        return {};
      }
      conflicts := set p | p in paths && p in triggers && (exclude.Some? ==> triggers[p].workflow != exclude.value);
    }

    /** `UPDATE ... SET state` on the workflow's rows among the paths, optionally only those in a given state. */
    method UpdateState(workflow: nat, paths: set<string>, from: Option<State>, to: State)
      modifies this
      ensures triggers == WithState(old(triggers), workflow, paths, from, to)
    {
      triggers := WithState(triggers, workflow, paths, from, to);
    }

    /** The insert loop; the unique constraint on the path is never hit. */
    method InsertTriggers(paths: set<string>, workflow: nat, organization: nat)
      requires paths !! triggers.Keys
      modifies this
      ensures triggers == old(triggers) + map p | p in paths :: Trigger(workflow, organization, Active)
    {
      var toAdd := paths;
      while toAdd != {}
        invariant toAdd <= paths
        invariant triggers == old(triggers) + map p | p in paths - toAdd :: Trigger(workflow, organization, Active)
        decreases toAdd
      {
        var path :| path in toAdd;
        assert path !in triggers;
        triggers := triggers[path := Trigger(workflow, organization, Active)];
        toAdd := toAdd - {path};
      }
    }

    method SyncTriggersForWorkflow(workflow: nat, organization: nat, requested: seq<string>)
      returns (r: Result<bool, set<string>>)
      modifies this
      ensures var q := Request(workflow, organization, set p | p in requested);
              && triggers == Sync(old(triggers), q)
              && (r.Ok? <==> Succeeds(old(triggers), q))
              && (r.Err? ==> r.error == Conflicts(old(triggers), q.paths, workflow))
    {
      var newPaths := set p | p in requested;
      ghost var q := Request(workflow, organization, newPaths);
      var existingPaths := Owned(triggers, workflow);
      var toAdd := newPaths - existingPaths;
      if toAdd != {} {
        var conflicts := set p | p in toAdd && p in triggers && triggers[p].workflow != workflow;
        assert conflicts == Conflicts(triggers, newPaths, workflow);
        if conflicts != {} {
          return Err(conflicts);
        }
      }
      ConflictsAreForeign(triggers, q);

      ghost var before := triggers;
      UpdateState(workflow, existingPaths - newPaths, None, Archived);
      UpdateState(workflow, newPaths * existingPaths, Some(Archived), Active);
      InsertTriggers(toAdd, workflow, organization);
      ReconciledInSteps(before, q);
      r := Ok(true);
    }
  }
}
