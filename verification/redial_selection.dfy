/**
 Redial selection (`get_redial_candidates`).

 The database answers the selection with a recursive query over the retry trees of a campaign's
 queued runs, a join with the workflow runs, and "latest call per root".  The query is evaluated
 here the way the database evaluates it, level by level, and compared with an independent
 definition that walks parent pointers upward from each run.
 */
module RedialSelection {
  import opened Common
  import opened QueuedRuns

  /** A workflow run, reduced to the columns the selection reads. */
  datatype CallRun = CallRun(
    campaign: Option<nat>,
    queuedRun: Option<nat>,
    createdAt: int,
    callTags: set<string>)

  /** One row of the recursive table `run_tree`. */
  datatype Pair = Pair(root: nat, run: nat)

  datatype Candidate = Candidate(sourceUuid: string, context: Json)

  // ---------------------------------------------------------------------------
  // The stored table
  // ---------------------------------------------------------------------------

  predicate DistinctIds(rows: seq<QueuedRun>) {
    forall i, j :: 0 <= i < j < |rows| ==> rows[i].id != rows[j].id
  }

  /** A parent was stored before its child, so the serial primary key makes its id smaller. */
  predicate ParentsPrecede(rows: seq<QueuedRun>) {
    forall i :: 0 <= i < |rows| && rows[i].parent.Some? ==> rows[i].parent.value < rows[i].id
  }

  predicate Table(rows: seq<QueuedRun>) {
    DistinctIds(rows) && ParentsPrecede(rows)
  }

  function Find(rows: seq<QueuedRun>, id: nat): (r: Option<QueuedRun>)
    ensures r.Some? ==> r.value in rows && r.value.id == id
  {
    if rows == [] then None
    else if rows[0].id == id then Some(rows[0])
    else Find(rows[1..], id)
  }

  lemma {:induction false} FindStored(rows: seq<QueuedRun>, q: QueuedRun)
    requires DistinctIds(rows) && q in rows
    ensures Find(rows, q.id) == Some(q)
  {
    if rows[0].id == q.id {
      var i :| 0 <= i < |rows| && rows[i] == q;
      assert i == 0;
    } else {
      FindStored(rows[1..], q);
    }
  }

  // ---------------------------------------------------------------------------
  // Independent definition: walking parent pointers
  // ---------------------------------------------------------------------------

  datatype Origin = Origin(root: nat, depth: nat)

  /** Follows parent pointers from run `r` while they stay inside campaign `cid`. */
  function Walk(rows: seq<QueuedRun>, cid: nat, r: nat): (o: Option<Origin>)
    requires ParentsPrecede(rows)
    ensures o.Some? ==> o.value.depth <= r
    decreases r
  {
    match Find(rows, r)
    case None => None
    case Some(q) =>
      if q.campaign != cid then None
      else if q.parent.None? then Some(Origin(r, 0))
      else
        match Walk(rows, cid, q.parent.value)
        case None => None
        case Some(o) => Some(Origin(o.root, o.depth + 1))
  }

  /** Run `r` hangs under root `root` of campaign `cid`. */
  predicate Under(rows: seq<QueuedRun>, cid: nat, root: nat, r: nat)
    requires ParentsPrecede(rows)
  {
    var o := Walk(rows, cid, r);
    o.Some? && o.value.root == root
  }

  // ---------------------------------------------------------------------------
  // Level-by-level evaluation of the recursive query
  // ---------------------------------------------------------------------------

  /** The non-recursive term: the campaign's runs without a parent. */
  function Roots(rows: seq<QueuedRun>, cid: nat): seq<Pair> {
    if rows == [] then []
    else RootOf(rows[0], cid) + Roots(rows[1..], cid)
  }

  function RootOf(q: QueuedRun, cid: nat): seq<Pair> {
    if q.campaign == cid && q.parent.None? then [Pair(q.id, q.id)] else []
  }

  /** The rows of the campaign whose parent is the run of `p`, each tagged with the root of `p`. */
  function Children(rows: seq<QueuedRun>, cid: nat, p: Pair): seq<Pair> {
    if rows == [] then []
    else ChildOf(rows[0], cid, p) + Children(rows[1..], cid, p)
  }

  function ChildOf(q: QueuedRun, cid: nat, p: Pair): seq<Pair> {
    if q.campaign == cid && q.parent == Some(p.run) then [Pair(p.root, q.id)] else []
  }

  /** The recursive term applied to the current working table. */
  function Join(rows: seq<QueuedRun>, cid: nat, work: seq<Pair>): seq<Pair> {
    if work == [] then [] else Children(rows, cid, work[0]) + Join(rows, cid, work[1..])
  }

  function Level(rows: seq<QueuedRun>, cid: nat, k: nat): seq<Pair> {
    if k == 0 then Roots(rows, cid) else Join(rows, cid, Level(rows, cid, k - 1))
  }

  /** How often row `p` occurs in the bag `s`. */
  function Times(s: seq<Pair>, p: Pair): nat {
    if s == [] then 0 else (if s[0] == p then 1 else 0) + Times(s[1..], p)
  }

  lemma {:induction false} TimesAppend(s: seq<Pair>, t: seq<Pair>, p: Pair)
    ensures Times(s + t, p) == Times(s, p) + Times(t, p)
  {
    if s == [] {
      assert s + t == t;
    } else {
      TimesAppend(s[1..], t, p);
      assert (s + t)[1..] == s[1..] + t;
    }
  }

  lemma {:induction false} TimesPositive(s: seq<Pair>, p: Pair)
    ensures p in s <==> Times(s, p) > 0
  {
    if s != [] {
      TimesPositive(s[1..], p);
    }
  }

  lemma {:induction false} RootsCount(rows: seq<QueuedRun>, cid: nat, root: nat, r: nat)
    requires DistinctIds(rows)
    ensures Times(Roots(rows, cid), Pair(root, r)) ==
            (if root == r && Find(rows, r).Some? && Find(rows, r).value.campaign == cid
                && Find(rows, r).value.parent.None?
             then 1 else 0)
  {
    if rows != [] {
      RootsCount(rows[1..], cid, root, r);
      TimesAppend(RootOf(rows[0], cid), Roots(rows[1..], cid), Pair(root, r));
    }
  }

  lemma {:induction false} ChildrenCount(rows: seq<QueuedRun>, cid: nat, p: Pair, root: nat, r: nat)
    requires DistinctIds(rows)
    ensures Times(Children(rows, cid, p), Pair(root, r)) ==
            (if p.root == root && Find(rows, r).Some? && Find(rows, r).value.campaign == cid
                && Find(rows, r).value.parent == Some(p.run)
             then 1 else 0)
  {
    if rows != [] {
      ChildrenCount(rows[1..], cid, p, root, r);
      TimesAppend(ChildOf(rows[0], cid, p), Children(rows[1..], cid, p), Pair(root, r));
    }
  }

  lemma {:induction false} JoinCount(rows: seq<QueuedRun>, cid: nat, work: seq<Pair>, root: nat, r: nat)
    requires DistinctIds(rows)
    ensures Times(Join(rows, cid, work), Pair(root, r)) ==
            (match Find(rows, r)
             case Some(q) =>
               if q.campaign == cid && q.parent.Some? then Times(work, Pair(root, q.parent.value)) else 0
             case None => 0)
  {
    if work != [] {
      ChildrenCount(rows, cid, work[0], root, r);
      JoinCount(rows, cid, work[1..], root, r);
      TimesAppend(Children(rows, cid, work[0]), Join(rows, cid, work[1..]), Pair(root, r));
    }
  }

  /** One step of the walk, seen from the child. */
  lemma {:induction false} WalkFromParent(
      rows: seq<QueuedRun>, cid: nat, root: nat, k: nat, r: nat, q: QueuedRun, p: nat)
    requires ParentsPrecede(rows)
    requires Find(rows, r) == Some(q) && q.campaign == cid && q.parent == Some(p)
    ensures Walk(rows, cid, r) == Some(Origin(root, k)) <==> k > 0 && Walk(rows, cid, p) == Some(Origin(root, k - 1))
  {
  }

  /** Level `k` holds exactly the runs at depth `k`, each once and under its own root. */
  lemma {:induction false} LevelIsWalkDepth(rows: seq<QueuedRun>, cid: nat, k: nat, root: nat, r: nat)
    requires Table(rows)
    ensures Times(Level(rows, cid, k), Pair(root, r)) ==
            (if Walk(rows, cid, r) == Some(Origin(root, k)) then 1 else 0)
  {
    var q := Find(rows, r);
    if k == 0 {
      RootsCounted(rows, cid, root, r);
    } else if q.Some? && q.value.campaign == cid && q.value.parent.Some? {
      LevelIsWalkDepth(rows, cid, k - 1, root, q.value.parent.value);
      ChildCounted(rows, cid, k, root, r, q.value);
    } else {
      OthersCounted(rows, cid, k, root, r);
    }
  }

  lemma WalkOfRoot(rows: seq<QueuedRun>, cid: nat, root: nat, r: nat)
    requires ParentsPrecede(rows)
    ensures Walk(rows, cid, r) == Some(Origin(root, 0))
            <==> root == r && Find(rows, r).Some? && Find(rows, r).value.campaign == cid
                 && Find(rows, r).value.parent.None?
  {
  }

  /** The pair is on level `k` once if the run's walk ends at that root after `k` steps, else not at all. */
  predicate CountedAt(rows: seq<QueuedRun>, cid: nat, k: nat, root: nat, r: nat)
    requires ParentsPrecede(rows)
  {
    Times(Level(rows, cid, k), Pair(root, r)) == (if Walk(rows, cid, r) == Some(Origin(root, k)) then 1 else 0)
  }

  lemma RootsCounted(rows: seq<QueuedRun>, cid: nat, root: nat, r: nat)
    requires Table(rows)
    ensures CountedAt(rows, cid, 0, root, r)
  {
    RootsCount(rows, cid, root, r);
    WalkOfRoot(rows, cid, root, r);
  }

  /** A row with a parent is on a level as often as its parent is on the one before. */
  lemma ChildCounted(rows: seq<QueuedRun>, cid: nat, k: nat, root: nat, r: nat, q: QueuedRun)
    requires Table(rows) && k > 0 && Find(rows, r) == Some(q) && q.campaign == cid && q.parent.Some?
    requires CountedAt(rows, cid, k - 1, root, q.parent.value)
    ensures CountedAt(rows, cid, k, root, r)
  {
    JoinCount(rows, cid, Level(rows, cid, k - 1), root, r);
    WalkFromParent(rows, cid, root, k, r, q, q.parent.value);
  }

  /** Any other row is on no level but the first. */
  lemma OthersCounted(rows: seq<QueuedRun>, cid: nat, k: nat, root: nat, r: nat)
    requires Table(rows) && k > 0
    requires Find(rows, r).None? || Find(rows, r).value.campaign != cid || Find(rows, r).value.parent.None?
    ensures CountedAt(rows, cid, k, root, r)
  {
    JoinCount(rows, cid, Level(rows, cid, k - 1), root, r);
  }

  /** No id of the table exceeds `bound`. */
  predicate Bounded(rows: seq<QueuedRun>, bound: nat) {
    forall q :: q in rows ==> q.id <= bound
  }

  /** The recursion reaches its fixpoint: a level deeper than the largest id is empty. */
  lemma {:induction false} LevelsEnd(rows: seq<QueuedRun>, cid: nat, k: nat, bound: nat)
    requires Table(rows) && Bounded(rows, bound) && k > bound
    ensures Level(rows, cid, k) == []
  {
    var level := Level(rows, cid, k);
    if level != [] {
      var p := level[0];
      TimesPositive(level, p);
      LevelIsWalkDepth(rows, cid, k, p.root, p.run);
    }
  }

  function MaxId(rows: seq<QueuedRun>): (m: nat)
    ensures Bounded(rows, m)
  {
    if rows == [] then 0
    else
      var m := MaxId(rows[1..]);
      if rows[0].id > m then rows[0].id else m
  }

  /** `tree` holds each run once, under the root its parent pointers lead to, and nothing else. */
  ghost predicate ExactTree(rows: seq<QueuedRun>, cid: nat, tree: seq<Pair>)
    requires ParentsPrecede(rows)
  {
    forall root, r :: Times(tree, Pair(root, r)) == if Under(rows, cid, root, r) then 1 else 0
  }

  /** `tree` holds exactly the runs above depth `k`. */
  ghost predicate TreeAbove(rows: seq<QueuedRun>, cid: nat, k: nat, tree: seq<Pair>)
    requires ParentsPrecede(rows)
  {
    forall root, r :: Times(tree, Pair(root, r)) == if Above(rows, cid, k, root, r) then 1 else 0
  }

  predicate Above(rows: seq<QueuedRun>, cid: nat, k: nat, root: nat, r: nat)
    requires ParentsPrecede(rows)
  {
    var o := Walk(rows, cid, r);
    o.Some? && o.value.root == root && o.value.depth < k
  }

  lemma TreeGrows(rows: seq<QueuedRun>, cid: nat, k: nat, tree: seq<Pair>)
    requires Table(rows) && TreeAbove(rows, cid, k, tree)
    ensures TreeAbove(rows, cid, k + 1, tree + Level(rows, cid, k))
  {
    forall root, r
      ensures Times(tree + Level(rows, cid, k), Pair(root, r)) ==
              if Above(rows, cid, k + 1, root, r) then 1 else 0
    {
      LevelIsWalkDepth(rows, cid, k, root, r);
      TimesAppend(tree, Level(rows, cid, k), Pair(root, r));
      assert Times(tree, Pair(root, r)) == if Above(rows, cid, k, root, r) then 1 else 0;
    }
  }

  /** Once a level is empty, no run sits at that depth or deeper. */
  lemma {:induction false} LevelsAfterEmpty(rows: seq<QueuedRun>, cid: nat, k: nat, root: nat, r: nat)
    requires Table(rows) && Level(rows, cid, k) == []
    ensures Under(rows, cid, root, r) ==> Above(rows, cid, k, root, r)
    decreases r
  {
    if Under(rows, cid, root, r) {
      LevelIsWalkDepth(rows, cid, k, root, r);
      if Walk(rows, cid, r).value.depth > 0 {
        LevelsAfterEmpty(rows, cid, k, root, Find(rows, r).value.parent.value);
      }
    }
  }

  lemma TreeComplete(rows: seq<QueuedRun>, cid: nat, k: nat, tree: seq<Pair>)
    requires Table(rows) && TreeAbove(rows, cid, k, tree) && Level(rows, cid, k) == []
    ensures ExactTree(rows, cid, tree)
  {
    forall root, r
      ensures Times(tree, Pair(root, r)) == if Under(rows, cid, root, r) then 1 else 0
    {
      LevelsAfterEmpty(rows, cid, k, root, r);
      assert Times(tree, Pair(root, r)) == if Above(rows, cid, k, root, r) then 1 else 0;
    }
  }

  /**
   The recursive query, evaluated with a working table as the database does.
   */
  method RunTree(rows: seq<QueuedRun>, cid: nat) returns (tree: seq<Pair>)
    requires Table(rows)
    ensures ExactTree(rows, cid, tree)
  {
    var work := Roots(rows, cid);
    tree := [];
    ghost var k := 0;
    ghost var bound := MaxId(rows);
    while work != []
      invariant work == Level(rows, cid, k)
      invariant TreeAbove(rows, cid, k, tree)
      invariant k <= bound + 1
      decreases bound + 1 - k
    {
      if k > bound {
        LevelsEnd(rows, cid, k, bound);
      }
      TreeGrows(rows, cid, k, tree);
      tree := tree + work;
      work := Join(rows, cid, work);
      k := k + 1;
    }
    TreeComplete(rows, cid, k, tree);
  }

  // ---------------------------------------------------------------------------
  // Latest call per root
  // ---------------------------------------------------------------------------

  /** Call `c` was made for some run of the tree under `root`. */
  predicate CallOf(rows: seq<QueuedRun>, cid: nat, root: nat, c: CallRun)
    requires ParentsPrecede(rows)
  {
    c.campaign == Some(cid) && c.queuedRun.Some? && Under(rows, cid, root, c.queuedRun.value)
  }

  /** `c` is the newest call anywhere in the tree under `root`. */
  predicate Newest(rows: seq<QueuedRun>, calls: seq<CallRun>, cid: nat, root: nat, c: CallRun)
    requires ParentsPrecede(rows)
  {
    && c in calls && CallOf(rows, cid, root, c)
    && forall d :: d in calls && CallOf(rows, cid, root, d) ==> d.createdAt <= c.createdAt
  }

  /**
   `latest` holds one newest call for every root that has a call in its tree, as `DISTINCT ON` does; among calls
   created at the same instant the database may keep any.
   */
  ghost predicate IsLatest(rows: seq<QueuedRun>, calls: seq<CallRun>, cid: nat, latest: map<nat, CallRun>)
    requires ParentsPrecede(rows)
  {
    && (forall root :: root in latest ==> Newest(rows, calls, cid, root, latest[root]))
    && (forall root, c :: c in calls && CallOf(rows, cid, root, c) ==> root in latest)
  }

  /** The root run `q` is to be redialed: the call kept for it carries a selected tag. */
  predicate IsCandidate(latest: map<nat, CallRun>, selected: set<string>, q: QueuedRun) {
    q.id in latest && latest[q.id].callTags * selected != {}
  }

  function SelectCandidates(from: seq<QueuedRun>, latest: map<nat, CallRun>, selected: set<string>): seq<Candidate> {
    if from == [] then []
    else
      SelectCandidates(from[..|from| - 1], latest, selected)
      + (var q := from[|from| - 1];
         if IsCandidate(latest, selected, q) then [Candidate(q.sourceUuid, q.context)] else [])
  }

  /** `c` is joined to the tree row of its queued run. */
  predicate Joined(tree: seq<Pair>, cid: nat, root: nat, c: CallRun) {
    c.campaign == Some(cid) && c.queuedRun.Some? && Pair(root, c.queuedRun.value) in tree
  }

  /** Keeps, for every root, the newest call seen so far. */
  ghost predicate LatestSoFar(tree: seq<Pair>, cid: nat, seen: seq<CallRun>, latest: map<nat, CallRun>) {
    && (forall root :: root in latest ==> latest[root] in seen && Joined(tree, cid, root, latest[root]))
    && (forall root, c :: c in seen && Joined(tree, cid, root, c) ==>
                            root in latest && c.createdAt <= latest[root].createdAt)
  }

  /** `latest_run_per_root`: one newest call for every root that has any call in its tree. */
  method LatestPerRoot(tree: seq<Pair>, calls: seq<CallRun>, cid: nat) returns (latest: map<nat, CallRun>)
    ensures LatestSoFar(tree, cid, calls, latest)
  {
    latest := map[];
    for j := 0 to |calls|
      invariant LatestSoFar(tree, cid, calls[..j], latest)
    {
      var c := calls[j];
      assert calls[..j + 1] == calls[..j] + [c];
      ghost var before := latest;
      for i := 0 to |tree|
        invariant forall root :: root in before ==> root in latest && before[root].createdAt <= latest[root].createdAt
        invariant forall root :: root in latest ==> (root in before && latest[root] == before[root])
                                                    || (latest[root] == c && Joined(tree, cid, root, c))
        invariant forall root :: Joined(tree[..i], cid, root, c) ==>
                                   root in latest && c.createdAt <= latest[root].createdAt
      {
        var p := tree[i];
        assert tree[..i + 1] == tree[..i] + [p];
        if c.campaign == Some(cid) && c.queuedRun == Some(p.run) {
          if p.root !in latest || latest[p.root].createdAt < c.createdAt {
            latest := latest[p.root := c];
          }
        }
      }
      assert tree[..|tree|] == tree;
    }
    assert calls[..|calls|] == calls;
  }

  /** The calls kept by the loops over the tree are latest calls per root. */
  lemma KeptAreLatest(rows: seq<QueuedRun>, calls: seq<CallRun>, cid: nat, tree: seq<Pair>, latest: map<nat, CallRun>)
    requires Table(rows) && ExactTree(rows, cid, tree) && LatestSoFar(tree, cid, calls, latest)
    ensures IsLatest(rows, calls, cid, latest)
  {
    forall root, c: CallRun
      ensures Joined(tree, cid, root, c) <==> CallOf(rows, cid, root, c)
    {
      if c.queuedRun.Some? {
        TimesPositive(tree, Pair(root, c.queuedRun.value));
      }
    }
  }

  /** Calls of the campaign were created at distinct instants, so "latest" names one call. */
  predicate DistinctTimes(calls: seq<CallRun>, cid: nat) {
    forall c, d :: c in calls && d in calls && c.campaign == d.campaign == Some(cid)
      ==> (c.createdAt == d.createdAt ==> c == d)
  }

  /**
   Whichever newest call is kept: a candidate has a newest call with a selected tag, and a root with calls whose
   newest ones all carry one is a candidate.  With distinct creation times the two coincide.
   */
  lemma LatestDecides(rows: seq<QueuedRun>, calls: seq<CallRun>, cid: nat, selected: set<string>, q: QueuedRun,
                      latest: map<nat, CallRun>)
    requires ParentsPrecede(rows) && IsLatest(rows, calls, cid, latest)
    ensures IsCandidate(latest, selected, q)
            ==> exists c :: Newest(rows, calls, cid, q.id, c) && c.callTags * selected != {}
    ensures (exists c :: c in calls && CallOf(rows, cid, q.id, c))
            && (forall c :: Newest(rows, calls, cid, q.id, c) ==> c.callTags * selected != {})
            ==> IsCandidate(latest, selected, q)
    ensures DistinctTimes(calls, cid) ==>
              (IsCandidate(latest, selected, q)
               <==> exists c :: Newest(rows, calls, cid, q.id, c) && c.callTags * selected != {})
  {
    if q.id in latest {
      assert Newest(rows, calls, cid, q.id, latest[q.id]);
    }
    if DistinctTimes(calls, cid) && exists c :: Newest(rows, calls, cid, q.id, c) && c.callTags * selected != {} {
      var c :| Newest(rows, calls, cid, q.id, c) && c.callTags * selected != {};
      assert q.id in latest && latest[q.id] == c;
    }
  }

  const VOICEMAIL := "voicemail_detected"
  const NO_ANSWER := "telephony_no-answer"
  const BUSY := "telephony_busy"

  function SelectedTags(voicemail: bool, noAnswer: bool, busy: bool): set<string> {
    (if voicemail then {VOICEMAIL} else {}) + (if noAnswer then {NO_ANSWER} else {}) + (if busy then {BUSY} else {})
  }

  /** The tags of a call include one of those that the chosen options stand for. */
  predicate Wanted(voicemail: bool, noAnswer: bool, busy: bool, tags: set<string>) {
    || (voicemail && "voicemail_detected" in tags)
    || (noAnswer && "telephony_no-answer" in tags)
    || (busy && "telephony_busy" in tags)
  }

  lemma TagsAreWanted(voicemail: bool, noAnswer: bool, busy: bool, tags: set<string>)
    ensures tags * SelectedTags(voicemail, noAnswer, busy) != {} <==> Wanted(voicemail, noAnswer, busy, tags)
  {
    if tag :| tag in tags * SelectedTags(voicemail, noAnswer, busy) {
      assert tag in {VOICEMAIL, NO_ANSWER, BUSY};
    }
    if Wanted(voicemail, noAnswer, busy, tags) {
      var tag := if voicemail && VOICEMAIL in tags then VOICEMAIL
                 else if noAnswer && NO_ANSWER in tags then NO_ANSWER else BUSY;
      assert tag in tags * SelectedTags(voicemail, noAnswer, busy);
    }
  }

  /** The answer in the options' own terms. */
  lemma AnswerIsWanted(rows: seq<QueuedRun>, latest: map<nat, CallRun>, voicemail: bool, noAnswer: bool, busy: bool,
                       c: Candidate)
    ensures c in SelectCandidates(rows, latest, SelectedTags(voicemail, noAnswer, busy)) <==>
            exists q :: q in rows && q.id in latest && Wanted(voicemail, noAnswer, busy, latest[q.id].callTags)
                        && c.sourceUuid == q.sourceUuid && c.context == q.context
  {
    var selected := SelectedTags(voicemail, noAnswer, busy);
    SelectedExactly(rows, latest, selected, c);
    forall q | q in rows && q.id in latest
      ensures IsCandidate(latest, selected, q) <==> Wanted(voicemail, noAnswer, busy, latest[q.id].callTags)
    {
      TagsAreWanted(voicemail, noAnswer, busy, latest[q.id].callTags);
    }
  }

  lemma AnswersAreWanted(rows: seq<QueuedRun>, latest: map<nat, CallRun>, voicemail: bool, noAnswer: bool, busy: bool)
    ensures var answer := SelectCandidates(rows, latest, SelectedTags(voicemail, noAnswer, busy));
            && (forall c :: c in answer <==>
                  exists q :: q in rows && q.id in latest && Wanted(voicemail, noAnswer, busy, latest[q.id].callTags)
                              && c.sourceUuid == q.sourceUuid && c.context == q.context)
            && (answer == [] <==>
                  forall q :: q in rows && q.id in latest ==> !Wanted(voicemail, noAnswer, busy, latest[q.id].callTags))
  {
    var answer := SelectCandidates(rows, latest, SelectedTags(voicemail, noAnswer, busy));
    forall c
      ensures c in answer <==>
              exists q :: q in rows && q.id in latest && Wanted(voicemail, noAnswer, busy, latest[q.id].callTags)
                          && c.sourceUuid == q.sourceUuid && c.context == q.context
    {
      AnswerIsWanted(rows, latest, voicemail, noAnswer, busy, c);
    }
    if answer != [] {
      assert answer[0] in answer;
    }
    forall q | q in rows && q.id in latest && Wanted(voicemail, noAnswer, busy, latest[q.id].callTags)
      ensures answer != []
    {
      assert Candidate(q.sourceUuid, q.context) in answer;
    }
  }

  /**
   `get_redial_candidates`.  The answer lists, in table order and each once, exactly the roots whose latest call
   anywhere in their retry tree carries one of the selected tags, for some choice of latest calls.
   */
  method GetRedialCandidates(rows: seq<QueuedRun>, calls: seq<CallRun>, cid: nat,
                             voicemail: bool, noAnswer: bool, busy: bool)
    returns (candidates: seq<Candidate>, ghost latest: map<nat, CallRun>)
    requires Table(rows)
    ensures candidates == SelectCandidates(rows, latest, SelectedTags(voicemail, noAnswer, busy))
    ensures voicemail || noAnswer || busy ==> IsLatest(rows, calls, cid, latest)
    ensures forall c :: c in candidates <==>
              exists q :: q in rows && q.id in latest && Wanted(voicemail, noAnswer, busy, latest[q.id].callTags)
                          && c.sourceUuid == q.sourceUuid && c.context == q.context
  {
    var selected := {};
    if voicemail { selected := selected + {VOICEMAIL}; }
    if noAnswer { selected := selected + {NO_ANSWER}; }
    if busy { selected := selected + {BUSY}; }
    assert selected == SelectedTags(voicemail, noAnswer, busy);
    if selected == {} {
      latest := map[];
      NoTagsNoCandidates(rows, latest);
      candidates := [];
      AnswersAreWanted(rows, latest, voicemail, noAnswer, busy);
      return;
    }
    var tree := RunTree(rows, cid);
    var kept := LatestPerRoot(tree, calls, cid);
    latest := kept;
    KeptAreLatest(rows, calls, cid, tree, kept);
    candidates := [];
    for i := 0 to |rows|
      invariant candidates == SelectCandidates(rows[..i], latest, selected)
    {
      var q := rows[i];
      assert rows[..i + 1][..i] == rows[..i];
      RootsOnly(rows, calls, cid, q, kept);
      if q.campaign == cid && q.id in kept && kept[q.id].callTags * selected != {} {
        candidates := candidates + [Candidate(q.sourceUuid, q.context)];
      }
    }
    assert rows[..|rows|] == rows;
    AnswersAreWanted(rows, latest, voicemail, noAnswer, busy);
  }

  lemma {:induction false} NoTagsNoCandidates(from: seq<QueuedRun>, latest: map<nat, CallRun>)
    ensures SelectCandidates(from, latest, {}) == []
  {
    if from != [] {
      NoTagsNoCandidates(from[..|from| - 1], latest);
    }
  }

  /** A walk ends at a parentless run of the campaign. */
  lemma {:induction false} WalkEndsAtRoot(rows: seq<QueuedRun>, cid: nat, r: nat)
    requires Table(rows) && Walk(rows, cid, r).Some?
    ensures var root := Find(rows, Walk(rows, cid, r).value.root);
            root.Some? && root.value.campaign == cid && root.value.parent.None?
    decreases r
  {
    var q := Find(rows, r).value;
    if q.parent.Some? {
      WalkEndsAtRoot(rows, cid, q.parent.value);
    }
  }

  /** A stored run with a latest call is a parentless run of the campaign. */
  lemma RootsOnly(rows: seq<QueuedRun>, calls: seq<CallRun>, cid: nat, q: QueuedRun, latest: map<nat, CallRun>)
    requires Table(rows) && q in rows && IsLatest(rows, calls, cid, latest)
    ensures q.id in latest ==> q.campaign == cid && q.parent.None?
  {
    if q.id in latest {
      assert Newest(rows, calls, cid, q.id, latest[q.id]);
      WalkEndsAtRoot(rows, cid, latest[q.id].queuedRun.value);
      FindStored(rows, q);
    }
  }

  /** Every parent is stored and belongs to the same campaign, as the retry scheduler writes it. */
  predicate ParentsInCampaign(rows: seq<QueuedRun>) {
    forall q :: q in rows && q.parent.Some? ==>
      Find(rows, q.parent.value).Some? && Find(rows, q.parent.value).value.campaign == q.campaign
  }

  /** No run of the campaign is lost: each hangs under a root, and under no other. */
  lemma {:induction false} EveryRunUnderOneRoot(rows: seq<QueuedRun>, q: QueuedRun) returns (root: nat)
    requires Table(rows) && ParentsInCampaign(rows) && q in rows
    ensures forall other :: Under(rows, q.campaign, other, q.id) <==> other == root
    decreases q.id
  {
    FindStored(rows, q);
    root := q.id;
    if q.parent.Some? {
      root := EveryRunUnderOneRoot(rows, Find(rows, q.parent.value).value);
      assert Under(rows, q.campaign, root, q.parent.value);
    }
  }

  /** What the answer list contains, row by row. */
  lemma {:induction false} SelectedExactly(from: seq<QueuedRun>, latest: map<nat, CallRun>, selected: set<string>,
                                           c: Candidate)
    ensures c in SelectCandidates(from, latest, selected) <==>
            exists q :: q in from && IsCandidate(latest, selected, q) && c == Candidate(q.sourceUuid, q.context)
  {
    if from != [] {
      var init, last := from[..|from| - 1], from[|from| - 1];
      SelectedExactly(init, latest, selected, c);
      assert from == init + [last];
    }
  }

  /** A candidate is a parentless run of the campaign. */
  lemma CandidateIsRoot(rows: seq<QueuedRun>, calls: seq<CallRun>, cid: nat, selected: set<string>, q: QueuedRun,
                        latest: map<nat, CallRun>)
    requires Table(rows) && q in rows && IsLatest(rows, calls, cid, latest) && IsCandidate(latest, selected, q)
    ensures q.campaign == cid && q.parent.None?
  {
    RootsOnly(rows, calls, cid, q, latest);
  }
}
