/**
 Redial campaigns: creating a child campaign from the candidates of a completed one, linking the
 two through their metadata, and what those links look like after any sequential history.
 */
module RedialChain {
  import opened Common
  import opened QueuedRuns
  import opened RedialSelection

  type Metadata = map<string, Json>

  datatype CampaignState = Created | Syncing | Running | Paused | Completed | CampaignFailed

  /** What a campaign is created from. */
  datatype Form = Form(
    name: string,
    workflow: nat,
    sourceType: string,
    sourceId: string,
    creator: nat,
    telephony: Option<nat>)

  datatype Campaign = Campaign(
    organization: nat,
    form: Form,
    state: CampaignState,
    retryConfig: Json,
    metadata: Metadata,
    totalRows: Option<nat>,
    rate: int,  // calls per second
    sync: string)

  /** What a redial or a settings form asks for; `None` is left out. */
  datatype Request = Request(name: Option<string>, retry: Option<Json>)

  /** The name and the retry configuration a redial settles on. */
  datatype Terms = Terms(name: string, retry: Json)

  /** The tables a redial touches.  Primary keys are serial: the next id is above all stored ones. */
  datatype Store = Store(
    campaigns: map<nat, Campaign>,
    runs: seq<QueuedRun>,
    calls: seq<CallRun>,
    nextCampaign: nat,
    nextRun: nat)

  datatype Error =
    | NotFound
    | NotUpdatable
    | NotCompleted
    | AlreadyRedialed
    | NoCandidates
    | ForeignKey
    | UniqueViolation

  const REDIALED := "redialed_campaign_id"
  const PARENT := "parent_campaign_id"
  const MAX_CONCURRENCY := "max_concurrency"
  const SCHEDULE := "schedule_config"
  const BREAKER := "circuit_breaker"
  const CALLBACK := "callback_config"
  const PAUSED_REASON := "paused_reason"

  const INHERITED: set<string> := {MAX_CONCURRENCY, SCHEDULE, BREAKER}
  const SETTINGS: set<string> := INHERITED + {CALLBACK}
  const LINKS: set<string> := {REDIALED, PARENT}

  /** A campaign created without a retry configuration gets the column default. */
  const DEFAULT_RETRY: Json := Obj(map[
    "enabled" := Bool(true), "max_retries" := Num(2), "retry_on_busy" := Bool(true),
    "retry_on_no_answer" := Bool(true), "retry_on_voicemail" := Bool(true), "retry_delay_seconds" := Num(120)])

  function Lookup(m: Metadata, key: string): Json {
    if key in m then m[key] else Null
  }

  function LinkOf(m: Metadata, key: string): Option<nat> {
    match Lookup(m, key)
    case Num(n) => if n > 0 then Some(n) else None
    case _ => None
  }

  function RedialedTo(c: Campaign): Option<nat> { LinkOf(c.metadata, REDIALED) }

  function ParentOf(c: Campaign): Option<nat> { LinkOf(c.metadata, PARENT) }

  // ---------------------------------------------------------------------------
  // Operations on stored values
  // ---------------------------------------------------------------------------

  /** The uniqueness rule on (campaign, source, retry count). */
  predicate UniqueRuns(runs: seq<QueuedRun>) {
    forall i, j :: 0 <= i < j < |runs| ==>
      !(runs[i].campaign == runs[j].campaign && runs[i].sourceUuid == runs[j].sourceUuid
        && runs[i].retryCount == runs[j].retryCount)
  }

  function ChildMetadata(parentId: nat, parent: Metadata): Metadata {
    (map k | k in parent && k in INHERITED :: parent[k])[PARENT := Num(parentId)]
  }

  /** The child inherits everything the parent was created from but the name and the telephony configuration. */
  function ChildCampaign(parentId: nat, parent: Campaign, terms: Terms, seeds: nat): Campaign {
    Campaign(parent.organization, parent.form.(name := terms.name, telephony := None), Created,
             if Truthy(terms.retry) then terms.retry else DEFAULT_RETRY,
             ChildMetadata(parentId, parent.metadata), Some(seeds), parent.rate, "completed")
  }

  /** A name that is missing or empty is made from the parent's; a missing retry configuration is the parent's. */
  function Chosen(parent: Campaign, request: Request): Terms {
    Terms(if request.name.Some? && request.name.value != "" then request.name.value else parent.form.name + " (Redial)",
          if request.retry.Some? then request.retry.value else parent.retryConfig)
  }

  /** A seed is a first attempt, queued for a regular claim. */
  function Seed(id: nat, child: nat, c: Candidate): QueuedRun {
    QueuedRun(id, child, c.sourceUuid, c.context, Queued, 0, None, None, None)
  }

  function SeedRows(child: nat, first: nat, candidates: seq<Candidate>): seq<QueuedRun> {
    seq(|candidates|, i requires 0 <= i < |candidates| =>
      Seed(first + i, child, candidates[i]))
  }

  function MarkRedialed(parent: Campaign, child: nat): Campaign {
    parent.(metadata := parent.metadata[REDIALED := Num(child)])
  }

  /** Child, seeds and parent link, in one transaction. */
  function Linked(s: Store, parentId: nat, terms: Terms, candidates: seq<Candidate>): Store
    requires parentId in s.campaigns
  {
    var parent := s.campaigns[parentId];
    var child := s.nextCampaign;
    s.(campaigns := s.campaigns[child := ChildCampaign(parentId, parent, terms, |candidates|)]
                               [parentId := MarkRedialed(parent, child)],
       runs := s.runs + SeedRows(child, s.nextRun, candidates),
       nextCampaign := child + 1,
       nextRun := s.nextRun + |candidates|)
  }

  /** The route's guards, the selection, and the atomic creation, as one step; `latest` is what the query keeps. */
  function Redial(s: Store, org: nat, parentId: nat, selected: set<string>, request: Request,
                  latest: map<nat, CallRun>): Result<Store, Error>
  {
    if parentId !in s.campaigns || s.campaigns[parentId].organization != org then Err(NotFound)
    else
      var parent := s.campaigns[parentId];
      if parent.state != Completed then Err(NotCompleted)
      else if Truthy(Lookup(parent.metadata, REDIALED)) then Err(AlreadyRedialed)
      else
        var candidates := SelectCandidates(s.runs, latest, selected);
        if candidates == [] then Err(NoCandidates)
        else
          var after := Linked(s, parentId, Chosen(parent, request), candidates);
          if UniqueRuns(after.runs) then Ok(after) else Err(UniqueViolation)
  }

  function CreateCampaign(s: Store, org: nat, form: Form, retryConfig: Json, settings: Metadata): Store {
    s.(campaigns := s.campaigns[s.nextCampaign :=
         Campaign(org, form, Created, if Truthy(retryConfig) then retryConfig else DEFAULT_RETRY,
                  OnlySettings(settings), None, 1, "pending")],
       nextCampaign := s.nextCampaign + 1)
  }

  /** Inserts `row` under the next serial id. */
  function CreateQueuedRun(s: Store, row: QueuedRun): Result<Store, Error> {
    if row.campaign !in s.campaigns then Err(ForeignKey)
    else if row.parent.Some? && Find(s.runs, row.parent.value).None? then Err(ForeignKey)
    else
      var runs := s.runs + [row.(id := s.nextRun)];
      if UniqueRuns(runs) then Ok(s.(runs := runs, nextRun := s.nextRun + 1)) else Err(UniqueViolation)
  }

  function SetState(s: Store, org: nat, id: nat, state: CampaignState): Result<Store, Error> {
    if id !in s.campaigns || s.campaigns[id].organization != org then Err(NotFound)
    else Ok(s.(campaigns := s.campaigns[id := s.campaigns[id].(state := state)]))
  }

  /** The settings form of a campaign that is not over: name and retry configuration replace, settings are merged. */
  function UpdateSettings(s: Store, org: nat, id: nat, request: Request, settings: Metadata): Result<Store, Error> {
    if id !in s.campaigns || s.campaigns[id].organization != org then Err(NotFound)
    else if s.campaigns[id].state in {Completed, CampaignFailed} then Err(NotUpdatable)
    else
      Ok(s.(campaigns := s.campaigns[id := WithSettings(s.campaigns[id], request, settings)]))
  }

  function WithSettings(c: Campaign, request: Request, settings: Metadata): Campaign {
    c.(metadata := c.metadata + OnlySettings(settings),
       form := if request.name.Some? then c.form.(name := request.name.value) else c.form,
       retryConfig := if request.retry.Some? then request.retry.value else c.retryConfig)
  }

  /** The orchestrator pauses a campaign and notes the reason in its metadata. */
  function PauseByBreaker(s: Store, id: nat): Store {
    if id !in s.campaigns || s.campaigns[id].state == Paused then s
    else s.(campaigns := s.campaigns[id := PausedByBreaker(s.campaigns[id])])
  }

  function PausedByBreaker(c: Campaign): Campaign {
    c.(state := Paused, metadata := c.metadata[PAUSED_REASON := Str("circuit_breaker")])
  }

  function OnlySettings(settings: Metadata): Metadata {
    map k | k in settings && k in SETTINGS :: settings[k]
  }

  function Counter(m: Metadata, key: string): int {
    match Lookup(m, key)
    case Num(n) => n
    case _ => 0
  }

  function IncrementCounter(s: Store, id: nat, key: string): Result<Store, Error> {
    if id !in s.campaigns then Err(NotFound)
    else Ok(s.(campaigns := s.campaigns[id := Counted(s.campaigns[id], key)]))
  }

  function Counted(c: Campaign, key: string): Campaign {
    c.(metadata := c.metadata[key := Num(Counter(c.metadata, key) + 1)])
  }

  function Uncounted(c: Campaign, key: string): Campaign {
    c.(metadata := c.metadata - {key})
  }

  function ResetCounter(s: Store, id: nat, key: string): Store {
    if id !in s.campaigns then s
    else s.(campaigns := s.campaigns[id := Uncounted(s.campaigns[id], key)])
  }

  // ---------------------------------------------------------------------------
  // Histories
  // ---------------------------------------------------------------------------

  datatype Op =
    | OpCreateCampaign(org: nat, form: Form, retryConfig: Json, settings: Metadata)
    | OpCreateRun(row: QueuedRun)
    | OpRecordCall(call: CallRun)
    | OpSetState(org: nat, id: nat, state: CampaignState)
    | OpSettings(org: nat, id: nat, request: Request, settings: Metadata)
    | OpCount(id: nat, key: string)
    | OpReset(id: nat, key: string)
    | OpPause(id: nat)  // the circuit breaker tripped
    | OpRedial(org: nat, id: nat, selected: set<string>, request: Request, latest: map<nat, CallRun>)

  /** Counters are kept under keys of their own. */
  predicate Allowed(op: Op) {
    match op
    case OpCount(_, key) => key !in LINKS
    case OpReset(_, key) => key !in LINKS
    case _ => true
  }

  function Committed(r: Result<Store, Error>, otherwise: Store): Store {
    if r.Ok? then r.value else otherwise
  }

  /** One transaction; a failed one is rolled back and leaves the store as it was. */
  function Step(s: Store, op: Op): Store {
    match op
    case OpCreateCampaign(org, form, retry, settings) => CreateCampaign(s, org, form, retry, settings)
    case OpCreateRun(row) => Committed(CreateQueuedRun(s, row), s)
    case OpRecordCall(call) => s.(calls := s.calls + [call])
    case OpSetState(org, id, state) => Committed(SetState(s, org, id, state), s)
    case OpSettings(org, id, request, settings) => Committed(UpdateSettings(s, org, id, request, settings), s)
    case OpCount(id, key) => Committed(IncrementCounter(s, id, key), s)
    case OpReset(id, key) => ResetCounter(s, id, key)
    case OpPause(id) => PauseByBreaker(s, id)
    case OpRedial(org, id, selected, request, latest) => Committed(Redial(s, org, id, selected, request, latest), s)
  }

  const NO_CHANGE := Request(None, None)

  const EMPTY: Store := Store(map[], [], [], 1, 1)

  /** A link key holds a campaign id or is absent. */
  predicate LinksTyped(c: Campaign) {
    && (REDIALED in c.metadata ==> RedialedTo(c).Some?)
    && (PARENT in c.metadata ==> ParentOf(c).Some?)
  }

  /** The two link fields of a campaign. */
  datatype Link = Link(parent: Option<nat>, redialed: Option<nat>)

  function LinksOf(c: Campaign): Link {
    Link(ParentOf(c), RedialedTo(c))
  }

  function LinkTable(campaigns: map<nat, Campaign>): map<nat, Link> {
    map id | id in campaigns :: LinksOf(campaigns[id])
  }

  /** The two link fields are inverse to each other, and a child is younger than its parent. */
  ghost predicate LinksInverse(links: map<nat, Link>) {
    && (forall p {:trigger links[p]} :: p in links ==>
          && (links[p].redialed.Some? ==> links[p].redialed.value in links && p < links[p].redialed.value)
          && (links[p].parent.Some? ==> links[p].parent.value in links && links[p].parent.value < p))
    && (forall p, c {:trigger links[p], links[c]} :: p in links && c in links ==>
          (links[p].redialed == Some(c) <==> links[c].parent == Some(p)))
  }

  ghost predicate CampaignsOk(campaigns: map<nat, Campaign>, next: nat) {
    && next > 0
    && (forall id :: id in campaigns ==> 0 < id < next && LinksTyped(campaigns[id]))
    && LinksInverse(LinkTable(campaigns))
  }

  ghost predicate RunsOk(runs: seq<QueuedRun>, next: nat) {
    && Table(runs) && UniqueRuns(runs)
    && forall i :: 0 <= i < |runs| ==> runs[i].id < next
  }

  /** Foreign key from runs to campaigns. */
  ghost predicate RunsStored(runs: seq<QueuedRun>, campaigns: map<nat, Campaign>) {
    forall i :: 0 <= i < |runs| ==> runs[i].campaign in campaigns
  }

  ghost predicate Invariant(s: Store) {
    CampaignsOk(s.campaigns, s.nextCampaign) && RunsOk(s.runs, s.nextRun) && RunsStored(s.runs, s.campaigns)
  }

  lemma KeysApart()
    ensures REDIALED != PARENT && REDIALED !in SETTINGS && PARENT !in SETTINGS && PARENT !in INHERITED
    ensures PAUSED_REASON !in LINKS
  {
  }

  lemma LinkingKeepsInverse(links: map<nat, Link>, p: nat, next: nat)
    requires LinksInverse(links) && p in links && links[p].redialed == None && p < next && next !in links
    ensures LinksInverse(links[next := Link(Some(p), None)][p := Link(links[p].parent, Some(next))])
  {
  }

  lemma NewKeepsInverse(links: map<nat, Link>, next: nat)
    requires LinksInverse(links) && next !in links
    ensures LinksInverse(links[next := Link(None, None)])
  {
  }

  lemma MarkedLinks(c: Campaign, child: nat)
    requires LinksTyped(c) && child > 0
    ensures LinksTyped(MarkRedialed(c, child)) && LinksOf(MarkRedialed(c, child)) == Link(ParentOf(c), Some(child))
  {
  }

  lemma LinkTableOfUpdate(campaigns: map<nat, Campaign>, id: nat, c: Campaign)
    ensures LinkTable(campaigns[id := c]) == LinkTable(campaigns)[id := LinksOf(c)]
  {
  }

  lemma LinkingKeepsCampaigns(campaigns: map<nat, Campaign>, next: nat, p: nat, child: Campaign, marked: Campaign)
    requires CampaignsOk(campaigns, next) && p in campaigns && RedialedTo(campaigns[p]) == None
    requires LinksTyped(child) && LinksOf(child) == Link(Some(p), None)
    requires LinksTyped(marked) && LinksOf(marked) == Link(ParentOf(campaigns[p]), Some(next))
    ensures CampaignsOk(campaigns[next := child][p := marked], next + 1)
  {
    LinkTableOfUpdate(campaigns, next, child);
    LinkTableOfUpdate(campaigns[next := child], p, marked);
    LinkingKeepsInverse(LinkTable(campaigns), p, next);
  }

  lemma SeedsKeepRuns(runs: seq<QueuedRun>, next: nat, child: nat, candidates: seq<Candidate>)
    requires RunsOk(runs, next) && UniqueRuns(runs + SeedRows(child, next, candidates))
    ensures RunsOk(runs + SeedRows(child, next, candidates), next + |candidates|)
  {
  }

  lemma SameLinksKeepCampaigns(campaigns: map<nat, Campaign>, next: nat, id: nat, c: Campaign)
    requires CampaignsOk(campaigns, next) && id in campaigns && LinksTyped(c)
    requires LinksOf(c) == LinksOf(campaigns[id])
    ensures CampaignsOk(campaigns[id := c], next)
  {
    LinkTableOfUpdate(campaigns, id, c);
    assert LinkTable(campaigns)[id := LinksOf(c)] == LinkTable(campaigns);
  }

  lemma NewKeepsCampaigns(campaigns: map<nat, Campaign>, next: nat, c: Campaign)
    requires CampaignsOk(campaigns, next) && LinksTyped(c) && LinksOf(c) == Link(None, None)
    ensures CampaignsOk(campaigns[next := c], next + 1)
  {
    LinkTableOfUpdate(campaigns, next, c);
    NewKeepsInverse(LinkTable(campaigns), next);
  }

  lemma ChildLinks(parentId: nat, parent: Campaign, terms: Terms, seeds: nat)
    requires parentId > 0
    ensures var child := ChildCampaign(parentId, parent, terms, seeds);
            LinksTyped(child) && LinksOf(child) == Link(Some(parentId), None)
  {
    KeysApart();
  }

  lemma LinkedKeepsInvariant(s: Store, id: nat, terms: Terms, candidates: seq<Candidate>)
    requires Invariant(s) && id in s.campaigns && RedialedTo(s.campaigns[id]) == None
    requires UniqueRuns(Linked(s, id, terms, candidates).runs)
    ensures Invariant(Linked(s, id, terms, candidates))
  {
    var parent := s.campaigns[id];
    ChildLinks(id, parent, terms, |candidates|);
    MarkedLinks(parent, s.nextCampaign);
    LinkingKeepsCampaigns(s.campaigns, s.nextCampaign, id, ChildCampaign(id, parent, terms, |candidates|),
                          MarkRedialed(parent, s.nextCampaign));
    SeedsKeepRuns(s.runs, s.nextRun, s.nextCampaign, candidates);
  }

  /** What a successful redial stored. */
  lemma RedialLinked(s: Store, org: nat, id: nat, selected: set<string>, request: Request, latest: map<nat, CallRun>)
    requires Redial(s, org, id, selected, request, latest).Ok?
    ensures id in s.campaigns && s.campaigns[id].organization == org
    ensures !Truthy(Lookup(s.campaigns[id].metadata, REDIALED))
    ensures var terms := Chosen(s.campaigns[id], request);
            var candidates := SelectCandidates(s.runs, latest, selected);
            && candidates != [] && UniqueRuns(Linked(s, id, terms, candidates).runs)
            && Redial(s, org, id, selected, request, latest).value == Linked(s, id, terms, candidates)
  {
  }

  lemma RedialKeepsInvariant(s: Store, org: nat, id: nat, selected: set<string>, request: Request,
                             latest: map<nat, CallRun>)
    requires Invariant(s)
    ensures var r := Redial(s, org, id, selected, request, latest); r.Ok? ==> Invariant(r.value)
  {
    if Redial(s, org, id, selected, request, latest).Ok? {
      RedialLinked(s, org, id, selected, request, latest);
      LinkedKeepsInvariant(s, id, Chosen(s.campaigns[id], request),
                           SelectCandidates(s.runs, latest, selected));
    }
  }

  /** None of the metadata writes touches a link key. */
  lemma WritesKeepLinks(c: Campaign, request: Request, settings: Metadata, key: string)
    requires LinksTyped(c) && key !in LINKS
    ensures LinksOf(WithSettings(c, request, settings)) == LinksOf(c) && LinksTyped(WithSettings(c, request, settings))
    ensures LinksOf(Counted(c, key)) == LinksOf(c) && LinksTyped(Counted(c, key))
    ensures LinksOf(Uncounted(c, key)) == LinksOf(c) && LinksTyped(Uncounted(c, key))
    ensures LinksOf(PausedByBreaker(c)) == LinksOf(c) && LinksTyped(PausedByBreaker(c))
  {
    KeysApart();
  }

  lemma ChangeKeepsInvariant(s: Store, id: nat, c: Campaign)
    requires Invariant(s) && id in s.campaigns && LinksTyped(c) && LinksOf(c) == LinksOf(s.campaigns[id])
    ensures Invariant(s.(campaigns := s.campaigns[id := c]))
  {
    SameLinksKeepCampaigns(s.campaigns, s.nextCampaign, id, c);
  }

  lemma CreateKeepsInvariant(s: Store, org: nat, form: Form, retry: Json, settings: Metadata)
    requires Invariant(s)
    ensures Invariant(CreateCampaign(s, org, form, retry, settings))
  {
    KeysApart();
    var created := CreateCampaign(s, org, form, retry, settings).campaigns[s.nextCampaign];
    NewKeepsCampaigns(s.campaigns, s.nextCampaign, created);
  }

  lemma StepKeepsInvariant(s: Store, op: Op)
    requires Invariant(s) && Allowed(op)
    ensures Invariant(Step(s, op))
  {
    match op
    case OpCreateCampaign(org, form, retry, settings) =>
      CreateKeepsInvariant(s, org, form, retry, settings);
    case OpCreateRun(row) =>
      CreateRunKeepsInvariant(s, row);
    case OpRecordCall(call) =>
    case OpSetState(org, id, state) =>
      if id in s.campaigns {
        ChangeKeepsInvariant(s, id, s.campaigns[id].(state := state));
      }
    case OpSettings(org, id, request, settings) =>
      if id in s.campaigns {
        WritesKeepLinks(s.campaigns[id], request, settings, "");
        ChangeKeepsInvariant(s, id, WithSettings(s.campaigns[id], request, settings));
      }
    case OpPause(id) =>
      if id in s.campaigns {
        WritesKeepLinks(s.campaigns[id], NO_CHANGE, map[], "");
        ChangeKeepsInvariant(s, id, PausedByBreaker(s.campaigns[id]));
      }
    case OpCount(id, key) =>
      if id in s.campaigns {
        WritesKeepLinks(s.campaigns[id], NO_CHANGE, map[], key);
        ChangeKeepsInvariant(s, id, Counted(s.campaigns[id], key));
      }
    case OpReset(id, key) =>
      if id in s.campaigns {
        WritesKeepLinks(s.campaigns[id], NO_CHANGE, map[], key);
        ChangeKeepsInvariant(s, id, Uncounted(s.campaigns[id], key));
      }
    case OpRedial(org, id, selected, request, latest) =>
      RedialKeepsInvariant(s, org, id, selected, request, latest);
  }

  lemma CreateRunKeepsInvariant(s: Store, row: QueuedRun)
    requires Invariant(s)
    ensures Invariant(Committed(CreateQueuedRun(s, row), s))
  {
  }

  /** The store after the operations of a history, oldest first. */
  ghost function Run(ops: seq<Op>): (s: Store)
    requires forall op :: op in ops ==> Allowed(op)
    ensures Invariant(s)
  {
    if ops == [] then EMPTY
    else
      var before := Run(ops[..|ops| - 1]);
      StepKeepsInvariant(before, ops[|ops| - 1]);
      Step(before, ops[|ops| - 1])
  }

  // ---------------------------------------------------------------------------
  // What one redial does
  // ---------------------------------------------------------------------------

  function RunsOf(runs: seq<QueuedRun>, campaign: nat): seq<QueuedRun> {
    if runs == [] then []
    else (if runs[0].campaign == campaign then [runs[0]] else []) + RunsOf(runs[1..], campaign)
  }

  lemma {:induction false} RunsOfSeeded(runs: seq<QueuedRun>, seeds: seq<QueuedRun>, child: nat)
    requires forall q :: q in runs ==> q.campaign != child
    requires forall q :: q in seeds ==> q.campaign == child
    ensures RunsOf(runs + seeds, child) == seeds
  {
    if runs != [] {
      assert (runs + seeds)[1..] == runs[1..] + seeds;
      RunsOfSeeded(runs[1..], seeds, child);
    } else if seeds != [] {
      assert runs + seeds == seeds;
      assert [] + seeds[1..] == seeds[1..];
      RunsOfSeeded([], seeds[1..], child);
    }
  }

  predicate IsSeed(q: QueuedRun, c: Candidate) {
    && Candidate(q.sourceUuid, q.context) == c && q.parent == None && q.retryCount == 0
    && q.state == Queued && q.scheduledFor == None
  }

  ghost predicate AreSeeds(seeds: seq<QueuedRun>, candidates: seq<Candidate>) {
    |seeds| == |candidates| && forall i :: 0 <= i < |candidates| ==> IsSeed(seeds[i], candidates[i])
  }

  /** The runs of the child are the candidates in order, each a fresh queued root. */
  lemma SeededRuns(s: Store, id: nat, terms: Terms, candidates: seq<Candidate>)
    requires Invariant(s) && id in s.campaigns
    ensures AreSeeds(RunsOf(Linked(s, id, terms, candidates).runs, s.nextCampaign), candidates)
  {
    var seeds := SeedRows(s.nextCampaign, s.nextRun, candidates);
    RunsOfSeeded(s.runs, seeds, s.nextCampaign);
    assert AreSeeds(seeds, candidates);
  }

  /**
   The child campaign in terms of its parent: workflow, source, creator and rate are the parent's, the telephony
   configuration is not; of the metadata it inherits only the three orchestrator settings.
   */
  predicate IsChild(child: Campaign, parentId: nat, parent: Campaign, request: Request, seeds: nat) {
    && child.state == Created && child.organization == parent.organization
    && child.form.workflow == parent.form.workflow && child.form.creator == parent.form.creator
    && child.form.sourceType == parent.form.sourceType && child.form.sourceId == parent.form.sourceId
    && child.form.telephony == None && child.rate == parent.rate && child.sync == "completed"
    && (request.name.Some? && request.name.value != "" ==> child.form.name == request.name.value)
    && (request.name.None? || request.name.value == "" ==> child.form.name == parent.form.name + " (Redial)")
    && (var retry := if request.retry.Some? then request.retry.value else parent.retryConfig;
        child.retryConfig == if Truthy(retry) then retry else DEFAULT_RETRY)
    && child.totalRows == Some(seeds)
    && (var inherited := {"max_concurrency", "schedule_config", "circuit_breaker"};
        && child.metadata.Keys == parent.metadata.Keys * inherited + {"parent_campaign_id"}
        && (forall k :: k in parent.metadata && k in inherited ==> child.metadata[k] == parent.metadata[k]))
    && child.metadata["parent_campaign_id"] == Num(parentId)
  }

  lemma ChildIsChild(parentId: nat, parent: Campaign, request: Request, seeds: nat)
    ensures IsChild(ChildCampaign(parentId, parent, Chosen(parent, request), seeds),
                    parentId, parent, request, seeds)
  {
    KeysApart();
  }

  /**
   A successful redial adds one campaign in the created state whose runs are exactly the selected candidates, in
   order, each a fresh queued root, and whose row total counts them; of the parent's metadata it inherits only the
   three orchestrator settings.  The parent changes in nothing but its link, and no other campaign changes.
   */
  lemma RedialSeedsChild(s: Store, org: nat, id: nat, selected: set<string>, request: Request,
                         latest: map<nat, CallRun>)
    requires Invariant(s) && Redial(s, org, id, selected, request, latest).Ok?
    ensures var t, child := Redial(s, org, id, selected, request, latest).value, s.nextCampaign;
            var candidates := SelectCandidates(s.runs, latest, selected);
            && t.campaigns.Keys == s.campaigns.Keys + {child} && child !in s.campaigns
            && (forall k :: k in s.campaigns && k != id ==> t.campaigns[k] == s.campaigns[k])
            && t.campaigns[id]
               == s.campaigns[id].(metadata := s.campaigns[id].metadata["redialed_campaign_id" := Num(child)])
            && candidates != [] && AreSeeds(RunsOf(t.runs, child), candidates)
            && IsChild(t.campaigns[child], id, s.campaigns[id], request, |RunsOf(t.runs, child)|)
  {
    RedialLinked(s, org, id, selected, request, latest);
    var candidates := SelectCandidates(s.runs, latest, selected);
    SeededRuns(s, id, Chosen(s.campaigns[id], request), candidates);
    ChildIsChild(id, s.campaigns[id], request, |candidates|);
  }

  predicate DistinctSources(candidates: seq<Candidate>) {
    forall i, j :: 0 <= i < j < |candidates| ==> candidates[i].sourceUuid != candidates[j].sourceUuid
  }

  /** First attempts of the campaign carry retry count 0. */
  predicate RootsAreFirstAttempts(runs: seq<QueuedRun>, campaign: nat) {
    forall q :: q in runs && q.campaign == campaign && q.parent.None? ==> q.retryCount == 0
  }

  lemma EarlierCandidateDiffers(s: Store, n: nat, id: nat, selected: set<string>, latest: map<nat, CallRun>,
                                c: Candidate)
    requires Invariant(s) && RootsAreFirstAttempts(s.runs, id) && 0 < n <= |s.runs|
    requires IsLatest(s.runs, s.calls, id, latest)
    requires s.runs[n - 1].campaign == id && s.runs[n - 1].retryCount == 0
    requires c in SelectCandidates(s.runs[..n - 1], latest, selected)
    ensures c.sourceUuid != s.runs[n - 1].sourceUuid
  {
    var init := s.runs[..n - 1];
    SelectedExactly(init, latest, selected, c);
    var other :| && other in init && IsCandidate(latest, selected, other)
                 && c == Candidate(other.sourceUuid, other.context);
    CandidateIsRoot(s.runs, s.calls, id, selected, other, latest);
    var i :| 0 <= i < n - 1 && s.runs[i] == other;
  }

  lemma {:induction false} CandidatesHaveDistinctSources(
      s: Store, n: nat, id: nat, selected: set<string>, latest: map<nat, CallRun>)
    requires Invariant(s) && RootsAreFirstAttempts(s.runs, id) && n <= |s.runs|
    requires IsLatest(s.runs, s.calls, id, latest)
    ensures DistinctSources(SelectCandidates(s.runs[..n], latest, selected))
  {
    if n > 0 {
      var init, q := s.runs[..n - 1], s.runs[n - 1];
      assert s.runs[..n][..n - 1] == init;
      CandidatesHaveDistinctSources(s, n - 1, id, selected, latest);
      if IsCandidate(latest, selected, q) {
        CandidateIsRoot(s.runs, s.calls, id, selected, q, latest);
        forall c | c in SelectCandidates(init, latest, selected)
          ensures c.sourceUuid != q.sourceUuid
        {
          EarlierCandidateDiffers(s, n, id, selected, latest, c);
        }
      }
    }
  }

  lemma FreshSeedsAreUnique(runs: seq<QueuedRun>, child: nat, first: nat, candidates: seq<Candidate>)
    requires UniqueRuns(runs) && DistinctSources(candidates)
    requires forall i :: 0 <= i < |runs| ==> runs[i].campaign != child
    ensures UniqueRuns(runs + SeedRows(child, first, candidates))
  {
    var all := runs + SeedRows(child, first, candidates);
    forall i, j | 0 <= i < j < |all|
      ensures !(all[i].campaign == all[j].campaign && all[i].sourceUuid == all[j].sourceUuid
                && all[i].retryCount == all[j].retryCount)
    {
      if |runs| <= i {
        assert candidates[i - |runs|].sourceUuid != candidates[j - |runs|].sourceUuid;
      } else if |runs| <= j {
        assert all[i] == runs[i] && all[j].campaign == child;
      }
    }
  }

  /** Seeding never breaks the uniqueness rule when the campaign's roots are first attempts. */
  lemma RedialMeetsUniqueness(s: Store, org: nat, id: nat, selected: set<string>, request: Request,
                              latest: map<nat, CallRun>)
    requires Invariant(s) && RootsAreFirstAttempts(s.runs, id) && IsLatest(s.runs, s.calls, id, latest)
    ensures Redial(s, org, id, selected, request, latest) != Err(UniqueViolation)
  {
    CandidatesHaveDistinctSources(s, |s.runs|, id, selected, latest);
    assert s.runs[..|s.runs|] == s.runs;
    FreshSeedsAreUnique(s.runs, s.nextCampaign, s.nextRun, SelectCandidates(s.runs, latest, selected));
  }

  // ---------------------------------------------------------------------------
  // Which answer a redial gets
  // ---------------------------------------------------------------------------

  /** The organization owns a campaign with this id. */
  predicate Mine(s: Store, org: nat, id: nat) {
    id in s.campaigns && s.campaigns[id].organization == org
  }

  /** The stored column says that the campaign was redialed. */
  predicate Redialed(c: Campaign) {
    "redialed_campaign_id" in c.metadata && Truthy(c.metadata["redialed_campaign_id"])
  }

  /** The campaign may be redialed as far as its own columns say. */
  predicate Redialable(s: Store, org: nat, id: nat) {
    Mine(s, org, id) && s.campaigns[id].state == Completed && !Redialed(s.campaigns[id])
  }

  /** The kept newest call of the root at position `i` has a selected tag. */
  predicate Selects(s: Store, latest: map<nat, CallRun>, selected: set<string>, i: nat)
    requires i < |s.runs|
  {
    s.runs[i].id in latest && exists tag :: tag in latest[s.runs[i].id].callTags && tag in selected
  }

  ghost predicate SomeSelected(s: Store, latest: map<nat, CallRun>, selected: set<string>) {
    exists i: nat :: i < |s.runs| && Selects(s, latest, selected, i)
  }

  /** Two selected roots share a source. */
  ghost predicate SharedSource(s: Store, latest: map<nat, CallRun>, selected: set<string>) {
    exists i: nat, j: nat :: i < j < |s.runs| && Selects(s, latest, selected, i) && Selects(s, latest, selected, j)
                             && s.runs[i].sourceUuid == s.runs[j].sourceUuid
  }

  lemma SelectsIsCandidate(s: Store, latest: map<nat, CallRun>, selected: set<string>, i: nat)
    requires i < |s.runs|
    ensures Selects(s, latest, selected, i) <==> IsCandidate(latest, selected, s.runs[i])
  {
    if Selects(s, latest, selected, i) {
      var tag :| tag in latest[s.runs[i].id].callTags && tag in selected;
      assert tag in latest[s.runs[i].id].callTags * selected;
    }
  }

  lemma EmptyExactlyWhen(s: Store, latest: map<nat, CallRun>, selected: set<string>)
    ensures SelectCandidates(s.runs, latest, selected) == [] <==> !SomeSelected(s, latest, selected)
  {
    var found := SelectCandidates(s.runs, latest, selected);
    if i: nat :| i < |s.runs| && Selects(s, latest, selected, i) {
      SelectsIsCandidate(s, latest, selected, i);
      SelectedExactly(s.runs, latest, selected, Candidate(s.runs[i].sourceUuid, s.runs[i].context));
    }
    if found != [] {
      SelectedExactly(s.runs, latest, selected, found[0]);
      var q :| q in s.runs && IsCandidate(latest, selected, q);
      var i :| 0 <= i < |s.runs| && s.runs[i] == q;
      SelectsIsCandidate(s, latest, selected, i);
    }
  }

  /** No two selected roots before position `n` share a source. */
  ghost predicate NoneShares(s: Store, latest: map<nat, CallRun>, selected: set<string>, n: nat)
    requires n <= |s.runs|
  {
    forall i: nat, j: nat :: i < j < n && Selects(s, latest, selected, i) && Selects(s, latest, selected, j) ==>
      s.runs[i].sourceUuid != s.runs[j].sourceUuid
  }

  /** The root at position `n` shares its source with no selected one before it. */
  ghost predicate NewSource(s: Store, latest: map<nat, CallRun>, selected: set<string>, n: nat)
    requires n < |s.runs|
  {
    forall i: nat :: i < n && Selects(s, latest, selected, i) ==> s.runs[i].sourceUuid != s.runs[n].sourceUuid
  }

  lemma NoneSharesNext(s: Store, latest: map<nat, CallRun>, selected: set<string>, n: nat)
    requires n < |s.runs|
    ensures NoneShares(s, latest, selected, n + 1) <==>
            && NoneShares(s, latest, selected, n)
            && (Selects(s, latest, selected, n) ==> NewSource(s, latest, selected, n))
  {
  }

  lemma {:induction false} DistinctExactlyWhen(s: Store, latest: map<nat, CallRun>, selected: set<string>, n: nat)
    requires n <= |s.runs|
    ensures DistinctSources(SelectCandidates(s.runs[..n], latest, selected)) <==> NoneShares(s, latest, selected, n)
  {
    if n > 0 {
      var init, q := SelectCandidates(s.runs[..n - 1], latest, selected), s.runs[n - 1];
      var last := Candidate(q.sourceUuid, q.context);
      assert s.runs[..n][..n - 1] == s.runs[..n - 1] && s.runs[..n][n - 1] == q;
      DistinctExactlyWhen(s, latest, selected, n - 1);
      NoneSharesNext(s, latest, selected, n - 1);
      SelectsIsCandidate(s, latest, selected, n - 1);
      if Selects(s, latest, selected, n - 1) {
        assert SelectCandidates(s.runs[..n], latest, selected) == init + [last];
        LastDiffers(init, last);
        SourceSeen(s, latest, selected, n - 1, q.sourceUuid);
      } else {
        assert SelectCandidates(s.runs[..n], latest, selected) == init;
      }
    }
  }

  lemma LastDiffers(init: seq<Candidate>, last: Candidate)
    ensures DistinctSources(init + [last]) <==>
            DistinctSources(init) && forall c :: c in init ==> c.sourceUuid != last.sourceUuid
  {
    var all := init + [last];
    if DistinctSources(all) {
      forall i, j | 0 <= i < j < |init|
        ensures init[i].sourceUuid != init[j].sourceUuid
      {
        assert all[i] == init[i] && all[j] == init[j];
      }
      forall c | c in init
        ensures c.sourceUuid != last.sourceUuid
      {
        var i :| 0 <= i < |init| && init[i] == c;
        assert all[i] == c && all[|init|] == last;
      }
    }
  }

  /** A source is among the candidates exactly when a selected root has it. */
  lemma SourceSeen(s: Store, latest: map<nat, CallRun>, selected: set<string>, n: nat, source: string)
    requires n <= |s.runs|
    ensures (exists c :: c in SelectCandidates(s.runs[..n], latest, selected) && c.sourceUuid == source) <==>
            exists i: nat :: i < n && Selects(s, latest, selected, i) && s.runs[i].sourceUuid == source
  {
    if i: nat :| i < n && Selects(s, latest, selected, i) && s.runs[i].sourceUuid == source {
      SelectsIsCandidate(s, latest, selected, i);
      assert s.runs[..n][i] == s.runs[i];
      SelectedExactly(s.runs[..n], latest, selected, Candidate(source, s.runs[i].context));
    }
    if c :| c in SelectCandidates(s.runs[..n], latest, selected) && c.sourceUuid == source {
      SelectedExactly(s.runs[..n], latest, selected, c);
      var q :| q in s.runs[..n] && IsCandidate(latest, selected, q) && c == Candidate(q.sourceUuid, q.context);
      var i :| 0 <= i < n && s.runs[..n][i] == q;
      SelectsIsCandidate(s, latest, selected, i);
    }
  }

  lemma SeedsUniqueExactlyWhen(s: Store, id: nat, terms: Terms, candidates: seq<Candidate>)
    requires Invariant(s) && id in s.campaigns
    ensures UniqueRuns(Linked(s, id, terms, candidates).runs) <==> DistinctSources(candidates)
  {
    var child := s.nextCampaign;
    if DistinctSources(candidates) {
      FreshSeedsAreUnique(s.runs, child, s.nextRun, candidates);
    } else {
      var i, j :| 0 <= i < j < |candidates| && candidates[i].sourceUuid == candidates[j].sourceUuid;
      var all := Linked(s, id, terms, candidates).runs;
      assert all[|s.runs| + i] == Seed(s.nextRun + i, child, candidates[i]);
      assert all[|s.runs| + j] == Seed(s.nextRun + j, child, candidates[j]);
    }
  }

  /**
   Every outcome from the stored columns: a campaign is redialed exactly when the organization owns it, it is
   completed and not redialed yet, some root has a selected newest call and no two such roots share a source; each
   refusal has its own condition, in this order.
   */
  lemma RedialOutcome(s: Store, org: nat, id: nat, selected: set<string>, request: Request, latest: map<nat, CallRun>)
    requires Invariant(s)
    ensures var r, some := Redial(s, org, id, selected, request, latest), SomeSelected(s, latest, selected);
            && (r == Err(NotFound) <==> !Mine(s, org, id))
            && (r == Err(NotCompleted) <==> Mine(s, org, id) && s.campaigns[id].state != Completed)
            && (r == Err(AlreadyRedialed) <==>
                  Mine(s, org, id) && s.campaigns[id].state == Completed && Redialed(s.campaigns[id]))
            && (r == Err(NoCandidates) <==> Redialable(s, org, id) && !some)
            && (r == Err(UniqueViolation) <==> Redialable(s, org, id) && some && SharedSource(s, latest, selected))
            && (r.Ok? <==> Redialable(s, org, id) && some && !SharedSource(s, latest, selected))
  {
    if Redialable(s, org, id) {
      var candidates := SelectCandidates(s.runs, latest, selected);
      EmptyExactlyWhen(s, latest, selected);
      SeedsUniqueExactlyWhen(s, id, Chosen(s.campaigns[id], request), candidates);
      assert s.runs[..|s.runs|] == s.runs;
      DistinctExactlyWhen(s, latest, selected, |s.runs|);
    }
  }

  /** A redial link appears on a campaign exactly by a redial that is not refused. */
  lemma LinkAppearsExactlyWhen(s: Store, op: Op, id: nat)
    requires Invariant(s) && Allowed(op) && id in s.campaigns && RedialedTo(s.campaigns[id]) == None
    ensures id in Step(s, op).campaigns
    ensures RedialedTo(Step(s, op).campaigns[id]) != None <==>
            && op.OpRedial? && op.id == id && Redialable(s, op.org, id)
            && SomeSelected(s, op.latest, op.selected) && !SharedSource(s, op.latest, op.selected)
  {
    match op
    case OpRedial(org, p, selected, request, latest) =>
      RedialOutcome(s, org, p, selected, request, latest);
      if Redial(s, org, p, selected, request, latest).Ok? {
        RedialLinked(s, org, p, selected, request, latest);
        MarkedLinks(s.campaigns[p], s.nextCampaign);
      }
    case _ => WriteKeepsLink(s, op, id);
  }

  // ---------------------------------------------------------------------------
  // The chains formed by the links
  // ---------------------------------------------------------------------------

  datatype Position = Position(head: nat, index: nat)

  /** Walks parent links up to the first campaign of the chain. */
  ghost function PositionOf(links: map<nat, Link>, c: nat): (p: Position)
    requires LinksInverse(links) && c in links
    ensures p.head in links && links[p.head].parent == None && p.head <= c
    decreases c
  {
    match links[c].parent
    case None => Position(c, 0)
    case Some(up) =>
      var p := PositionOf(links, up);
      Position(p.head, p.index + 1)
  }

  /** Follows redial links downward `k` times. */
  ghost function Follow(links: map<nat, Link>, head: nat, k: nat): Option<nat>
    requires LinksInverse(links) && head in links
    ensures Follow(links, head, k).Some? ==> Follow(links, head, k).value in links
  {
    if k == 0 then Some(head)
    else
      match Follow(links, head, k - 1)
      case None => None
      case Some(c) => links[c].redialed
  }

  /** Going up and coming back down are inverse: the chains are disjoint lines without cycles. */
  lemma {:induction false} FollowInvertsPosition(links: map<nat, Link>, c: nat)
    requires LinksInverse(links) && c in links
    ensures Follow(links, PositionOf(links, c).head, PositionOf(links, c).index) == Some(c)
    decreases c
  {
    if links[c].parent.Some? {
      FollowInvertsPosition(links, links[c].parent.value);
    }
  }

  lemma {:induction false} PositionInvertsFollow(links: map<nat, Link>, head: nat, k: nat)
    requires LinksInverse(links) && head in links && links[head].parent == None
    requires Follow(links, head, k).Some?
    ensures PositionOf(links, Follow(links, head, k).value) == Position(head, k)
  {
    if k > 0 {
      PositionInvertsFollow(links, head, k - 1);
    }
  }

  /** After every history: no two campaigns share a chain position, and redialing only moves forward. */
  lemma ChainsAfterHistory(ops: seq<Op>, c: nat, d: nat)
    requires forall op :: op in ops ==> Allowed(op)
    requires c in Run(ops).campaigns && d in Run(ops).campaigns
    ensures var s := Run(ops);
            var links := LinkTable(s.campaigns);
            && (RedialedTo(s.campaigns[c]) == Some(d) <==> ParentOf(s.campaigns[d]) == Some(c))
            && (RedialedTo(s.campaigns[c]) == Some(d) ==> c < d)
            && (PositionOf(links, c) == PositionOf(links, d) ==> c == d)
  {
    var links := LinkTable(Run(ops).campaigns);
    assert links[c] == LinksOf(Run(ops).campaigns[c]) && links[d] == LinksOf(Run(ops).campaigns[d]);
    FollowInvertsPosition(links, c);
    FollowInvertsPosition(links, d);
  }

  /** A campaign that was redialed is refused, so a redial writes only a link that was not set. */
  lemma RedialKeepsLink(s: Store, org: nat, id: nat, selected: set<string>, request: Request,
                        latest: map<nat, CallRun>, p: nat)
    requires Invariant(s) && Redial(s, org, id, selected, request, latest).Ok?
    requires p in s.campaigns && RedialedTo(s.campaigns[p]).Some?
    ensures var t := Redial(s, org, id, selected, request, latest).value;
            p in t.campaigns && t.campaigns[p] == s.campaigns[p]
  {
    RedialLinked(s, org, id, selected, request, latest);
    assert id != p;
  }

  lemma WriteKeepsLink(s: Store, op: Op, p: nat)
    requires Invariant(s) && Allowed(op) && p in s.campaigns && !op.OpRedial?
    ensures p in Step(s, op).campaigns && RedialedTo(Step(s, op).campaigns[p]) == RedialedTo(s.campaigns[p])
  {
    match op
    case OpSettings(_, id, request, settings) => if id == p { WritesKeepLinks(s.campaigns[p], request, settings, ""); }
    case OpPause(id) => if id == p { WritesKeepLinks(s.campaigns[p], NO_CHANGE, map[], ""); }
    case OpCount(id, key) => if id == p { WritesKeepLinks(s.campaigns[p], NO_CHANGE, map[], key); }
    case OpReset(id, key) => if id == p { WritesKeepLinks(s.campaigns[p], NO_CHANGE, map[], key); }
    case _ =>
  }

  lemma StepKeepsLink(s: Store, op: Op, p: nat)
    requires Invariant(s) && Allowed(op) && p in s.campaigns && RedialedTo(s.campaigns[p]).Some?
    ensures p in Step(s, op).campaigns && RedialedTo(Step(s, op).campaigns[p]) == RedialedTo(s.campaigns[p])
  {
    match op
    case OpRedial(org, id, selected, request, latest) =>
      if Redial(s, org, id, selected, request, latest).Ok? {
        RedialKeepsLink(s, org, id, selected, request, latest, p);
      }
    case _ => WriteKeepsLink(s, op, p);
  }

  /** A campaign is redialed at most once: its link, once set, is what every later history shows. */
  lemma {:induction false} RedialedForGood(ops: seq<Op>, more: seq<Op>, p: nat)
    requires forall op :: op in ops + more ==> Allowed(op)
    requires forall op :: op in ops ==> Allowed(op)
    requires p in Run(ops).campaigns && RedialedTo(Run(ops).campaigns[p]).Some?
    ensures p in Run(ops + more).campaigns
    ensures RedialedTo(Run(ops + more).campaigns[p]) == RedialedTo(Run(ops).campaigns[p])
  {
    if more == [] {
      assert ops + more == ops;
    } else {
      var init, last := more[..|more| - 1], more[|more| - 1];
      assert (ops + more)[..|ops + more| - 1] == ops + init && (ops + more)[|ops + more| - 1] == last;
      RedialedForGood(ops, init, p);
      StepKeepsLink(Run(ops + init), last, p);
    }
  }

  // ---------------------------------------------------------------------------
  // The client
  // ---------------------------------------------------------------------------

  class CampaignClient {
    var campaigns: map<nat, Campaign>
    var runs: seq<QueuedRun>
    var calls: seq<CallRun>
    var nextCampaign: nat
    var nextRun: nat

    ghost function State(): Store
      reads this
    {
      Store(campaigns, runs, calls, nextCampaign, nextRun)
    }

    constructor ()
      ensures State() == EMPTY
    {
      campaigns, runs, calls, nextCampaign, nextRun := map[], [], [], 1, 1;
    }

    /** Copies the submitted settings over the metadata, one by one. */
    static method MergeSettings(metadata: Metadata, settings: Metadata) returns (merged: Metadata)
      ensures merged == metadata + OnlySettings(settings)
    {
      merged := metadata;
      if MAX_CONCURRENCY in settings { merged := merged[MAX_CONCURRENCY := settings[MAX_CONCURRENCY]]; }
      if SCHEDULE in settings { merged := merged[SCHEDULE := settings[SCHEDULE]]; }
      if BREAKER in settings { merged := merged[BREAKER := settings[BREAKER]]; }
      if CALLBACK in settings { merged := merged[CALLBACK := settings[CALLBACK]]; }
    }

    method Create(org: nat, form: Form, retryConfig: Json, settings: Metadata) returns (id: nat)
      modifies this
      ensures State() == CreateCampaign(old(State()), org, form, retryConfig, settings)
      ensures id == old(nextCampaign)
    {
      var metadata := MergeSettings(map[], settings);
      assert map[] + OnlySettings(settings) == OnlySettings(settings);
      var retry := if Truthy(retryConfig) then retryConfig else DEFAULT_RETRY;
      id := nextCampaign;
      campaigns := campaigns[id := Campaign(org, form, Created, retry, metadata, None, 1, "pending")];
      nextCampaign := nextCampaign + 1;
    }

    /** `create_queued_run`: inserts one row; a broken key or uniqueness rule rolls back. */
    method CreateRun(row: QueuedRun) returns (r: Result<nat, Error>)
      modifies this
      ensures var after := CreateQueuedRun(old(State()), row);
              State() == Committed(after, old(State()))
              && r == (if after.Ok? then Ok(old(nextRun)) else Err(after.error))
    {
      if row.campaign !in campaigns { return Err(ForeignKey); }
      if row.parent.Some? && Find(runs, row.parent.value).None? { return Err(ForeignKey); }
      var stored := row.(id := nextRun);
      if !UniqueRuns(runs + [stored]) { return Err(UniqueViolation); }
      r := Ok(nextRun);
      runs := runs + [stored];
      nextRun := nextRun + 1;
    }

    /** The settings form: each submitted setting replaces the stored one; a campaign that is over is refused. */
    method Update(org: nat, id: nat, request: Request, settings: Metadata) returns (r: Result<(), Error>)
      modifies this`campaigns
      ensures var after := UpdateSettings(old(State()), org, id, request, settings);
              State() == Committed(after, old(State())) && r == (if after.Ok? then Ok(()) else Err(after.error))
    {
      if id !in campaigns || campaigns[id].organization != org { return Err(NotFound); }
      var campaign := campaigns[id];
      if campaign.state == Completed || campaign.state == CampaignFailed { return Err(NotUpdatable); }
      if request.name.Some? { campaign := campaign.(form := campaign.form.(name := request.name.value)); }
      if request.retry.Some? { campaign := campaign.(retryConfig := request.retry.value); }
      var metadata := MergeSettings(campaign.metadata, settings);
      campaigns := campaigns[id := campaign.(metadata := metadata)];
      r := Ok(());
    }

    /** The orchestrator's pause: the reason is written with the whole metadata. */
    method Pause(id: nat)
      modifies this`campaigns
      ensures State() == PauseByBreaker(old(State()), id)
    {
      if id in campaigns && campaigns[id].state != Paused {
        var metadata := campaigns[id].metadata[PAUSED_REASON := Str("circuit_breaker")];
        campaigns := campaigns[id := campaigns[id].(state := Paused, metadata := metadata)];
      }
    }

    /** Fills in the child's id on each prepared seed. */
    static method BuildSeeds(child: nat, first: nat, candidates: seq<Candidate>) returns (seeds: seq<QueuedRun>)
      ensures seeds == SeedRows(child, first, candidates)
    {
      seeds := [];
      for i := 0 to |candidates|
        invariant seeds == SeedRows(child, first, candidates)[..i]
      {
        seeds := seeds + [Seed(first + i, child, candidates[i])];
      }
    }

    /** The redial route with `create_redial_campaign`, fetch and creation in one transaction. */
    method RedialCampaign(org: nat, id: nat, voicemail: bool, noAnswer: bool, busy: bool, request: Request)
      returns (r: Result<nat, Error>, ghost latest: map<nat, CallRun>)
      requires Table(runs)
      modifies this
      ensures r.Ok? ==> IsLatest(old(runs), old(calls), id, latest)
      ensures var after := Redial(old(State()), org, id, SelectedTags(voicemail, noAnswer, busy), request, latest);
              State() == Committed(after, old(State()))
              && r == (if after.Ok? then Ok(old(nextCampaign)) else Err(after.error))
      ensures r == Err(NotFound) <==> !Mine(old(State()), org, id)
      ensures r == Err(NotCompleted) <==> Mine(old(State()), org, id) && old(campaigns)[id].state != Completed
      ensures r == Err(AlreadyRedialed) <==> && Mine(old(State()), org, id) && old(campaigns)[id].state == Completed
                                             && Redialed(old(campaigns)[id])
      ensures r == Err(NoCandidates) <==>
                && Redialable(old(State()), org, id)
                && forall q :: q in old(runs) && q.id in latest ==>
                     !Wanted(voicemail, noAnswer, busy, latest[q.id].callTags)
      ensures r.Ok? ==> Redialable(old(State()), org, id)
    {
      latest := map[];
      if id !in campaigns || campaigns[id].organization != org { return Err(NotFound), latest; }
      var parent := campaigns[id];
      if parent.state != Completed { return Err(NotCompleted), latest; }
      if Truthy(Lookup(parent.metadata, REDIALED)) { return Err(AlreadyRedialed), latest; }
      var candidates;
      candidates, latest := GetRedialCandidates(runs, calls, id, voicemail, noAnswer, busy);
      AnswersAreWanted(runs, latest, voicemail, noAnswer, busy);
      if candidates == [] { return Err(NoCandidates), latest; }
      var retry := if request.retry.Some? then request.retry.value else parent.retryConfig;
      var name := parent.form.name + " (Redial)";
      if request.name.Some? && request.name.value != "" { name := request.name.value; }
      NoTagsNoCandidates(runs, latest);
      r := CreateRedial(id, Terms(name, retry), candidates);
    }

    /** `create_redial_campaign`: child, seeds and parent link, or a broken uniqueness rule that changes nothing. */
    method CreateRedial(id: nat, terms: Terms, candidates: seq<Candidate>) returns (r: Result<nat, Error>)
      requires id in campaigns
      modifies this
      ensures var after := Linked(old(State()), id, terms, candidates);
              && State() == (if UniqueRuns(after.runs) then after else old(State()))
              && r == (if UniqueRuns(after.runs) then Ok(old(nextCampaign)) else Err(UniqueViolation))
    {
      var child := ChildCampaign(id, campaigns[id], terms, |candidates|);
      var seeds := BuildSeeds(nextCampaign, nextRun, candidates);
      if !UniqueRuns(runs + seeds) { return Err(UniqueViolation); }
      r := Ok(nextCampaign);
      campaigns := campaigns[nextCampaign := child][id := MarkRedialed(campaigns[id], nextCampaign)];
      runs := runs + seeds;
      nextCampaign := nextCampaign + 1;
      nextRun := nextRun + |candidates|;
    }
  }
}
