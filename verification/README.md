# Verified models of the voice-agent backend

A Dafny model of the state machines, protocols and algorithms in the database clients and routes of the
backend, with proofs of what they keep over every run. `dafny verify dfyconfig.toml` checks everything.

Tables are maps or sequences of rows. A client method is one transaction over them, written as a method of a
class that holds the tables and proved against a function of the old tables; where the code relies on row
locks, leases or revisions, the transactions are split into the steps that can interleave. What the operations store
and which answer they give is stated once more, independently, in the stored columns: the value last given to each
column over any history, and the condition of every outcome.

| files | what they model |
|---|---|
| `common`, `queued_runs`, `paging` | JSON values and results, the queued-run rows, keyset paging |
| `redial_selection`, `redial_chain`, `campaign_columns` | which contacts of a finished campaign are redialed (a recursive query over retry trees and the latest call of each), and the chains of campaigns that redialing builds |
| `claim_queue`, `claim_protocol` | claiming queued runs with `FOR UPDATE SKIP LOCKED`: one claim, claims in a row, and all interleavings of workers, failures and recovery |
| `webhook_delivery`, `webhook_workers`, `webhook_leases`, `webhook_retries` | durable webhook deliveries: conditional updates, time leases, the paged sweep, the workers around them, exactly when leases keep workers apart, and how long retries wait |
| `workflow_versions`, `draft_columns`, `run_snapshots` | drafts, publishing, archiving, discarding and reverting of workflow definitions, and the configurations that workflow runs read from them |
| `text_session`, `session_columns`, `text_chat_sweep` | optimistic revisions of text chats, merging of run context, and the sweep that closes idle chats |
| `stable_sort`, `callback_listing`, `callback_columns` | the unified callback list: truncate, merge, sort, slice |
| `nested_fields`, `nested_dict`, `masking`, `python_text` | dotted-path access to nested credentials, on values and in place, masking with restoring, and Python's texts of JSON values |
| `trigger_sync` | reconciliation of a workflow's globally unique trigger paths |
| `inbound_routing`, `inbound_columns` | uniqueness of inbound call routes over provider account and address |
| `slug`, `failure`, `failure_kinds` | normalization of codes and the failure classifiers |

## Where code and documentation differ

The model follows the code. Each difference is a theorem.

- The comments on webhook delivery promise that the atomic claim keeps two workers from sending a delivery at
  once. The reports check neither status nor lease, so it keeps them apart exactly as long as no report reschedules
  a row to before the end of another worker's lease on it (`WebhookLeases.OneWorkerExactlyWhen`). Workers that report
  before their own lease runs out never do that (`PunctualNeverUndercuts`, `OneLiveLease`), late ones may
  (`WebhookWorkers.TwoLiveLeases`) or may not (`LateButSafe`). Which reports change a terminal row is
  `WebhookWorkers.TerminalLeftExactlyWhen`, with the runs `LateReportReopens`, `LateReportBuries` and
  `LateReportRevives`; when the attempt count is right is `WebhookLeases.CountsExactlyWhen`, with the run
  `LateReportUncounted`. A success that could not be recorded is sent again once its lease has ended, by any
  timing; the code says so itself.
- Reverting to a version does not copy its post-call schema (`WorkflowVersions.RevertThenPublish`, with the
  workflow of `RevertLosesSchema`), publishing does not sync that column
  (`WorkflowVersions.PublishSyncsLegacyExactlyWhen` and `PublishSyncsAfterHistory`), and discarding does not
  reset the unversioned columns (`WorkflowVersions.DiscardSyncsLegacyExactlyWhen`, with the save and discard of
  `DiscardLeavesDraftBehind`).
- The configuration snapshot of a run is documented as immutable. It is for runs on published and archived
  definitions (`RunSnapshots.RunSnapshotImmutable`); for a run on a draft
  `RunSnapshots.DraftSnapshotChangesExactlyWhen` says which operations change it.
- In the callback list `total` and `has_more` are computed on truncated lists, so `has_more` is never true for
  one source alone, and the database lists rows without a time first while the route sorts them last. The
  contract of `CallbackListing.ListCallbacks` and `CallbackListing.PagesExactExactlyWhen` say exactly when the
  answers are still right. The status filter also accepts raw state names that are never shown
  (`CallbackListing.FilterMeansShownExactlyWhen`).
- Masked credentials come back unchanged for strings and falsy values and for nothing else
  (`Masking.RoundTripExactlyWhen`, and `PythonText.RoundTripInPython` for Python's own texts; a stored number is
  lost in `PythonText.NumberIsLost`).
- Inbound routing requires provider, account and address to be globally unique. Creating a number checks this,
  editing credentials does not (`InboundRouting.EditKeepsExactlyWhen`, `InboundRouting.EditCanBreakRouting`).

## Model

| member | source | states |
|---|---|---|
| `RedialSelection.RunTree` | api/db/campaign_client.py:355-366 | The level-by-level evaluation of the recursive query terminates with every run of the campaign exactly once, under the root that its parent pointers lead to, and with nothing else |
| `RedialSelection.LevelIsWalkDepth` | api/db/campaign_client.py:355-366 | Recursion level k holds exactly the runs whose walk up the parent pointers has length k, each once and with the root that the walk ends in |
| `RedialSelection.LevelsEnd` | api/db/campaign_client.py:355-366 | The recursion reaches its fixpoint: a level deeper than the largest id is empty |
| `RedialSelection.LevelsAfterEmpty` | api/db/campaign_client.py:355-366 | Stopping at the first empty level loses nothing: no run sits at that depth or deeper |
| `RedialSelection.LatestPerRoot` | api/db/campaign_client.py:367-376 | One call is kept for every root with calls in its tree, and no call of that tree is newer; ties are left open |
| `RedialSelection.KeptAreLatest` | api/db/campaign_client.py:355-376 | The calls kept over the evaluated tree are, for each root, a newest call anywhere in the tree of retries under it, and every root with a call has one |
| `RedialSelection.LatestDecides` | api/db/campaign_client.py:355-382 | Whichever newest call the query keeps: a candidate has a newest call anywhere in its tree with a selected tag, and a root all of whose newest calls carry one is a candidate; with distinct creation times the two coincide |
| `RedialSelection.GetRedialCandidates` | api/db/campaign_client.py:319-389 | For every stored table, ties included, the answer lists in table order and each once exactly the roots whose kept newest call carries the voicemail, no-answer or busy tag that was asked for; the calls that are kept are newest ones |
| `RedialSelection.AnswerIsWanted` | api/db/campaign_client.py:334-389 | An entry is in the answer if and only if some stored root has its source and context and a kept newest call with the tag of a chosen option |
| `RedialSelection.NoTagsNoCandidates` | api/db/campaign_client.py:334-349 | The early return without tags gives what the query would give |
| `RedialSelection.WalkEndsAtRoot` | api/db/campaign_client.py:355-366 | A walk up the parent pointers ends at a run of the campaign without a parent |
| `RedialSelection.EveryRunUnderOneRoot` | api/db/campaign_client.py:355-366 | When parents are stored in the same campaign, every run hangs under exactly one root |
| `RedialSelection.SelectedExactly` | api/db/campaign_client.py:377-389 | An entry of the answer comes from a candidate row, and every candidate row gives one |
| `RedialSelection.CandidateIsRoot` | api/db/campaign_client.py:355-382 | Only first attempts without a parent are redialed |
| `RedialChain.RedialSeedsChild` | api/db/campaign_client.py:264-317 | A successful redial adds one campaign whose runs are exactly the selected candidates in order, each a fresh queued root, whose row total counts them, which has the parent's workflow, source, creator and rate but not its telephony configuration, and which inherits only the three orchestrator settings; nothing else of the store changes but the link in the parent |
| `RedialChain.RedialOutcome` | api/routes/campaign.py:839-880 | Every outcome from the stored columns: not found exactly for a missing or foreign campaign, not completed exactly for one in another state, already redialed exactly for a truthy stored link, no candidates exactly when no root has a selected newest call, a broken uniqueness rule exactly when two selected roots share a source, and success exactly otherwise |
| `RedialChain.LinkAppearsExactlyWhen` | api/db/campaign_client.py:264-317 | Whatever the operation, a redial link appears on a campaign exactly by a redial of it that none of these conditions refuses |
| `RedialChain.StepKeepsInvariant` | api/db/campaign_client.py:244-317 | Campaign creation, redial, state and settings changes, the pause of the circuit breaker, counters and run inserts keep redial link and parent link inverse to each other and the keys unique |
| `RedialChain.RedialMeetsUniqueness` | api/db/models.py:856-861 | Seeding never breaks the (campaign, source, retry count) rule when the first attempts of the parent carry retry count 0 |
| `RedialChain.CandidatesHaveDistinctSources` | api/db/campaign_client.py:355-389 | Under the same condition no two candidates share a source |
| `RedialChain.ChainsAfterHistory` | api/routes/campaign.py:843-891 | After every history the redial link and the parent link are inverse, a redial link leads to a younger campaign, and no two campaigns share a chain position: the chains are disjoint lines |
| `RedialChain.FollowInvertsPosition` | api/routes/campaign.py:843-891 | Going up the parent links to the head and coming back down the redial links returns to the same campaign |
| `RedialChain.PositionInvertsFollow` | api/routes/campaign.py:843-891 | Going down k redial links from a head lands at position k of that chain |
| `RedialChain.RedialedForGood` | api/db/campaign_client.py:264-269 | A redial link, once set, survives every later history: a campaign is redialed at most once |
| `RedialChain.CampaignClient.Create` | api/db/campaign_client.py:17-67 | A campaign with the submitted name, workflow, source, creator and telephony configuration and the submitted settings under the next id; nothing else changes |
| `RedialChain.CampaignClient.CreateRun` | api/db/campaign_client.py:693-723 | One row under the next id, or a foreign-key or uniqueness error that changes nothing |
| `RedialChain.CampaignClient.Update` | api/routes/campaign.py:666-738 | The submitted name, retry configuration and settings replace the stored ones key by key; a campaign of another organization is not found, and a completed or failed one is refused |
| `RedialChain.CampaignClient.MergeSettings` | api/routes/campaign.py:696-720 | The loop over the form copies exactly the settings keys over the stored metadata |
| `RedialChain.CampaignClient.Pause` | api/services/campaign/campaign_orchestrator.py:173-184 | A campaign that is not paused is paused and its reason recorded with the rest of the metadata as it was |
| `RedialChain.CampaignClient.CreateRedial` | api/db/campaign_client.py:244-317 | Child, seeds and parent link are stored together, or the uniqueness rule is broken and nothing changes |
| `RedialChain.CampaignClient.BuildSeeds` | api/db/campaign_client.py:296-300 | The seeds are the candidates in order under consecutive ids |
| `RedialChain.CampaignClient.RedialCampaign` | api/routes/campaign.py:827-908 | The guards in order (not found, not completed, already redialed, no candidates), each exactly under its condition on the stored columns and the chosen options, else the atomic creation: store and answer are those of the step that `StepKeepsInvariant` and `RedialSeedsChild` are about |
| `CampaignColumns.CreateStores` | api/db/campaign_client.py:17-67 | A new campaign holds the form, exactly the four submitted settings, the given retry configuration or the default one, and no link; nothing else changes |
| `CampaignColumns.SettingsOutcome` | api/routes/campaign.py:666-722 | A settings form is refused exactly for a missing or foreign campaign and for one completed or failed; else name, retry configuration and each of the four settings are what it gives and every other column and key is as it was |
| `CampaignColumns.CreateRunOutcome` | api/db/campaign_client.py:693-723 | A run is stored at the end exactly when its campaign and parent are stored and no run of the campaign has its source and retry count; each refusal has its own condition |
| `CampaignColumns.PauseOutcome` | api/services/campaign/campaign_orchestrator.py:173-184 | A tripped breaker pauses exactly a campaign that is not paused, records why, and leaves every other metadata key |
| `CampaignColumns.CountOutcome` | api/db/campaign_client.py:465-496 | A counter counts on from the stored number or from zero, and no other key changes |
| `ClaimQueue.ScheduledAnswerExists` | api/db/campaign_client.py:829-857 | The scheduled query always has an answer: the earliest due unlocked runs up to the limit |
| `ClaimQueue.RegularAnswerExists` | api/db/campaign_client.py:859-879 | The regular query always has an answer for the slots that are left |
| `ClaimQueue.DueFirst` | api/db/campaign_client.py:829-879 | Without other locks the scheduled phase takes min(limit, due) runs, and a regular run is taken only when every due run was |
| `ClaimQueue.ClaimPriority` | api/db/campaign_client.py:829-879 | Without other locks a claim takes exactly min(limit, backlog) distinct runs and never passes over an earlier due run for a later one |
| `ClaimQueue.ClaimTakesEligible` | api/db/campaign_client.py:829-879 | In the columns of the runs: a claim takes queued, unlocked runs of the campaign that are due (for callbacks only if the user asked for it) or unscheduled, each once and at most the limit, scheduled ones first and earliest first; if it takes fewer than the limit it leaves no such run |
| `ClaimQueue.BacklogAfterRounds` | api/db/campaign_client.py:808-892 | Claims in a row shrink a fixed backlog by the limit each, down to zero |
| `ClaimQueue.DrainInCeilingRounds` | api/db/campaign_client.py:808-892 | A backlog of n runs is empty after exactly ceil(n / limit) claims and not before |
| `ClaimQueue.CampaignQueue.Claim` | api/db/campaign_client.py:808-892 | Exactly the claimed runs become processing, listed scheduled first; every other row is unchanged |
| `ClaimQueue.CampaignQueue.ReturnWithoutWorkflow` | api/db/campaign_client.py:557-584 | Exactly the listed runs still in processing and without a workflow run go back to queued, and the count is theirs |
| `ClaimProtocol.StepKeepsInv` | api/db/campaign_client.py:808-892 | Every lock, commit, rollback, dispatch, outcome, put-back, crash, insert and cancel step keeps the lock, batch and call rules |
| `ClaimProtocol.RunKeepsInv` | api/db/campaign_client.py:808-892 | Every state reachable by any interleaving of those steps keeps the rules |
| `ClaimProtocol.ExclusionInEveryRun` | api/db/campaign_client.py:829-886 | In every interleaving the lock sets of the workers are disjoint, a queued run never has a workflow run, and no run has two |
| `ClaimProtocol.NoDoubleClaim` | api/db/campaign_client.py:829-892 | No run is claimed twice without a step in between that put it back into the queue |
| `ClaimProtocol.StaysClaimed` | api/db/campaign_client.py:880-892 | A claimed run stays out of the queue until a step returns it |
| `ClaimProtocol.OnlyPutBackOrReschedule` | api/db/campaign_client.py:557-584 | Only putting back and rescheduling return a stored run to the queue, and never one that already has a workflow run |
| `ClaimProtocol.StateIsLastWritten` | api/db/campaign_client.py:557-892 | In every interleaving a stored run is never lost and its state is the last one that a commit, an outcome, a put-back, a reschedule or a cancellation wrote to it |
| `ClaimProtocol.StepWrites` | api/db/campaign_client.py:557-892 | One step changes no column of a run but the state it writes and, when rescheduled, its time |
| `ClaimProtocol.StepBatches` | api/db/campaign_client.py:557-584 | Which claimed runs a worker still answers for, and which of them wait to be dispatched, after every kind of step |
| `ClaimProtocol.UndisturbedClaim` | api/db/campaign_client.py:808-892 | Run without interruption, the split transaction gives the rows of the single claim and leaves no lock |
| `Paging.ReadPage` | api/db/webhook_delivery_client.py:218-243 | A page is the smallest `limit` keys above the last one seen, in increasing order |
| `Paging.ListsWholePool` | api/db/webhook_delivery_client.py:218-243 | An increasing listing of as many keys as there are lists them all |
| `WebhookDelivery.EveryPendingIsVisible` | api/db/webhook_delivery_client.py:64-78 | After every history of claims, reports and creations a delivery is scheduled exactly while it is pending, so from its due time on every sweep sees it until it changes |
| `WebhookDelivery.WinsAreALeaseApart` | api/db/webhook_delivery_client.py:124-147 | Two winning claims of one delivery with no report between them are at least a lease apart, whatever the other workers do |
| `WebhookDelivery.LeaseHolds` | api/db/webhook_delivery_client.py:124-147 | After a winning claim, without a report the row stays scheduled no earlier than the end of the lease |
| `WebhookDelivery.GetDue` | api/db/webhook_delivery_client.py:218-243 | The page lists the due rows above the cursor in key order |
| `WebhookDelivery.Sweep` | api/tasks/webhook_delivery.py:374-412 | The sweep terminates at a short page, enqueues no id twice and only rows that were due when read, and enqueues every row that was due throughout, although other workers change the table between pages |
| `WebhookDelivery.WebhookDeliveryClient.GetOrCreate` | api/db/webhook_delivery_client.py:22-96 | One delivery per run and node: the existing row is returned untouched, else a pending row is stored, else one of the three errors, which change nothing |
| `WebhookDelivery.WebhookDeliveryClient.ClaimDelivery` | api/db/webhook_delivery_client.py:109-147 | The row is returned and its schedule moved to the end of the lease exactly when it was pending and due |
| `WebhookDelivery.WebhookDeliveryClient.MarkSucceeded` | api/db/webhook_delivery_client.py:149-165 | The row becomes succeeded and unscheduled whatever its status was |
| `WebhookDelivery.WebhookDeliveryClient.ScheduleRetry` | api/db/webhook_delivery_client.py:167-189 | The row becomes pending at the given time whatever its status was |
| `WebhookDelivery.WebhookDeliveryClient.MarkDeadLetter` | api/db/webhook_delivery_client.py:191-216 | The row becomes a dead letter and unscheduled whatever its status was |
| `WebhookWorkers.Backoff` | api/tasks/webhook_delivery.py:46-50 | For every configured base and cap, after at least one failure the delay is at most the cap and at least the smaller of base and cap |
| `WebhookWorkers.BackoffDoubles` | api/tasks/webhook_delivery.py:46-50 | One more failure doubles the delay until the cap is reached |
| `WebhookRetries.TransientReport` | api/tasks/webhook_delivery.py:118-146 | After a transient failure of attempt n the row is pending and due after the base delay doubled n - 1 times, at most the cap, or a dead letter if n used up the attempts; attempt count, code and clipped error are stored and nothing else changes |
| `WebhookRetries.PermanentReport` | api/tasks/webhook_delivery.py:118-146 | A permanent failure makes the row a dead letter at once |
| `WebhookRetries.DeliveredReport` | api/db/webhook_delivery_client.py:149-165 | A delivery makes the row succeeded, unscheduled and without an error |
| `WebhookRetries.NthFailureWaits` | api/tasks/webhook_delivery.py:46-146 | Over a punctual run the n-th report on a row, if transient, schedules the row exactly the n-th wait ahead, or dead-letters it at the ceiling |
| `WebhookRetries.PendingHadTransients` | api/tasks/webhook_delivery.py:118-146 | Over a punctual run a row that is still pending has had transient failures only |
| `WebhookRetries.DefaultWaits` | api/constants.py:190-195 | With the default delays the waits are 30, 60, 120, 240 and 480 seconds, then 600 |
| `WebhookRetries.ClaimWinsExactlyWhen` | api/db/webhook_delivery_client.py:109-147 | A claim wins exactly on a pending row that is due or has no time, schedules it at the end of the lease and changes nothing else |
| `WebhookRetries.CreationOutcome` | api/db/webhook_delivery_client.py:64-96 | A delivery is stored exactly if none exists for its run and node: pending, unattempted, due at the given time, with what was given |
| `WebhookRetries.DuePageShows` | api/db/webhook_delivery_client.py:218-243 | A page of the sweep holds pending deliveries above the cursor whose time has come, at most the limit, and unless it is full all of them |
| `WebhookRetries.AbandonLeaves` | api/tasks/webhook_delivery.py:159-178 | A worker that stops without a report leaves every row and every other lease as they are |
| `WebhookRetries.NewAdds` | api/db/webhook_delivery_client.py:64-96 | A new delivery is stored beside the others and changes none of them |
| `WebhookRetries.DueIsWinnable` | api/db/webhook_delivery_client.py:218-243 | The sweep looks for exactly the rows that a claim at that moment would win |
| `WebhookWorkers.StepKeepsInv` | api/tasks/webhook_delivery.py:160-372 | Claiming, reporting, abandoning and creating keep every live lease tied to its pending row, if reports are punctual |
| `WebhookWorkers.TerminalForever` | api/db/webhook_delivery_client.py:149-216 | Under the same assumption succeeded and dead-letter rows are never touched again |
| `WebhookWorkers.AttemptsCountReports` | api/tasks/webhook_delivery.py:118-146 | Under the same assumption the stored attempt count is the number of reports made and never passes the ceiling |
| `WebhookWorkers.TerminalLeftExactlyWhen` | api/db/webhook_delivery_client.py:149-216 | A step changes the status of a terminal row exactly when it is a report on that row whose outcome stands for another status: a retry, a success on a dead letter, or a permanent failure on a delivered row; any other step leaves the whole row as it is |
| `WebhookWorkers.TerminalUntilReport` | api/db/webhook_delivery_client.py:149-216 | Over every run, with no assumption on timing, a terminal row changes in no way until another report on it arrives |
| `WebhookWorkers.LateReportReopens` | api/db/webhook_delivery_client.py:167-189 | Without the assumption it fails: a concrete run in which a late transient report reopens a delivered row |
| `WebhookWorkers.LateReportBuries` | api/db/webhook_delivery_client.py:191-216 | A concrete run in which a late permanent failure turns a delivered row into a dead letter |
| `WebhookWorkers.LateReportRevives` | api/db/webhook_delivery_client.py:149-165 | A concrete run in which a late success turns a dead letter into a delivered row |
| `WebhookWorkers.TwoLiveLeases` | api/tasks/webhook_delivery.py:169-178 | A concrete run in which a late retry report leaves two live leases on one delivery |
| `WebhookLeases.OneWorkerExactlyWhen` | api/db/webhook_delivery_client.py:109-189 | Over every run, with no assumption on timing: at every moment a delivery has at most one live lease, and still has after whatever claim comes next, if and only if no report reschedules a row to before the end of another worker's lease on it |
| `WebhookLeases.SafeExactlyWhen` | api/db/webhook_delivery_client.py:118-133 | One state: no delivery has two live leases, now or after a claim that can come next, if and only if it has at most one and the row of every live lease, if pending, is not due before the lease ends |
| `WebhookLeases.GuardLostExactlyWhen` | api/db/webhook_delivery_client.py:109-216 | One step: claims, creations, ended leases and reports keep that, except exactly a report that reschedules the row to before the end of another lease on it |
| `WebhookLeases.PunctualNeverUndercuts` | api/tasks/webhook_delivery.py:169-178 | A worker that reports before its own lease runs out never does that |
| `WebhookLeases.OneLiveLease` | api/tasks/webhook_delivery.py:169-178 | So if every worker reports before its own lease runs out, a delivery has at most one live lease at any time |
| `WebhookLeases.LateButSafe` | api/db/webhook_delivery_client.py:149-165 | Reporting late is not enough to break it: a concrete run with a late success in which every delivery stays with one worker |
| `WebhookLeases.CountsExactlyWhen` | api/tasks/webhook_delivery.py:169-181 | Over every run: the stored attempt count is at every moment the number of reports made if and only if no report on the row was overtaken by another one since its own claim |
| `WebhookLeases.AttemptsWithinCeiling` | api/tasks/webhook_delivery.py:118-146 | Over every run, late reports included, the stored count never passes the ceiling, and stays below it while the row is pending |
| `WebhookLeases.LateReportUncounted` | api/db/webhook_delivery_client.py:167-189 | A concrete run with two reports, one of them late, and a stored count of one |
| `WorkflowVersions.HistoryAlways` | api/db/workflow_client.py:13-293 | After any operations every workflow has version numbers 1..n, at most one draft, which is number n, and exactly one published definition, which has the largest non-draft number and alone is current and released |
| `WorkflowVersions.StepKeepsInv` | api/db/workflow_client.py:23-293 | One create, save, publish, discard, revert, update or run creation keeps the version history of every workflow |
| `WorkflowVersions.PublishKeepsHistory` | api/db/workflow_client.py:157-211 | Publishing a draft keeps the version history |
| `WorkflowVersions.DiscardKeepsHistory` | api/db/workflow_client.py:213-235 | Discarding keeps the version history and removes exactly the last definition |
| `WorkflowVersions.RevertKeepsHistory` | api/db/workflow_client.py:237-293 | Opening a draft from an older version keeps the version history |
| `WorkflowVersions.PublishShape` | api/db/workflow_client.py:180-203 | Publishing promotes the last definition and archives the one before it; contents stay |
| `WorkflowVersions.FrozenForever` | api/db/workflow_client.py:86-293 | Whatever is done later, a definition that is not a draft keeps its id, number and whole content |
| `WorkflowVersions.DraftIsOverlay` | api/db/workflow_client.py:96-136 | While a draft stays open, opened by a save or by a revert, its content is what it started from overlaid with all patches since, in order; the published definition has not changed; and the unversioned columns show the draft once it was saved and what they showed before until then |
| `DraftColumns.DraftHoldsLastGiven` | api/db/workflow_client.py:96-136 | While a draft stays open each of its four columns holds what the last save or update gave that column, else what the draft started from; and so do the unversioned columns once it was saved |
| `DraftColumns.SaveStartsFromPublished` | api/db/workflow_client.py:108-136 | A draft opened by a save starts from the published definition |
| `DraftColumns.RevertStartsFromVersion` | api/db/workflow_client.py:262-285 | A draft opened by a revert starts from that version, its post-call schema emptied |
| `DraftColumns.DraftOpensExactlyWhen` | api/db/workflow_client.py:73-293 | A workflow without a draft gets one exactly by a save, an update that gives some column, or a revert to a version it has |
| `DraftColumns.RefusedExactlyWhen` | api/db/workflow_client.py:157-293 | Publishing and discarding are refused exactly without a draft; a revert exactly while there is one, or if the version is unknown, each with its own error |
| `DraftColumns.RunBindsTo` | api/services/workflow/run_creation.py:17-52 | A run is bound to the draft if asked for and there is one, else to the released definition, else to a current one, else to none |
| `DraftColumns.PublishedColumns` | api/db/workflow_client.py:190-203 | Publishing keeps the four columns of the draft and writes all but the schema to the unversioned ones |
| `DraftColumns.CreatedShows` | api/db/workflow_client.py:23-67 | A new workflow shows what it was created with in its only version, published and released, and in the unversioned columns |
| `WorkflowVersions.RevertThenPublish` | api/db/workflow_client.py:275-285 | Reverting and publishing reproduces JSON, configurations and variables, and reproduces the whole snapshot if and only if the source had an empty post-call schema |
| `WorkflowVersions.RevertLosesSchema` | api/db/workflow_client.py:275-285 | A concrete workflow whose version 1, reverted to and published, comes back without its post-call schema |
| `WorkflowVersions.PublishSyncsLegacyExactlyWhen` | api/db/workflow_client.py:190-203 | Publishing leaves the unversioned columns equal to the released content exactly when the draft's post-call schema was already there |
| `WorkflowVersions.PublishSyncsAfterHistory` | api/db/workflow_client.py:86-293 | Publishing a draft after any history since it was opened leaves those columns in sync exactly when the draft was saved at least once, or was opened by a revert while the column held an empty schema |
| `WorkflowVersions.DiscardSyncsLegacyExactlyWhen` | api/db/workflow_client.py:229-235 | Discarding a draft after any history since it was opened leaves the unversioned columns equal to the released content exactly when all its saved patches together gave back that content; a draft never saved leaves them as they were |
| `WorkflowVersions.DiscardLeavesDraftBehind` | api/db/workflow_client.py:213-235 | A concrete save and discard after which the unversioned columns still show the discarded change |
| `WorkflowVersions.WorkflowClient.NextVersionNumber` | api/db/workflow_client.py:13-21 | The next number is one above all existing ones |
| `WorkflowVersions.WorkflowClient.CreateWorkflow` | api/db/workflow_client.py:23-67 | A workflow with one published version 1 |
| `WorkflowVersions.WorkflowClient.SaveDraft` | api/db/workflow_client.py:73-155 | The draft is edited in place, or opened on top of the published content with number n + 1; the legacy columns follow |
| `WorkflowVersions.WorkflowClient.PublishDraft` | api/db/workflow_client.py:157-211 | Without a draft an error and no change; else the draft is published, the previous version archived, and three of the four legacy columns written |
| `WorkflowVersions.WorkflowClient.DiscardDraft` | api/db/workflow_client.py:213-235 | Without a draft an error and no change; else the draft is deleted and the runs bound to it lose their definition |
| `WorkflowVersions.WorkflowClient.RevertToVersion` | api/db/workflow_client.py:237-293 | Refused while a draft exists or the version is unknown; else a draft with the older content and an empty post-call schema |
| `WorkflowVersions.WorkflowClient.UpdateWorkflow` | api/db/workflow_client.py:584-681 | A request with a versioned field is a save; any other changes no version |
| `WorkflowVersions.WorkflowClient.CreateRun` | api/services/workflow/run_creation.py:17-52 | The new run is bound to the draft if asked for and there is one, else to the released definition |
| `RunSnapshots.RunSnapshotImmutable` | api/db/workflow_run_client.py:232-250 | Over every history a run bound to a published or archived definition stays bound to it and reads the same configurations |
| `RunSnapshots.ReleasedRunIsImmutable` | api/services/workflow/run_creation.py:17-52 | A run started on the released version reads, after any later history, the configurations that were published when it started |
| `RunSnapshots.DraftSnapshotChangesExactlyWhen` | api/db/workflow_run_client.py:232-250 | For every operation: what a run reads changes exactly when the run is bound to a draft and the operation saves other configurations to it, or discards it while it shows any |
| `RunSnapshots.StepKeepsBound` | api/db/workflow_run_client.py:57-93 | Every operation keeps definition keys unique over all workflows and every run bound to a stored definition of its own workflow, or to none |
| `RunSnapshots.BoundFromStart` | api/db/workflow_run_client.py:57-93 | So it is after every history from empty tables |
| `RunSnapshots.StepRun` | api/db/workflow_client.py:213-235 | A run is never lost, keeps its workflow, and loses its definition exactly when that is a draft being discarded |
| `RunSnapshots.ReadsDefinition` | api/db/workflow_run_client.py:232-250 | A run reads the configurations of the stored definition it is bound to, an empty dictionary if there are none |
| `TextSession.RevisionCountsWins` | api/db/workflow_run_text_session_client.py:150-183 | Over every mix of calls a session is never lost and its revision grows by exactly the number of successful writes |
| `TextSession.AtMostOneWinner` | api/db/workflow_run_text_session_client.py:162-175 | Two writers that expect the same revision never both win, whatever happens around them |
| `TextSession.ExactlyOneWinner` | api/db/workflow_run_text_session_client.py:162-256 | Of any writers sharing the current revision exactly one wins |
| `TextSession.NoLostUpdates` | api/db/workflow_run_text_session_client.py:142-256 | In every interleaving of reads and writes that name the revision they read, the final data is the sequential fold of the winning changes in revision order |
| `TextSession.StepMerges` | api/db/workflow_run_client.py:444-469 | One call merges its patch into each context field and never undoes completion |
| `TextSession.ContextIsLastPatch` | api/db/workflow_run_client.py:444-469 | Over any mix of run updates and completions each key of a context field has the value of the last successful patch naming it, no key disappears, and a completed run stays completed |
| `TextSession.TextSessionClient.EnsureSession` | api/db/workflow_run_text_session_client.py:27-62 | The stored session is returned unchanged, else one with revision 0 is stored |
| `TextSession.TextSessionClient.UpdateSession` | api/db/workflow_run_text_session_client.py:142-183 | A wrong expected revision is refused with both revisions and changes nothing; else the given fields are replaced and the revision grows by one |
| `TextSession.TextSessionClient.CompleteSession` | api/db/workflow_run_text_session_client.py:185-256 | Session and run change together, or neither does |
| `TextSession.TextSessionClient.UpdateWorkflowRun` | api/db/workflow_run_client.py:407-476 | Context dictionaries, logs, annotations and extra merge key by key, a truthy usage or cost replaces the stored one, empty texts are ignored, completion is only ever set, and an unknown run changes nothing |
| `SessionColumns.CallOutcome` | api/db/workflow_run_text_session_client.py:27-256 | Which answer each call gets: not found exactly for a missing row, a conflict with both revisions exactly for another revision than the stored one, success exactly otherwise |
| `SessionColumns.SessionHoldsLastGiven` | api/db/workflow_run_text_session_client.py:142-256 | Over any mix of calls session data and checkpoint are what the last successful write gave them |
| `SessionColumns.RunHoldsLastGiven` | api/db/workflow_run_client.py:407-476 | Over any mix of calls state, usage, cost, extracted data and the storage columns of a run are what the last successful call gave them; empty texts and dictionaries give nothing, but a completion sets state and usage |
| `SessionColumns.CompletedExactlyWhen` | api/db/workflow_run_client.py:407-476 | A run is completed exactly if it was or some successful call completed it |
| `SessionColumns.CreatedSession` | api/db/workflow_run_text_session_client.py:27-62 | A created session has revision 0 and what was given, an empty dictionary where that is falsy |
| `TextChatSweep.TimeoutOf` | api/tasks/text_chat_inactivity.py:146-169 | Every configured value gives a timeout within the limits; a value within them is kept |
| `TextChatSweep.OverdueExactlyWhen` | api/tasks/text_chat_inactivity.py:50-62 | A sweep closes a chat exactly if it is an open text chat, last active within three hours by the first timestamp set, and idle for at least its configured seconds, pulled to between 60 and 10500, or 1800 if they are unusable |
| `TextChatSweep.FilterIsOneWindow` | api/db/workflow_run_text_session_client.py:101-121 | The three-branch filter is one window test on the first timestamp that is set |
| `TextChatSweep.IdleChatIsCaught` | api/constants.py:199-206 | For every chat, in its own columns, sweeps at most the interval apart include one between the end of its allowed idle time and five minutes later that finds it idle too long |
| `TextChatSweep.CoverageBoundIsExact` | api/constants.py:199-206 | Every schedule catches every chat if and only if the timeout is at most lookback minus interval |
| `TextChatSweep.GetInactive` | api/db/workflow_run_text_session_client.py:87-140 | A page of the candidates above the cursor in key order, with the page size pulled into 1..500 |
| `TextChatSweep.PageShowsWindow` | api/db/workflow_run_text_session_client.py:87-140 | In the chats' own columns: a page holds open text chats last active between three hours and one minute ago, at most 500 of them, and unless it is full all that are left above the cursor |
| `TextChatSweep.EnqueuePage` | api/tasks/text_chat_inactivity.py:50-77 | The chats of one page that were idle too long, in their own columns, are enqueued in order until the limit is reached; one whose enqueueing raises is skipped and not counted |
| `TextChatSweep.Sweep` | api/tasks/text_chat_inactivity.py:28-86 | Although other calls change the rows between the pages, one sweep enqueues only chats that were overdue when read, each once and at most the limit, and every chat that stays overdue when the window fits the page and enqueue bounds |
| `TextChatSweep.SweptIsIdle` | api/tasks/text_chat_inactivity.py:28-86 | In the chats' own columns: a sweep enqueues only chats that were idle too long when read, at most 500, and, if at most 5000 chats are in the window and at most 500 can be enqueued, every chat that stays so |
| `TextChatSweep.IdleChatIsEnqueued` | api/tasks/text_chat_inactivity.py:28-86 | Over a schedule of such sweeps within their bounds, every chat left idle is enqueued within five minutes of the end of its allowed idle time, unless enqueueing it raises |
| `StableSort.SortIsStable` | api/routes/callbacks.py:183 | The sort orders latest first, keeps every entry and keeps entries of equal time in their order |
| `StableSort.SortedIsUnique` | api/routes/callbacks.py:183 | Nothing else is a stable sort: order and per-time subsequences determine the listing |
| `StableSort.SortIsMerge` | api/routes/callbacks.py:111-183 | Sorting the concatenation of two sorted sources is their stable merge |
| `StableSort.TakeOfMerge` | api/routes/callbacks.py:69-95 | The first n entries of a merge come from the first n of each source |
| `StableSort.TruncatedPageIsFullPage` | api/routes/callbacks.py:69-95 | For all sorted sources and all offset and limit, truncating each to offset + limit rows, concatenating, sorting and slicing is slicing the sorted full concatenation |
| `StableSort.SortUntimed` | api/routes/callbacks.py:183 | Rows without a time, which the database lists first, end up last |
| `StableSort.PagesRightExactlyWhen` | api/routes/callbacks.py:69-95 | With rows that have no time in the second source, all pages are right if and only if it has no others or they are no more than the first-source rows listed before its first timed one |
| `CallbackListing.ListCallbacks` | api/routes/callbacks.py:44-192 | For every offset and limit, negative ones included: the call fails exactly when a queried LIMIT would be negative; the page is cut from the truncated sources and is that page of the full listing when NULL times are harmless; has_more is true exactly when more rows exist, both sources have rows and the page does not end at 0; total is exact exactly when neither source was truncated |
| `CallbackListing.PagesExactExactlyWhen` | api/routes/callbacks.py:69-95 | Every page is the page of the full listing if and only if the campaign rows without a time are harmless |
| `CallbackListing.FilterMeansShownExactlyWhen` | api/routes/callbacks.py:86-92 | The status filter keeps exactly the campaign rows shown with that status, if and only if the caller does not ask for the raw names queued or processed |
| `CallbackListing.FetchWorkflowNames` | api/routes/callbacks.py:97-109 | Names are fetched for exactly the rows shown: the lookup agrees with the workflow table on each |
| `CallbackListing.MergeStandalone` | api/routes/callbacks.py:111-141 | Each standalone row becomes its item, in order |
| `CallbackListing.MergeCampaign` | api/routes/callbacks.py:143-181 | Each campaign row becomes its item, appended in order |
| `CallbackListing.WhereKeepsOrder` | api/routes/callbacks.py:62-93 | A filtered query lists the matching rows and no others, each as often as it is stored and in the order of the table |
| `CallbackColumns.ListingShowsAsked` | api/routes/callbacks.py:62-181 | The full listing contains exactly the entries of the stored rows that organization, source, campaign, workflow and status ask for, latest first |
| `CallbackColumns.RunShown` | api/routes/callbacks.py:143-181 | An entry of a campaign callback shows, column by column, the shown status, the times while pending, the first usable of the two numbers on either side, and the names of its workflow and campaign |
| `CallbackColumns.CallbackShown` | api/routes/callbacks.py:111-141 | An entry of a standalone callback shows its own columns |
| `CallbackColumns.PySliceTakes` | api/routes/callbacks.py:184-192 | The page is the stretch of the positions between offset and end, counted from the end of the list where these are negative |
| `NestedFields.SplitJoins` | api/routes/organization.py:564-576 | Splitting a dotted path loses nothing: the parts hold no dot and join back to it |
| `NestedFields.SetThenGet` | api/routes/organization.py:564-582 | What was set at a path is what is read there |
| `NestedFields.SetLeavesDiverging` | api/routes/organization.py:573-582 | Setting a path leaves the value at every diverging path as it was |
| `NestedFields.SetBack` | api/routes/organization.py:573-582 | Setting a path that held a value and setting the value back restores the whole document |
| `NestedDict.SetThroughNew` | api/routes/organization.py:576-581 | Creating the missing dictionaries on the way first does not change what setting the path gives |
| `NestedDict.GetNestedField` | api/routes/organization.py:564-570 | The walk over dictionaries in memory finds what the pure reader finds in the document, a dictionary being found by reference |
| `NestedDict.Descend` | api/routes/organization.py:576-581 | One step of the walk: the child dictionary, created in place where there is none, without changing what the whole assignment gives |
| `NestedDict.Assign` | api/routes/organization.py:582 | Assigning one key in place changes the document at that path and no other dictionary |
| `NestedDict.SetNestedField` | api/routes/organization.py:573-582 | The in-place assignment, of a plain value or of a dictionary stored by reference, turns the document into the one the pure writer gives and modifies only its own and new dictionaries |
| `Masking.MaskHides` | api/services/configuration/masking.py:54-69 | A mask keeps the length, shows only the last four characters, none of a key that short, and masking a mask changes nothing |
| `Masking.MaskIsMasked` | api/routes/organization.py:111-118 | The masking loop masks exactly the listed paths, in any order and however often they are listed |
| `Masking.PreserveUnmasks` | api/routes/organization.py:555-561 | The restoring loop undoes exactly the listed masks |
| `Masking.RoundTrip` | api/routes/organization.py:555-561 | Masking and then restoring against the original gives the original back when every listed value is falsy or a string; of Python's text only that a string is its own text is used |
| `Masking.RoundTripExactlyWhen` | api/routes/organization.py:555-561 | For every document and every list of paths, and every text function with the laws `IsStr`, which Python's has: the round trip gives the document back if and only if every listed value is falsy or a string |
| `PythonText.PyStrMeetsLaws` | api/routes/organization.py:116-117 | Python's texts of JSON values meet the laws that the round trip uses |
| `PythonText.RoundTripInPython` | api/routes/organization.py:555-561 | So the exact condition holds of them, with no assumption left |
| `PythonText.NumberIsLost` | api/routes/organization.py:555-561 | A concrete document: a stored number is shown as a mask that cannot be restored, because the comparison raises |
| `Masking.NeverRecognised` | api/services/configuration/masking.py:78-80 | The mask written over any other value is never taken for the mask of that value |
| `Masking.MaskLeavesOthers` | api/routes/organization.py:111-118 | Masking leaves the value at every diverging path as it was |
| `Masking.PreserveAtPath` | api/routes/organization.py:555-561 | For any request and any list of paths, nested and repeated ones included: the value at a path is the stored one if the path or a listed path leading to it was submitted masked, else the submitted one |
| `Masking.MaskRaisesExactlyWhen` | api/services/configuration/masking.py:54-70 | Masking a stored value raises exactly for truthy numbers and booleans and for dictionaries of more than four entries; falsy values and collections of at most four entries give that many mask characters |
| `Masking.PreserveFailsExactlyWhen` | api/routes/organization.py:555-561 | For any list: restoring raises exactly when at some listed path the stored value has no mask and something is there to compare, submitted or restored before it |
| `Masking.MaskSensitive` | api/routes/organization.py:111-118 | The loop over the sensitive field names computes the specified masking |
| `Masking.PreserveMaskedFields` | api/routes/organization.py:555-561 | The loop over the sensitive field names computes the specified restoring, or raises |
| `TriggerSync.ActiveIsRequested` | api/db/agent_trigger_client.py:116-191 | After a successful call the active paths of the workflow are exactly the requested set; a conflict changes nothing; no row of another workflow moves |
| `TriggerSync.SyncedRows` | api/db/agent_trigger_client.py:116-191 | Row by row after a successful call: new paths are active rows of the caller, its other rows change their state only, foreign rows not at all |
| `TriggerSync.ConflictsAreForeign` | api/db/agent_trigger_client.py:129-142 | A call fails if and only if another workflow owns a requested path, archived ones included |
| `TriggerSync.SyncIsIdempotent` | api/db/agent_trigger_client.py:116-191 | The same call again succeeds or fails alike and changes nothing |
| `TriggerSync.LastSyncWins` | api/db/agent_trigger_client.py:116-191 | After an earlier call of the same workflow the later one succeeds as it would alone, gives the same active paths, and differs only in extra archived rows |
| `TriggerSync.OwnerForever` | api/db/agent_trigger_client.py:116-191 | Over every history no path is deleted and no path changes its owner |
| `TriggerSync.CheckThenSync` | api/db/agent_trigger_client.py:85-96 | After a successful availability check and any calls in between, the synchronisation fails if and only if one of them claimed a checked path for another workflow |
| `TriggerSync.ActiveAfterHistory` | api/db/agent_trigger_client.py:116-191 | After any history the active paths of a workflow are those of its last successful call |
| `TriggerSync.ReconciledInSteps` | api/db/agent_trigger_client.py:144-184 | Archiving, reactivating and inserting one after the other give the reconciled table |
| `TriggerSync.AgentTriggerClient.CheckTriggerPathConflicts` | api/db/agent_trigger_client.py:53-83 | The paths in use by a workflow other than the excluded one; with none excluded, every path in use |
| `TriggerSync.AgentTriggerClient.InsertTriggers` | api/db/agent_trigger_client.py:176-184 | The insert loop adds exactly the new paths and never meets the unique constraint |
| `TriggerSync.AgentTriggerClient.SyncTriggersForWorkflow` | api/db/agent_trigger_client.py:98-191 | The new table and the outcome are those of the specified call; a conflict reports the foreign paths |
| `InboundRouting.CheckIsExact` | api/db/telephony_phone_number_client.py:185-226 | Adding a number keeps provider, account and address unique if and only if the conflict check finds nothing |
| `InboundRouting.StepKeepsInv` | api/routes/organization.py:902-970 | Creating, renaming, marking and deleting configurations and creating, changing, marking and deleting numbers keep what the database enforces, and keep routes unique when they are; activation never creates a second route |
| `InboundRouting.Run` | api/routes/organization.py:902-970 | The uniqueness rules hold after every history of those operations |
| `InboundRouting.RouteIsUnique` | api/db/telephony_phone_number_client.py:158-183 | After every history at most one pair of configuration and number matches a key, so the lookup does not depend on row order |
| `InboundRouting.EditKeepsExactlyWhen` | api/db/telephony_configuration_client.py:187-210 | A credential edit, which is not checked, keeps routes unique if and only if no other configuration of the provider already routes the new account to one of the addresses |
| `InboundRouting.EditedExactlyWhen` | api/db/telephony_configuration_client.py:187-210 | A rename in the same call makes no difference to that |
| `InboundRouting.EditCanBreakRouting` | api/db/telephony_configuration_client.py:187-210 | A concrete history and edit after which the called number matches two configurations |
| `InboundRouting.TelephonyClient.FindInboundRoute` | api/db/telephony_phone_number_client.py:130-183 | On every stored table: a route is returned exactly when one exists, and it is one of them; when routes are unique it is the only one |
| `InboundRouting.TelephonyClient.FindInboundRoutingConflict` | api/db/telephony_phone_number_client.py:185-226 | A conflict is reported exactly when some number, active or not, in any organization has the key |
| `InboundRouting.TelephonyClient.CreatePhoneNumber` | api/routes/organization.py:902-970 | The checks in order (configuration, workflow, provider ownership, address, conflict, uniqueness), then the insert, which takes the default mark from the other numbers if asked to; the tables and the answer are those of the specified step and routes stay unique |
| `InboundRouting.TelephonyClient.UpdatePhoneNumber` | api/db/telephony_phone_number_client.py:268-301 | The given fields change on the number of that configuration only; its address never changes, and routes stay unique |
| `InboundRouting.TelephonyClient.SetDefaultCaller` | api/db/telephony_phone_number_client.py:303-314 | The number alone carries its configuration's default mark; routes stay unique |
| `InboundRouting.TelephonyClient.DeletePhoneNumber` | api/db/telephony_phone_number_client.py:329-338 | The number of that configuration is removed, else nothing changes |
| `InboundRouting.TelephonyClient.CreateConfiguration` | api/db/telephony_configuration_client.py:150-185 | A configuration under the next id, the default one if it is the first of its organization or asked to be, which takes the mark from the others; or a name conflict that changes nothing |
| `InboundRouting.TelephonyClient.UpdateConfiguration` | api/db/telephony_configuration_client.py:187-210 | Name and credentials change together or not at all, the name being checked and the credentials not; unique routes stay unique if and only if no credentials are given or they cause no account clash |
| `InboundRouting.TelephonyClient.SetDefaultConfiguration` | api/db/telephony_configuration_client.py:212-224 | The configuration alone carries its organization's default mark |
| `InboundRouting.StepKeepsOne` | api/db/telephony_configuration_client.py:150-224 | Every operation keeps at most one default configuration per organization and one default caller id per configuration, so the partial unique indexes never refuse one |
| `InboundRouting.DefaultLostExactlyWhen` | api/db/telephony_configuration_client.py:226-247 | An organization loses its default configuration exactly when that configuration is deleted; no other one takes its place |
| `InboundRouting.TelephonyClient.DeleteConfiguration` | api/db/telephony_configuration_client.py:226-247 | The configuration and its numbers go, unless it is not the organization's or campaigns refer to it |
| `InboundColumns.CreateNumberOutcome` | api/routes/organization.py:902-970 | Each refusal of a new number has its own condition on the stored columns, in order; stored, the row is what the form says, with the normalized address and the implied country where none is given |
| `InboundColumns.UpdateNumberOutcome` | api/db/telephony_phone_number_client.py:268-301 | A change takes effect on exactly the fields it gives; a given workflow wins over clearing it |
| `InboundColumns.ActivationDecides` | api/db/telephony_phone_number_client.py:130-183 | Switching a number on or off decides whether inbound calls reach it, and changes no other route |
| `InboundColumns.RouteExactlyWhen` | api/db/telephony_phone_number_client.py:158-183 | A lookup finds exactly the active numbers of the address whose configuration has that provider and that account, in the organization if one is given |
| `InboundColumns.CreateConfigOutcome` | api/db/telephony_configuration_client.py:150-185 | A configuration is refused exactly for a name in use; stored, it has what was given and takes the default mark exactly if asked to or first |
| `InboundColumns.EditOutcome` | api/db/telephony_configuration_client.py:187-210 | An edit is refused exactly for a foreign configuration and for a name in use by another, and else writes exactly what is given |
| `InboundColumns.RenameOutcome` | api/db/telephony_configuration_client.py:187-210 | In a history a rename succeeds exactly for the owner and a name no other configuration has, and changes the name only |
| `InboundColumns.DeleteConfigOutcome` | api/db/telephony_configuration_client.py:226-247 | A deleted configuration takes exactly its own numbers along |
| `Slug.NormalizeIsJoinedWords` | api/errors/failure.py:101-110 | Normalization gives the maximal runs of letters and digits of the stripped, lowered text joined by single dashes, for every text |
| `Slug.NormalizeFixesExactlyNormalForms` | api/errors/failure.py:101-110 | The texts that normalization leaves alone are exactly the dash-joined runs, and normalizing twice is normalizing once |
| `Slug.CodeIsStable` | api/errors/failure.py:108-110 | Codes are never empty, are in normal form and do not change when normalized again |
| `Slug.ProviderIsJoinedWords` | api/errors/failure.py:101-105 | A provider is recorded exactly if a letter or digit is left in its stripped, lowered text, and then as its runs joined by dashes |
| `Slug.ProviderIsStable` | api/errors/failure.py:101-105 | Providers are absent or non-empty normal forms and do not change when normalized again |
| `Failure.OwnerConsistent` | api/errors/failure.py:113-124 | Users own configuration and quota errors, operators own system errors, and provider errors go to the named owner, given as a value or as text, or else the operator |
| `Failure.RaisesExactlyWhen` | api/errors/failure.py:113-124 | A classifier raises only for a provider error whose owner is text that names no owner |
| `Failure.PlatformNeverBlamesUser` | api/errors/failure.py:255-277 | A provider that normalizes to dograh never gives a configuration or provider error, and gives a quota error owned by the user exactly for status 402 |
| `Failure.RetryMeansProviderError` | api/errors/failure.py:231-241 | For every other provider a retry is advised exactly for provider errors |
| `FailureKinds.KindOfStatus` | api/errors/failure.py:231-241 | For every provider but the platform and whichever classifier is asked: 402 and 429 are quota errors, 408 and 500 to 599 provider errors and alone worth a retry, the other statuses from 400 to 499 configuration errors, and the rest system errors without advice |
| `FailureKinds.KindWithoutStatus` | api/errors/failure.py:384-458 | A call that shows no status is a provider error worth a retry exactly if the connection was lost, else a system error without advice |
| `FailureKinds.KindOfPlatform` | api/errors/failure.py:255-277 | The platform's own failures are system errors, except that 402 is a quota error; a retry is advised for its server statuses and lost connections |
| `FailureKinds.OwnerOf` | api/errors/failure.py:113-124 | Configuration and quota errors are the user's, system errors the operator's, and a provider error belongs to whoever the caller names by value or by one of two texts, else to the operator |
| `FailureKinds.CodeSays` | api/errors/failure.py:279-292 | A code is the normalized provider or the name of the source, a dash, and the digits of the status, or how the call ended |
| `FailureKinds.PassesOn` | api/errors/failure.py:279-292 | Source and vendor code are passed on; a status found in a message comes with no vendor code |
| `Failure.CodeIsProviderAndDetail` | api/errors/failure.py:279-292 | For every status the code is exactly the normalized provider, or the source, a dash and the detail without a minus sign; it is in normal form and stable |

## Left out

- Concurrency inside the versioning operations: each operation of `api/db/workflow_client.py` is one atomic step; two saves racing for the same draft are not modelled.
- RedialChain.CampaignClient.RedialCampaign: fetching the parent, selecting and creating are one step, because the code checks the already-redialed mark on the object it was handed and not on a locked row; two concurrent redials of one campaign are outside the model.
- ClaimQueue.CampaignQueue.Claim: the random order of the regular query and the order of ties are left open: the claim is proved for every answer the two queries may give.
- WebhookWorkers.TerminalForever: rests, like `AttemptsCountReports` and `OneLiveLease`, on the stated assumption that a worker reports before its own lease runs out; the code does not check it, and the exact conditions without it are results of their own.
- CallbackListing.ListCallbacks: times are whole seconds, the creation time is not shown, and rows of equal time come in one fixed order for the truncated and the full query. A status outside the column's enumeration matches nothing here, where the database would raise.
- `cancel_callback` is an unlocked read and write; it is the one atomic step Cancel of `ClaimProtocol` for campaign callbacks, and left out for standalone ones.
- NestedDict.SetNestedField: a dictionary that is assigned belongs to a document apart from the one it is put into; assigning a dictionary of the same document, so that it occurs twice or in itself, is outside the model.
- Masking.PreserveMaskedFields: the request is a JSON value that the loop reassigns; the update of the dictionaries in place is proved separately by `NestedDict.SetNestedField`. A dictionary restored from the stored document would be shared with it, and that aliasing is not modelled.
- PythonText.PyStrMeetsLaws: quotes and backslashes in the text of a nested string are not escaped, dictionary keys come in one fixed order, and numbers are whole; the laws do not depend on these.
- TriggerSync.AgentTriggerClient.SyncTriggersForWorkflow: one transaction; the race between its check and its insert, which the unique constraint backstops, is outside the model.
- InboundRouting.TelephonyClient.CreatePhoneNumber: check and insert are one step; whether the workflow exists and whether the provider owns the number are inputs, the synchronisation with the provider is left out, and address normalization and the registry's account field are parameters.
- InboundRouting.RouteIsUnique: over histories without credential edits, which the code does not check; `EditKeepsExactlyWhen` and `EditedExactlyWhen` say which of them may be added.
- The legacy single-configuration save edits credentials and adds numbers without the conflict check; it is outside the histories, and `EditKeepsExactlyWhen` and `CheckIsExact` say exactly when such an edit or insert keeps routes unique.
- Extraction of the status and of the vendor code from an exception object, the traceback context, the secret redaction by regular expressions and the message texts of failures are left out; the status named in a message is an input.
- Unicode case mapping and whitespace: `lower` and `strip` are parameters; the laws used are that lower-case letters, digits and dashes are unchanged and are not whitespace.
- WorkflowVersions.WorkflowClient.CreateRun: the template context and the other fields of a run are left out; a definition is deleted only as a discarded draft, and its runs then refer to none, as the object mapper leaves them.
- `update_definition_node_summaries`, `bulk_update_workflow_model_configurations` and `replace_recording_id_in_workflows` rewrite old snapshots on purpose and are not among the histories.
- The HTTP exchange of a webhook attempt, its headers and the second try after a token refresh: an attempt is delivered, failed for now, or failed for good.
- Campaign statistics, the paginated run list, reports and progress: single queries that would only add easy members.
- Call-concurrency slots, provider adapters, WebSockets, storage, authentication, the user interface and every other I/O.
- Plain create, read, update and delete clients: folders, tools, credentials, integrations, templates, users, preferences and default flags.
