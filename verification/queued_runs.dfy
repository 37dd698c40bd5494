/** The `queued_runs` table: one row per call a campaign still has to make, or has made. */
module QueuedRuns {
  import opened Common

  datatype RunState = Queued | Processing | Processed | Failed | Cancelled

  datatype QueuedRun = QueuedRun(
    id: nat,
    campaign: nat,
    sourceUuid: string,
    context: Json,
    state: RunState,
    retryCount: nat,
    parent: Option<nat>,
    scheduledFor: Option<int>,
    retryReason: Option<string>)

  const USER_CALLBACK := "user_requested_callback"
}
