/** Which answer each write to a campaign or its queued runs gets, and what it stores, column by column. */
module CampaignColumns {
  import opened Common
  import opened QueuedRuns
  import opened RedialSelection
  import opened RedialChain

  /** The four settings a form can carry. */
  predicate IsSetting(key: string) {
    key == "max_concurrency" || key == "schedule_config" || key == "circuit_breaker" || key == "callback_config"
  }

  ghost predicate OthersStay(s: Store, t: Store, id: nat) {
    && t.campaigns.Keys == s.campaigns.Keys && t.runs == s.runs && t.calls == s.calls
    && t.nextCampaign == s.nextCampaign && t.nextRun == s.nextRun
    && forall k :: k in s.campaigns && k != id ==> t.campaigns[k] == s.campaigns[k]
  }

  /** What a campaign without a retry configuration of its own gets. */
  predicate DefaultRetry(retry: Json) {
    && retry.Obj?
    && retry.fields.Keys == {"enabled", "max_retries", "retry_on_busy", "retry_on_no_answer", "retry_on_voicemail",
                             "retry_delay_seconds"}
    && retry.fields["enabled"] == Bool(true) && retry.fields["max_retries"] == Num(2)
    && retry.fields["retry_on_busy"] == Bool(true) && retry.fields["retry_on_no_answer"] == Bool(true)
    && retry.fields["retry_on_voicemail"] == Bool(true) && retry.fields["retry_delay_seconds"] == Num(120)
  }

  /** A new campaign holds the form, exactly the submitted settings, and no link. */
  lemma CreateStores(s: Store, org: nat, form: Form, retry: Json, settings: Metadata, key: string)
    requires s.nextCampaign !in s.campaigns
    ensures var t, id := Step(s, OpCreateCampaign(org, form, retry, settings)), s.nextCampaign;
            && t.campaigns.Keys == s.campaigns.Keys + {id} && t.nextCampaign == id + 1
            && t.runs == s.runs && t.calls == s.calls && t.nextRun == s.nextRun
            && (forall k :: k in s.campaigns ==> t.campaigns[k] == s.campaigns[k])
            && t.campaigns[id].organization == org && t.campaigns[id].form == form && t.campaigns[id].state == Created
            && (Truthy(retry) ==> t.campaigns[id].retryConfig == retry)
            && (!Truthy(retry) ==> DefaultRetry(t.campaigns[id].retryConfig))
            && t.campaigns[id].totalRows == None && t.campaigns[id].rate == 1 && t.campaigns[id].sync == "pending"
            && (key in t.campaigns[id].metadata <==> key in settings && IsSetting(key))
            && (key in t.campaigns[id].metadata ==> t.campaigns[id].metadata[key] == settings[key])
  {
  }

  /** The settings form: its refusals, and what it writes to every column and metadata key. */
  lemma SettingsOutcome(s: Store, org: nat, id: nat, request: Request, settings: Metadata, key: string)
    ensures var r := UpdateSettings(s, org, id, request, settings);
            var over := && Mine(s, org, id)
                        && (s.campaigns[id].state == Completed || s.campaigns[id].state == CampaignFailed);
            && (r == Err(NotFound) <==> !Mine(s, org, id)) && (r == Err(NotUpdatable) <==> over)
            && (r.Ok? <==> Mine(s, org, id) && !over)
            && (r.Ok? ==>
                  var c, d := s.campaigns[id], r.value.campaigns[id];
                  && OthersStay(s, r.value, id)
                  && d == c.(form := d.form, retryConfig := d.retryConfig, metadata := d.metadata)
                  && d.form == c.form.(name := d.form.name)
                  && (request.name.Some? ==> d.form.name == request.name.value)
                  && (request.name.None? ==> d.form.name == c.form.name)
                  && (request.retry.Some? ==> d.retryConfig == request.retry.value)
                  && (request.retry.None? ==> d.retryConfig == c.retryConfig)
                  && (key in d.metadata <==> key in c.metadata || (key in settings && IsSetting(key)))
                  && (key in settings && IsSetting(key) ==> d.metadata[key] == settings[key])
                  && (key in c.metadata && !(key in settings && IsSetting(key)) ==> d.metadata[key] == c.metadata[key]))
  {
  }

  lemma StateOutcome(s: Store, org: nat, id: nat, state: CampaignState)
    ensures var t := Step(s, OpSetState(org, id, state));
            if Mine(s, org, id) then OthersStay(s, t, id) && t.campaigns[id] == s.campaigns[id].(state := state)
            else t == s
  {
  }

  /** A tripped breaker pauses a campaign that is not paused and records why; every other key stays. */
  lemma PauseOutcome(s: Store, id: nat, key: string)
    ensures var t := Step(s, OpPause(id));
            if id !in s.campaigns || s.campaigns[id].state == Paused then t == s
            else
              var c, d := s.campaigns[id], t.campaigns[id];
              && OthersStay(s, t, id) && d == c.(state := Paused, metadata := d.metadata)
              && d.metadata.Keys == c.metadata.Keys + {"paused_reason"}
              && d.metadata["paused_reason"] == Str("circuit_breaker")
              && (key in c.metadata && key != "paused_reason" ==> d.metadata[key] == c.metadata[key])
  {
  }

  /** A counter counts from what it holds, or from zero. */
  lemma CountOutcome(s: Store, id: nat, key: string, other: string)
    ensures var t := Step(s, OpCount(id, key));
            if id !in s.campaigns then t == s
            else
              var c, d := s.campaigns[id], t.campaigns[id];
              && OthersStay(s, t, id) && d == c.(metadata := d.metadata) && d.metadata.Keys == c.metadata.Keys + {key}
              && (key in c.metadata && c.metadata[key].Num? ==> d.metadata[key] == Num(c.metadata[key].number + 1))
              && (key !in c.metadata || !c.metadata[key].Num? ==> d.metadata[key] == Num(1))
              && (other in c.metadata && other != key ==> d.metadata[other] == c.metadata[other])
  {
  }

  lemma ResetOutcome(s: Store, id: nat, key: string, other: string)
    ensures var t := Step(s, OpReset(id, key));
            if id !in s.campaigns then t == s
            else
              var c, d := s.campaigns[id], t.campaigns[id];
              && OthersStay(s, t, id) && d == c.(metadata := d.metadata) && d.metadata.Keys == c.metadata.Keys - {key}
              && (other in d.metadata ==> d.metadata[other] == c.metadata[other])
  {
  }

  /** Some stored run has this id. */
  predicate StoredRun(s: Store, id: nat) {
    exists i :: 0 <= i < |s.runs| && s.runs[i].id == id
  }

  /** A stored run of the campaign has this source and this retry count. */
  predicate Taken(s: Store, row: QueuedRun) {
    exists i :: 0 <= i < |s.runs| && s.runs[i].campaign == row.campaign && s.runs[i].sourceUuid == row.sourceUuid
                && s.runs[i].retryCount == row.retryCount
  }

  lemma {:induction false} FindExactlyWhen(rows: seq<QueuedRun>, id: nat)
    ensures Find(rows, id).Some? <==> exists i :: 0 <= i < |rows| && rows[i].id == id
  {
    if rows != [] {
      FindExactlyWhen(rows[1..], id);
      assert forall i :: 0 <= i < |rows[1..]| ==> rows[1..][i] == rows[i + 1];
      assert forall i :: 0 < i < |rows| ==> rows[i] == rows[1..][i - 1];
    }
  }

  /**
   A run is stored at the end under the next id exactly when its campaign, and its parent if it has one, are stored
   and no run of the campaign has its source and retry count.
   */
  lemma CreateRunOutcome(s: Store, row: QueuedRun)
    requires UniqueRuns(s.runs)
    ensures var r := CreateQueuedRun(s, row);
            var known := row.campaign in s.campaigns && (row.parent.Some? ==> StoredRun(s, row.parent.value));
            && (r == Err(ForeignKey) <==> !known) && (r == Err(UniqueViolation) <==> known && Taken(s, row))
            && (r.Ok? <==> known && !Taken(s, row))
            && (r.Ok? ==> r.value == s.(runs := s.runs + [row.(id := s.nextRun)], nextRun := s.nextRun + 1))
  {
    if row.parent.Some? {
      FindExactlyWhen(s.runs, row.parent.value);
    }
    var all := s.runs + [row.(id := s.nextRun)];
    if i :| 0 <= i < |s.runs| && s.runs[i].campaign == row.campaign && s.runs[i].sourceUuid == row.sourceUuid
            && s.runs[i].retryCount == row.retryCount {
      assert all[i] == s.runs[i] && all[|s.runs|].retryCount == row.retryCount;
    }
  }
}
