/**
 What each operation on an integration leaves in every field, exactly which requests it accepts, and exactly
 when an integration shows as what.
 */
module IntegrationFields {
  import opened Records
  import opened Integrations
  import InstanceKey
  import Runs = IntegrationRuns
  import Text

  // ----- defaults -----

  /** Kubernetes and Prometheus are synced every five minutes, repositories every quarter of an hour. */
  lemma DefaultsByKind(interval: int)
    requires interval > 0
    ensures DefaultInterval(Kubernetes) == 300 && DefaultInterval(Prometheus) == 300
    ensures DefaultInterval(GitHub) == 900 && DefaultInterval(GitLab) == 900
    ensures DefaultInterval(Slack) == 600 && DefaultInterval(Jira) == 600
    ensures forall kind | kind == GitHub || kind == GitLab ::
              DefaultStaleAfter(kind, interval) == if interval >= 900 then 2 * interval else 1800
    ensures forall kind | kind != GitHub && kind != GitLab ::
              DefaultStaleAfter(kind, interval) == if interval >= 300 then 2 * interval else 600
    ensures forall kind :: DefaultStaleAfter(kind, 0) == if kind in {GitHub, GitLab} then 1800
                                                         else if kind in {Kubernetes, Prometheus} then 600 else 1200
  {
  }

  // ----- freshness -----

  /** Whole seconds between the reference and now. */
  lemma LagExactly(reference: Option<Time>, now: Time)
    ensures var lag := Lag(reference, now);
            if reference == None || now < reference.value then lag == 0
            else lag * 1_000_000_000 <= now - reference.value < (lag + 1) * 1_000_000_000
  {
  }

  /** The last sync failed, and no success followed. */
  predicate LastFailed(i: Integration) {
    i.failed.Some? && (i.succeeded == None || i.succeeded.value < i.failed.value)
  }

  /** Exactly when an integration shows as what; `limit` is its own threshold, or the default one. */
  lemma FreshnessExactly(i: Integration, now: Time)
    ensures var (shown, stale, lag) := FreshnessOf(i, now);
            var scheduled := i.enabled && i.scheduleEnabled;
            var limit := if i.staleAfter > 0 then i.staleAfter else DefaultStaleAfter(i.kind, i.interval);
            var late := Lag(if i.succeeded.Some? then i.succeeded else i.attempted, now) > limit;
            var overdue := i.nextSync.Some? && i.nextSync.value + limit * 1_000_000_000 < now;
            && (shown == FreshDisabled <==> !i.enabled)
            && (shown == FreshManual <==> i.enabled && !i.scheduleEnabled)
            && (shown == Failing <==> scheduled && LastFailed(i) && !late)
            && (shown == StaleFailing <==> scheduled && LastFailed(i) && late)
            && (shown == Awaiting <==> scheduled && !LastFailed(i) && i.succeeded == None && !overdue)
            && (shown == StaleAwaiting <==> scheduled && !LastFailed(i) && i.succeeded == None && overdue)
            && (shown == Fresh <==> scheduled && !LastFailed(i) && i.succeeded.Some? && !late)
            && (shown == Stale <==> scheduled && !LastFailed(i) && i.succeeded.Some? && late)
            && (stale <==> shown in {StaleFailing, StaleAwaiting, Stale})
            && lag == if scheduled then Lag(if i.succeeded.Some? then i.succeeded else i.attempted, now) else 0
  {
  }

  /** What a record shows when it is written. */
  predicate ShownAt(i: Integration, now: Time) { (i.freshness, i.stale, i.lag) == FreshnessOf(i, now) }

  // ----- configuration -----

  lemma ModeExactly(text: string)
    ensures NormalizeMode(text) == Advisory <==>
            Text.Token(text) in {"", "advisory-ready", "advisory", "read_only", "read-only"}
    ensures NormalizeMode(text) == ActiveControl <==> Text.Token(text) in {"active_control", "control", "governance"}
    ensures NormalizeMode(text).OtherMode? ==> NormalizeMode(text).token == Text.Token(text)
  {
  }

  /** Another integration of the organization and kind has the key. */
  lemma TakenExactly(r: Registry, organization: string, kind: Kind, key: string, id: string)
    ensures Taken(r, organization, kind, key, None) <==>
            exists x | x in r :: r[x].organization == organization && r[x].kind == kind && r[x].instanceKey == key
    ensures Taken(r, organization, kind, key, Some(id)) <==>
            exists x | x in r && x != id :: r[x].organization == organization && r[x].kind == kind
              && r[x].instanceKey == key
  {
    if Taken(r, organization, kind, key, Some(id)) {
      var x :| x in r && Some(x) != Some(id) && r[x].organization == organization && r[x].kind == kind
               && r[x].instanceKey == key;
      assert x != id;
    }
  }

  /** Whether the flags, the kind and the metadata go together. */
  predicate Configurable(kind: Kind, settings: Settings, enabled: bool, control: bool, mode: ControlMode) {
    && !settings.unsafe
    && (enabled ==>
          && kind in {GitHub, GitLab, Kubernetes, Prometheus} && !settings.incomplete
          && (control ==> mode == ActiveControl))
  }

  predicate DisabledIsForced(i: Integration) { !i.enabled ==> !i.controlEnabled && !i.scheduleEnabled }

  lemma ConfigurationExactly(i: Integration, now: Time)
    requires DisabledIsForced(i)
    ensures ValidConfiguration(ScheduleDefaults(i, now)) <==>
            Configurable(i.kind, i.settings, i.enabled, i.controlEnabled, i.mode)
  {
  }

  // ----- create -----

  /** The interval and the threshold that are stored for a requested pair. */
  predicate Timing(kind: Kind, enabled: bool, interval: int, staleAfter: int, i: Integration) {
    && i.interval == (if enabled && interval <= 0 then DefaultInterval(kind) else interval)
    && i.staleAfter == (if staleAfter <= 0 then DefaultStaleAfter(kind, i.interval) else staleAfter)
  }

  /** The record that an accepted request leads to. */
  predicate Describes(req: NewIntegration, id: string, now: Time, i: Integration) {
    && i.id == id && i.organization == req.organization && req.kind == Given(i.kind) && i.name == Text.Trim(req.name)
    && i.instanceKey == InstanceKey.Normalize(req.instanceKey, req.name) && i.mode == req.mode
    && i.settings == req.settings && i.health == Unconfigured && i.failures == 0
    && i.status == (if req.enabled then Configured else Disabled) && i.enabled == req.enabled
    && (i.controlEnabled <==> req.enabled && req.controlEnabled)
    && (i.scheduleEnabled <==> req.enabled && req.scheduleEnabled)
    && Timing(i.kind, req.enabled, req.interval, req.staleAfter, i)
    && i.nextSync == (if req.enabled && req.scheduleEnabled then Some(now) else None)
    && i.lastTested == i.attempted == i.succeeded == i.failed == i.claimed == None
    && i.freshness == (if !req.enabled then FreshDisabled else if !req.scheduleEnabled then FreshManual else Awaiting)
    && !i.stale && i.lag == 0
  }

  /** Exactly which integrations can be created, and every field of a new one. */
  lemma CreatedExactly(r: Registry, req: NewIntegration, id: string, now: Time)
    ensures var made := Created(r, req, id, now);
            && (made.Ok? <==>
                  && !Text.IsBlank(req.organization) && req.kind.Given? && !Text.IsBlank(req.name)
                  && !Taken(r, req.organization, req.kind.value, InstanceKey.Normalize(req.instanceKey, req.name), None)
                  && Configurable(req.kind.value, req.settings, req.enabled, req.enabled && req.controlEnabled,
                                  req.mode))
            && (made.Ok? ==> Describes(req, id, now, made.value)) && (made.Err? ==> made.error == Validation)
  {
    if req.kind.Given? {
      var raw := Integration(
        id, req.organization, req.kind.value, Text.Trim(req.name), InstanceKey.Normalize(req.instanceKey, req.name),
        req.mode, req.settings, if req.enabled then Configured else Disabled, Unconfigured,
        req.enabled, req.enabled && req.controlEnabled, req.enabled && req.scheduleEnabled, req.interval,
        req.staleAfter,
        None, None, None, None, None, None, 0, FreshDisabled, false, 0);
      ConfigurationExactly(raw, now);
      NewTiming(raw, now);
    }
  }

  lemma NewTiming(raw: Integration, now: Time)
    requires DisabledIsForced(raw) && raw.nextSync == raw.attempted == raw.succeeded == raw.failed == raw.claimed ==
             None
    ensures var i := ScheduleDefaults(raw, now);
            && Timing(raw.kind, raw.enabled, raw.interval, raw.staleAfter, i)
            && i.nextSync == (if raw.enabled && raw.scheduleEnabled then Some(now) else None)
            && i.claimed == None && i.failures == (if raw.enabled then raw.failures else 0)
            && i.freshness ==
               (if !raw.enabled then FreshDisabled else if !raw.scheduleEnabled then FreshManual else Awaiting)
            && !i.stale && i.lag == 0
  {
  }

  // ----- update -----

  predicate Set<T(==)>(patch: Option<T>, before: T, after: T) {
    after == match patch case None => before case Some(value) => value
  }

  /** The fields an update sets, and the flags that a disabled integration loses. */
  predicate Settled(i: Integration, patch: IntegrationPatch, next: Integration) {
    && next.id == i.id && next.organization == i.organization && next.kind == i.kind
    && next.name == (if patch.name.Some? then Text.Trim(patch.name.value) else i.name)
    && Set(patch.mode, i.mode, next.mode) && Set(patch.settings, i.settings, next.settings)
    && Set(patch.enabled, i.enabled, next.enabled)
    && (next.controlEnabled <==> next.enabled && Patched(patch.controlEnabled, i.controlEnabled))
    && (next.scheduleEnabled <==> next.enabled && Patched(patch.scheduleEnabled, i.scheduleEnabled))
    && (patch.instanceKey.Some? ==> next.instanceKey == InstanceKey.Normalize(patch.instanceKey.value, next.name))
    && (patch.instanceKey == None && i.instanceKey != "" ==> next.instanceKey == i.instanceKey)
    && next.status == (if !next.enabled then Disabled
                       else if Patched(patch.status, i.status) == Available then Configured
                       else Patched(patch.status, i.status))
  }

  /** What has happened to the integration stays, unless it is disabled or no longer scheduled. */
  predicate Remembers(i: Integration, next: Integration, now: Time) {
    var scheduled := next.enabled && next.scheduleEnabled;
    && next.health == i.health && next.lastTested == i.lastTested && next.attempted == i.attempted
    && next.succeeded == i.succeeded && next.failed == i.failed
    && next.claimed == (if scheduled then i.claimed else None)
    && next.failures == (if next.enabled then i.failures else 0)
    && next.nextSync == if !scheduled then None
                        else if i.nextSync.Some? then i.nextSync
                        else if i.succeeded.Some? then Some(i.succeeded.value + next.interval * 1_000_000_000)
                        else Some(now)
  }

  lemma DefaultsExactly(i: Integration, now: Time)
    requires DisabledIsForced(i)
    ensures var next := ScheduleDefaults(i, now);
            && Timing(i.kind, i.enabled, i.interval, i.staleAfter, next) && Remembers(i, next, now)
            && ShownAt(next, now)
            && next == i.(interval := next.interval, staleAfter := next.staleAfter, nextSync := next.nextSync,
                          claimed := next.claimed, failures := next.failures, freshness := next.freshness,
                          stale := next.stale, lag := next.lag)
  {
  }

  lemma RevisedExactly(i: Integration, patch: IntegrationPatch)
    ensures var next := Forced(Revised(i, patch));
            && Settled(i, patch, next) && DisabledIsForced(next)
            && next.interval == Patched(patch.interval, i.interval)
            && next.staleAfter == Patched(patch.staleAfter, i.staleAfter)
            && next == i.(name := next.name, instanceKey := next.instanceKey, mode := next.mode,
                          settings := next.settings, status := next.status, enabled := next.enabled,
                          controlEnabled := next.controlEnabled, scheduleEnabled := next.scheduleEnabled,
                          interval := next.interval, staleAfter := next.staleAfter)
  {
    if patch.instanceKey.Some? {
      InstanceKey.KeyGrammar(patch.instanceKey.value, Revised(i, patch).name);
    }
  }

  /** Exactly which updates are accepted, and every field after one that is. */
  lemma UpdatedExactly(r: Registry, i: Integration, patch: IntegrationPatch, now: Time) returns (raw: Integration)
    ensures Settled(i, patch, raw)
    ensures var made := Updated(r, i, patch, now);
            && (made.Ok? <==>
                  && !Taken(r, i.organization, i.kind, raw.instanceKey, Some(i.id))
                  && Configurable(i.kind, raw.settings, raw.enabled, raw.controlEnabled, raw.mode))
            && (made.Ok? ==>
                  && Settled(i, patch, made.value) && Remembers(i, made.value, now) && ShownAt(made.value, now)
                  && Timing(i.kind, raw.enabled, Patched(patch.interval, i.interval),
                            Patched(patch.staleAfter, i.staleAfter), made.value))
            && (made.Err? ==> made.error == Validation)
  {
    raw := Forced(Revised(i, patch));
    RevisedExactly(i, patch);
    ConfigurationExactly(raw, now);
    DefaultsExactly(raw, now);
  }

  // ----- runs -----

  /** Every field after a run has been persisted. */
  lemma PersistedExactly(i: Integration, run: Run, now: Time)
    ensures var next := Persisted(i, run, now);
            var good := run.verdict in {Success, Duplicate, Skipped};
            && next == i.(status := next.status, health := next.health, interval := next.interval,
                          staleAfter := next.staleAfter, nextSync := next.nextSync, lastTested := next.lastTested,
                          attempted := next.attempted, succeeded := next.succeeded, failed := next.failed,
                          claimed := None, failures := next.failures, freshness := next.freshness,
                          stale := next.stale, lag := next.lag)
            && next.health == (if good then Healthy else Unhealthy)
            && next.status == (if !i.enabled then i.status else if good then Connected else Errored)
            && (run.operation == TestConnection ==>
                  && next.lastTested == Some(now) && next.attempted == i.attempted && next.succeeded == i.succeeded
                  && next.failed == i.failed && next.failures == i.failures)
            && (run.operation == Sync ==>
                  && next.lastTested == i.lastTested && next.attempted == Some(run.startedAt)
                  && next.succeeded == (if good then Some(now) else i.succeeded)
                  && next.failed == (if good then i.failed else Some(now))
                  && next.failures == (if good then 0 else i.failures + 1))
  {
  }

  /** When the next sync is due, and what the record shows. */
  lemma PersistedSchedule(i: Integration, run: Run, now: Time)
    ensures var next := Persisted(i, run, now);
            var every := if i.interval <= 0 then DefaultInterval(i.kind) else i.interval;
            && next.nextSync == (if !i.enabled || !i.scheduleEnabled then None
                                 else if run.verdict == Error && Backoff(next.failures) < every
                                 then Some(now + Backoff(next.failures) * 1_000_000_000)
                                 else Some(now + every * 1_000_000_000))
            && next.interval == (if i.scheduleEnabled then every else i.interval)
            && next.staleAfter == (if i.staleAfter > 0 then i.staleAfter else DefaultStaleAfter(i.kind, next.interval))
            && ShownAt(next, now)
  {
  }

  /** A claim is taken exactly if the integration is scheduled and due, and any earlier claim is two minutes old. */
  lemma ClaimableExactly(i: Integration, at: Time)
    ensures Claimable(i, at) <==>
            && i.enabled && i.scheduleEnabled && i.nextSync.Some? && i.nextSync.value <= at
            && (i.claimed.Some? ==> at - i.claimed.value > 120_000_000_000)
  {
  }

  /** Whether a stored integration can be synced: what was accepted stays so, but for its kind and its metadata. */
  lemma StoredConfiguration(i: Integration)
    requires Runs.SchedulerOk(i)
    ensures ValidConfiguration(i) <==> Configurable(i.kind, i.settings, i.enabled, i.controlEnabled, i.mode)
  {
  }
}
