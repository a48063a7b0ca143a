/**
 Integrations as values: their flags and schedule, what a persisted run does to them, how fresh they
 are, and when a scheduled sync may be claimed.
 */
module Integrations {
  import opened Records
  import InstanceKey
  import Text

  const SECOND: int := 1_000_000_000
  const CLAIM_TTL: int := 120 * SECOND

  datatype Freshness = FreshDisabled | FreshManual | Fresh | Stale | Failing | StaleFailing | Awaiting | StaleAwaiting

  /** The kinds with a registered descriptor. */
  datatype Kind = GitHub | GitLab | Kubernetes | Prometheus | Slack | Jira

  datatype ControlMode = Advisory | ActiveControl | OtherMode(token: string)

  datatype Status = Available | Configured | Disabled | Connected | Errored | OtherStatus(text: string)

  datatype Health = Unconfigured | Healthy | Unhealthy

  /** What validation looks for in the metadata: an unsafe value, or an entry the kind requires and does not find. */
  datatype Settings = Settings(unsafe: bool, incomplete: bool)

  datatype Integration = Integration(
    id: string, organization: string, kind: Kind, name: string, instanceKey: string, mode: ControlMode,
    settings: Settings,
    status: Status, health: Health, enabled: bool, controlEnabled: bool,
    scheduleEnabled: bool, interval: int, staleAfter: int,
    nextSync: Option<Time>, lastTested: Option<Time>, attempted: Option<Time>, succeeded: Option<Time>,
    failed: Option<Time>,
    claimed: Option<Time>, failures: nat,
    freshness: Freshness, stale: bool, lag: int)

  function Max(a: int, b: int): int { if a > b then a else b }
  function Min(a: int, b: int): int { if a < b then a else b }

  /** The kinds that can be synced. */
  predicate Syncable(k: Kind) { k in {GitHub, GitLab, Kubernetes, Prometheus} }

  function DefaultInterval(k: Kind): int {
    match k case Kubernetes => 300 case Prometheus => 300 case GitHub => 900 case GitLab => 900 case _ => 600
  }

  function DefaultStaleAfter(k: Kind, interval: int): int {
    var base := if interval <= 0 then DefaultInterval(k) else interval;
    if k == GitHub || k == GitLab then Max(base * 2, 1800) else Max(base * 2, 600)
  }

  // ----- freshness -----

  /** Whole seconds, truncated, never negative. */
  function Lag(reference: Option<Time>, now: Time): int {
    if reference.None? || now < reference.value then 0 else (now - reference.value) / SECOND
  }

  function FreshnessOf(i: Integration, now: Time): (Freshness, bool, int) {
    if !i.enabled then (FreshDisabled, false, 0)
    else if !i.scheduleEnabled then (FreshManual, false, 0)
    else
      var lag := Lag(if i.succeeded.Some? then i.succeeded else i.attempted, now);
      var threshold := if i.staleAfter <= 0 then DefaultStaleAfter(i.kind, i.interval) else i.staleAfter;
      if i.failed.Some? && (i.succeeded.None? || i.failed.value > i.succeeded.value) then
        if lag > threshold then (StaleFailing, true, lag) else (Failing, false, lag)
      else if i.succeeded.None? then
        if i.nextSync.Some? && now > i.nextSync.value + threshold * SECOND then (StaleAwaiting, true, lag)
        else (Awaiting, false, lag)
      else if lag > threshold then (Stale, true, lag)
      else (Fresh, false, lag)
  }

  /** hydrateIntegrationRuntimeState. */
  function Hydrate(i: Integration, now: Time): Integration {
    var i := if i.interval <= 0 && i.scheduleEnabled then i.(interval := DefaultInterval(i.kind)) else i;
    var i := if i.staleAfter <= 0 then i.(staleAfter := DefaultStaleAfter(i.kind, i.interval)) else i;
    var (freshness, stale, lag) := FreshnessOf(i, now);
    i.(freshness := freshness, stale := stale, lag := lag)
  }

  /** applyIntegrationScheduleDefaults. */
  function ScheduleDefaults(i: Integration, now: Time): Integration {
    var scheduled := i.enabled && i.scheduleEnabled;
    var interval := if i.enabled && i.interval <= 0 then DefaultInterval(i.kind) else i.interval;
    var staleAfter := if scheduled && i.staleAfter <= 0 then DefaultStaleAfter(i.kind, interval) else i.staleAfter;
    Hydrate(i.(
      interval := interval, staleAfter := staleAfter,
      claimed := if scheduled then i.claimed else None,
      failures := if i.enabled then i.failures else 0,
      nextSync := if !scheduled then None
                  else if i.nextSync.Some? then i.nextSync
                  else if i.succeeded.Some? then Some(i.succeeded.value + interval * SECOND)
                  else Some(now)), now)
  }

  // ----- configuration -----

  function NormalizeMode(text: string): ControlMode {
    var m := Text.Token(text);
    if m in ["", "advisory-ready", "advisory", "read_only", "read-only"] then Advisory
    else if m in ["active_control", "control", "governance"] then ActiveControl
    else OtherMode(m)
  }

  function ValidConfiguration(i: Integration): bool {
    && !i.settings.unsafe
    && if !i.enabled then !i.controlEnabled
       else
         && Syncable(i.kind)
         && !i.settings.incomplete
         && (i.controlEnabled ==> i.mode == ActiveControl)
         && (i.scheduleEnabled ==> i.interval > 0 && i.staleAfter >= 0)
  }

  // ----- create and update -----

  /** A request carries its mode as `NormalizeMode` reads it. */
  datatype NewIntegration = NewIntegration(
    organization: string, kind: Input<Kind>, name: string, instanceKey: string, mode: ControlMode, settings: Settings,
    enabled: bool, controlEnabled: bool, scheduleEnabled: bool, interval: int, staleAfter: int)

  datatype IntegrationPatch = IntegrationPatch(
    name: Option<string>, instanceKey: Option<string>, mode: Option<ControlMode>, settings: Option<Settings>,
    status: Option<Status>,
    enabled: Option<bool>, controlEnabled: Option<bool>, scheduleEnabled: Option<bool>, interval: Option<int>,
    staleAfter: Option<int>)

  type Registry = map<string, Integration>

  /** Some other integration of the organization and kind already has the key. */
  predicate Taken(r: Registry, organization: string, kind: Kind, key: string, except: Option<string>) {
    exists id | id in r :: Some(id) != except && r[id].organization == organization && r[id].kind == kind
      && r[id].instanceKey == key
  }

  function Created(r: Registry, req: NewIntegration, id: string, now: Time): Result<Integration> {
    var key := InstanceKey.Normalize(req.instanceKey, req.name);
    if Text.IsBlank(req.organization) || !req.kind.Given? || Text.IsBlank(req.name) then Err(Validation)
    else if Taken(r, req.organization, req.kind.value, key, None) then Err(Validation)
    else
      var item := ScheduleDefaults(Integration(
        id, req.organization, req.kind.value, Text.Trim(req.name), key, req.mode, req.settings,
        if req.enabled then Configured else Disabled, Unconfigured,
        req.enabled, req.enabled && req.controlEnabled, req.enabled && req.scheduleEnabled, req.interval,
        req.staleAfter,
        None, None, None, None, None, None, 0, FreshDisabled, false, 0), now);
      if ValidConfiguration(item) then Ok(item) else Err(Validation)
  }

  function Patched<T>(patch: Option<T>, current: T): T {
    if patch.Some? then patch.value else current
  }

  /** The fields a request sets, before flags are forced. */
  function Revised(i: Integration, patch: IntegrationPatch): Integration {
    var name := if patch.name.Some? then Text.Trim(patch.name.value) else i.name;
    var key := if patch.instanceKey.Some? then InstanceKey.Normalize(patch.instanceKey.value, name) else i.instanceKey;
    i.(name := name,
       instanceKey := if key == "" then InstanceKey.Normalize("", name) else key,
       mode := Patched(patch.mode, i.mode),
       settings := Patched(patch.settings, i.settings),
       status := Patched(patch.status, i.status),
       enabled := Patched(patch.enabled, i.enabled), controlEnabled := Patched(patch.controlEnabled, i.controlEnabled),
       scheduleEnabled := Patched(patch.scheduleEnabled, i.scheduleEnabled),
       interval := Patched(patch.interval, i.interval), staleAfter := Patched(patch.staleAfter, i.staleAfter))
  }

  /** A disabled integration is neither controlled nor scheduled. */
  function Forced(i: Integration): Integration {
    if i.enabled then (if i.status == Available then i.(status := Configured) else i)
    else i.(status := Disabled, controlEnabled := false, scheduleEnabled := false)
  }

  function Updated(r: Registry, i: Integration, patch: IntegrationPatch, now: Time): Result<Integration> {
    var revised := Revised(i, patch);
    if Taken(r, revised.organization, revised.kind, revised.instanceKey, Some(revised.id)) then Err(Validation)
    else
      var item := ScheduleDefaults(Forced(revised), now);
      if ValidConfiguration(item) then Ok(item) else Err(Validation)
  }

  // ----- runs -----

  datatype Operation = TestConnection | Sync
  datatype Verdict = Success | Duplicate | Skipped | Error | OtherFailure

  datatype Run = Run(operation: Operation, verdict: Verdict, startedAt: Time)

  predicate Succeeds(v: Verdict) { v == Success || v == Duplicate || v == Skipped }

  function Pow2(k: nat): nat { if k == 0 then 1 else 2 * Pow2(k - 1) }

  /** The retry delay, in seconds, after the k-th consecutive failure. */
  function Backoff(k: nat): int {
    Min(900, 60 * Pow2(if k == 0 then 0 else k - 1))
  }

  /** nextIntegrationSyncTime. */
  function NextSync(i: Integration, verdict: Verdict, now: Time): Option<Time> {
    if !i.enabled || !i.scheduleEnabled then None
    else
      var interval := if i.interval <= 0 then DefaultInterval(i.kind) else i.interval;
      Some(now + SECOND * if verdict == Error then Min(interval, Backoff(i.failures)) else interval)
  }

  /** The fields a run sets before the next attempt is scheduled. */
  function Recorded(i: Integration, run: Run, now: Time): Integration {
    var syncs := run.operation == Sync;
    var ok := Succeeds(run.verdict);
    i.(lastTested := if syncs then i.lastTested else Some(now),
       attempted := if syncs then Some(run.startedAt) else i.attempted,
       succeeded := if syncs && ok then Some(now) else i.succeeded,
       failed := if syncs && !ok then Some(now) else i.failed,
       failures := if !syncs then i.failures else if ok then 0 else i.failures + 1,
       health := if ok then Healthy else Unhealthy,
       status := if !i.enabled then i.status else if ok then Connected else Errored,
       claimed := None)
  }

  /** The record that persistIntegrationRun writes. */
  function Persisted(i: Integration, run: Run, now: Time): Integration {
    var next := Recorded(i, run, now);
    Hydrate(next.(nextSync := NextSync(next, run.verdict, now)), now)
  }

  // ----- claims -----

  /** ClaimIntegrationSync: due, scheduled, and not held by a claim younger than the time to live. */
  predicate Claimable(i: Integration, at: Time) {
    && i.enabled && i.scheduleEnabled && i.nextSync.Some? && i.nextSync.value <= at
    && (i.claimed.None? || i.claimed.value < at - CLAIM_TTL)
  }
}
