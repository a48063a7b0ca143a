/** The operations on integrations, step by step, against the functions of `Integrations`. */
module IntegrationStore {
  import opened Records
  import opened Integrations
  import InstanceKey
  import Runs = IntegrationRuns
  import Text

  /** The doubling loop of the retry delay; it never doubles more than four times. */
  method RetrySeconds(failures: int) returns (seconds: int, ghost doublings: nat)
    ensures seconds == Backoff(if failures < 0 then 0 else failures)
    ensures doublings <= 4
  {
    var count := Max(1, failures);
    seconds := 60;
    doublings := 0;
    var step := 1;
    PowersOfTwo();
    while step < count
      invariant 1 <= step <= count && doublings == step - 1 <= 3
      invariant seconds == 60 * Pow2(step - 1) < 900
    {
      seconds := seconds * 2;
      doublings := doublings + 1;
      if seconds >= 900 {
        seconds := 900;
        PowGrows(step, count - 1);
        break;
      }
      step := step + 1;
    }
  }

  lemma PowersOfTwo()
    ensures Pow2(0) == 1 && Pow2(1) == 2 && Pow2(2) == 4 && Pow2(3) == 8 && Pow2(4) == 16
  {
  }

  lemma {:induction false} PowGrows(j: nat, k: nat)
    requires j <= k
    ensures Pow2(j) <= Pow2(k)
  {
    if j == k {
    } else {
      PowGrows(j, k - 1);
    }
  }

  method NextSyncTime(i: Integration, verdict: Verdict, now: Time) returns (next: Option<Time>)
    ensures next == NextSync(i, verdict, now)
  {
    if !i.enabled || !i.scheduleEnabled {
      return None;
    }
    var interval := i.interval;
    if interval <= 0 {
      interval := DefaultInterval(i.kind);
    }
    var delay := interval * SECOND;
    if verdict == Error {
      var seconds, _ := RetrySeconds(i.failures);
      if seconds * SECOND < delay {
        delay := seconds * SECOND;
      }
    }
    next := Some(now + delay);
  }

  method ApplyScheduleDefaults(current: Integration, now: Time) returns (i: Integration)
    ensures i == ScheduleDefaults(current, now)
  {
    i := current;
    if i.enabled && i.interval <= 0 {
      i := i.(interval := DefaultInterval(i.kind));
    }
    if i.enabled && i.scheduleEnabled && i.staleAfter <= 0 {
      i := i.(staleAfter := DefaultStaleAfter(i.kind, i.interval));
    }
    if !i.enabled || !i.scheduleEnabled {
      i := i.(nextSync := None, claimed := None);
      if !i.enabled {
        i := i.(failures := 0);
      }
      return Hydrate(i, now);
    }
    if i.nextSync == None {
      if i.succeeded.Some? {
        i := i.(nextSync := Some(i.succeeded.value + i.interval * SECOND));
      } else {
        i := i.(nextSync := Some(now));
      }
    }
    i := Hydrate(i, now);
  }

  method RecordSuccess(current: Integration, operation: Integrations.Operation, now: Time) returns (i: Integration)
    ensures i == current.(health := Healthy, status := if current.enabled then Connected else current.status,
                          succeeded := if operation == Sync then Some(now) else current.succeeded,
                          failures := if operation == Sync then 0 else current.failures)
  {
    i := current.(health := Healthy);
    if operation != TestConnection {
      i := i.(succeeded := Some(now), failures := 0);
    }
    if i.enabled {
      i := i.(status := Connected);
    }
  }

  method RecordFailure(current: Integration, operation: Integrations.Operation, now: Time) returns (i: Integration)
    ensures i == current.(health := Unhealthy, status := if current.enabled then Errored else current.status,
                          failed := if operation == Sync then Some(now) else current.failed,
                          failures := if operation == Sync then current.failures + 1 else current.failures)
  {
    i := current.(health := Unhealthy);
    if operation != TestConnection {
      i := i.(failed := Some(now), failures := i.failures + 1);
    }
    if i.enabled {
      i := i.(status := Errored);
    }
  }

  /** The effects of a run on the record, in order. */
  method RecordRun(current: Integration, run: Run, now: Time) returns (i: Integration)
    ensures i == Recorded(current, run, now)
  {
    i := current;
    match run.operation {
      case TestConnection => i := i.(lastTested := Some(now));
      case Sync => i := i.(attempted := Some(run.startedAt));
    }
    if run.verdict == Success || run.verdict == Duplicate || run.verdict == Skipped {
      i := RecordSuccess(i, run.operation, now);
    } else {
      i := RecordFailure(i, run.operation, now);
    }
    i := i.(claimed := None);
  }

  /** What a provider and the graph made of a sync; both outcomes are left open. */
  datatype Provider = Provider(succeeds: bool, graphSucceeds: bool)

  method CallProvider(kind: Kind, provider: Provider) returns (verdict: Verdict)
    ensures verdict == if Syncable(kind) && provider.succeeds then Success else Error
  {
    if Syncable(kind) {
      verdict := if provider.succeeds then Success else Error;
    } else {
      verdict := Error;
    }
  }

  class IntegrationService {
    var integrations: Registry
    var runs: seq<(string, Run)>

    constructor ()
      ensures integrations == map[] && runs == []
    {
      integrations, runs := map[], [];
    }

    /** ListIntegrations: some `limit` of the matching integrations, or all of them if there are fewer. */
    method Matching(organization: string, kind: Kind, key: string, limit: nat) returns (found: set<string>)
      ensures forall id | id in found ::
              id in integrations && integrations[id].organization == organization
              && integrations[id].kind == kind && integrations[id].instanceKey == key
      ensures |found| <= limit
      ensures |found| < limit ==> forall id | id in integrations && integrations[id].organization == organization
              && integrations[id].kind == kind && integrations[id].instanceKey == key :: id in found
    {
      found := {};
      var rest := integrations.Keys;
      while rest != {} && |found| < limit
        invariant rest <= integrations.Keys && |found| <= limit
        invariant forall id | id in found ::
                  id in integrations && integrations[id].organization == organization
                  && integrations[id].kind == kind && integrations[id].instanceKey == key
        invariant forall id | id in integrations && integrations[id].organization == organization
                  && integrations[id].kind == kind && integrations[id].instanceKey == key :: id in found || id in rest
        decreases rest
      {
        var id :| id in rest;
        rest := rest - {id};
        var i := integrations[id];
        if i.organization == organization && i.kind == kind && i.instanceKey == key {
          found := found + {id};
        }
      }
    }

    /** One result is enough to see a duplicate. */
    method CreateIntegration(req: NewIntegration, id: string, now: Time, auditOk: bool) returns (r: Result<Integration>)
      modifies this
      ensures var made := Created(old(integrations), req, id, now);
              && r == Answer(made, auditOk)
              && integrations == if made.Ok? then old(integrations)[id := made.value] else old(integrations)
      ensures runs == old(runs)
    {
      if Text.IsBlank(req.organization) || req.kind == Absent || Text.IsBlank(req.name) {
        return Err(Validation);
      }
      if req.kind == Unsupported {
        return Err(Validation);
      }
      var kind := req.kind.value;
      var key := InstanceKey.NormalizeInstanceKey(req.instanceKey, req.name);
      var existing := Matching(req.organization, kind, key, 1);
      if |existing| > 0 {
        var other :| other in existing;
        assert Taken(integrations, req.organization, kind, key, None);
        return Err(Validation);
      }
      var item := Integration(
        id, req.organization, kind, Text.Trim(req.name), key, req.mode, req.settings, Available, Unconfigured,
        req.enabled, req.controlEnabled, req.scheduleEnabled, req.interval, req.staleAfter,
        None, None, None, None, None, None, 0, FreshDisabled, false, 0);
      if item.enabled && item.status == Available {
        item := item.(status := Configured);
      }
      if !item.enabled {
        item := item.(status := Disabled, controlEnabled := false, scheduleEnabled := false);
      }
      item := ApplyScheduleDefaults(item, now);
      if !ValidConfiguration(item) {
        return Err(Validation);
      }
      integrations := integrations[id := item];
      return Answer(Ok(item), auditOk);
    }

    /** Five results are enough to see a duplicate next to the integration itself. */
    method UpdateIntegration(id: string, patch: IntegrationPatch, now: Time, auditOk: bool)
        returns (r: Result<Integration>)
      requires forall x | x in integrations :: integrations[x].id == x
      modifies this
      ensures var made := if id in old(integrations)
                          then Updated(old(integrations), old(integrations)[id], patch, now) else Err(NotFound);
              && r == Answer(made, auditOk)
              && integrations == if made.Ok? then old(integrations)[made.value.id := made.value] else old(integrations)
      ensures runs == old(runs)
    {
      if id !in integrations {
        return Err(NotFound);
      }
      var item := Revised(integrations[id], patch);
      var existing := Matching(item.organization, item.kind, item.instanceKey, 5);
      var others := existing - {item.id};
      if others != {} {
        var other :| other in others;
        assert Taken(integrations, item.organization, item.kind, item.instanceKey, Some(item.id));
        return Err(Validation);
      }
      assert existing <= {item.id};
      SmallSet(existing, item.id);
      if item.enabled && item.status == Available {
        item := item.(status := Configured);
      }
      if !item.enabled {
        item := item.(status := Disabled, controlEnabled := false, scheduleEnabled := false);
      }
      item := ApplyScheduleDefaults(item, now);
      if !ValidConfiguration(item) {
        return Err(Validation);
      }
      integrations := integrations[item.id := item];
      return Answer(Ok(item), auditOk);
    }

    /** The record and the run are written in one transaction, which may fail as a whole. */
    method PersistRun(current: Integration, run: Run, now: Time, commits: bool) returns (r: Result<Integration>)
      modifies this
      ensures r == if commits then Ok(Persisted(current, run, now)) else Err(Unavailable)
      ensures integrations == if r.Ok? then old(integrations)[r.value.id := r.value] else old(integrations)
      ensures runs == if r.Ok? then old(runs) + [(r.value.id, run)] else old(runs)
    {
      var i := RecordRun(current, run, now);
      var next := NextSyncTime(i, run.verdict, now);
      i := Hydrate(i.(nextSync := next), now);
      if !commits {
        return Err(Unavailable);
      }
      integrations := integrations[i.id := i];
      runs := runs + [(i.id, run)];
      return Ok(i);
    }

    /**
     syncIntegrationWithTrigger: whatever fails, one run is persisted and the claim is gone, unless the
     transaction that persists it fails. A sync that has failed already does not look at that.
     */
    method SyncWithTrigger(id: string, provider: Provider, startedAt: Time, now: Time, commits: bool)
        returns (r: Result<Integration>)
      requires forall x | x in integrations :: integrations[x].id == x
      modifies this
      ensures id !in old(integrations) ==> r == Err(NotFound) && integrations == old(integrations) && runs == old(runs)
      ensures id in old(integrations) ==>
                var i := old(integrations)[id];
                var supported := Syncable(i.kind);
                var run := Run(Sync, if ValidConfiguration(i) && supported && provider.succeeds then Success
                                     else Error, startedAt);
                && integrations == (if commits then old(integrations)[id := Persisted(i, run, now)]
                                    else old(integrations))
                && runs == (if commits then old(runs) + [(id, run)] else old(runs))
                && (commits ==> integrations[id].claimed == None)
                && (r.Ok? <==> run.verdict == Success && commits && provider.graphSucceeds)
    {
      if id !in integrations {
        return Err(NotFound);
      }
      var i := integrations[id];
      if !ValidConfiguration(i) {
        var _ := PersistRun(i, Run(Sync, Error, startedAt), now, commits);
        return Err(Validation);
      }
      var verdict := CallProvider(i.kind, provider);
      if verdict == Error {
        var _ := PersistRun(i, Run(Sync, verdict, startedAt), now, commits);
        return Err(Unavailable);
      }
      i :- PersistRun(i, Run(Sync, verdict, startedAt), now, commits);
      if !provider.graphSucceeds {
        return Err(Unavailable);
      }
      return Ok(i);
    }

    /** ClaimIntegrationSync. */
    method Claim(id: string, at: Time) returns (r: Result<bool>)
      modifies this
      ensures r == if id in old(integrations) then Ok(Claimable(old(integrations)[id], at)) else Err(NotFound)
      ensures integrations == if r == Ok(true)
                              then old(integrations)[id := old(integrations)[id].(claimed := Some(at))]
                              else old(integrations)
      ensures runs == old(runs)
    {
      var i :- if id in integrations then Ok(integrations[id]) else Err(NotFound);
      if !i.enabled || !i.scheduleEnabled || i.nextSync == None || i.nextSync.value > at {
        return Ok(false);
      }
      if i.claimed.Some? && i.claimed.value >= at - CLAIM_TTL {
        return Ok(false);
      }
      integrations := integrations[id := i.(claimed := Some(at))];
      return Ok(true);
    }

    /** Every event of a run is a call of one of the methods. */
    method Perform(e: Runs.Event, now: Time, auditOk: bool)
      requires forall x | x in integrations :: integrations[x].id == x
      modifies this
      ensures integrations == Runs.Apply(old(integrations), e, now)
    {
      match e {
        case Creates(request, id) => var _ := CreateIntegration(request, id, now, auditOk);
        case Updates(id, patch) => var _ := UpdateIntegration(id, patch, now, auditOk);
        case Persists(id, run) =>
          if id in integrations {
            var _ := PersistRun(integrations[id], run, now, true);
          }
        case Claims(id) => var _ := Claim(id, now);
      }
    }

    /**
     A run of method calls leaves the registry that the laws of
     runs speak of, well scheduled and with unique keys.
     */
    method Replay(run: seq<Runs.Step>, auditOk: bool)
      requires Runs.Inv(integrations) && Runs.LegalRun(integrations, run)
      modifies this
      ensures integrations == Runs.After(old(integrations), run) && Runs.Inv(integrations)
    {
      for i := 0 to |run|
        invariant Runs.Inv(integrations) && Runs.LegalRun(integrations, run[i..])
        invariant Runs.After(integrations, run[i..]) == Runs.After(old(integrations), run)
      {
        assert run[i..][0] == run[i] && run[i..][1..] == run[i + 1..];
        Runs.StepKeeps(integrations, run[i].event, run[i].now);
        Perform(run[i].event, run[i].now, auditOk);
      }
    }
  }

  lemma SmallSet(s: set<string>, x: string)
    requires s <= {x}
    ensures |s| <= 1
  {
    if s != {} { assert s == {x}; }
  }
}
