/** Runs of the integration registry: scheduler state, failure counter, leases and unique keys. */
module IntegrationRuns {
  import opened Records
  import opened Integrations
  import InstanceKey

  datatype Event =
    | Creates(request: NewIntegration, id: string)
    | Updates(id: string, patch: IntegrationPatch)
    | Persists(id: string, run: Run)
    | Claims(id: string)

  datatype Step = Step(event: Event, now: Time)

  /** What each operation of `IntegrationService` leaves in the registry. */
  function Apply(r: Registry, e: Event, now: Time): Registry {
    match e
    case Creates(request, id) =>
      var result := Created(r, request, id, now);
      if result.Ok? then r[id := result.value] else r
    case Updates(id, patch) =>
      var result := if id in r then Updated(r, r[id], patch, now) else Err(NotFound);
      if result.Ok? then r[result.value.id := result.value] else r
    case Persists(id, run) => if id in r then r[id := Persisted(r[id], run, now)] else r
    case Claims(id) => if id in r && Claimable(r[id], now) then r[id := r[id].(claimed := Some(now))] else r
  }

  predicate Legal(r: Registry, e: Event) {
    e.Creates? ==> e.id !in r
  }

  predicate LegalRun(r: Registry, run: seq<Step>)
    decreases |run|
  {
    run == [] || (Legal(r, run[0].event) && LegalRun(Apply(r, run[0].event, run[0].now), run[1..]))
  }

  function After(r: Registry, run: seq<Step>): Registry
    decreases |run|
  {
    if run == [] then r else After(Apply(r, run[0].event, run[0].now), run[1..])
  }

  // ----- the state of one integration -----

  ghost predicate SchedulerOk(i: Integration) {
    && (i.nextSync.Some? <==> i.enabled && i.scheduleEnabled)
    && (!i.enabled ==> !i.scheduleEnabled && !i.controlEnabled)
    && (i.controlEnabled ==> i.enabled && i.mode == ActiveControl)
    && (i.scheduleEnabled ==> i.interval > 0 && i.staleAfter > 0)
    && (i.claimed.Some? ==> i.enabled && i.scheduleEnabled)
    && InstanceKey.IsKey(i.instanceKey)
  }

  ghost predicate Unique(r: Registry) {
    forall a, b | a in r && b in r && a != b ::
      r[a].organization != r[b].organization || r[a].kind != r[b].kind || r[a].instanceKey != r[b].instanceKey
  }

  ghost predicate Inv(r: Registry) {
    && (forall id | id in r :: r[id].id == id && SchedulerOk(r[id]))
    && Unique(r)
  }

  lemma DefaultsSettle(i: Integration, now: Time)
    requires !i.enabled ==> !i.scheduleEnabled && !i.controlEnabled
    requires InstanceKey.IsKey(i.instanceKey)
    requires ValidConfiguration(ScheduleDefaults(i, now))
    ensures SchedulerOk(ScheduleDefaults(i, now))
  {
  }

  lemma DefaultsFrame(i: Integration, now: Time)
    ensures var j := ScheduleDefaults(i, now);
            && j.id == i.id && j.organization == i.organization && j.kind == i.kind && j.instanceKey == i.instanceKey
            && j.enabled == i.enabled && j.scheduleEnabled == i.scheduleEnabled
            && j.failures == (if i.enabled then i.failures else 0)
            && j.claimed == (if i.enabled && i.scheduleEnabled then i.claimed else None)
            && j.succeeded == i.succeeded && j.failed == i.failed && j.attempted == i.attempted
  {
  }

  lemma CreatedOk(r: Registry, request: NewIntegration, id: string, now: Time)
    requires Created(r, request, id, now).Ok?
    ensures var i := Created(r, request, id, now).value;
            && SchedulerOk(i) && i.id == id && i.failures == 0
            && !Taken(r, i.organization, i.kind, i.instanceKey, None)
  {
    InstanceKey.KeyGrammar(request.instanceKey, request.name);
    var i := Created(r, request, id, now).value;
    assert i.organization == request.organization && i.kind == request.kind.value;
  }

  lemma RevisedFrame(i: Integration, patch: IntegrationPatch)
    ensures var j := Forced(Revised(i, patch));
            && j.id == i.id && j.organization == i.organization && j.kind == i.kind
            && j.failures == i.failures && j.claimed == i.claimed
            && j.succeeded == i.succeeded && j.failed == i.failed && j.attempted == i.attempted
            && (!j.enabled ==> !j.scheduleEnabled && !j.controlEnabled)
  {
  }

  lemma UpdatedOk(r: Registry, i: Integration, patch: IntegrationPatch, now: Time)
    requires SchedulerOk(i) && Updated(r, i, patch, now).Ok?
    ensures var j := Updated(r, i, patch, now).value;
            && SchedulerOk(j) && j.id == i.id
            && !Taken(r, j.organization, j.kind, j.instanceKey, Some(i.id))
            && j.failures == (if j.enabled then i.failures else 0)
            && j.claimed == (if j.enabled && j.scheduleEnabled then i.claimed else None)
            && j.succeeded == i.succeeded && j.failed == i.failed && j.attempted == i.attempted
  {
    var revised := Revised(i, patch);
    if patch.instanceKey.Some? { InstanceKey.KeyGrammar(patch.instanceKey.value, revised.name); }
    var forced := Forced(revised);
    DefaultsFrame(forced, now);
    DefaultsSettle(forced, now);
    RevisedFrame(i, patch);
  }

  lemma PersistedOk(i: Integration, run: Run, now: Time)
    requires SchedulerOk(i)
    ensures var j := Persisted(i, run, now);
            SchedulerOk(j) && j.id == i.id && j.claimed == None
            && j.organization == i.organization && j.kind == i.kind && j.instanceKey == i.instanceKey
            && j.enabled == i.enabled && j.scheduleEnabled == i.scheduleEnabled && j.interval == i.interval
            && j.staleAfter > 0
  {
  }

  lemma PutKeepsUnique(r: Registry, i: Integration)
    requires Inv(r) && SchedulerOk(i)
    requires !Taken(r, i.organization, i.kind, i.instanceKey, Some(i.id))
    ensures Inv(r[i.id := i])
  {
    forall a | a in r && a != i.id
      ensures r[a].organization != i.organization || r[a].kind != i.kind || r[a].instanceKey != i.instanceKey
    {
      assert Some(a) != Some(i.id);
    }
  }

  lemma SameKeyNotTaken(r: Registry, id: string, i: Integration)
    requires Inv(r) && id in r && i.id == id
    requires i.organization == r[id].organization && i.kind == r[id].kind && i.instanceKey == r[id].instanceKey
    ensures !Taken(r, i.organization, i.kind, i.instanceKey, Some(id))
  {
  }

  lemma StepKeeps(r: Registry, e: Event, now: Time)
    requires Inv(r) && Legal(r, e)
    ensures Inv(Apply(r, e, now))
  {
    match e {
      case Creates(request, id) =>
        if Created(r, request, id, now).Ok? {
          CreatedOk(r, request, id, now);
          PutKeepsUnique(r, Created(r, request, id, now).value);
        }
      case Updates(id, patch) =>
        if id in r && Updated(r, r[id], patch, now).Ok? {
          UpdatedOk(r, r[id], patch, now);
          PutKeepsUnique(r, Updated(r, r[id], patch, now).value);
        }
      case Persists(id, run) =>
        if id in r {
          PersistedOk(r[id], run, now);
          SameKeyNotTaken(r, id, Persisted(r[id], run, now));
          PutKeepsUnique(r, Persisted(r[id], run, now));
        }
      case Claims(id) =>
        if id in r && Claimable(r[id], now) {
          SameKeyNotTaken(r, id, r[id].(claimed := Some(now)));
          PutKeepsUnique(r, r[id].(claimed := Some(now)));
        }
    }
  }

  /** Every state of every run is well scheduled, and no two integrations share organization, kind and key. */
  lemma {:induction false} RunKeeps(r: Registry, run: seq<Step>)
    requires Inv(r) && LegalRun(r, run)
    ensures Inv(After(r, run))
    decreases |run|
  {
    if run == [] {
    } else {
      StepKeeps(r, run[0].event, run[0].now);
      RunKeeps(Apply(r, run[0].event, run[0].now), run[1..]);
    }
  }

  // ----- the failure counter -----

  datatype Entry = Synced(ok: bool) | Tested | Saved(enabled: bool)

  /** A successful sync resets the counter, and so does an update that leaves the integration disabled. */
  predicate Resets(e: Entry) { e == Synced(true) || e == Saved(false) }

  /** How many entries there are up to the last reset. */
  function LastReset(log: seq<Entry>): (n: nat)
    ensures n <= |log|
  {
    if log == [] then 0
    else if Resets(log[|log| - 1]) then |log|
    else LastReset(log[..|log| - 1])
  }

  function CountFailed(log: seq<Entry>): nat {
    if log == [] then 0
    else CountFailed(log[..|log| - 1]) + if log[|log| - 1] == Synced(false) then 1 else 0
  }

  function FailedSinceReset(log: seq<Entry>): nat {
    CountFailed(log[LastReset(log)..])
  }

  lemma LogStep(log: seq<Entry>, e: Entry)
    ensures FailedSinceReset(log + [e]) ==
            if Resets(e) then 0 else FailedSinceReset(log) + if e == Synced(false) then 1 else 0
  {
    var n := LastReset(log);
    assert (log + [e])[..|log|] == log;
    if Resets(e) {
      assert (log + [e])[|log| + 1..] == [];
    } else {
      assert (log + [e])[n..] == log[n..] + [e];
      assert (log[n..] + [e])[..|log| - n] == log[n..];
    }
  }

  /** What an event adds to the log of integration `id`. */
  function Entries(r: Registry, e: Event, now: Time, id: string): seq<Entry> {
    if e.id != id then []
    else
      match e
      case Creates(request, _) => []
      case Updates(_, patch) => if id in r && Updated(r, r[id], patch, now).Ok?
                                then [Saved(Updated(r, r[id], patch, now).value.enabled)] else []
      case Persists(_, run) =>
        if id !in r then [] else if run.operation == TestConnection then [Tested] else [Synced(Succeeds(run.verdict))]
      case Claims(_) => []
  }

  function Log(r: Registry, run: seq<Step>, id: string): seq<Entry>
    decreases |run|
  {
    if run == [] then []
    else Entries(r, run[0].event, run[0].now, id) + Log(Apply(r, run[0].event, run[0].now), run[1..], id)
  }

  /** An event leaves every other integration alone. */
  lemma OthersStay(r: Registry, e: Event, now: Time, id: string)
    requires Inv(r) && e.id != id
    ensures var next := Apply(r, e, now); (id in next <==> id in r) && (id in r ==> next[id] == r[id])
    ensures Entries(r, e, now, id) == []
  {
    if e.Updates? && e.id in r && Updated(r, r[e.id], e.patch, now).Ok? {
      UpdatedOk(r, r[e.id], e.patch, now);
    }
  }

  /** The counter of an integration agrees with its log. */
  predicate Counts(r: Registry, id: string, log: seq<Entry>) {
    if id in r then r[id].failures == FailedSinceReset(log) else log == []
  }

  lemma CounterUpdate(r: Registry, e: Event, now: Time, log: seq<Entry>)
    requires Inv(r) && e.Updates? && Counts(r, e.id, log)
    ensures Counts(Apply(r, e, now), e.id, log + Entries(r, e, now, e.id))
  {
    assert log + [] == log;
    if e.id in r && Updated(r, r[e.id], e.patch, now).Ok? {
      UpdatedOk(r, r[e.id], e.patch, now);
      LogStep(log, Saved(Updated(r, r[e.id], e.patch, now).value.enabled));
    }
  }

  lemma CounterPersist(r: Registry, e: Event, now: Time, log: seq<Entry>)
    requires Inv(r) && e.Persists? && Counts(r, e.id, log)
    ensures Counts(Apply(r, e, now), e.id, log + Entries(r, e, now, e.id))
  {
    assert log + [] == log;
    if e.id in r {
      LogStep(log, if e.run.operation == TestConnection then Tested else Synced(Succeeds(e.run.verdict)));
    }
  }

  lemma CounterQuiet(r: Registry, e: Event, now: Time, log: seq<Entry>)
    requires Legal(r, e) && (e.Creates? || e.Claims?) && Counts(r, e.id, log)
    ensures Counts(Apply(r, e, now), e.id, log + Entries(r, e, now, e.id))
  {
    assert log + [] == log;
    if e.Creates? && Created(r, e.request, e.id, now).Ok? {
      CreatedOk(r, e.request, e.id, now);
    }
  }

  lemma CounterStep(r: Registry, e: Event, now: Time, id: string, log: seq<Entry>)
    requires Inv(r) && Legal(r, e) && Counts(r, id, log)
    ensures Counts(Apply(r, e, now), id, log + Entries(r, e, now, id))
  {
    if e.id != id {
      assert log + [] == log;
      OthersStay(r, e, now, id);
    } else if e.Updates? {
      CounterUpdate(r, e, now, log);
    } else if e.Persists? {
      CounterPersist(r, e, now, log);
    } else {
      CounterQuiet(r, e, now, log);
    }
  }

  lemma LogAppends(a: seq<Entry>, b: seq<Entry>, c: seq<Entry>)
    ensures (a + b) + c == a + (b + c)
  {
  }

  lemma {:induction false} CounterRun(r: Registry, run: seq<Step>, id: string, log: seq<Entry>)
    requires Inv(r) && LegalRun(r, run)
    requires Counts(r, id, log)
    ensures var end := After(r, run);
            id in end ==> end[id].failures == FailedSinceReset(log + Log(r, run, id))
    decreases |run|
  {
    if run == [] {
      assert log + [] == log;
    } else {
      var e, now := run[0].event, run[0].now;
      var next, entries := Apply(r, e, now), Entries(r, e, now, id);
      StepKeeps(r, e, now);
      CounterStep(r, e, now, id, log);
      CounterRun(next, run[1..], id, log + entries);
      LogAppends(log, entries, Log(next, run[1..], id));
    }
  }

  /**
   Over every run from the empty registry: the counter is the number of failed syncs since the last
   successful sync or the last update that left the integration disabled. Tests and claims do not count.
   */
  lemma CounterCountsFailures(run: seq<Step>, id: string)
    requires LegalRun(map[], run) && id in After(map[], run)
    ensures After(map[], run)[id].failures == FailedSinceReset(Log(map[], run, id))
  {
    CounterRun(map[], run, id, []);
    assert [] + Log(map[], run, id) == Log(map[], run, id);
  }

  // ----- leases -----

  /** A persisted run releases the claim, and so does an update after which the integration is not scheduled. */
  predicate Releases(r: Registry, e: Event, now: Time, id: string) {
    && e.id == id && id in r
    && (e.Persists?
        || (e.Updates? && Updated(r, r[id], e.patch, now).Ok?
            && var j := Updated(r, r[id], e.patch, now).value; !(j.enabled && j.scheduleEnabled)))
  }

  predicate NeverReleased(r: Registry, run: seq<Step>, id: string)
    decreases |run|
  {
    run == [] || (!Releases(r, run[0].event, run[0].now, id)
                  && NeverReleased(Apply(r, run[0].event, run[0].now), run[1..], id))
  }

  /** A step that does not release a claim can only renew it. */
  lemma ClaimStays(r: Registry, e: Event, now: Time, id: string)
    requires Inv(r) && Legal(r, e) && !Releases(r, e, now, id) && id in r && r[id].claimed.Some?
    ensures var next := Apply(r, e, now);
            id in next && next[id].claimed.Some? && (next[id].claimed == r[id].claimed
                                                     || next[id].claimed.value >= r[id].claimed.value)
  {
    if e.id != id {
      OthersStay(r, e, now, id);
    } else if e.Updates? && Updated(r, r[id], e.patch, now).Ok? {
      UpdatedOk(r, r[id], e.patch, now);
    }
  }

  /**
   While nothing releases a claim, the integration cannot be claimed again within the time to live,
   however many workers try.
   */
  lemma {:induction false} LeaseHolds(r: Registry, run: seq<Step>, id: string, since: Time, at: Time)
    requires Inv(r) && LegalRun(r, run) && NeverReleased(r, run, id)
    requires id in r && r[id].claimed.Some? && r[id].claimed.value >= since
    ensures id in After(r, run)
    ensures Claimable(After(r, run)[id], at) ==> at > since + CLAIM_TTL
    decreases |run|
  {
    if run == [] {
    } else {
      var e, now := run[0].event, run[0].now;
      StepKeeps(r, e, now);
      ClaimStays(r, e, now, id);
      LeaseHolds(Apply(r, e, now), run[1..], id, since, at);
    }
  }
}
