/** Retry delays, and how freshness agrees with the schedule. */
module ScheduleLaws {
  import opened Records
  import opened Integrations
  import InstanceKey
  import Runs = IntegrationRuns

  predicate Scheduled(i: Integration) { i.enabled && i.scheduleEnabled && i.interval > 0 }

  // ----- retry delays -----

  lemma {:induction false} PowAtLeast(k: nat)
    requires k >= 4
    ensures Pow2(k) >= 16
  {
    if k == 4 {
    } else {
      PowAtLeast(k - 1);
    }
  }

  /** 60, 120, 240, 480, then 900 for ever. */
  lemma BackoffTable(k: nat)
    ensures Backoff(k) ==
            if k <= 1 then 60
            else if k == 2 then 120
            else if k == 3 then 240
            else if k == 4 then 480
            else 900
  {
    assert Pow2(0) == 1 && Pow2(1) == 2 && Pow2(2) == 4 && Pow2(3) == 8;
    if k >= 5 { PowAtLeast(k - 1); }
  }

  lemma BackoffGrows(j: nat, k: nat)
    requires j <= k
    ensures 60 <= Backoff(j) <= Backoff(k) <= 900
  {
    BackoffTable(j);
    BackoffTable(k);
  }

  /** The sum of the first k retry delays, each capped by the interval. */
  function TotalDelay(interval: int, k: nat): int {
    if k == 0 then 0 else TotalDelay(interval, k - 1) + Min(interval, Backoff(k))
  }

  /** How many of the delays 60, 120, 240 and 480 are below the interval. */
  function ShortDelays(interval: int): nat {
    if interval <= 60 then 0
    else if interval <= 120 then 1
    else if interval <= 240 then 2
    else if interval <= 480 then 3
    else 4
  }

  /** The doubling delays first, then the cap for every further failure. */
  lemma {:induction false} TotalClosedForm(interval: int, k: nat)
    requires interval > 0
    ensures var n := Min(k, ShortDelays(interval));
            TotalDelay(interval, k) == 60 * (Pow2(n) - 1) + (k - n) * Min(interval, 900)
  {
    assert Pow2(0) == 1 && Pow2(1) == 2 && Pow2(2) == 4 && Pow2(3) == 8 && Pow2(4) == 16;
    if k == 0 {
    } else {
      TotalClosedForm(interval, k - 1);
      BackoffTable(k);
      var n, cap := ShortDelays(interval), Min(interval, 900);
      if k <= n {
        assert Min(interval, Backoff(k)) == Backoff(k);
      } else {
        assert Min(interval, Backoff(k)) == cap;
        assert (k - n) * cap == (k - 1 - n) * cap + cap;
      }
    }
  }

  /** What a failing sync of a scheduled integration leaves. */
  lemma FailedSync(i: Integration, started: Time, t: Time)
    requires Scheduled(i)
    ensures var next := Persisted(i, Run(Sync, Error, started), t);
            && Scheduled(next) && next.interval == i.interval && next.failures == i.failures + 1
            && next.nextSync == Some(t + SECOND * Min(i.interval, Backoff(i.failures + 1)))
  {
  }

  /** The record after a sync that fails at `t`, the n failures in a row before it counted. */
  function Retried(i: Integration, n: nat, started: Time, t: Time): Integration {
    Persisted(i.(failures := n), Run(Sync, Error, started), t)
  }

  predicate WithinInterval(i: Integration, t: Time) {
    i.nextSync.Some? && i.nextSync.value < t + SECOND * i.interval
  }

  /** A retry never comes later than the interval, and comes earlier exactly while the backoff is below it. */
  lemma RetryBelowInterval(i: Integration, n: nat, started: Time, t: Time)
    requires Scheduled(i)
    ensures var j := Retried(i, n, started, t);
            && j.interval == i.interval && j.nextSync.Some? && t < j.nextSync.value <= t + SECOND * i.interval
            && (WithinInterval(j, t) <==> Backoff(n + 1) < i.interval)
  {
    FailedSync(i.(failures := n), started, t);
    BackoffTable(n + 1);
  }

  /**
   Every retry comes before the interval is over, however many failures
   there were, exactly if the interval is above the cap.
   */
  lemma AlwaysBelowInterval(i: Integration, started: Time, t: Time)
    requires Scheduled(i)
    ensures (forall n: nat :: WithinInterval(Retried(i, n, started, t), t)) <==> i.interval > 900
  {
    forall n: nat ensures WithinInterval(Retried(i, n, started, t), t) <==> Backoff(n + 1) < i.interval {
      RetryBelowInterval(i, n, started, t);
    }
    forall k: nat ensures Backoff(k) <= 900 { BackoffTable(k); }
    BackoffTable(5);
    assert WithinInterval(Retried(i, 4, started, t), t) <==> Backoff(4 + 1) < i.interval;
  }

  /**
   It happens: with the default interval of Kubernetes, the fourth
   failure in a row is retried a whole interval later.
   */
  lemma RetryAtInterval() returns (i: Integration)
    ensures Runs.SchedulerOk(i) && Scheduled(i) && i.interval == DefaultInterval(i.kind) && i.failures == 3
    ensures forall started, t :: Persisted(i, Run(Sync, Error, started), t).nextSync == Some(t + SECOND * i.interval)
  {
    i := ThreeFailures();
    BackoffTable(4);
    forall started, t ensures Persisted(i, Run(Sync, Error, started), t).nextSync == Some(t + SECOND * i.interval) {
      FailedSync(i, started, t);
    }
  }

  lemma ThreeFailures() returns (i: Integration)
    ensures Runs.SchedulerOk(i) && Scheduled(i) && i.kind == Kubernetes && i.interval == 300 && i.failures == 3
  {
    i := Integration("i", "o", Kubernetes, "n", "default", Advisory, Settings(false, false), Errored, Unhealthy,
                     true, false, true, 300, 600, Some(420 * SECOND), None, Some(0), None, Some(0), None, 3, Awaiting,
                     false, 0);
    InstanceKey.DefaultIsKey();
  }

  /** A record, and when its next sync is due. */
  datatype Attempt = Attempt(integration: Integration, due: Time)

  /** The sync of `a` fails at the moment it is due, which leaves `b`. */
  predicate FailsInto(a: Attempt, b: Attempt) {
    b.integration == Persisted(a.integration, Run(Sync, Error, a.due), a.due) && b.integration.nextSync == Some(b.due)
  }

  ghost predicate FailingChain(chain: seq<Attempt>) {
    forall n | 0 < n < |chain| :: FailsInto(chain[n - 1], chain[n])
  }

  lemma ChainStep(a: Attempt, b: Attempt)
    requires Scheduled(a.integration) && FailsInto(a, b)
    ensures Scheduled(b.integration) && b.integration.interval == a.integration.interval
            && b.integration.failures == a.integration.failures + 1
    ensures b.due == a.due + SECOND * Min(a.integration.interval, Backoff(b.integration.failures))
  {
    FailedSync(a.integration, a.due, a.due);
  }

  lemma DelayStep(interval: int, start: Time, due: Time, later: Time, k: nat)
    requires k > 0 && due == start + SECOND * TotalDelay(interval, k - 1)
             && later == due + SECOND * Min(interval, Backoff(k))
    ensures later == start + SECOND * TotalDelay(interval, k)
  {
  }

  /**
   After k failures in a row the counter is k, and the next
   attempt is due exactly the total delay after the first.
   */
  lemma {:induction false} ChainDelay(chain: seq<Attempt>, k: nat)
    requires FailingChain(chain) && k < |chain| && Scheduled(chain[0].integration) && chain[0].integration.failures == 0
    ensures Scheduled(chain[k].integration) && chain[k].integration.interval == chain[0].integration.interval
    ensures chain[k].integration.failures == k
    ensures chain[k].due == chain[0].due + SECOND * TotalDelay(chain[0].integration.interval, k)
  {
    if k == 0 {
    } else {
      ChainDelay(chain, k - 1);
      ChainStep(chain[k - 1], chain[k]);
      DelayStep(chain[0].integration.interval, chain[0].due, chain[k - 1].due, chain[k].due, k);
    }
  }

  // ----- freshness -----

  lemma LagGrows(reference: Option<Time>, a: Time, b: Time)
    requires a <= b
    ensures Lag(reference, a) <= Lag(reference, b)
  {
  }

  /** An untouched record that is stale stays stale. */
  lemma StalenessPersists(i: Integration, a: Time, b: Time)
    requires a <= b
    ensures FreshnessOf(i, a).1 ==> FreshnessOf(i, b).1
  {
    LagGrows(i.succeeded, a, b);
    LagGrows(i.attempted, a, b);
  }

  /** The threshold that the default rules choose is at least twice the interval. */
  lemma DefaultThresholdCoversInterval(i: Integration, now: Time)
    requires Scheduled(i) && i.staleAfter <= 0
    ensures Hydrate(i, now).staleAfter >= 2 * i.interval
  {
  }

  /**
   A sync that succeeds at t keeps the integration fresh until the next scheduled sync exactly if the
   threshold is at least the interval.
   */
  lemma FreshUntilNextSync(i: Integration, verdict: Verdict, started: Time, t: Time)
    requires Scheduled(i) && Succeeds(verdict) && (i.failed.Some? ==> i.failed.value <= t)
    ensures var j := Persisted(i, Run(Sync, verdict, started), t);
            && j.nextSync == Some(t + i.interval * SECOND)
            && ((forall now | t <= now <= j.nextSync.value :: FreshnessOf(j, now).0 == Fresh) <==>
                j.interval <= j.staleAfter)
  {
    var j := Persisted(i, Run(Sync, verdict, started), t);
    var next := j.nextSync.value;
    assert Lag(j.succeeded, next) == i.interval;
    forall now | t <= now <= next ensures Lag(j.succeeded, now) <= i.interval {
      LagGrows(j.succeeded, now, next);
    }
    assert FreshnessOf(j, next).0 == if i.interval > j.staleAfter then Stale else Fresh;
  }

  /** The last sync failed, later than any success. */
  predicate FailedLast(i: Integration) {
    i.failed.Some? && (i.succeeded.Some? ==> i.failed.value > i.succeeded.value)
  }

  /** A failed sync leaves the integration failing: stale exactly if the lag exceeds the threshold, fresh never. */
  lemma FailureShows(i: Integration, now: Time)
    requires Scheduled(i) && FailedLast(i) && i.staleAfter > 0
    ensures var lag := Lag(if i.succeeded.Some? then i.succeeded else i.attempted, now);
            FreshnessOf(i, now) == if lag > i.staleAfter then (StaleFailing, true, lag) else (Failing, false, lag)
  {
  }

  /** Exactly a successful sync ends it: failed syncs, tests and updates do not. */
  lemma OnlySuccessEndsFailure(i: Integration, run: Run, now: Time)
    requires FailedLast(i) && i.failed.value <= now
    ensures FailedLast(Persisted(i, run, now)) <==> !(run.operation == Sync && Succeeds(run.verdict))
  {
    var j := Recorded(i, run, now);
    assert Persisted(i, run, now).failed == j.failed && Persisted(i, run, now).succeeded == j.succeeded;
  }

  lemma UpdateKeepsFailure(r: Registry, i: Integration, patch: IntegrationPatch, now: Time)
    requires Updated(r, i, patch, now).Ok?
    ensures FailedLast(Updated(r, i, patch, now).value) <==> FailedLast(i)
  {
    Runs.RevisedFrame(i, patch);
    Runs.DefaultsFrame(Forced(Revised(i, patch)), now);
  }

  /**
   An integration that has never succeeded measures its lag from its last attempt, so it is not stale at
   its next retry exactly if that retry comes within the threshold of the failed attempt, however long ago the
   first attempt was.
   */
  lemma NeverSucceededStaysUnstale(i: Integration, started: Time, t: Time)
    requires Scheduled(i) && i.succeeded.None? && i.staleAfter > 0 && started <= t
    ensures var j := Persisted(i, Run(Sync, Error, started), t);
            var delay := Min(i.interval, Backoff(i.failures + 1));
            && j.nextSync == Some(t + SECOND * delay)
            && (FreshnessOf(j, t + SECOND * delay).1 <==> (t - started) / SECOND + delay > i.staleAfter)
  {
    var delay := Min(i.interval, Backoff(i.failures + 1));
    assert (t + SECOND * delay - started) / SECOND == (t - started) / SECOND + delay;
    BackoffTable(i.failures + 1);
  }

  /** No sync of this integration succeeds during the run. */
  predicate NoSuccess(run: seq<Runs.Step>, id: string) {
    forall n | 0 <= n < |run| ::
      !(run[n].event.Persists? && run[n].event.id == id && run[n].event.run.operation == Sync
        && Succeeds(run[n].event.run.verdict))
  }

  /** The clock of the run starts at `from` and never goes back. */
  predicate ClockFrom(run: seq<Runs.Step>, from: Time)
    decreases |run|
  {
    run == [] || (from <= run[0].now && ClockFrom(run[1..], run[0].now))
  }

  lemma FailureLasts(i: Integration, run: Run, now: Time)
    requires FailedLast(i) && i.failed.value <= now && !(run.operation == Sync && Succeeds(run.verdict))
    ensures var j := Persisted(i, run, now); FailedLast(j) && j.failed.value <= now
  {
    OnlySuccessEndsFailure(i, run, now);
  }

  /** One step other than a successful sync leaves the integration failing. */
  lemma StepKeepsFailure(r: Registry, e: Runs.Event, now: Time, id: string)
    requires Runs.Inv(r) && Runs.Legal(r, e) && id in r && FailedLast(r[id]) && r[id].failed.value <= now
    requires !(e.Persists? && e.id == id && e.run.operation == Sync && Succeeds(e.run.verdict))
    ensures var next := Runs.Apply(r, e, now);
            id in next && FailedLast(next[id]) && next[id].failed.value <= now
  {
    if e.id != id {
      Runs.OthersStay(r, e, now, id);
    } else if e.Updates? {
      if Updated(r, r[id], e.patch, now).Ok? {
        Runs.UpdatedOk(r, r[id], e.patch, now);
      }
    } else if e.Persists? {
      FailureLasts(r[id], e.run, now);
    }
  }

  /** Whatever happens to a failing integration, it is never fresh until its next successful sync. */
  lemma {:induction false} NeverFreshBeforeSuccess(r: Registry, run: seq<Runs.Step>, id: string, from: Time, at: Time)
    requires Runs.Inv(r) && Runs.LegalRun(r, run) && ClockFrom(run, from) && NoSuccess(run, id)
    requires id in r && FailedLast(r[id]) && r[id].failed.value <= from
    ensures id in Runs.After(r, run)
    ensures var i := Runs.After(r, run)[id];
            && FailedLast(i) && FreshnessOf(i, at).0 != Fresh
            && (Scheduled(i) ==> FreshnessOf(i, at).0 in {Failing, StaleFailing})
    decreases |run|
  {
    if run == [] {
    } else {
      var e, now := run[0].event, run[0].now;
      Runs.StepKeeps(r, e, now);
      StepKeepsFailure(r, e, now, id);
      forall n | 0 <= n < |run[1..]| ensures run[1..][n] == run[n + 1] {}
      NeverFreshBeforeSuccess(Runs.Apply(r, e, now), run[1..], id, now, at);
    }
  }

  // ----- a connection test in the middle of a sync -----

  /** The delay, in seconds, that a run puts before the next sync. */
  function DelayAfter(i: Integration, verdict: Verdict): int {
    var interval := if i.interval <= 0 then DefaultInterval(i.kind) else i.interval;
    if verdict == Error then Min(interval, Backoff(i.failures)) else interval
  }

  /** A test puts off the next sync, counts as no failure, and takes any claim away. */
  lemma TestReschedules(i: Integration, verdict: Verdict, started: Time, t: Time, at: Time)
    ensures Claimable(Persisted(i, Run(TestConnection, verdict, started), t), at) <==>
            i.enabled && i.scheduleEnabled && at >= t + SECOND * DelayAfter(i, verdict)
  {
  }

  /**
   A test during a claimed sync: another worker can claim the integration within the time to live of the first claim
   exactly if it is scheduled and the delay after the test ends by then.
   */
  lemma TestFreesClaim(i: Integration, verdict: Verdict, started: Time, t: Time)
    requires i.claimed.Some? && i.claimed.value <= t
    ensures forall at :: Claimable(i, at) ==> at > i.claimed.value + CLAIM_TTL
    ensures (exists at ::
             t <= at <= i.claimed.value + CLAIM_TTL
             && Claimable(Persisted(i, Run(TestConnection, verdict, started), t), at)) <==>
            i.enabled && i.scheduleEnabled && t + SECOND * DelayAfter(i, verdict) <= i.claimed.value + CLAIM_TTL
    ensures DelayAfter(i, verdict) > 120 ==> t + SECOND * DelayAfter(i, verdict) > i.claimed.value + CLAIM_TTL
  {
    var j, due := Persisted(i, Run(TestConnection, verdict, started), t), t + SECOND * DelayAfter(i, verdict);
    forall at ensures Claimable(j, at) <==> i.enabled && i.scheduleEnabled && at >= due {
      TestReschedules(i, verdict, started, t, at);
    }
    DelayIsPositive(i, verdict);
    if i.enabled && i.scheduleEnabled && due <= i.claimed.value + CLAIM_TTL {
      assert t <= due && Claimable(j, due);
    }
  }

  lemma DelayIsPositive(i: Integration, verdict: Verdict)
    ensures DelayAfter(i, verdict) > 0
  {
    BackoffTable(i.failures);
  }

  /** It happens: a test that fails less than a minute into a sync lets another worker start the same sync. */
  lemma FailingTestFreesClaim(i: Integration, started: Time, t: Time)
    requires Scheduled(i) && i.failures <= 1 && i.claimed.Some? && i.claimed.value <= t <= i.claimed.value + 60 * SECOND
    ensures var j := Persisted(i, Run(TestConnection, Error, started), t);
            exists at :: t <= at <= i.claimed.value + CLAIM_TTL && Claimable(j, at)
  {
    BackoffTable(i.failures);
    TestFreesClaim(i, Error, started, t);
  }
}
