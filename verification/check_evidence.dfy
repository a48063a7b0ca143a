/** The status of a runtime check and the executions it stands for. */
module CheckEvidence {
  import opened Records
  import opened RuntimeCheck
  import opened Governance
  import opened GovernanceRuns

  /** Execution `x` is one of check `id`, started since the mode of the check was last set. */
  predicate RunSince(w: World, id: string, x: string) {
    && id in w.modeSetAt && x in w.store.executions
    && w.store.executions[x].checkId == id && w.store.executions[x].startedAt > w.modeSetAt[id]
  }

  predicate Finished(e: Execution) { e.status != Running && e.completedAt.Some? }

  /** The status is the image of the latest execution since the mode was set, or "defined" if there is none. */
  ghost predicate Mirrors(w: World, id: string, k: Check) {
    k.mode == RuntimeReadOnly ==>
      && id in w.modeSetAt && id in w.lastRun && w.modeSetAt[id] <= w.clock
      && match w.lastRun[id]
         case None => k.status == CheckDefined && k.lastRunAt == None && forall x :: !RunSince(w, id, x)
         case Some(x) =>
           && RunSince(w, id, x) && Finished(w.store.executions[x])
           && k.status == Image(w.store.executions[x].status) && k.lastRunAt == w.store.executions[x].completedAt
           && forall y :: RunSince(w, id, y) && y != x ==>
              w.store.executions[y].startedAt < w.store.executions[x].startedAt
  }

  /** What is left if writes may fail: a verdict still comes from a finished execution since the mode was set. */
  ghost predicate Earned(w: World, id: string, k: Check) {
    k.mode == RuntimeReadOnly ==>
      && id in w.modeSetAt && w.modeSetAt[id] <= w.clock
      && (k.status == CheckDefined ||
          exists x :: RunSince(w, id, x) && Finished(w.store.executions[x])
            && k.status == Image(w.store.executions[x].status))
  }

  ghost predicate AllMirror(w: World) { forall id | id in w.store.checks :: Mirrors(w, id, w.store.checks[id]) }
  ghost predicate AllEarned(w: World) { forall id | id in w.store.checks :: Earned(w, id, w.store.checks[id]) }

  // ----- executions that do not reach their check -----

  /** The event executes this check, and writes at least the execution. */
  predicate Executes(s: Store, e: Event, id: string) {
    e.CheckExecuted? && e.id == id && id in s.checks && Executable(s, s.checks[id]).Ok? && e.writes > 0
  }

  /** Whether, after the event, the latest execution of this check since its mode was set has failed to reach it. */
  predicate LostAfter(cat: Catalog, s: Store, e: Event, now: Time, id: string, lost: bool) {
    if SetsMode(cat, s, e, now, id) then false
    else if Executes(s, e, id) then e.writes < 4
    else lost
  }

  predicate LastRunLost(cat: Catalog, w: World, run: seq<Step>, id: string, lost: bool)
    decreases |run|
  {
    if run == [] then lost
    else
      LastRunLost(cat, Advance(cat, w, run[0].event, run[0].now), run[1..], id,
                  LostAfter(cat, w.store, run[0].event, run[0].now, id, lost))
  }

  /** The history of a runtime check that the world keeps. */
  predicate Traced(w: World, id: string) {
    && id in w.modeSetAt && id in w.lastRun && w.modeSetAt[id] <= w.clock
    && (w.lastRun[id].Some? ==> w.lastRun[id].value in w.store.executions)
  }

  /** Some execution since the mode was set is not older than the one that last reached the check. */
  ghost predicate Overtaken(w: World, id: string)
    requires Traced(w, id)
  {
    exists x :: RunSince(w, id, x) && match w.lastRun[id]
                                      case None => true
                                      case Some(y) =>
                                        x != y && w.store.executions[y].startedAt <= w.store.executions[x].startedAt
  }

  /** The status mirrors the latest execution unless that execution is lost, in which case it is overtaken. */
  ghost predicate Follows(w: World, id: string, lost: bool) {
    && (lost ==> id in w.store.checks)
    && (id in w.store.checks ==>
          var k := w.store.checks[id];
          if lost then k.mode == RuntimeReadOnly && Traced(w, id) && Overtaken(w, id) else Mirrors(w, id, k))
  }

  lemma OvertakenDoesNotMirror(w: World, id: string)
    requires id in w.store.checks && w.store.checks[id].mode == RuntimeReadOnly && Traced(w, id) && Overtaken(w, id)
    ensures !Mirrors(w, id, w.store.checks[id])
  {
  }

  // ----- one check, one step -----

  /** Nothing that the status of check `id` depends on has changed. */
  ghost predicate SameHistory(w: World, v: World, id: string) {
    && (id in v.modeSetAt <==> id in w.modeSetAt) && (id in w.modeSetAt ==> v.modeSetAt[id] == w.modeSetAt[id])
    && (id in v.lastRun <==> id in w.lastRun) && (id in w.lastRun ==> v.lastRun[id] == w.lastRun[id])
    && v.clock >= w.clock
    && (forall x | x in w.store.executions :: x in v.store.executions && v.store.executions[x] == w.store.executions[x])
    && (forall x | x in v.store.executions && x !in w.store.executions :: v.store.executions[x].checkId != id)
  }

  /** What the status of a check depends on about the check itself. */
  predicate SameStatus(k: Check, next: Check) {
    next.mode == k.mode && (k.mode == RuntimeReadOnly ==> next.status == k.status && next.lastRunAt == k.lastRunAt)
  }

  lemma HistoryKept(w: World, v: World, id: string, lost: bool)
    requires SameHistory(w, v, id) && (id in v.store.checks <==> id in w.store.checks)
    requires id in w.store.checks ==> SameStatus(w.store.checks[id], v.store.checks[id])
    ensures Follows(w, id, lost) ==> Follows(v, id, lost)
    ensures id in w.store.checks && Earned(w, id, w.store.checks[id]) ==> Earned(v, id, v.store.checks[id])
  {
    assert forall x :: RunSince(w, id, x) <==> RunSince(v, id, x);
  }

  /** A check whose mode is set starts over. */
  lemma StartsOver(v: World, id: string, k: Check)
    requires id in v.store.checks && v.store.checks[id] == k && id in v.modeSetAt && v.modeSetAt[id] == v.clock
    requires id in v.lastRun && v.lastRun[id] == None
             && forall x | x in v.store.executions :: v.store.executions[x].startedAt <= v.clock
    requires k.mode == RuntimeReadOnly ==> k.status == CheckDefined && k.lastRunAt == None
    ensures Follows(v, id, false) && Earned(v, id, k)
  {
  }

  /** An execution is recorded from the first of its writes on. */
  predicate Recording(w: World, v: World, k: Check, c: Connection, result: Outcome, x: string, now: Time, done: Time,
                      writes: nat) {
    && k.id in w.store.checks && w.store.checks[k.id] == k && x !in w.store.executions && writes > 0
    && w.clock < now <= done == v.clock && result.status != Running
    && v.store == RecordedStore(w.store, k, c, result, x, now, done, writes)
    && v.modeSetAt == w.modeSetAt && v.lastRun == if writes >= 4 then w.lastRun[k.id := Some(x)] else w.lastRun
  }

  lemma OthersRecorded(w: World, v: World, k: Check, c: Connection, result: Outcome, x: string, now: Time, done: Time,
                       writes: nat, id: string)
    requires Recording(w, v, k, c, result, x, now, done, writes) && id != k.id
    ensures SameHistory(w, v, id) && (id in v.store.checks <==> id in w.store.checks)
    ensures id in w.store.checks ==> v.store.checks[id] == w.store.checks[id]
  {
  }

  ghost predicate StartedBy(s: Store, clock: Time) {
    forall x | x in s.executions :: s.executions[x].startedAt <= clock
  }

  lemma Reached(w: World, v: World, k: Check, c: Connection, result: Outcome, x: string, now: Time, done: Time,
                writes: nat)
    requires Recording(w, v, k, c, result, x, now, done, writes) && writes >= 4 && StartedBy(w.store, w.clock)
    requires k.mode == RuntimeReadOnly ==> k.id in w.modeSetAt && w.modeSetAt[k.id] <= w.clock
    ensures Mirrors(v, k.id, v.store.checks[k.id]) && Earned(v, k.id, v.store.checks[k.id])
  {
    if k.mode == RuntimeReadOnly {
      assert RunSince(v, k.id, x);
      assert forall y | RunSince(v, k.id, y) && y != x :: y in w.store.executions;
    }
  }

  lemma Missed(w: World, v: World, k: Check, c: Connection, result: Outcome, x: string, now: Time, done: Time,
               writes: nat)
    requires Recording(w, v, k, c, result, x, now, done, writes) && writes < 4 && StartedBy(w.store, w.clock)
    requires k.mode == RuntimeReadOnly && Traced(w, k.id)
    ensures v.store.checks[k.id] == k && Traced(v, k.id) && Overtaken(v, k.id)
    ensures RunSince(v, k.id, x) && forall y :: RunSince(v, k.id, y) && y != x ==>
            v.store.executions[y].startedAt < v.store.executions[x].startedAt
    ensures Earned(w, k.id, k) ==> Earned(v, k.id, k)
  {
    assert v.store.executions[x].checkId == k.id && v.store.executions[x].startedAt == now;
    assert RunSince(v, k.id, x);
    assert forall y | RunSince(v, k.id, y) && y != x :: y in w.store.executions;
    EarnedStays(w, v, k.id);
  }

  lemma EarnedStays(w: World, v: World, id: string)
    requires id in w.store.checks && id in v.store.checks && v.store.checks[id] == w.store.checks[id]
    requires v.modeSetAt == w.modeSetAt && v.clock >= w.clock
    requires forall x | x in w.store.executions ::
             x in v.store.executions && v.store.executions[x] == w.store.executions[x]
    ensures Earned(w, id, w.store.checks[id]) ==> Earned(v, id, v.store.checks[id])
  {
    assert forall x | RunSince(w, id, x) :: RunSince(v, id, x);
  }

  // ----- the operations on checks -----

  lemma NewCheckStartsOver(cat: Catalog, s: Store, req: NewCheck, id: string, now: Time)
    requires CreatedCheck(cat, s, req, id, now).Ok?
    ensures var k := CreatedCheck(cat, s, req, id, now).value;
            k.mode == RuntimeReadOnly ==> k.status == CheckDefined && k.lastRunAt == None
  {
    var k, _ := NewCheckParts(cat, s, req, id, now);
    AcceptedIsSound(k);
  }

  /** A runtime check changes its status only by being set to runtime again, which clears it. */
  lemma UpdateKeepsOrClears(s: Store, k: Check, patch: CheckPatch, now: Time)
    requires UpdatedCheck(s, k, patch, now).Ok?
    ensures var next := UpdatedCheck(s, k, patch, now).value;
            if patch.mode.Some? then next.mode == RuntimeReadOnly ==>
               next.status == CheckDefined && next.lastRunAt == None
            else SameStatus(k, next)
  {
  }

  lemma ExecutionsStarted(cat: Catalog, w: World)
    requires Inv(cat, w)
    ensures StartedBy(w.store, w.clock)
  {
    forall x | x in w.store.executions ensures w.store.executions[x].startedAt <= w.clock {
      assert ExecutionOk(w.store, w.clock, x, w.store.executions[x]);
    }
  }

  /** Steps that touch neither checks nor executions. */
  lemma OtherStep(cat: Catalog, w: World, e: Event, now: Time)
    requires Legal(w, e, now) && !e.CheckCreated? && !e.CheckUpdated? && !e.CheckExecuted?
    ensures var v := Advance(cat, w, e, now);
            && v.store.checks == w.store.checks && v.store.executions == w.store.executions
            && v.modeSetAt == w.modeSetAt && v.lastRun == w.lastRun && v.clock >= w.clock
  {
  }

  lemma CreationStep(cat: Catalog, w: World, e: Event, now: Time, id: string)
    requires Legal(w, e, now) && e.CheckCreated? && !SetsMode(cat, w.store, e, now, id)
    ensures var v := Advance(cat, w, e, now);
            && SameHistory(w, v, id) && (id in v.store.checks <==> id in w.store.checks)
            && (id in w.store.checks ==> v.store.checks[id] == w.store.checks[id])
  {
  }

  lemma UpdateStep(cat: Catalog, w: World, e: Event, now: Time, id: string)
    requires Legal(w, e, now) && e.CheckUpdated? && !SetsMode(cat, w.store, e, now, id)
    requires id in w.store.checks ==> w.store.checks[id].id == id
    requires e.id in w.store.checks ==> w.store.checks[e.id].id == e.id
    requires var r := if e.id in w.store.checks then UpdatedCheck(w.store, w.store.checks[e.id], e.checkPatch, now)
                      else Err(NotFound);
             r.Ok? ==> r.value.id == e.id && (e.checkPatch.mode.None? ==> SameStatus(w.store.checks[e.id], r.value))
    ensures var v := Advance(cat, w, e, now);
            && SameHistory(w, v, id) && (id in v.store.checks <==> id in w.store.checks)
            && (id in w.store.checks ==> SameStatus(w.store.checks[id], v.store.checks[id]))
  {
  }

  /** What a step that neither executes a check nor sets a mode leaves alone. */
  lemma QuietStep(cat: Catalog, w: World, e: Event, now: Time, id: string)
    requires Inv(cat, w) && Legal(w, e, now) && !e.CheckExecuted? && !SetsMode(cat, w.store, e, now, id)
    ensures var v := Advance(cat, w, e, now);
            && SameHistory(w, v, id) && (id in v.store.checks <==> id in w.store.checks)
            && (id in w.store.checks ==> SameStatus(w.store.checks[id], v.store.checks[id]))
  {
    if e.CheckCreated? {
      CreationStep(cat, w, e, now, id);
    } else if e.CheckUpdated? {
      CheckIds(cat, w, e.id);
      CheckIds(cat, w, id);
      if e.id in w.store.checks && UpdatedCheck(w.store, w.store.checks[e.id], e.checkPatch, now).Ok? {
        UpdateKeepsId(w.store, w.store.checks[e.id], e.checkPatch, now);
        UpdateKeepsOrClears(w.store, w.store.checks[e.id], e.checkPatch, now);
      }
      UpdateStep(cat, w, e, now, id);
    } else {
      OtherStep(cat, w, e, now);
    }
  }

  lemma CheckIds(cat: Catalog, w: World, id: string)
    requires Inv(cat, w)
    ensures id in w.store.checks ==> w.store.checks[id].id == id
  {
    if id in w.store.checks {
      assert CheckOk(cat, w.store, id, w.store.checks[id]);
    }
  }

  lemma UpdateKeepsId(s: Store, k: Check, patch: CheckPatch, now: Time)
    requires UpdatedCheck(s, k, patch, now).Ok?
    ensures UpdatedCheck(s, k, patch, now).value.id == k.id
  {
  }

  lemma ModeStep(cat: Catalog, w: World, e: Event, now: Time, id: string)
    requires Inv(cat, w) && Legal(w, e, now) && SetsMode(cat, w.store, e, now, id)
    ensures var v := Advance(cat, w, e, now);
            id in v.store.checks && Follows(v, id, false) && Earned(v, id, v.store.checks[id])
  {
    var v := Advance(cat, w, e, now);
    ExecutionsStarted(cat, w);
    if e.CheckCreated? {
      NewCheckStartsOver(cat, w.store, e.newCheck, id, now);
    } else {
      assert CheckOk(cat, w.store, id, w.store.checks[id]);
      UpdateKeepsOrClears(w.store, w.store.checks[id], e.checkPatch, now);
      PatchedCheckOk(cat, w.store, id, w.store.checks[id], e.checkPatch, now);
    }
    assert StartedBy(v.store, v.clock);
    StartsOver(v, id, v.store.checks[id]);
  }

  /** An execution that is admitted is recorded, with some outcome on some connection. */
  lemma ExecutionRecords(cat: Catalog, w: World, e: Event, now: Time) returns (c: Connection, result: Outcome)
    requires Inv(cat, w) && Legal(w, e, now) && Executes(w.store, e, e.id)
    ensures w.store.checks[e.id].id == e.id && w.store.checks[e.id].mode == RuntimeReadOnly
    ensures Recording(w, Advance(cat, w, e, now), w.store.checks[e.id], c, result, e.executionId, now, e.done, e.writes)
    ensures result == ExecutionOutcome(w.store, w.store.checks[e.id], e.env, e.db)
    ensures c.id in w.store.connections && w.store.connections[c.id] == c
  {
    var s := w.store;
    var k := s.checks[e.id];
    assert CheckOk(cat, s, e.id, k);
    ExecutableSpec(s, k);
    c, result := s.connections[k.connectionId], ExecutionOutcome(s, k, e.env, e.db);
    assert ConnectionOk(w.examined, w.clock, k.connectionId, c);
    OutcomeSupported(s, k, e.env, e.db);
    ExecutionAdvances(cat, w, e, now, c, result);
  }

  lemma ExecutionAdvances(cat: Catalog, w: World, e: Event, now: Time, c: Connection, result: Outcome)
    requires Executes(w.store, e, e.id) && Executable(w.store, w.store.checks[e.id]).value.0 == c
             && w.store.checks[e.id].id == e.id
    requires result == ExecutionOutcome(w.store, w.store.checks[e.id], e.env, e.db)
    ensures var v := Advance(cat, w, e, now);
            && v.store == RecordedStore(w.store, w.store.checks[e.id], c, result, e.executionId, now, e.done,
                                        e.writes) && v.clock == e.done
            && v.modeSetAt == w.modeSetAt && v.lastRun == if e.writes >= 4 then w.lastRun[e.id := Some(e.executionId)]
                                                          else w.lastRun
  {
  }

  lemma RefusedStep(cat: Catalog, w: World, e: Event, now: Time, id: string)
    requires Legal(w, e, now) && e.CheckExecuted? && !Executes(w.store, e, e.id)
    ensures SameHistory(w, Advance(cat, w, e, now), id) && Advance(cat, w, e, now).store.checks == w.store.checks
  {
  }

  lemma LostAfterExecution(cat: Catalog, s: Store, e: Event, now: Time, id: string, lost: bool)
    requires e.CheckExecuted?
    ensures LostAfter(cat, s, e, now, id, lost) == if Executes(s, e, id) then e.writes < 4 else lost
  {
  }

  lemma ExecuteStep(cat: Catalog, w: World, v: World, e: Event, now: Time, id: string, lost: bool)
    requires Inv(cat, w) && Legal(w, e, now) && e.CheckExecuted? && v == Advance(cat, w, e, now)
    ensures Follows(w, id, lost) ==> Follows(v, id, if Executes(w.store, e, id) then e.writes < 4 else lost)
    ensures id in v.store.checks <==> id in w.store.checks
    ensures id in w.store.checks && Earned(w, id, w.store.checks[id]) ==> Earned(v, id, v.store.checks[id])
  {
    if !Executes(w.store, e, e.id) {
      RefusedStep(cat, w, e, now, id);
      HistoryKept(w, v, id, lost);
    } else {
      var c, result := ExecutionRecords(cat, w, e, now);
      RecordStep(cat, w, v, w.store.checks[e.id], c, result, e.executionId, now, e.done, e.writes, id, lost);
    }
  }

  lemma RecordStep(cat: Catalog, w: World, v: World, k: Check, c: Connection, result: Outcome, x: string, now: Time,
                   done: Time, writes: nat, id: string, lost: bool)
    requires Inv(cat, w) && Recording(w, v, k, c, result, x, now, done, writes) && k.mode == RuntimeReadOnly
    ensures Follows(w, id, lost) ==> Follows(v, id, if id == k.id then writes < 4 else lost)
    ensures id in v.store.checks <==> id in w.store.checks
    ensures id in w.store.checks && Earned(w, id, w.store.checks[id]) ==> Earned(v, id, v.store.checks[id])
  {
    ExecutionsStarted(cat, w);
    if id != k.id {
      OthersRecorded(w, v, k, c, result, x, now, done, writes, id);
      HistoryKept(w, v, id, lost);
    } else if writes >= 4 {
      if Follows(w, id, lost) || Earned(w, id, k) {
        Reached(w, v, k, c, result, x, now, done, writes);
      }
    } else {
      if Follows(w, id, lost) {
        Missed(w, v, k, c, result, x, now, done, writes);
      }
      EarnedStays(w, v, id);
    }
  }

  /** A step moves the status of a check and the fate of its latest execution together. */
  lemma FollowsStep(cat: Catalog, w: World, e: Event, now: Time, id: string, lost: bool)
    requires Inv(cat, w) && Legal(w, e, now)
    ensures Follows(w, id, lost) ==> Follows(Advance(cat, w, e, now), id, LostAfter(cat, w.store, e, now, id, lost))
    ensures var v := Advance(cat, w, e, now);
            (id in w.store.checks ==> Earned(w, id, w.store.checks[id])) ==>
              (id in v.store.checks ==> Earned(v, id, v.store.checks[id]))
  {
    if e.CheckExecuted? {
      ExecuteStep(cat, w, Advance(cat, w, e, now), e, now, id, lost);
      LostAfterExecution(cat, w.store, e, now, id, lost);
    } else if SetsMode(cat, w.store, e, now, id) {
      ModeStep(cat, w, e, now, id);
    } else {
      QuietStep(cat, w, e, now, id);
      HistoryKept(w, Advance(cat, w, e, now), id, lost);
    }
  }

  // ----- runs -----

  lemma {:induction false} FollowsRun(cat: Catalog, w: World, run: seq<Step>, id: string, lost: bool)
    requires Inv(cat, w) && LegalRun(cat, w, run) && Follows(w, id, lost)
    ensures Follows(After(cat, w, run), id, LastRunLost(cat, w, run, id, lost))
    decreases |run|
  {
    if run == [] {
    } else {
      var e, now := run[0].event, run[0].now;
      StepKeeps(cat, w, e, now);
      FollowsStep(cat, w, e, now, id, lost);
      FollowsRun(cat, Advance(cat, w, e, now), run[1..], id, LostAfter(cat, w.store, e, now, id, lost));
    }
  }

  /** The empty store satisfies all of it, so the results hold in every state reachable from it. */
  lemma StartHolds(cat: Catalog)
    ensures Inv(cat, START) && AllMirror(START) && AllEarned(START)
  {
  }

  /**
   In every reachable state, whichever store writes have failed: a runtime check mirrors its latest execution
   exactly if the latest execution that wrote anything since the mode was set also reached the check.
   */
  lemma MirrorsExactly(cat: Catalog, run: seq<Step>, id: string)
    requires LegalRun(cat, START, run) && id in After(cat, START, run).store.checks
    ensures var w := After(cat, START, run);
            Mirrors(w, id, w.store.checks[id]) <==> !LastRunLost(cat, START, run, id, false)
  {
    StartHolds(cat);
    FollowsRun(cat, START, run, id, false);
    var w := After(cat, START, run);
    if LastRunLost(cat, START, run, id, false) {
      OvertakenDoesNotMirror(w, id);
    }
  }

  lemma MirrorsAreFollowed(w: World)
    ensures AllMirror(w) <==> forall id :: Follows(w, id, false)
  {
    if AllMirror(w) {
      forall id ensures Follows(w, id, false) {}
    }
    if forall id :: Follows(w, id, false) {
      forall id | id in w.store.checks ensures Mirrors(w, id, w.store.checks[id]) {
        assert Follows(w, id, false);
      }
    }
  }

  lemma FirstLoss(cat: Catalog, s: Store, e: Event, now: Time, id: string)
    ensures LostAfter(cat, s, e, now, id, false) <==> Executes(s, e, id) && e.writes < 4
  {
  }

  lemma StepFollowed(cat: Catalog, w: World, v: World, e: Event, now: Time, id: string)
    requires Inv(cat, w) && Legal(w, e, now) && v == Advance(cat, w, e, now) && Follows(w, id, false)
    ensures Follows(v, id, Executes(w.store, e, id) && e.writes < 4)
  {
    FollowsStep(cat, w, e, now, id, false);
    FirstLoss(cat, w.store, e, now, id);
  }

  /** One step breaks the correspondence exactly if an execution stops between its first and its last store write. */
  lemma StepMirrorsExactly(cat: Catalog, w: World, e: Event, now: Time)
    requires Inv(cat, w) && AllMirror(w) && Legal(w, e, now)
    ensures AllMirror(Advance(cat, w, e, now)) <==> !(e.CheckExecuted? && Executes(w.store, e, e.id) && e.writes < 4)
  {
    var v := Advance(cat, w, e, now);
    MirrorsAreFollowed(w);
    forall id ensures Follows(v, id, Executes(w.store, e, id) && e.writes < 4) {
      assert Follows(w, id, false);
      StepFollowed(cat, w, v, e, now, id);
    }
    LossExactly(w.store, v, e);
  }

  lemma LossExactly(s: Store, v: World, e: Event)
    requires forall id :: Follows(v, id, Executes(s, e, id) && e.writes < 4)
    ensures AllMirror(v) <==> !(e.CheckExecuted? && Executes(s, e, e.id) && e.writes < 4)
  {
    MirrorsAreFollowed(v);
    if e.CheckExecuted? && Executes(s, e, e.id) && e.writes < 4 {
      assert Follows(v, e.id, true);
      LossShows(v, e.id);
    } else {
      forall id ensures Follows(v, id, false) {
        assert Follows(v, id, Executes(s, e, id) && e.writes < 4);
      }
    }
  }

  lemma LossShows(v: World, id: string)
    requires Follows(v, id, true)
    ensures !AllMirror(v)
  {
    OvertakenDoesNotMirror(v, id);
  }

  lemma {:induction false} NothingLost(cat: Catalog, w: World, run: seq<Step>, id: string)
    requires CompleteRun(run)
    ensures !LastRunLost(cat, w, run, id, false)
    decreases |run|
  {
    if run == [] {
    } else {
      assert Complete(run[0].event);
      NothingLost(cat, Advance(cat, w, run[0].event, run[0].now), run[1..], id);
    }
  }

  /**
   Over every run: if no execution stops between its store writes, the status of a runtime check is
   the image of its latest execution since its mode was set.
   */
  lemma StatusMirrorsLatestExecution(cat: Catalog, w: World, run: seq<Step>)
    requires Inv(cat, w) && AllMirror(w) && LegalRun(cat, w, run) && CompleteRun(run)
    ensures Inv(cat, After(cat, w, run)) && AllMirror(After(cat, w, run))
  {
    RunKeeps(cat, w, run);
    var end := After(cat, w, run);
    forall id | id in end.store.checks ensures Mirrors(end, id, end.store.checks[id]) {
      FollowsRun(cat, w, run, id, false);
      NothingLost(cat, w, run, id);
    }
  }

  /** Over every run, whichever store writes fail: a verdict has a finished execution behind it. */
  lemma {:induction false} VerdictIsEarned(cat: Catalog, w: World, run: seq<Step>)
    requires Inv(cat, w) && AllEarned(w) && LegalRun(cat, w, run)
    ensures Inv(cat, After(cat, w, run)) && AllEarned(After(cat, w, run))
    decreases |run|
  {
    if run == [] {
    } else {
      var e, now := run[0].event, run[0].now;
      StepKeeps(cat, w, e, now);
      var v := Advance(cat, w, e, now);
      forall id | id in v.store.checks ensures Earned(v, id, v.store.checks[id]) {
        FollowsStep(cat, w, e, now, id, false);
      }
      VerdictIsEarned(cat, v, run[1..]);
    }
  }

  /**
   Why the stronger form needs complete writes: an execution that does not pass and whose check is
   not written leaves a passed check behind a newer execution that has another verdict.
   */
  lemma LostWriteLeavesStalePass(cat: Catalog, w: World, e: Event, now: Time)
    requires Inv(cat, w) && Legal(w, e, now) && e.CheckExecuted? && 2 <= e.writes < 4
    requires e.id in w.store.checks && w.store.checks[e.id].status == CheckPassed
             && Executable(w.store, w.store.checks[e.id]).Ok?
    requires ExecutionOutcome(w.store, w.store.checks[e.id], e.env, e.db).status != RunPassed
    requires e.id in w.modeSetAt && w.modeSetAt[e.id] <= w.clock
    ensures var v := Advance(cat, w, e, now);
            && v.store.checks[e.id].status == CheckPassed
            && RunSince(v, e.id, e.executionId) && v.store.executions[e.executionId].status != RunPassed
            && (forall y :: RunSince(v, e.id, y) && y != e.executionId ==>
                v.store.executions[y].startedAt < v.store.executions[e.executionId].startedAt)
            && !Mirrors(v, e.id, v.store.checks[e.id])
  {
    var s, v := w.store, Advance(cat, w, e, now);
    ExecutionsStarted(cat, w);
    var c, result := ExecutionRecords(cat, w, e, now);
    LostVerdict(w, v, s.checks[e.id], c, result, e.executionId, now, e.done, e.writes);
  }

  lemma LostVerdict(w: World, v: World, k: Check, c: Connection, result: Outcome, executionId: string, now: Time,
                    done: Time, writes: nat)
    requires k.id in w.store.checks && w.store.checks[k.id] == k && k.mode == RuntimeReadOnly && k.status == CheckPassed
    requires w.clock < now && 2 <= writes < 4 && result.status != RunPassed
    requires executionId !in w.store.executions
             && forall x | x in w.store.executions :: w.store.executions[x].startedAt <= w.clock
    requires v.store == RecordedStore(w.store, k, c, result, executionId, now, done, writes)
    requires v.modeSetAt == w.modeSetAt && k.id in w.modeSetAt && w.modeSetAt[k.id] <= w.clock
    ensures v.store.checks[k.id] == k
    ensures RunSince(v, k.id, executionId) && v.store.executions[executionId].status != RunPassed
    ensures forall y :: RunSince(v, k.id, y) && y != executionId ==>
            v.store.executions[y].startedAt < v.store.executions[executionId].startedAt
    ensures !Mirrors(v, k.id, k)
  {
    assert v.store.executions[executionId].checkId == k.id;
    assert forall y | RunSince(v, k.id, y) && y != executionId :: y in w.store.executions;
  }
}
