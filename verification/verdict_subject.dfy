/** What a verdict is about: the type, the specification, the connection and its inputs when the check was executed. */
module VerdictSubject {
  import opened Records
  import opened RuntimeCheck
  import opened Governance
  import opened GovernanceRuns
  import opened CheckEvidence

  /** A verdict comes from an execution of what the check says now. */
  predicate Current(w: World, id: string, k: Check) {
    k.mode == RuntimeReadOnly && k.status != CheckDefined ==>
      && id in w.lastRun && w.lastRun[id].Some?
      && var x := w.lastRun[id].value;
         x in w.store.executions && x in w.ranOn && w.ranOn[x] == SubjectOf(w.store, k)
  }

  ghost predicate AllCurrent(w: World) { forall id | id in w.store.checks :: Current(w, id, w.store.checks[id]) }

  /**
   The event changes what the verdict of this runtime check is about without setting its mode: it updates the check,
   or the inputs of its connection.
   */
  predicate Outdates(w: World, e: Event, now: Time, id: string) {
    && id in w.store.checks && w.store.checks[id].mode == RuntimeReadOnly && w.store.checks[id].status != CheckDefined
    && (UpdateShifts(w.store, e, now, id) || (e.ConnectionUpdated? && e.id == w.store.checks[id].connectionId
                                              && Redirects(w.store, e)))
  }

  predicate UpdateShifts(s: Store, e: Event, now: Time, id: string)
    requires id in s.checks
  {
    && e.CheckUpdated? && e.id == id && e.checkPatch.mode.None?
    && var r := UpdatedCheck(s, s.checks[id], e.checkPatch, now);
       r.Ok? && SubjectOf(s, r.value) != SubjectOf(s, s.checks[id])
  }

  /** The update is accepted, and changes the inputs of the connection. */
  predicate Redirects(s: Store, e: Event)
    requires e.ConnectionUpdated?
  {
    && e.id in s.connections
    && var r := UpdatedConnection(s.connections[e.id], e.connectionPatch);
       r.Ok? && InputsOf(r.value) != InputsOf(s.connections[e.id])
  }

  predicate Drifts(w: World, e: Event, now: Time) {
    exists id | id in w.store.checks :: Outdates(w, e, now, id)
  }

  // ----- one step -----

  /** What `Current` looks at has not changed. */
  ghost predicate SameRecord(w: World, v: World, id: string) {
    && (id in v.lastRun <==> id in w.lastRun) && (id in w.lastRun ==> v.lastRun[id] == w.lastRun[id])
    && (forall x | x in w.store.executions :: x in v.store.executions)
    && (forall x | x in w.store.executions ::
        (x in v.ranOn <==> x in w.ranOn) && (x in w.ranOn ==> v.ranOn[x] == w.ranOn[x]))
  }

  lemma RecordKept(w: World, v: World, id: string, k: Check, next: Check)
    requires SameRecord(w, v, id) && Current(w, id, k) && SameStatus(k, next)
    ensures SubjectOf(v.store, next) == SubjectOf(w.store, k) ==> Current(v, id, next)
    ensures k.mode == RuntimeReadOnly && k.status != CheckDefined ==>
              (Current(v, id, next) <==> SubjectOf(v.store, next) == SubjectOf(w.store, k))
  {
  }

  /** Every connection keeps its inputs. */
  ghost predicate SameInputs(s: Store, t: Store) {
    && t.connections.Keys == s.connections.Keys
    && forall c | c in s.connections :: InputsOf(t.connections[c]) == InputsOf(s.connections[c])
  }

  lemma CreatedCurrent(cat: Catalog, w: World, e: Event, now: Time, id: string)
    requires Legal(w, e, now) && e.CheckCreated? && (id in w.store.checks ==> Current(w, id, w.store.checks[id]))
    ensures var v := Advance(cat, w, e, now); id in v.store.checks ==> Current(v, id, v.store.checks[id])
  {
    if CreatedCheck(cat, w.store, e.newCheck, e.id, now).Ok? {
      NewCheckStartsOver(cat, w.store, e.newCheck, e.id, now);
    }
  }

  /** What an update leaves in the world, whatever its answer `r` is. */
  ghost predicate Written(w: World, v: World, id: string, r: Result<Check>, modeSet: bool) {
    && v.store.checks == (if r.Ok? then w.store.checks[id := r.value] else w.store.checks)
    && v.store.executions == w.store.executions && v.store.connections == w.store.connections && v.ranOn == w.ranOn
    && v.lastRun == (if r.Ok? && modeSet then w.lastRun[id := None] else w.lastRun)
    && (r.Ok? ==> id in w.store.checks
                  && (if modeSet then r.value.mode == RuntimeReadOnly ==> r.value.status == CheckDefined
                      else SameStatus(w.store.checks[id], r.value)))
  }

  lemma UpdateStored(cat: Catalog, w: World, e: Event, now: Time, r: Result<Check>)
    requires e.CheckUpdated?
    requires r == if e.id in w.store.checks then UpdatedCheck(w.store, w.store.checks[e.id], e.checkPatch, now)
                  else Err(NotFound)
    requires r.Ok? ==> r.value.id == e.id
    ensures Apply(cat, w.store, e, now) == if r.Ok? then w.store.(checks := w.store.checks[e.id := r.value])
                                           else w.store
    ensures SetsMode(cat, w.store, e, now, e.id) <==> r.Ok? && e.checkPatch.mode.Some?
  {
  }

  lemma UpdateWrites(cat: Catalog, w: World, e: Event, now: Time) returns (r: Result<Check>)
    requires e.CheckUpdated? && (e.id in w.store.checks ==> w.store.checks[e.id].id == e.id)
    ensures r == if e.id in w.store.checks then UpdatedCheck(w.store, w.store.checks[e.id], e.checkPatch, now)
                 else Err(NotFound)
    ensures Written(w, Advance(cat, w, e, now), e.id, r, e.checkPatch.mode.Some?)
  {
    r := if e.id in w.store.checks then UpdatedCheck(w.store, w.store.checks[e.id], e.checkPatch, now)
         else Err(NotFound);
    if r.Ok? {
      UpdateKeepsId(w.store, w.store.checks[e.id], e.checkPatch, now);
      UpdateKeepsOrClears(w.store, w.store.checks[e.id], e.checkPatch, now);
    }
    UpdateStored(cat, w, e, now, r);
  }

  /** The answer changes what a runtime check with a verdict is about, without setting its mode. */
  predicate Shifts(w: World, id: string, r: Result<Check>, modeSet: bool) {
    && r.Ok? && id in w.store.checks && !modeSet
    && w.store.checks[id].mode == RuntimeReadOnly && w.store.checks[id].status != CheckDefined
    && SubjectOf(w.store, r.value) != SubjectOf(w.store, w.store.checks[id])
  }

  lemma WrittenCurrent(w: World, v: World, at: string, r: Result<Check>, modeSet: bool, id: string)
    requires Written(w, v, at, r, modeSet) && (id in w.store.checks ==> Current(w, id, w.store.checks[id]))
    ensures id in v.store.checks ==> (Current(v, id, v.store.checks[id]) <==> !(at == id && Shifts(w, id, r, modeSet)))
    ensures Shifts(w, id, r, modeSet) ==> id in v.store.checks
  {
    if id in w.store.checks && !(r.Ok? && modeSet && at == id) {
      RecordKept(w, v, id, w.store.checks[id], v.store.checks[id]);
    }
  }

  lemma OutdatesByUpdate(w: World, e: Event, now: Time, id: string, r: Result<Check>)
    requires e.CheckUpdated?
    requires r == if e.id in w.store.checks then UpdatedCheck(w.store, w.store.checks[e.id], e.checkPatch, now)
                  else Err(NotFound)
    ensures Outdates(w, e, now, id) <==> e.id == id && Shifts(w, id, r, e.checkPatch.mode.Some?)
  {
  }

  lemma UpdatedCurrent(cat: Catalog, w: World, v: World, e: Event, now: Time, id: string)
    requires Inv(cat, w) && e.CheckUpdated? && v == Advance(cat, w, e, now)
    requires id in w.store.checks ==> Current(w, id, w.store.checks[id])
    ensures id in v.store.checks ==> (Current(v, id, v.store.checks[id]) <==> !Outdates(w, e, now, id))
  {
    CheckIds(cat, w, e.id);
    var r := UpdateWrites(cat, w, e, now);
    OutdatesByUpdate(w, e, now, id, r);
    WrittenCurrent(w, v, e.id, r, e.checkPatch.mode.Some?, id);
  }

  lemma ExecutionSubject(cat: Catalog, w: World, e: Event, now: Time)
    requires Legal(w, e, now) && Executes(w.store, e, e.id)
    ensures Advance(cat, w, e, now).ranOn == w.ranOn[e.executionId := SubjectOf(w.store, w.store.checks[e.id])]
  {
  }

  lemma ExecutedCurrent(cat: Catalog, w: World, v: World, e: Event, now: Time, id: string)
    requires Inv(cat, w) && Legal(w, e, now) && e.CheckExecuted? && v == Advance(cat, w, e, now)
    requires id in w.store.checks ==> Current(w, id, w.store.checks[id])
    ensures id in v.store.checks ==> Current(v, id, v.store.checks[id])
  {
    if Executes(w.store, e, e.id) {
      var k := w.store.checks[e.id];
      var c, result := ExecutionRecords(cat, w, e, now);
      ExecutionSubject(cat, w, e, now);
      RecordedCurrent(w, v, k, c, result, e.executionId, now, e.done, e.writes, id);
    } else {
      RefusedExecution(cat, w, e, now);
      if id in w.store.checks {
        RecordKept(w, v, id, w.store.checks[id], w.store.checks[id]);
      }
    }
  }

  /** Nothing that a verdict is about, or comes from, has changed. */
  ghost predicate SameVerdicts(w: World, v: World) {
    && v.store.checks == w.store.checks && v.store.executions == w.store.executions
    && v.lastRun == w.lastRun && v.ranOn == w.ranOn
  }

  lemma RefusedExecution(cat: Catalog, w: World, e: Event, now: Time)
    requires e.CheckExecuted? && !Executes(w.store, e, e.id)
    ensures SameVerdicts(w, Advance(cat, w, e, now)) && Advance(cat, w, e, now).store.connections == w.store.connections
  {
  }

  lemma RecordedInputs(w: World, v: World, k: Check, c: Connection, result: Outcome, x: string, now: Time, done: Time,
                       writes: nat)
    requires Recording(w, v, k, c, result, x, now, done, writes) && c.id in w.store.connections
             && w.store.connections[c.id] == c
    ensures SameInputs(w.store, v.store)
  {
    assert InputsOf(Examined(c, result, done)) == InputsOf(c);
  }

  /** The check as an execution leaves it is about the same things. */
  lemma SubjectKept(s: Store, t: Store, k: Check, next: Check)
    requires SameInputs(s, t) && next.checkType == k.checkType && next.specification == k.specification
             && next.connectionId == k.connectionId
    ensures SubjectOf(t, next) == SubjectOf(s, k)
  {
  }

  /** What an execution leaves of a check, and of the world around it. */
  lemma RecordedCheck(w: World, v: World, k: Check, c: Connection, result: Outcome, x: string, now: Time, done: Time,
                      writes: nat, id: string)
    requires Recording(w, v, k, c, result, x, now, done, writes)
    ensures (id in v.store.checks <==> id in w.store.checks) && x in v.store.executions
    ensures forall y | y in w.store.executions :: y in v.store.executions && y != x
    ensures id in w.store.checks && (id != k.id || writes < 4) ==> v.store.checks[id] == w.store.checks[id]
    ensures id == k.id ==> var next := v.store.checks[id];
                           next.checkType == k.checkType && next.specification == k.specification
                             && next.connectionId == k.connectionId
  {
  }

  lemma RecordedCurrent(w: World, v: World, k: Check, c: Connection, result: Outcome, x: string, now: Time,
                        done: Time, writes: nat, id: string)
    requires Recording(w, v, k, c, result, x, now, done, writes) && v.ranOn == w.ranOn[x := SubjectOf(w.store, k)]
    requires c.id in w.store.connections && w.store.connections[c.id] == c
    requires id in w.store.checks ==> Current(w, id, w.store.checks[id])
    ensures id in v.store.checks ==> Current(v, id, v.store.checks[id])
  {
    RecordedInputs(w, v, k, c, result, x, now, done, writes);
    RecordedCheck(w, v, k, c, result, x, now, done, writes, id);
    if id in w.store.checks {
      SubjectKept(w.store, v.store, w.store.checks[id], v.store.checks[id]);
      StillCurrent(w, v, id, x, SubjectOf(w.store, k), id == k.id && writes >= 4);
    }
  }

  lemma StillCurrent(w: World, v: World, id: string, x: string, subject: Subject, reached: bool)
    requires id in w.store.checks && id in v.store.checks && Current(w, id, w.store.checks[id])
             && v.ranOn == w.ranOn[x := subject]
    requires SubjectOf(v.store, v.store.checks[id]) == SubjectOf(w.store, w.store.checks[id])
    requires x in v.store.executions && forall y | y in w.store.executions :: y in v.store.executions && y != x
    requires if reached then id in v.lastRun && v.lastRun[id] == Some(x)
             && subject == SubjectOf(w.store, w.store.checks[id])
             else v.store.checks[id] == w.store.checks[id]
                  && (id in v.lastRun <==> id in w.lastRun) && (id in w.lastRun ==> v.lastRun[id] == w.lastRun[id])
    ensures Current(v, id, v.store.checks[id])
  {
  }

  // ----- the connections -----

  lemma OtherVerdicts(cat: Catalog, w: World, e: Event, now: Time)
    requires !e.CheckCreated? && !e.CheckUpdated? && !e.CheckExecuted?
    ensures SameVerdicts(w, Advance(cat, w, e, now))
  {
  }

  lemma TestKeepsInputs(cat: Catalog, w: World, e: Event, now: Time)
    requires e.ConnectionTested? && (e.id in w.store.connections ==> w.store.connections[e.id].id == e.id)
    ensures SameInputs(w.store, Apply(cat, w.store, e, now))
  {
    if e.id in w.store.connections {
      var c := w.store.connections[e.id];
      ProbeKeepsInputs(w.store, c, Probe(c, e.env, e.db), e.testId, now, e.done, e.writes);
    }
  }

  lemma ProbeKeepsInputs(s: Store, c: Connection, result: Outcome, testId: string, now: Time, done: Time, writes: nat)
    requires c.id in s.connections && s.connections[c.id] == c
    ensures SameInputs(s, ProbedStore(s, c, result, testId, now, done, writes))
  {
  }

  lemma CreationKeepsInputs(cat: Catalog, w: World, e: Event, now: Time)
    requires Legal(w, e, now) && (e.ConnectionCreated? || e.ChangeCreated? || e.ChangeUpdated?)
    ensures var t := Apply(cat, w.store, e, now);
            forall c | c in w.store.connections :: c in t.connections && t.connections[c] == w.store.connections[c]
  {
  }

  /** What the inputs of the connections are after an update of one. */
  lemma UpdateOfInputs(cat: Catalog, w: World, e: Event, now: Time, c: string)
    requires e.ConnectionUpdated? && (e.id in w.store.connections ==> w.store.connections[e.id].id == e.id)
             && c in w.store.connections
    ensures var t := Apply(cat, w.store, e, now);
            && c in t.connections
            && (InputsOf(t.connections[c]) != InputsOf(w.store.connections[c]) <==> c == e.id && Redirects(w.store, e))
  {
    if e.id in w.store.connections && UpdatedConnection(w.store.connections[e.id], e.connectionPatch).Ok? {
      UpdateFrame(w.store.connections[e.id], e.connectionPatch);
    }
  }

  lemma ConnectionIds(cat: Catalog, w: World, id: string)
    requires Inv(cat, w)
    ensures id in w.store.connections ==> w.store.connections[id].id == id
  {
    if id in w.store.connections {
      assert ConnectionOk(w.examined, w.clock, id, w.store.connections[id]);
    }
  }

  /** How the connection of a stored runtime check fares in a step that concerns neither checks nor executions. */
  lemma ConnectionStep(cat: Catalog, w: World, e: Event, now: Time, c: string)
    requires Inv(cat, w) && Legal(w, e, now) && !e.CheckCreated? && !e.CheckUpdated? && !e.CheckExecuted?
             && c in w.store.connections
    ensures var t := Apply(cat, w.store, e, now);
            && c in t.connections
            && (InputsOf(t.connections[c]) != InputsOf(w.store.connections[c]) <==>
                e.ConnectionUpdated? && c == e.id && Redirects(w.store, e))
  {
    ConnectionIds(cat, w, e.id);
    if e.ConnectionTested? {
      TestKeepsInputs(cat, w, e, now);
    } else if e.ConnectionUpdated? {
      UpdateOfInputs(cat, w, e, now, c);
    } else {
      CreationKeepsInputs(cat, w, e, now);
    }
  }

  lemma RuntimeConnection(cat: Catalog, w: World, id: string)
    requires Inv(cat, w) && id in w.store.checks && w.store.checks[id].mode == RuntimeReadOnly
    ensures w.store.checks[id].connectionId in w.store.connections
  {
    assert CheckOk(cat, w.store, id, w.store.checks[id]);
  }

  lemma OutdatesByRedirect(w: World, e: Event, now: Time, id: string)
    requires !e.CheckUpdated? && id in w.store.checks
    ensures var k := w.store.checks[id];
            Outdates(w, e, now, id) <==>
            k.mode == RuntimeReadOnly && k.status != CheckDefined && e.ConnectionUpdated? && k.connectionId == e.id
              && Redirects(w.store, e)
  {
  }

  lemma OtherCurrent(cat: Catalog, w: World, v: World, e: Event, now: Time, id: string)
    requires Inv(cat, w) && Legal(w, e, now) && !e.CheckCreated? && !e.CheckUpdated? && !e.CheckExecuted?
             && v == Advance(cat, w, e, now)
    requires id in w.store.checks ==> Current(w, id, w.store.checks[id])
    ensures id in v.store.checks ==> (Current(v, id, v.store.checks[id]) <==> !Outdates(w, e, now, id))
  {
    OtherVerdicts(cat, w, e, now);
    if id in w.store.checks {
      var k := w.store.checks[id];
      OutdatesByRedirect(w, e, now, id);
      if k.mode == RuntimeReadOnly {
        RuntimeConnection(cat, w, id);
        ConnectionStep(cat, w, e, now, k.connectionId);
        MovedExactly(w, v, id, k, e.ConnectionUpdated? && k.connectionId == e.id && Redirects(w.store, e));
      }
    }
  }

  lemma MovedExactly(w: World, v: World, id: string, k: Check, moved: bool)
    requires SameVerdicts(w, v) && Current(w, id, k) && k.mode == RuntimeReadOnly
    requires k.connectionId in w.store.connections && k.connectionId in v.store.connections
    requires InputsOf(v.store.connections[k.connectionId]) != InputsOf(w.store.connections[k.connectionId]) <==> moved
    ensures Current(v, id, k) <==> !(k.status != CheckDefined && moved)
  {
    RecordKept(w, v, id, k, k);
  }

  lemma StepCurrent(cat: Catalog, w: World, e: Event, now: Time, id: string)
    requires Inv(cat, w) && Legal(w, e, now) && (id in w.store.checks ==> Current(w, id, w.store.checks[id]))
    ensures var v := Advance(cat, w, e, now);
            id in v.store.checks ==> (Current(v, id, v.store.checks[id]) <==> !Outdates(w, e, now, id))
  {
    if e.CheckCreated? {
      CreatedCurrent(cat, w, e, now, id);
    } else if e.CheckUpdated? {
      UpdatedCurrent(cat, w, Advance(cat, w, e, now), e, now, id);
    } else if e.CheckExecuted? {
      ExecutedCurrent(cat, w, Advance(cat, w, e, now), e, now, id);
    } else {
      OtherCurrent(cat, w, Advance(cat, w, e, now), e, now, id);
    }
  }

  /** One step breaks it exactly if it outdates some verdict. */
  lemma StepCurrentExactly(cat: Catalog, w: World, e: Event, now: Time)
    requires Inv(cat, w) && Legal(w, e, now) && AllCurrent(w)
    ensures AllCurrent(Advance(cat, w, e, now)) <==> !Drifts(w, e, now)
  {
    var v := Advance(cat, w, e, now);
    forall id | id in v.store.checks ensures Current(v, id, v.store.checks[id]) <==> !Outdates(w, e, now, id) {
      StepCurrent(cat, w, e, now, id);
    }
    StepKeeps(cat, w, e, now);
    assert forall id | id in w.store.checks :: id in v.store.checks;
  }

  // ----- runs -----

  /** Every state of the run has only verdicts about what the checks say. */
  ghost predicate AlwaysCurrent(cat: Catalog, w: World, run: seq<Step>)
    decreases |run|
  {
    AllCurrent(w) && (run == [] || AlwaysCurrent(cat, Advance(cat, w, run[0].event, run[0].now), run[1..]))
  }

  /** No step outdates a verdict. */
  predicate NeverDrifts(cat: Catalog, w: World, run: seq<Step>)
    decreases |run|
  {
    run == [] || (!Drifts(w, run[0].event, run[0].now)
                  && NeverDrifts(cat, Advance(cat, w, run[0].event, run[0].now), run[1..]))
  }

  /**
   Whichever store writes fail: every verdict of every state is
   about the current check exactly if no update drifts.
   */
  lemma {:induction false} VerdictsCurrentExactly(cat: Catalog, w: World, run: seq<Step>)
    requires Inv(cat, w) && AllCurrent(w) && LegalRun(cat, w, run)
    ensures AlwaysCurrent(cat, w, run) <==> NeverDrifts(cat, w, run)
    decreases |run|
  {
    if run == [] {
    } else {
      var e, now := run[0].event, run[0].now;
      StepKeeps(cat, w, e, now);
      StepCurrentExactly(cat, w, e, now);
      if !Drifts(w, e, now) {
        VerdictsCurrentExactly(cat, Advance(cat, w, e, now), run[1..]);
      }
    }
  }

  lemma StartIsCurrent()
    ensures AllCurrent(START)
  {
  }

  /** A patch that names nothing but the specification. */
  function OnlySpecification(text: Specification): CheckPatch {
    CheckPatch(None, None, None, None, None, None, None, None, None, None, Some(text), None, false)
  }

  /** Any runtime check accepts another specification that parses, and keeps its verdict and its run time. */
  lemma AnySpecificationIsAccepted(s: Store, k: Check, text: Specification, now: Time)
    requires k.mode == RuntimeReadOnly && k.readOnly && k.connectionId != "" && k.name != "" && k.summary != ""
    requires Parse(k.mode, k.checkType, text).Ok?
    ensures UpdatedCheck(s, k, OnlySpecification(text), now) == Ok(k.(specification := text))
  {
    assert text.Json?;
  }
}
