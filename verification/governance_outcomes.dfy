/** What a connection test and a check execution leave in the store, in terms of the catalog and of what fails. */
module GovernanceOutcomes {
  import opened Records
  import opened RuntimeCheck
  import opened Governance
  import Text

  // ----- connection tests -----

  /** The session opens, the one query succeeds, and so does the commit. */
  predicate Healthy(db: Database) { db.session.None? && 0 !in db.faults && !db.commitFails }

  /** The first thing that fails, as an error class. */
  predicate FailsWith(db: Database, errorClass: string) {
    if db.session.Some? then errorClass == db.session.value
    else if 0 in db.faults then errorClass == "query_failed"
    else db.commitFails && errorClass == "commit"
  }

  /** What is left of the fields that describe a connection. */
  predicate SameReference(c: Connection, next: Connection) {
    next == c.(status := next.status, lastTestedAt := next.lastTestedAt, lastHealthyAt := next.lastHealthyAt,
               lastErrorClass := next.lastErrorClass)
  }

  /**
   A test whose writes all succeed: it passes, and the connection is ready and healthy from then on, exactly if
   the connection resolves and nothing fails; it is blocked exactly if the connection does not resolve.
   */
  lemma TestedExactly(s: Store, c: Connection, testId: string, env: set<string>, db: Database, now: Time, done: Time,
                      writes: nat)
    requires writes >= 4
    ensures var t := TestedStore(s, c, testId, env, db, now, done, writes);
            && testId in t.tests && c.id in t.connections
            && t == s.(tests := s.tests[testId := t.tests[testId]],
                       connections := s.connections[c.id := t.connections[c.id]])
            && var test, next, resolved := t.tests[testId], t.connections[c.id], Resolve(c, env).Resolved?;
               && test == ConnectionTest(testId, c.scope, c.id, test.status, now, Some(done))
               && SameReference(c, next) && next.lastTestedAt == Some(done)
               && (test.status == RunPassed <==> resolved && Healthy(db))
               && (next.status == ConnReady <==> resolved && Healthy(db))
               && next.lastHealthyAt == (if resolved && Healthy(db) then Some(done) else c.lastHealthyAt)
               && (resolved && Healthy(db) ==> next.lastErrorClass == "")
               && (test.status == RunBlocked <==> !resolved)
               && (!resolved ==> Resolve(c, env) == Unresolvable(next.status, next.lastErrorClass))
               && (test.status == RunErrored <==> resolved && !Healthy(db))
               && (resolved && !Healthy(db) ==> next.status == ConnError && FailsWith(db, next.lastErrorClass))
  {
    ResolveExactly(c, env);
  }

  /** A test that stops early: it is running or finished, and the connection is still being tested. */
  lemma StoppedTestExactly(s: Store, c: Connection, testId: string, env: set<string>, db: Database, now: Time,
                           done: Time, writes: nat)
    requires writes < 4
    ensures var t := TestedStore(s, c, testId, env, db, now, done, writes);
            && t == s.(tests := t.tests, connections := t.connections)
            && (writes == 0 ==> t == s)
            && (writes > 0 ==> testId in t.tests && t.tests == s.tests[testId := t.tests[testId]])
            && (writes in {1, 2} ==> t.tests[testId] == ConnectionTest(testId, c.scope, c.id, Running, now, None))
            && (writes == 3 ==> t.tests == TestedStore(s, c, testId, env, db, now, done, 4).tests)
            && t.connections == if writes < 2 then s.connections else s.connections[c.id := c.(status := ConnTesting)]
  {
  }

  // ----- check executions -----

  /** Nothing fails while the check runs. */
  predicate RunsWell(k: Check, spec: SpecFields, db: Database) {
    db.session.None? && !db.commitFails && Undisturbed(k.checkType, spec, db)
  }

  /** Something that is looked at fails: the session, the commit, or a query. */
  predicate Breaks(k: Check, spec: SpecFields, db: Database) {
    db.session.Some? || db.commitFails || Fails(k.checkType, spec, db)
  }

  lemma ExecutionExactly(s: Store, k: Check, env: set<string>, db: Database, c: Connection, spec: SpecFields)
    requires Executable(s, k) == Ok((c, spec))
    ensures var run, resolved := ExecutionOutcome(s, k, env, db), Resolve(c, env).Resolved?;
            && (run.status == RunBlocked <==> !resolved)
            && (run.status == RunErrored <==> resolved && Breaks(k, spec, db))
            && (run.status == RunPassed <==> resolved && RunsWell(k, spec, db) && Holds(k.checkType, spec, db))
            && run.status != Running
  {
    ExecutableSpec(s, k);
    VerdictExact(c, env, k.checkType, k.specification, spec, db);
  }

  /**
   The check after an execution whose writes all succeed: passed exactly if the connection resolves, nothing fails
   and the assertion holds; blocked exactly if the connection does not resolve or something that is looked at
   fails; failed in every other case.
   */
  lemma ExecutedCheckExactly(s: Store, k: Check, executionId: string, env: set<string>, db: Database, now: Time,
                             done: Time, writes: nat, c: Connection, spec: SpecFields)
    requires Executable(s, k) == Ok((c, spec)) && writes >= 4
    ensures var t := ExecutedStore(s, k, executionId, env, db, now, done, writes);
            && k.id in t.checks && t.checks == s.checks[k.id := t.checks[k.id]]
            && var next, resolved := t.checks[k.id], Resolve(c, env).Resolved?;
               var passes := resolved && RunsWell(k, spec, db) && Holds(k.checkType, spec, db);
               var blocks := !resolved || Breaks(k, spec, db);
               && next == k.(status := next.status, lastRunAt := Some(done))
               && (next.status == CheckPassed <==> passes)
               && (next.status == CheckBlocked <==> blocks)
               && (next.status == CheckFailed <==> !passes && !blocks)
  {
    ExecutionExactly(s, k, env, db, c, spec);
  }

  /** The execution record: finished from the second write on, with the outcome of the run. */
  lemma ExecutionRecordExactly(s: Store, k: Check, executionId: string, env: set<string>, db: Database, now: Time,
                               done: Time, writes: nat, c: Connection, spec: SpecFields)
    requires Executable(s, k) == Ok((c, spec))
    ensures var t := ExecutedStore(s, k, executionId, env, db, now, done, writes);
            && (writes == 0 ==> t == s)
            && (writes > 0 ==>
                  executionId in t.executions && t.executions == s.executions[executionId := t.executions[executionId]])
            && (writes == 1 ==>
                  t.executions[executionId] == Execution(executionId, k.scope, k.id, c.id, Running, now, None))
            && (writes < 3 ==> t.connections == s.connections) && (writes < 4 ==> t.checks == s.checks)
            && t.changes == s.changes && t.tests == s.tests
            && (writes >= 2 ==>
                  var e, resolved := t.executions[executionId], Resolve(c, env).Resolved?;
                  && e == Execution(executionId, k.scope, k.id, c.id, e.status, now, Some(done))
                  && (e.status == RunBlocked <==> !resolved)
                  && (e.status == RunErrored <==> resolved && Breaks(k, spec, db))
                  && (e.status == RunPassed <==> resolved && RunsWell(k, spec, db) && Holds(k.checkType, spec, db))
                  && e.status != Running)
  {
    ExecutionExactly(s, k, env, db, c, spec);
  }

  /** The connection of an execution: what the run says about it, and healthy only if the check passed. */
  lemma ExecutedConnectionExactly(s: Store, k: Check, executionId: string, env: set<string>, db: Database, now: Time,
                                  done: Time, writes: nat, c: Connection, spec: SpecFields)
    requires Executable(s, k) == Ok((c, spec)) && writes >= 3
    ensures var t := ExecutedStore(s, k, executionId, env, db, now, done, writes);
            && c.id in t.connections && t.connections == s.connections[c.id := t.connections[c.id]]
            && var next, resolved := t.connections[c.id], Resolve(c, env).Resolved?;
               var passes := resolved && RunsWell(k, spec, db) && Holds(k.checkType, spec, db);
               && SameReference(c, next) && next.lastTestedAt == Some(done)
               && next.lastHealthyAt == (if passes then Some(done) else c.lastHealthyAt)
               && (!resolved ==> Resolve(c, env) == Unresolvable(next.status, next.lastErrorClass))
               && (resolved && db.session.Some? ==> next.status == ConnError && next.lastErrorClass == db.session.value)
               && (resolved && db.session.None? && Fails(k.checkType, spec, db) ==>
                     next.status == ConnReady && next.lastErrorClass == "query_failed")
               && (resolved && db.session.None? && !Fails(k.checkType, spec, db) ==>
                     if db.commitFails then next.status == ConnError && next.lastErrorClass == "commit"
                     else next.status == ConnReady && next.lastErrorClass == "")
  {
    ExecutionExactly(s, k, env, db, c, spec);
    if Resolve(c, env).Resolved? && db.session.None? {
      OutcomeExactly(s, k, env, db, c, spec);
    } else {
      UnopenedExactly(s, k, env, db, c, spec);
    }
  }

  lemma UnopenedExactly(s: Store, k: Check, env: set<string>, db: Database, c: Connection, spec: SpecFields)
    requires Executable(s, k) == Ok((c, spec)) && (Resolve(c, env).Unresolvable? || db.session.Some?)
    ensures var run := ExecutionOutcome(s, k, env, db);
            if Resolve(c, env).Unresolvable?
            then Resolve(c, env) == Unresolvable(run.connectionStatus, run.errorClass)
            else run == Outcome(RunErrored, db.session.value, ConnError)
  {
  }

  /** The error class and the connection status of a run. */
  lemma OutcomeExactly(s: Store, k: Check, env: set<string>, db: Database, c: Connection, spec: SpecFields)
    requires Executable(s, k) == Ok((c, spec)) && Resolve(c, env).Resolved? && db.session.None?
    ensures var run := ExecutionOutcome(s, k, env, db);
            if Fails(k.checkType, spec, db) then run == Outcome(RunErrored, "query_failed", ConnReady)
            else if db.commitFails then run == Outcome(RunErrored, "commit", ConnError)
            else run.errorClass == "" && run.connectionStatus == ConnReady
  {
    ExecutableSpec(s, k);
    AcceptedIsSupported(k.checkType, k.specification, spec);
    if k.checkType == RowCountAssertion {
      RowCountExact(spec, db);
    } else {
      ExistenceExact(k.checkType, spec, db);
    }
  }

  /** A check is executed exactly if it runs against a stored connection and its specification parses. */
  lemma AdmittedExactly(s: Store, k: Check)
    ensures Executable(s, k).Ok? <==>
            && k.mode == RuntimeReadOnly && Text.Trim(k.connectionId) != "" && k.connectionId in s.connections
            && Parse(RuntimeReadOnly, k.checkType, k.specification).Ok?
    ensures Executable(s, k).Ok? ==>
              Executable(s, k).value ==
              (s.connections[k.connectionId], Parse(RuntimeReadOnly, k.checkType, k.specification).value)
    ensures Executable(s, k) == Err(NotFound) <==>
            k.mode == RuntimeReadOnly && Text.Trim(k.connectionId) != "" && k.connectionId !in s.connections
    ensures Executable(s, k).Err? ==> Executable(s, k).error == NotFound || Executable(s, k).error == Validation
  {
  }
}
