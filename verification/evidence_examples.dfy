/** Runs from the empty store: a verdict that outlives a lost write, and one that outlives its specification. */
module EvidenceExamples {
  import opened Records
  import opened RuntimeCheck
  import opened Governance
  import opened GovernanceRuns
  import opened CheckEvidence
  import opened VerdictSubject
  import Text

  const HERE := Scope("o", "p", "v")
  const CATALOG := Catalog(map["p" := "o"], map["v" := EnvironmentRecord("o", "p", false)],
                           map["x" := ServiceRecord("o", "p")],
                           map["s" := ChangeSetRecord(HERE, "x")])

  const NEW_CONNECTION := NewConnection(HERE, "", "n", "d", "m", "", SourceValues("", "E", "", ""), false)
  const CONNECTION := Connection("r", HERE, "", "n", "d", "m", "postgres", "env_dsn", "E", "", "", true, ConnDefined,
                                 None, None, "")

  const TABLE_T := EMPTY_SPEC.(table := "t")
  const TABLE_U := EMPTY_SPEC.(table := "u")
  const NEW_CHECK := NewCheck(HERE, "", "s", "", "r", "n", "m", Given(PreDeploy), Given(ExistenceAssertion),
                              Given(RuntimeReadOnly),
                              Absent, false, true, Json(TABLE_T))
  const CHECK := Check("k", HERE, "x", "s", "", "r", "n", "m", PreDeploy, ExistenceAssertion, true, true,
                       RuntimeReadOnly,
                       Json(TABLE_T), CheckDefined, None)
  const READY := CONNECTION.(status := ConnReady, lastTestedAt := Some(3), lastHealthyAt := Some(3))
  const PASSED := CHECK.(status := CheckPassed, lastRunAt := Some(3))

  /** A database whose tables are exactly the given ones. */
  function WithTables(tables: set<(string, string)>): Database {
    Database(tables, {}, {}, map[], None, {}, false)
  }

  const EXECUTION := Execution("e1", HERE, "k", "r", RunPassed, 3, Some(3))

  function Executed(x: string, tables: set<(string, string)>, done: Time, writes: nat): Event {
    CheckExecuted("k", x, {"E"}, WithTables(tables), done, writes)
  }

  lemma Texts()
    ensures forall s | s in ["o", "p", "v", "n", "d", "m", "s", "r", "x", "E", "env_dsn", "secret_ref_dsn",
                             "public"] :: Text.Trim(s) == s
    ensures Text.Trim("") == "" && Text.Token("") == "" && Text.Lower("") == ""
  {
  }

  // ----- what each operation answers -----

  lemma ScopeIsValid()
    ensures ValidScope(CATALOG, HERE) == Ok(EnvironmentRecord("o", "p", false))
    ensures ValidChangeScope(CATALOG, HERE, "", "s") ==
            Ok((EnvironmentRecord("o", "p", false), ChangeSetRecord(HERE, "x")))
  {
    Texts();
  }

  lemma SourceMade(v: SourceValues)
    requires v == SourceValues("", "E", "", "")
    ensures NormalizeSource(v) == Ok(SourceValues("env_dsn", "E", "", ""))
  {
    Texts();
  }

  lemma ConnectionMade(req: NewConnection)
    requires req == NEW_CONNECTION
    ensures CreatedConnection(CATALOG, req, "r") == Ok(CONNECTION)
  {
    Texts();
    ScopeIsValid();
    SourceMade(req.source);
    assert ValidConnectionScope(CATALOG, req.scope, req.serviceId) == Ok("");
    assert NormalizeDriver(req.driver) == Ok("postgres");
    assert BaseStatus(CONNECTION) == ConnDefined;
  }

  lemma SpecificationParses(name: string)
    requires name == "t" || name == "u"
    ensures Parse(RuntimeReadOnly, ExistenceAssertion, Json(EMPTY_SPEC.(table := name))) ==
            Ok(EMPTY_SPEC.(table := name, schema := "public", subject := "table"))
  {
    assert IsIdentifier("public") && IsIdentifier(name);
  }

  lemma CheckMade(s: Store, req: NewCheck, id: string, now: Time)
    requires s.connections == map["r" := CONNECTION] && req == NEW_CHECK && id == "k"
    ensures CreatedCheck(CATALOG, s, req, id, now) == Ok(CHECK)
  {
    Texts();
    SpecificationParses("t");
    ScopeIsValid();
    assert LinkedChange(s, Text.Trim(req.changeId), req.scope, Text.Trim(req.changeSetId)) == Ok(());
    assert LinkedConnection(s, Text.Trim(req.connectionId), req.scope, "x") == Ok(());
    assert OrDefault(req.status, CheckDefined) == Ok(CheckDefined);
    assert Text.Trim(req.name) == "n" && Text.Trim(req.summary) == "m";
    assert AcceptedCheck(CHECK) == Ok(CHECK);
  }

  lemma TableLookedUp(s: Store, k: Check, c: Connection, tables: set<(string, string)>)
    requires k.mode == RuntimeReadOnly && k.checkType == ExistenceAssertion && k.specification == Json(TABLE_T)
             && k.connectionId == "r"
    requires "r" in s.connections && s.connections["r"] == c && c.sourceType == "env_dsn" && c.dsnEnv == "E"
    ensures Executable(s, k).Ok? && Executable(s, k).value.0 == c
    ensures ExecutionOutcome(s, k, {"E"}, WithTables(tables)) == Verdict(("public", "t") in tables)
  {
    Texts();
    SpecificationParses("t");
    assert Resolve(c, {"E"}) == Resolved;
  }

  // ----- the common part of the runs -----

  lemma {:induction false} Snoc(cat: Catalog, w: World, run: seq<Step>, step: Step)
    requires LegalRun(cat, w, run) && Legal(After(cat, w, run), step.event, step.now)
    ensures LegalRun(cat, w, run + [step])
    ensures After(cat, w, run + [step]) == Advance(cat, After(cat, w, run), step.event, step.now)
    decreases |run|
  {
    if run == [] {
      assert run + [step] == [step];
    } else {
      assert (run + [step])[0] == run[0] && (run + [step])[1..] == run[1..] + [step];
      Snoc(cat, Advance(cat, w, run[0].event, run[0].now), run[1..], step);
    }
  }

  /** Appends a step to a run from the empty store. */
  lemma Extend(before: seq<Step>, v: World, e: Event, now: Time) returns (run: seq<Step>, w: World)
    requires LegalRun(CATALOG, START, before) && v == After(CATALOG, START, before) && Legal(v, e, now)
    ensures run == before + [Step(e, now)]
    ensures LegalRun(CATALOG, START, run) && w == After(CATALOG, START, run) && w == Advance(CATALOG, v, e, now)
    ensures CompleteRun(before) && Complete(e) ==> CompleteRun(run)
  {
    Snoc(CATALOG, START, before, Step(e, now));
    run, w := before + [Step(e, now)], Advance(CATALOG, v, e, now);
  }

  lemma ConnectionEvent() returns (e: Event)
    ensures e.ConnectionCreated? && e.id == "r" && CreatedConnection(CATALOG, e.newConnection, "r") == Ok(CONNECTION)
  {
    ConnectionMade(NEW_CONNECTION);
    e := ConnectionCreated(NEW_CONNECTION, "r");
  }

  lemma CheckEvent(s: Store) returns (e: Event)
    requires s.connections == map["r" := CONNECTION]
    ensures e.CheckCreated? && e.id == "k" && CreatedCheck(CATALOG, s, e.newCheck, "k", 2) == Ok(CHECK)
  {
    CheckMade(s, NEW_CHECK, "k", 2);
    e := CheckCreated(NEW_CHECK, "k");
  }

  lemma ExecutionEvent(s: Store, k: Check, c: Connection, x: string, tables: set<(string, string)>, done: Time,
                       writes: nat) returns (e: Event)
    requires k.mode == RuntimeReadOnly && k.checkType == ExistenceAssertion && k.specification == Json(TABLE_T)
             && k.connectionId == "r"
    requires "r" in s.connections && s.connections["r"] == c && c.sourceType == "env_dsn" && c.dsnEnv == "E"
    ensures e.CheckExecuted? && e.id == "k" && e.executionId == x && e.done == done && e.writes == writes
    ensures Executable(s, k).Ok? && Executable(s, k).value.0 == c
    ensures ExecutionOutcome(s, k, e.env, e.db) == Verdict(("public", "t") in tables)
  {
    TableLookedUp(s, k, c, tables);
    e := Executed(x, tables, done, writes);
  }

  lemma StoreIds()
    ensures StoreId("r") && StoreId("k") && StoreId("e1") && StoreId("e2")
  {
    assert Text.Trimmed("r") && Text.Trimmed("k") && Text.Trimmed("e1") && Text.Trimmed("e2");
  }

  lemma Connected() returns (run: seq<Step>, w: World)
    ensures LegalRun(CATALOG, START, run) && w == After(CATALOG, START, run) && CompleteRun(run)
    ensures w.store == EMPTY_STORE.(connections := map["r" := CONNECTION]) && w.clock == 1
  {
    StoreIds();
    var e := ConnectionEvent();
    run, w := Extend([], START, e, 1);
  }

  lemma Checked() returns (run: seq<Step>, w: World)
    ensures LegalRun(CATALOG, START, run) && w == After(CATALOG, START, run) && CompleteRun(run)
    ensures w.store == EMPTY_STORE.(connections := map["r" := CONNECTION], checks := map["k" := CHECK]) && w.clock == 2
    ensures "k" in w.modeSetAt && w.modeSetAt["k"] == 2
  {
    StoreIds();
    var before, v := Connected();
    var e := CheckEvent(v.store);
    run, w := Extend(before, v, e, 2);
  }

  /** The first execution of the check, on a store that has nothing else. */
  lemma FirstPass(v: World, k: Check, c: Connection, e: Event, now: Time)
    requires v.store.checks == map["k" := k] && v.store.connections == map["r" := c] && v.store.executions == map[]
    requires k.id == "k" && k.scope == HERE && c.id == "r" && "k" in v.modeSetAt
    requires e.CheckExecuted? && e.id == "k" && e.executionId == "e1" && e.done == now && e.writes == 4
    requires Executable(v.store, k).Ok? && Executable(v.store, k).value.0 == c
    requires ExecutionOutcome(v.store, k, e.env, e.db) == Verdict(true)
    ensures var w := Advance(CATALOG, v, e, now);
            && w.store.checks == map["k" := k.(status := CheckPassed, lastRunAt := Some(now))] && w.clock == now
            && w.store.executions == map["e1" := Execution("e1", HERE, "k", "r", RunPassed, now, Some(now))]
            && w.store.connections == map["r" := Examined(c, Verdict(true), now)]
            && w.store.changes == v.store.changes && w.store.tests == v.store.tests
            && w.modeSetAt == v.modeSetAt && w.lastRun == v.lastRun["k" := Some("e1")]
            && w.ranOn == v.ranOn["e1" := SubjectOf(v.store, k)]
  {
    assert Apply(CATALOG, v.store, e, now) == RecordedStore(v.store, k, c, Verdict(true), "e1", now, now, 4);
  }

  /** A runtime check that has passed. */
  lemma Passing() returns (run: seq<Step>, w: World)
    ensures LegalRun(CATALOG, START, run) && w == After(CATALOG, START, run)
    ensures w.store == Store(map[], map["k" := PASSED], map["r" := READY], map[], map["e1" := EXECUTION])
            && w.clock == 3
    ensures CompleteRun(run)
    ensures "k" in w.modeSetAt && w.modeSetAt["k"] == 2
    ensures "k" in w.lastRun && w.lastRun["k"] == Some("e1") && "e1" in w.ranOn
            && w.ranOn["e1"] == SubjectOf(w.store, PASSED)
  {
    StoreIds();
    var before, v := Checked();
    var e := ExecutionEvent(v.store, CHECK, CONNECTION, "e1", {("public", "t")}, 3, 4);
    FirstPass(v, CHECK, CONNECTION, e, 3);
    run, w := Extend(before, v, e, 3);
  }

  // ----- a lost write -----

  /**
   The next execution fails and its check is not written: the check
   stays passed, and does not mirror its latest execution.
   */
  lemma PassOutlivesLostWrite() returns (run: seq<Step>)
    ensures LegalRun(CATALOG, START, run) && LastRunLost(CATALOG, START, run, "k", false)
    ensures var w := After(CATALOG, START, run);
            && "k" in w.store.checks && w.store.checks["k"].status == CheckPassed
            && !Mirrors(w, "k", w.store.checks["k"])
            && RunSince(w, "k", "e2") && w.store.executions["e2"].status == RunFailed
  {
    StoreIds();
    var before, v := Passing();
    var e := ExecutionEvent(v.store, PASSED, v.store.connections["r"], "e2", {}, 4, 2);
    var w;
    run, w := Extend(before, v, e, 4);
    StartHolds(CATALOG);
    RunKeeps(CATALOG, START, before);
    LostWriteLeavesStalePass(CATALOG, v, e, 4);
    MirrorsExactly(CATALOG, run, "k");
  }

  // ----- another specification -----

  const REPLACED := PASSED.(specification := Json(TABLE_U))

  lemma SpecificationEvent(s: Store) returns (e: Event)
    ensures e.CheckUpdated? && e.id == "k" && e.checkPatch.mode.None?
            && UpdatedCheck(s, PASSED, e.checkPatch, 4) == Ok(REPLACED)
  {
    SpecificationParses("u");
    AnySpecificationIsAccepted(s, PASSED, Json(TABLE_U), 4);
    e := CheckUpdated("k", OnlySpecification(Json(TABLE_U)));
  }

  lemma SpecificationReplaced(v: World, w: World, next: Check, e: Event)
    requires v.store.checks == map["k" := PASSED] && e.CheckUpdated? && e.id == "k" && e.checkPatch.mode.None?
    requires UpdatedCheck(v.store, PASSED, e.checkPatch, 4) == Ok(next) && w == Advance(CATALOG, v, e, 4)
    ensures Replaced(v, w, next)
  {
    var r := UpdateWrites(CATALOG, v, e, 4);
    OnlyCheckWritten(v, w, r, next);
  }

  predicate Replaced(v: World, w: World, next: Check) {
    && w.store.checks == map["k" := next] && w.store.executions == v.store.executions
    && w.store.connections == v.store.connections && w.lastRun == v.lastRun && w.ranOn == v.ranOn
  }

  lemma OnlyCheckWritten(v: World, w: World, r: Result<Check>, next: Check)
    requires v.store.checks.Keys == {"k"} && r == Ok(next) && Written(v, w, "k", r, false)
    ensures Replaced(v, w, next)
  {
  }

  lemma ReplacedIsNotCurrent(w: World, s: Store)
    requires "k" in w.lastRun && w.lastRun["k"] == Some("e1") && "e1" in w.ranOn
             && w.ranOn["e1"] == SubjectOf(s, PASSED)
    ensures !Current(w, "k", REPLACED)
  {
    assert TABLE_U.table != TABLE_T.table;
  }

  /** An update replaces the specification: the check stays passed on a table that was never looked up. */
  lemma PassOutlivesSpecification() returns (run: seq<Step>)
    ensures LegalRun(CATALOG, START, run) && !NeverDrifts(CATALOG, START, run)
    ensures var w := After(CATALOG, START, run);
            && "k" in w.store.checks && w.store.checks["k"] == PASSED.(specification := Json(TABLE_U))
            && w.store.executions == map["e1" := EXECUTION] && !Current(w, "k", w.store.checks["k"])
  {
    var before, v := Passing();
    var e := SpecificationEvent(v.store);
    var w;
    run, w := Extend(before, v, e, 4);
    SpecificationReplaced(v, w, REPLACED, e);
    ReplacedIsNotCurrent(w, v.store);
    DriftShows(CATALOG, run, "k");
  }

  lemma DriftShows(cat: Catalog, run: seq<Step>, id: string)
    requires LegalRun(cat, START, run) && id in After(cat, START, run).store.checks
    requires !Current(After(cat, START, run), id, After(cat, START, run).store.checks[id])
    ensures !NeverDrifts(cat, START, run)
  {
    StartHolds(cat);
    StartIsCurrent();
    VerdictsCurrentExactly(cat, START, run);
    if AlwaysCurrent(cat, START, run) {
      EndCurrent(cat, START, run);
    }
  }

  lemma {:induction false} EndCurrent(cat: Catalog, w: World, run: seq<Step>)
    requires AlwaysCurrent(cat, w, run)
    ensures AllCurrent(After(cat, w, run))
    decreases |run|
  {
    if run == [] {
    } else {
      EndCurrent(cat, Advance(cat, w, run[0].event, run[0].now), run[1..]);
    }
  }
}
