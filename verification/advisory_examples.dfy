/**
 A run from the empty store that ends in an advisory posture, and its continuation to an advisory posture over a
 database that no execution has looked at.
 */
module AdvisoryExamples {
  import opened Records
  import opened Ordering
  import opened RuntimeCheck
  import opened Governance
  import opened GovernanceRuns
  import opened CheckEvidence
  import opened VerdictSubject
  import opened EvidenceExamples
  import opened Posture
  import opened PostureLaws
  import opened ReachablePosture
  import Text

  const PLACE := Scope("o", "p", "v")
  const BUNDLE := [ChangeSet("s", true)]
  const ENV_E := {"E"}
  const ENV_F := {"F"}
  const NEW_CHANGE := NewChange(PLACE, "", "s", "n", "d", "m", Given(IndexChange), Given(BeforeDeploy),
                                Given(BackwardCompatible),
                                Given(Reversible), Absent, false, false)
  const CHANGE := DatabaseChange("c", 4, PLACE, "x", "s", "n", "d", "m", IndexChange, BeforeDeploy,
                                 BackwardCompatible, Reversible,
                                 Medium, false, false, ChangeDefined)

  /** The connection after its inputs have been changed to another environment name. */
  const MOVED := READY.(dsnEnv := "F", status := ConnDefined, lastTestedAt := None, lastHealthyAt := None)

  function Tested(id: string, at: Time): ConnectionTest { ConnectionTest(id, PLACE, "r", RunPassed, at, Some(at)) }

  function Healthy(c: Connection, at: Time): Connection {
    c.(status := ConnReady, lastTestedAt := Some(at), lastHealthyAt := Some(at), lastErrorClass := "")
  }

  // ----- the operations -----

  lemma ChangeEvent() returns (e: Event)
    ensures e.ChangeCreated? && e.id == "c" && CreatedChange(CATALOG, e.newChange, "c", 4) == Ok(CHANGE)
  {
    Texts();
    ScopeIsValid();
    e := ChangeCreated(NEW_CHANGE, "c");
  }

  /** A test of a connection whose environment name has a value. */
  lemma TestEvent(c: Connection, name: string, testId: string, at: Time) returns (e: Event)
    requires c.sourceType == "env_dsn" && c.dsnEnv == name && (name == "E" || name == "F")
    ensures e.ConnectionTested? && e.id == "r" && e.testId == testId && e.done == at && e.writes == 4
    ensures Probe(c, e.env, e.db) == Outcome(RunPassed, "", ConnReady)
  {
    Texts();
    assert Text.Trimmed("F");
    e := ConnectionTested("r", testId, {name}, WithTables({}), at, 4);
  }

  /** What a step that concerns one connection leaves of the past of the checks. */
  lemma PastKept(cat: Catalog, v: World, e: Event, now: Time)
    requires e.ConnectionTested? || e.ConnectionUpdated? || e.ChangeCreated?
    ensures var w := Advance(cat, v, e, now);
            && w.store == Apply(cat, v.store, e, now) && w.clock == (if e.ConnectionTested? then e.done else now)
            && w.lastRun == v.lastRun && w.ranOn == v.ranOn && w.modeSetAt == v.modeSetAt
  {
  }

  lemma TestStored(s: Store, c: Connection, testId: string, at: Time)
    requires s.connections == map["r" := c] && c.id == "r" && c.scope == PLACE
    ensures ProbedStore(s, c, Outcome(RunPassed, "", ConnReady), testId, at, at, 4) ==
            s.(tests := s.tests[testId := Tested(testId, at)], connections := map["r" := Healthy(c, at)])
  {
  }

  lemma TestPasses(v: World, c: Connection, e: Event, at: Time)
    requires v.store.connections == map["r" := c] && c.id == "r" && c.scope == PLACE
    requires e.ConnectionTested? && e.id == "r" && e.done == at && e.writes == 4
    requires Probe(c, e.env, e.db) == Outcome(RunPassed, "", ConnReady)
    ensures var w := Advance(CATALOG, v, e, at);
            && w.store == v.store.(tests := v.store.tests[e.testId := Tested(e.testId, at)],
                                   connections := map["r" := Healthy(c, at)])
            && w.lastRun == v.lastRun && w.ranOn == v.ranOn && w.modeSetAt == v.modeSetAt && w.clock == at
  {
    PastKept(CATALOG, v, e, at);
    TestStored(v.store, c, e.testId, at);
  }

  lemma RedirectEvent() returns (e: Event)
    ensures e.ConnectionUpdated? && e.id == "r" && UpdatedConnection(Healthy(READY, 5), e.connectionPatch) == Ok(MOVED)
  {
    Texts();
    var patch := ConnectionPatch(None, None, None, None, None, Some("F"), None, None, None);
    RedirectAnswer(Healthy(READY, 5), patch);
    e := ConnectionUpdated("r", patch);
  }

  lemma RedirectAnswer(c: Connection, patch: ConnectionPatch)
    requires c == Healthy(READY, 5) && patch ==
             ConnectionPatch(None, None, None, None, None, Some("F"), None, None, None)
    ensures UpdatedConnection(c, patch) == Ok(MOVED)
  {
    Texts();
    assert Text.Trimmed("F") && IsEnvName("F");
    StoredTokens();
    assert PatchedSource(c, patch) == SourceValues("env_dsn", "F", "", "");
    assert NormalizeSource(SourceValues("env_dsn", "F", "", "")) == Ok(SourceValues("env_dsn", "F", "", ""));
  }

  // ----- when the posture is advisory -----

  /** A store with one harmless change, the passed check, its execution and passed tests of its ready connection. */
  ghost predicate Vouched(s: Store, c: Connection) {
    && s.changes == map["c" := CHANGE] && s.checks == map["k" := PASSED] && s.executions == map["e1" := EXECUTION]
    && s.connections == map["r" := c] && c.id == "r" && c.scope == PLACE && c.status == ConnReady
    && (forall t | t in s.tests :: s.tests[t].status == RunPassed && s.tests[t].id == t)
    && "t1" in s.tests && s.tests["t1"] == Tested("t1", 5)
  }

  lemma LookupsPass(s: Store, l: Listing, env: set<string>, c: Connection, full: Context)
    requires Vouched(s, c) && Lists(s, PLACE, l) && full == FullContext(l, env)
    ensures "r" in full.connections && full.connections["r"] == c && TestPassed(full, "r") && "k" in full.executions
  {
    ComparatorsOrder();
    IndexByIdExact(l.connections);
    LatestOfIsIndex(TestNewer, TestKey, l.tests);
    LatestOfIsIndex(ExecutionNewer, ExecutionKey, l.executions);
    assert c in l.connections;
    assert Tested("t1", 5) in l.tests && TestKey(Tested("t1", 5)) == "r";
    assert EXECUTION in l.executions && ExecutionKey(EXECUTION) == "k";
  }

  lemma OnlyThese(s: Store, bundle: seq<ChangeSet>, l: Listing, c: Connection)
    requires Vouched(s, c) && Lists(s, PLACE, l) && BundleIds(bundle) == {"s"}
    ensures ChangePicked(bundle, l, CHANGE) && forall x :: ChangePicked(bundle, l, x) ==> x == CHANGE
    ensures CheckPicked(bundle, l, PASSED) && forall x :: CheckPicked(bundle, l, x) ==> x == PASSED
  {
    assert CHANGE in l.changes && PASSED in l.checks;
  }

  lemma VouchedIsClean(s: Store, bundle: seq<ChangeSet>, l: Listing, env: set<string>, c: Connection)
    requires Vouched(s, c) && Lists(s, PLACE, l) && Resolve(c, env) == Resolved && BundleIds(bundle) == {"s"}
    ensures IsClean(bundle, l, env)
  {
    OnlyThese(s, bundle, l, c);
    LookupsPass(s, l, env, c, FullContext(l, env));
    assert CheckClean(FullContext(l, env), PASSED);
    assert ChangeClean(bundle, l, CHANGE);
  }

  /** However the store lists it, the posture is advisory. */
  lemma VouchedIsAdvisory(w: World, bundle: seq<ChangeSet>, l: Listing, env: set<string>, c: Connection)
    requires Inv(CATALOG, w) && Vouched(w.store, c) && Lists(w.store, PLACE, l) && Resolve(c, env) == Resolved
             && BundleIds(bundle) == {"s"}
    ensures BuildSpec(bundle, l, env).posture.status == Advisory && CheckPicked(bundle, l, PASSED)
  {
    ListingWellFormed(CATALOG, w, PLACE, l);
    VouchedIsClean(w.store, bundle, l, env, c);
    OnlyThese(w.store, bundle, l, c);
    AdvisoryExactly(bundle, l, env);
  }

  lemma OneTestListed(s: Store, c: Connection) returns (l: Listing)
    requires Vouched(s, c) && s.tests == map["t1" := Tested("t1", 5)]
    ensures Lists(s, PLACE, l)
  {
    l := Listing([CHANGE], [PASSED], [c], [Tested("t1", 5)], [EXECUTION]);
  }

  lemma TwoTestsListed(s: Store, c: Connection) returns (l: Listing)
    requires Vouched(s, c) && s.tests == map["t1" := Tested("t1", 5), "t2" := Tested("t2", 7)]
    ensures Lists(s, PLACE, l)
  {
    l := Listing([CHANGE], [PASSED], [c], [Tested("t1", 5), Tested("t2", 7)], [EXECUTION]);
  }

  // ----- the runs -----

  lemma ChangeStored(cat: Catalog, s: Store, e: Event, c: DatabaseChange, now: Time)
    requires e.ChangeCreated? && CreatedChange(cat, e.newChange, e.id, now) == Ok(c)
    ensures Apply(cat, s, e, now) == s.(changes := s.changes[e.id := c])
  {
  }

  lemma Recorded() returns (run: seq<Step>, w: World)
    ensures LegalRun(CATALOG, START, run) && w == After(CATALOG, START, run) && CompleteRun(run)
    ensures w.store == Store(map["c" := CHANGE], map["k" := PASSED], map["r" := READY], map[], map["e1" := EXECUTION])
            && w.clock == 4
    ensures "k" in w.lastRun && w.lastRun["k"] == Some("e1") && "e1" in w.ranOn
            && w.ranOn["e1"] == SubjectOf(w.store, PASSED)
  {
    var before, v := Passing();
    var e := ChangeEvent();
    assert Text.Trimmed("c");
    PastKept(CATALOG, v, e, 4);
    ChangeStored(CATALOG, v.store, e, CHANGE, 4);
    run, w := Extend(before, v, e, 4);
  }

  lemma TestVouches(s: Store, t: Store, c: Connection, testId: string, at: Time)
    requires s.changes == map["c" := CHANGE] && s.checks == map["k" := PASSED] && s.executions == map["e1" := EXECUTION]
    requires forall x | x in s.tests :: x == "t1" && s.tests[x] == Tested("t1", 5)
    requires (testId == "t1" && at == 5) || (testId == "t2" && "t1" in s.tests)
    requires c.id == "r" && c.scope == PLACE
    requires t == s.(tests := s.tests[testId := Tested(testId, at)], connections := map["r" := Healthy(c, at)])
    ensures Vouched(t, Healthy(c, at))
  {
  }

  lemma Confirmed() returns (run: seq<Step>, w: World)
    ensures LegalRun(CATALOG, START, run) && w == After(CATALOG, START, run) && CompleteRun(run)
    ensures Vouched(w.store, Healthy(READY, 5)) && w.store.tests == map["t1" := Tested("t1", 5)] && w.clock == 5
    ensures "k" in w.lastRun && w.lastRun["k"] == Some("e1") && "e1" in w.ranOn
            && w.ranOn["e1"] == SubjectOf(w.store, PASSED)
  {
    var before, v := Recorded();
    var e := TestEvent(READY, "E", "t1", 5);
    TestPasses(v, READY, e, 5);
    assert Text.Trimmed("t1");
    run, w := Extend(before, v, e, 5);
    TestVouches(v.store, w.store, READY, "t1", 5);
  }

  lemma BundleOfS() returns (bundle: seq<ChangeSet>)
    ensures BundleIds(bundle) == {"s"}
  {
    bundle := BUNDLE;
    assert BUNDLE[0] in BUNDLE;
  }

  /** A run after which everything that the results about advisory postures ask for holds, current verdicts included. */
  lemma AdvisoryIsReachable() returns (run: seq<Step>, w: World, bundle: seq<ChangeSet>, l: Listing)
    ensures LegalRun(CATALOG, START, run) && w == After(CATALOG, START, run)
    ensures Inv(CATALOG, w) && AllMirror(w) && AllEarned(w) && AllCurrent(w) && Lists(w.store, PLACE, l)
    ensures BuildSpec(bundle, l, ENV_E).posture.status == Advisory
    ensures CheckPicked(bundle, l, PASSED) && PASSED.required && PASSED.mode == RuntimeReadOnly
  {
    run, w := Confirmed();
    Sound(run);
    OneCurrent(w);
    var c := Healthy(READY, 5);
    l := OneTestListed(w.store, c);
    bundle := BundleOfS();
    ResolvesIn(c, "E");
    VouchedIsAdvisory(w, bundle, l, ENV_E, c);
  }

  lemma OneCurrent(w: World)
    requires w.store.checks == map["k" := PASSED] && "e1" in w.store.executions
    requires "k" in w.lastRun && w.lastRun["k"] == Some("e1") && "e1" in w.ranOn
             && w.ranOn["e1"] == SubjectOf(w.store, PASSED)
    ensures AllCurrent(w)
  {
  }

  lemma ResolvesIn(c: Connection, name: string)
    requires c.sourceType == "env_dsn" && c.dsnEnv == name && (name == "E" || name == "F")
    ensures Resolve(c, {name}) == Resolved
  {
    Texts();
    assert Text.Trimmed("F");
  }

  lemma Sound(run: seq<Step>)
    requires LegalRun(CATALOG, START, run) && CompleteRun(run)
    ensures var w := After(CATALOG, START, run); Inv(CATALOG, w) && AllMirror(w) && AllEarned(w)
  {
    StartHolds(CATALOG);
    StatusMirrorsLatestExecution(CATALOG, START, run);
    VerdictIsEarned(CATALOG, START, run);
  }

  lemma UpdateStores(cat: Catalog, s: Store, e: Event, now: Time, r: Result<Connection>)
    requires e.ConnectionUpdated? && e.id in s.connections
    requires r == UpdatedConnection(s.connections[e.id], e.connectionPatch) && (r.Ok? ==> r.value.id == e.id)
    ensures Apply(cat, s, e, now).connections == if r.Ok? then s.connections[e.id := r.value] else s.connections
    ensures Apply(cat, s, e, now) == s.(connections := Apply(cat, s, e, now).connections)
  {
  }

  lemma OnlyConnectionReplaced(s: Store, t: Store, r: Result<Connection>, next: Connection)
    requires s.connections.Keys == {"r"} && r == Ok(next) && next.id == "r"
    requires t == s.(connections := t.connections)
    requires t.connections == if r.Ok? then s.connections["r" := r.value] else s.connections
    ensures t == s.(connections := map["r" := next])
  {
  }

  lemma Redirected() returns (run: seq<Step>, w: World)
    ensures LegalRun(CATALOG, START, run) && w == After(CATALOG, START, run) && CompleteRun(run)
    ensures w.store == Store(map["c" := CHANGE], map["k" := PASSED], map["r" := MOVED], map["t1" := Tested("t1", 5)],
                             map["e1" := EXECUTION])
    ensures w.clock == 6
    ensures "k" in w.lastRun && w.lastRun["k"] == Some("e1") && "e1" in w.ranOn
    ensures w.ranOn["e1"].inputs == Some(InputsOf(READY))
  {
    var before, v := Confirmed();
    var e := RedirectEvent();
    UpdateStores(CATALOG, v.store, e, 6, Ok(MOVED));
    OnlyConnectionReplaced(v.store, Apply(CATALOG, v.store, e, 6), Ok(MOVED), MOVED);
    PastKept(CATALOG, v, e, 6);
    run, w := Extend(before, v, e, 6);
  }

  lemma Reconnected() returns (run: seq<Step>, w: World, c: Connection)
    ensures LegalRun(CATALOG, START, run) && w == After(CATALOG, START, run) && CompleteRun(run)
    ensures Vouched(w.store, c) && w.store.tests == map["t1" := Tested("t1", 5), "t2" := Tested("t2", 7)]
    ensures c.sourceType == "env_dsn" && c.dsnEnv == "F"
    ensures "k" in w.lastRun && w.lastRun["k"] == Some("e1") && "e1" in w.ranOn
    ensures w.ranOn["e1"].inputs == Some(InputsOf(READY))
  {
    var before, v := Redirected();
    var e := TestEvent(MOVED, "F", "t2", 7);
    assert Text.Trimmed("t2");
    run, w := Extend(before, v, e, 7);
    c := Healthy(MOVED, 7);
    SecondTest(v, w, MOVED, e);
  }

  lemma SecondTest(v: World, w: World, c: Connection, e: Event)
    requires v.store.changes == map["c" := CHANGE] && v.store.checks == map["k" := PASSED]
    requires v.store.executions == map["e1" := EXECUTION] && v.store.tests == map["t1" := Tested("t1", 5)]
    requires v.store.connections == map["r" := c] && c.id == "r" && c.scope == PLACE
    requires e.ConnectionTested? && e.id == "r" && e.testId == "t2" && e.done == 7 && e.writes == 4
    requires Probe(c, e.env, e.db) == Outcome(RunPassed, "", ConnReady) && w == Advance(CATALOG, v, e, 7)
    ensures Vouched(w.store, Healthy(c, 7))
    ensures w.store.tests == map["t1" := Tested("t1", 5), "t2" := Tested("t2", 7)]
    ensures w.lastRun == v.lastRun && w.ranOn == v.ranOn
  {
    TestPasses(v, c, e, 7);
    TestVouches(v.store, w.store, c, "t2", 7);
  }

  lemma OtherDatabase(w: World, c: Connection)
    requires w.store.connections == map["r" := c] && c.dsnEnv == "F"
    requires "k" in w.lastRun && w.lastRun["k"] == Some("e1") && "e1" in w.ranOn
             && w.ranOn["e1"].inputs == Some(InputsOf(READY))
    ensures !Current(w, "k", PASSED) && w.ranOn["e1"].inputs.value.source.dsnEnv == "E"
  {
    assert InputsOf(c).source.dsnEnv != InputsOf(READY).source.dsnEnv;
  }

  /**
   The connection is pointed at another database and tested there: the posture is advisory again, every invariant
   holds, no write was lost, and the only execution looked at the first database.
   */
  lemma AdvisoryOutlivesConnection() returns (run: seq<Step>, w: World, bundle: seq<ChangeSet>, l: Listing)
    ensures LegalRun(CATALOG, START, run) && CompleteRun(run) && w == After(CATALOG, START, run)
    ensures Inv(CATALOG, w) && AllMirror(w) && Lists(w.store, PLACE, l)
    ensures BuildSpec(bundle, l, ENV_F).posture.status == Advisory && CheckPicked(bundle, l, PASSED)
    ensures w.store.executions == map["e1" := EXECUTION] && "r" in w.store.connections
            && w.store.connections["r"].dsnEnv == "F"
    ensures "e1" in w.ranOn && w.ranOn["e1"].inputs.Some? && w.ranOn["e1"].inputs.value.source.dsnEnv == "E"
    ensures !Current(w, "k", PASSED) && !NeverDrifts(CATALOG, START, run)
  {
    var c;
    run, w, c := Reconnected();
    Sound(run);
    l := TwoTestsListed(w.store, c);
    bundle := BundleOfS();
    ResolvesIn(c, "F");
    VouchedIsAdvisory(w, bundle, l, ENV_F, c);
    OtherDatabase(w, c);
    DriftShows(CATALOG, run, "k");
  }
}
