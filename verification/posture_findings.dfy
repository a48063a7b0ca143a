/** Every finding of a posture, and the records of the listing it is there for. */
module PostureFindings {
  import opened Records
  import opened Ordering
  import opened RuntimeCheck
  import opened Posture
  import opened PostureLaws
  import Text

  // ----- what the records of a listing say together -----

  /** A required check of the phase names the change, or belongs to its change set. */
  ghost predicate Covered(l: Listing, c: DatabaseChange, phase: Phase) {
    exists k | k in l.checks ::
      ((k.changeId != "" && k.changeId == c.id) || k.changeSetId == c.changeSetId) && k.required && k.phase == phase
  }

  ghost predicate LatestTest(l: Listing, connectionId: string, t: ConnectionTest) {
    && t in l.tests && t.connectionId == connectionId
    && forall u | u in l.tests && u.connectionId == connectionId && u != t ::
         u.startedAt < t.startedAt || (u.startedAt == t.startedAt && Text.Less(u.id, t.id))
  }

  ghost predicate LatestRun(l: Listing, checkId: string, e: Execution) {
    && e in l.executions && e.checkId == checkId
    && forall u | u in l.executions && u.checkId == checkId && u != e ::
         u.startedAt < e.startedAt || (u.startedAt == e.startedAt && Text.Less(u.id, e.id))
  }

  ghost predicate Connects(l: Listing, k: Check, c: Connection) {
    k.mode == RuntimeReadOnly && k.connectionId != "" && c in l.connections && c.id == k.connectionId
  }

  // ----- what a finding is there for -----

  /** Why a check blocks the deployment. */
  ghost predicate CheckBlocker(l: Listing, env: set<string>, k: Check, x: Finding) {
    RequiredBlocker(k, x) || RuntimeBlocker(l, env, k, x)
  }

  predicate RequiredBlocker(k: Check, x: Finding) {
    || (x == PreDeployNotPassed(k.name, k.status) && k.required && k.phase == PreDeploy && k.status != CheckPassed)
    || (x == LaterCheckFailed(k.phase, k.name, k.status)
        && k.required && k.phase != PreDeploy && (k.status == CheckFailed || k.status == CheckBlocked))
  }

  ghost predicate RuntimeBlocker(l: Listing, env: set<string>, k: Check, x: Finding) {
    || (x == NoConnection(k.name) && k.mode == RuntimeReadOnly && k.connectionId == "")
    || (x == UnavailableConnection(k.name) && k.mode == RuntimeReadOnly && k.connectionId != ""
        && forall c | c in l.connections :: c.id != k.connectionId)
    || exists c :: Connects(l, k, c) && ConnectionBlocker(l, env, k, c, x)
  }

  ghost predicate ConnectionBlocker(l: Listing, env: set<string>, k: Check, c: Connection, x: Finding) {
    var gates := k.required && k.phase == PreDeploy;
    || (x == UnsupportedRuntimeSource(c.name, SourceOf(c)) && c.status != ConnUnsupported
        && Resolve(c, env) == Unresolvable(ConnUnsupported, "unsupported_source"))
    || (x.CannotResolve? && x == CannotResolve(c.name, x.errorClass, SourceOf(c)) && c.status != ConnUnresolved
        && Resolve(c, env) == Unresolvable(ConnUnresolved, x.errorClass))
    || (x == UnsupportedSource(c.name, SourceOf(c)) && c.status == ConnUnsupported)
    || (x == UnresolvedConnection(c.name) && c.status == ConnUnresolved)
    || (x == FailedHealth(c.name) && c.status == ConnError)
    || (x == DependsOnUntested(k.name, c.name) && gates && c.status == ConnDefined)
    || (x == NoHealthEvidence(k.name, c.name) && gates && forall t | t in l.tests :: t.connectionId != c.id)
    || (x.DependsOnTest? && x == DependsOnTest(k.name, x.runStatus, c.name) && gates && x.runStatus != RunPassed
        && exists t :: LatestTest(l, c.id, t) && t.status == x.runStatus)
  }

  /** Why a check calls for a review. */
  ghost predicate CheckWarning(l: Listing, k: Check, x: Finding) {
    || (x == LaterCheckRemains(k.phase, k.name, k.status)
        && k.required && k.phase != PreDeploy && (k.status == CheckDefined || k.status == CheckAdvisory))
    || RuntimeWarning(l, k, x)
  }

  ghost predicate RuntimeWarning(l: Listing, k: Check, x: Finding) {
    || (x == NoExecutionEvidence(k.name) && k.mode == RuntimeReadOnly
        && forall e | e in l.executions :: e.checkId != k.id)
    || exists c :: Connects(l, k, c) && ConnectionWarning(l, k, c, x)
  }

  ghost predicate ConnectionWarning(l: Listing, k: Check, c: Connection, x: Finding) {
    var gates := k.required && k.phase == PreDeploy;
    || (x == NotHealthTested(c.name) && !gates && c.status == ConnDefined)
    || (x == CurrentlyTesting(c.name) && c.status == ConnTesting)
    || (x == NoHealthEvidenceYet(c.name) && !gates && forall t | t in l.tests :: t.connectionId != c.id)
    || (x.LastTested? && x == LastTested(c.name, x.runStatus) && !gates && x.runStatus != RunPassed
        && exists t :: LatestTest(l, c.id, t) && t.status == x.runStatus)
  }

  /** What is reported about a check in any case. */
  ghost predicate CheckFinding(l: Listing, env: set<string>, k: Check, x: Finding) {
    || (x.LastExecuted? && k.mode == RuntimeReadOnly && x.check == k.name
        && exists e :: LatestRun(l, k.id, e) && e.status == x.runStatus)
    || exists c :: Connects(l, k, c) && ConnectionFinding(l, env, k, c, x)
  }

  ghost predicate ConnectionFinding(l: Listing, env: set<string>, k: Check, c: Connection, x: Finding) {
    || x == UsesConnection(k.name, c.name, SourceOf(c))
    || (x.CapabilityIs? && x.connection == c.name && x.errorClass != ""
        && Resolve(c, env) == Unresolvable(ConnUnresolved, x.errorClass))
    || (x.LastTested? && x.connection == c.name && exists t :: LatestTest(l, c.id, t) && t.status == x.runStatus)
  }

  /** Why a change blocks the deployment: it needs a check before it, and no required one is linked to it. */
  ghost predicate ChangeBlocker(l: Listing, c: DatabaseChange, x: Finding) {
    && x == MissingPreDeployCheck(c.name)
    && (c.operation == SchemaChange || c.operation == DestructiveChange
        || c.compatibility == ForwardIncompatible || c.lockRisk)
    && !Covered(l, c, PreDeploy)
  }

  /** An irreversible change of the bundle is older than `c`. */
  ghost predicate AfterIrreversible(bundle: seq<ChangeSet>, l: Listing, c: DatabaseChange) {
    exists d :: ChangePicked(bundle, l, d) && d.reversibility == Irreversible
                && (d.createdAt < c.createdAt || (d.createdAt == c.createdAt && Text.Less(d.id, c.id)))
  }

  /** Why a change calls for a review; a manual rollback is not mentioned after an irreversible change. */
  ghost predicate ChangeWarning(bundle: seq<ChangeSet>, l: Listing, c: DatabaseChange, x: Finding) {
    RaisedBy(c, AfterIrreversible(bundle, l, c), !Covered(l, c, PostDeploy), x)
  }

  predicate RaisedBy(c: DatabaseChange, late: bool, uncovered: bool, x: Finding) {
    || (x == MayLock(c.name) && c.lockRisk)
    || (x == ManualApprovalNeeded(c.name) && c.manualApprovalRequired)
    || (x == IrreversibleChange(c.name) && c.reversibility == Irreversible)
    || (x == ManualRollback(c.name) && c.reversibility == ManualOnly && !late)
    || (x == ForwardIncompatibleChange(c.name) && c.compatibility == ForwardIncompatible)
    || (x == MissingPostDeployCheck(c.name) && uncovered
        && (c.operation == SchemaChange || c.operation == DataBackfill || c.operation == ExpandContractChange
            || c.operation == DestructiveChange))
  }

  predicate ChangeFinding(c: DatabaseChange, x: Finding) {
    x == Targets(c.name, c.datastore, c.operation, c.compatibility, c.reversibility)
  }

  predicate ChangeHighlight(c: DatabaseChange, x: Finding) {
    || (x == ManualApprovalPolicy(c.name) && c.manualApprovalRequired)
    || (x == IrreversiblePolicy(c.name) && c.reversibility == Irreversible)
    || (x == ForwardIncompatiblePolicy(c.name) && c.compatibility == ForwardIncompatible)
  }

  // ----- lookups -----

  lemma ConnectionLookup(l: Listing, env: set<string>, k: Check, full: Context)
    requires WellFormed(l) && full == FullContext(l, env) && k.mode == RuntimeReadOnly && k.connectionId != ""
    ensures k.connectionId !in full.connections ==> forall c | c in l.connections :: c.id != k.connectionId
    ensures k.connectionId in full.connections ==>
              && Connects(l, k, full.connections[k.connectionId])
              && forall c :: Connects(l, k, c) <==> c == full.connections[k.connectionId]
  {
    IndexByIdExact(l.connections);
  }

  lemma TestLookup(l: Listing, full: map<string, ConnectionTest>, id: string)
    requires UniqueTests(l.tests) && full == LatestOf(TestNewer, TestKey, l.tests)
    ensures id !in full ==> forall t | t in l.tests :: t.connectionId != id
    ensures id in full ==> LatestTest(l, id, full[id]) && forall t :: LatestTest(l, id, t) ==> t == full[id]
  {
    ComparatorsOrder();
    LatestOfIsIndex(TestNewer, TestKey, l.tests);
    forall t | t in l.tests && t.connectionId == id ensures id in full { assert TestKey(t) == id; }
    if id in full {
      var latest := full[id];
      assert TestKey(latest) == id;
      forall u | u in l.tests && u.connectionId == id && u != latest
        ensures TestNewer(latest, u) && !TestNewer(u, latest)
      {
        assert TestKey(u) == id;
        var i :| 0 <= i < |l.tests| && l.tests[i] == u;
        var j :| 0 <= j < |l.tests| && l.tests[j] == latest;
        assert i != j && u.id != latest.id;
      }
    }
  }

  lemma RunLookup(l: Listing, full: map<string, Execution>, id: string)
    requires UniqueExecutions(l.executions) && full == LatestOf(ExecutionNewer, ExecutionKey, l.executions)
    ensures id !in full ==> forall e | e in l.executions :: e.checkId != id
    ensures id in full ==> LatestRun(l, id, full[id]) && forall e :: LatestRun(l, id, e) ==> e == full[id]
  {
    ComparatorsOrder();
    LatestOfIsIndex(ExecutionNewer, ExecutionKey, l.executions);
    forall e | e in l.executions && e.checkId == id ensures id in full { assert ExecutionKey(e) == id; }
    if id in full {
      var latest := full[id];
      assert ExecutionKey(latest) == id;
      forall u | u in l.executions && u.checkId == id && u != latest
        ensures ExecutionNewer(latest, u) && !ExecutionNewer(u, latest)
      {
        assert ExecutionKey(u) == id;
        var i :| 0 <= i < |l.executions| && l.executions[i] == u;
        var j :| 0 <= j < |l.executions| && l.executions[j] == latest;
        assert i != j && u.id != latest.id;
      }
    }
  }

  // ----- findings about one check -----

  lemma CapabilityBlockerExact(l: Listing, env: set<string>, k: Check, c: Connection, x: Finding)
    ensures x in CapabilityBlockers(c, env) <==>
            (x.UnsupportedRuntimeSource? || x.CannotResolve?) && ConnectionBlocker(l, env, k, c, x)
  {
  }

  lemma StatusBlockerExact(l: Listing, env: set<string>, k: Check, c: Connection, x: Finding)
    ensures x in StatusBlockers(k, c) <==>
            && (x.UnsupportedSource? || x.UnresolvedConnection? || x.FailedHealth? || x.DependsOnUntested?)
            && ConnectionBlocker(l, env, k, c, x)
  {
  }

  lemma ConnectionBlockerExact(l: Listing, env: set<string>, k: Check, c: Connection, x: Finding,
                               tests: map<string, ConnectionTest>)
    requires UniqueTests(l.tests) && tests == LatestOf(TestNewer, TestKey, l.tests)
    ensures x in CapabilityBlockers(c, env) + StatusBlockers(k, c) + TestBlockers(k, c, tests) <==>
            ConnectionBlocker(l, env, k, c, x)
  {
    TestLookup(l, tests, c.id);
    CapabilityBlockerExact(l, env, k, c, x);
    StatusBlockerExact(l, env, k, c, x);
    assert x in TestBlockers(k, c, tests) <==>
           (x.NoHealthEvidence? || x.DependsOnTest?) && ConnectionBlocker(l, env, k, c, x);
  }

  lemma ConnectionWarningExact(l: Listing, k: Check, c: Connection, x: Finding, tests: map<string, ConnectionTest>)
    requires UniqueTests(l.tests) && tests == LatestOf(TestNewer, TestKey, l.tests)
    ensures x in StatusWarnings(k, c) + TestWarnings(k, c, tests) <==> ConnectionWarning(l, k, c, x)
  {
    TestLookup(l, tests, c.id);
    assert x in StatusWarnings(k, c) <==> (x.NotHealthTested? || x.CurrentlyTesting?) && ConnectionWarning(l, k, c, x);
    assert x in TestWarnings(k, c, tests) <==>
           (x.NoHealthEvidenceYet? || x.LastTested?) && ConnectionWarning(l, k, c, x);
  }

  lemma ConnectionFindingExact(l: Listing, env: set<string>, k: Check, c: Connection, x: Finding,
                               tests: map<string, ConnectionTest>)
    requires UniqueTests(l.tests) && tests == LatestOf(TestNewer, TestKey, l.tests)
    ensures x in [UsesConnection(k.name, c.name, SourceOf(c))] + CapabilityFindings(c, env)
            + TestFindings(c, tests) <==>
            ConnectionFinding(l, env, k, c, x)
  {
    TestLookup(l, tests, c.id);
    assert x in CapabilityFindings(c, env) <==> x.CapabilityIs? && ConnectionFinding(l, env, k, c, x);
    assert x in TestFindings(c, tests) <==> x.LastTested? && ConnectionFinding(l, env, k, c, x);
  }

  /** A check without a connection raises nothing about one. */
  lemma Unconnected(l: Listing, env: set<string>, k: Check, full: Context)
    requires WellFormed(l) && full == FullContext(l, env)
    requires k.mode != RuntimeReadOnly || k.connectionId == "" || k.connectionId !in full.connections
    ensures forall c :: !Connects(l, k, c)
    ensures k.mode == RuntimeReadOnly && k.connectionId != "" ==>
            forall c | c in l.connections :: c.id != k.connectionId
  {
    if k.mode == RuntimeReadOnly && k.connectionId != "" {
      ConnectionLookup(l, env, k, full);
    }
  }

  /** A check with a connection raises what is to be said about that one. */
  lemma Connected(l: Listing, env: set<string>, k: Check, x: Finding, full: Context) returns (c: Connection)
    requires WellFormed(l) && full == FullContext(l, env)
    requires k.mode == RuntimeReadOnly && k.connectionId != "" && k.connectionId in full.connections
    ensures c == full.connections[k.connectionId] && c in l.connections && c.id == k.connectionId
    ensures (exists d :: Connects(l, k, d) && ConnectionBlocker(l, env, k, d, x)) <==>
            ConnectionBlocker(l, env, k, c, x)
    ensures (exists d :: Connects(l, k, d) && ConnectionWarning(l, k, d, x)) <==> ConnectionWarning(l, k, c, x)
    ensures (exists d :: Connects(l, k, d) && ConnectionFinding(l, env, k, d, x)) <==>
            ConnectionFinding(l, env, k, c, x)
  {
    c := full.connections[k.connectionId];
    ConnectionLookup(l, env, k, full);
  }

  lemma CheckBlockerExact(l: Listing, env: set<string>, k: Check, x: Finding, full: Context)
    requires WellFormed(l) && full == FullContext(l, env)
    ensures x in CheckBlockers(full, k) <==> CheckBlocker(l, env, k, x)
  {
    RuntimeBlockerExact(l, env, k, x, full);
    assert x in RequiredBlockers(k) <==> RequiredBlocker(k, x);
  }

  lemma RuntimeBlockerExact(l: Listing, env: set<string>, k: Check, x: Finding, full: Context)
    requires WellFormed(l) && full == FullContext(l, env)
    ensures x in RuntimeBlockers(full, k) <==> RuntimeBlocker(l, env, k, x)
  {
    if k.mode == RuntimeReadOnly && k.connectionId != "" && k.connectionId in full.connections {
      var c := Connected(l, env, k, x, full);
      ConnectionBlockerExact(l, env, k, c, x, full.tests);
      BlockersOfConnection(full, k, c);
    } else {
      Unconnected(l, env, k, full);
    }
  }

  lemma BlockersOfConnection(full: Context, k: Check, c: Connection)
    requires k.mode == RuntimeReadOnly && k.connectionId != ""
    requires k.connectionId in full.connections && c == full.connections[k.connectionId]
    ensures RuntimeBlockers(full, k) == CapabilityBlockers(c, full.env) + StatusBlockers(k, c)
            + TestBlockers(k, c, full.tests)
  {
  }

  lemma CheckWarningExact(l: Listing, env: set<string>, k: Check, x: Finding, full: Context)
    requires WellFormed(l) && full == FullContext(l, env)
    ensures x in CheckWarnings(full, k) <==> CheckWarning(l, k, x)
  {
    RuntimeWarningExact(l, env, k, x, full);
    assert x in RequiredWarnings(k) <==>
           && x == LaterCheckRemains(k.phase, k.name, k.status)
           && k.required && k.phase != PreDeploy && (k.status == CheckDefined || k.status == CheckAdvisory);
  }

  lemma RuntimeWarningExact(l: Listing, env: set<string>, k: Check, x: Finding, full: Context)
    requires WellFormed(l) && full == FullContext(l, env)
    ensures x in RuntimeWarnings(full, k) <==> RuntimeWarning(l, k, x)
  {
    RunLookup(l, full.executions, k.id);
    if k.mode == RuntimeReadOnly && k.connectionId != "" && k.connectionId in full.connections {
      var c := Connected(l, env, k, x, full);
      ConnectionWarningExact(l, k, c, x, full.tests);
      WarningsOfConnection(full, k, c);
    } else {
      Unconnected(l, env, k, full);
    }
  }

  lemma WarningsOfConnection(full: Context, k: Check, c: Connection)
    requires k.mode == RuntimeReadOnly && k.connectionId != ""
    requires k.connectionId in full.connections && c == full.connections[k.connectionId]
    ensures RuntimeWarnings(full, k) ==
            (StatusWarnings(k, c) + TestWarnings(k, c, full.tests)) +
            (if k.id in full.executions then [] else [NoExecutionEvidence(k.name)])
  {
  }

  lemma CheckFindingExact(l: Listing, env: set<string>, k: Check, x: Finding, full: Context)
    requires WellFormed(l) && full == FullContext(l, env)
    ensures x in CheckFindings(full, k) <==> CheckFinding(l, env, k, x)
  {
    RunLookup(l, full.executions, k.id);
    if k.mode == RuntimeReadOnly && k.connectionId != "" && k.connectionId in full.connections {
      var c := Connected(l, env, k, x, full);
      ConnectionFindingExact(l, env, k, c, x, full.tests);
    } else {
      Unconnected(l, env, k, full);
    }
  }

  lemma FindingsAgree(a: Context, b: Context, k: Check)
    requires AgreeOn(a, b, k)
    ensures RuntimeBlockers(a, k) == RuntimeBlockers(b, k) && CheckWarnings(a, k) == CheckWarnings(b, k)
    ensures CheckFindings(a, k) == CheckFindings(b, k)
  {
  }

  // ----- findings about one change -----

  lemma CoveredExactly(bundle: seq<ChangeSet>, l: Listing, c: DatabaseChange, phase: Phase)
    requires ChangePicked(bundle, l, c)
    ensures HasRequired(SelectionOf(BundleIds(bundle), l).checks, c, phase) <==> Covered(l, c, phase)
  {
    SelectionMembers(bundle, l);
    forall k | k in l.checks && Linked(k, c) ensures CheckPicked(bundle, l, k) {}
  }

  lemma SelectedOrder(bundle: seq<ChangeSet>, l: Listing, s: seq<DatabaseChange>)
    requires UniqueChanges(l.changes) && s == SelectionOf(BundleIds(bundle), l).changes
    ensures forall i, j | 0 <= i < j < |s| :: ChangeBefore(s[i], s[j]) && !ChangeBefore(s[j], s[i])
    ensures forall i | 0 <= i < |s| :: !ChangeBefore(s[i], s[i])
  {
    ComparatorsOrder();
    var kept := Filter(ChangeInBundle(BundleIds(bundle)), l.changes);
    SortOrders(ChangeBefore, kept);
    FilterDistinguishes(ChangeBefore, ChangeInBundle(BundleIds(bundle)), l.changes);
    DistinguishesPermutes(ChangeBefore, kept, s);
  }

  lemma IrreversibleBefore(bundle: seq<ChangeSet>, l: Listing, s: seq<DatabaseChange>, i: nat)
    requires UniqueChanges(l.changes) && s == SelectionOf(BundleIds(bundle), l).changes && i < |s|
    ensures HasIrreversible(s[..i]) <==> AfterIrreversible(bundle, l, s[i])
  {
    SelectionMembers(bundle, l);
    SelectedOrder(bundle, l, s);
    OlderOnes(s, i);
    forall d ensures d in s <==> ChangePicked(bundle, l, d) {}
  }

  lemma OlderOnes(s: seq<DatabaseChange>, i: nat)
    requires i < |s| && forall j, k | 0 <= j < k < |s| :: ChangeBefore(s[j], s[k]) && !ChangeBefore(s[k], s[j])
    requires !ChangeBefore(s[i], s[i])
    ensures forall d :: d in s[..i] <==> d in s && ChangeBefore(d, s[i])
  {
    forall d | d in s && ChangeBefore(d, s[i]) ensures d in s[..i] {
      var j :| 0 <= j < |s| && s[j] == d;
      assert s[..i][j] == d;
    }
  }

  /** The finding is raised by the change at position `i`. */
  ghost predicate WarnedAt(checks: seq<Check>, changes: seq<DatabaseChange>, i: nat, x: Finding)
    requires i < |changes|
  {
    x in ChangeWarnings(checks, changes[i], HasIrreversible(changes[..i]))
  }

  lemma {:induction false} AllWarningsMembers(checks: seq<Check>, changes: seq<DatabaseChange>, x: Finding)
    ensures x in AllChangeWarnings(checks, changes) <==>
            exists i | 0 <= i < |changes| :: WarnedAt(checks, changes, i, x)
  {
    if changes == [] {
    } else {
      var n := |changes| - 1;
      AllWarningsMembers(checks, changes[..n], x);
      LastWarning(checks, changes, x);
      forall i | 0 <= i < n ensures WarnedAt(checks, changes[..n], i, x) <==> WarnedAt(checks, changes, i, x) {
        EarlierWarning(checks, changes, n, i, x);
      }
    }
  }

  lemma LastWarning(checks: seq<Check>, changes: seq<DatabaseChange>, x: Finding)
    requires changes != []
    ensures var n := |changes| - 1;
            x in AllChangeWarnings(checks, changes) <==>
            x in AllChangeWarnings(checks, changes[..n]) || WarnedAt(checks, changes, n, x)
  {
  }

  lemma EarlierWarning(checks: seq<Check>, changes: seq<DatabaseChange>, n: nat, i: nat, x: Finding)
    requires i < n <= |changes|
    ensures WarnedAt(checks, changes[..n], i, x) <==> WarnedAt(checks, changes, i, x)
  {
    assert changes[..n][..i] == changes[..i];
  }

  lemma {:induction false} FlatMembers<T(!new)>(f: T -> seq<Finding>, s: seq<T>, x: Finding)
    ensures x in Flat(f, s) <==> exists e | e in s :: x in f(e)
  {
    if s == [] {
    } else {
      FlatMembers(f, s[..|s| - 1], x);
      assert s == s[..|s| - 1] + [s[|s| - 1]];
    }
  }

  lemma ChangeBlockerExact(bundle: seq<ChangeSet>, l: Listing, c: DatabaseChange, checks: seq<Check>, x: Finding)
    requires ChangePicked(bundle, l, c) && checks == SelectionOf(BundleIds(bundle), l).checks
    ensures x in ChangeBlockers(checks, c) <==> ChangeBlocker(l, c, x)
  {
    CoveredExactly(bundle, l, c, PreDeploy);
  }

  lemma NoteMember(s: seq<Finding>, applies: bool, y: Finding, x: Finding)
    ensures x in Note(s, applies, y) <==> x in s || (applies && x == y)
  {
  }

  lemma RaisedMembers(checks: seq<Check>, c: DatabaseChange, unsafe: bool, x: Finding)
    ensures x in ChangeWarnings(checks, c, unsafe) <==>
            RaisedBy(c, unsafe, !HasRequired(checks, c, PostDeploy), x)
  {
    var s1 := Note([], c.lockRisk, MayLock(c.name));
    NoteMember([], c.lockRisk, MayLock(c.name), x);
    var s2 := Note(s1, c.manualApprovalRequired, ManualApprovalNeeded(c.name));
    NoteMember(s1, c.manualApprovalRequired, ManualApprovalNeeded(c.name), x);
    var s3 := Note(s2, c.reversibility == Irreversible, IrreversibleChange(c.name));
    NoteMember(s2, c.reversibility == Irreversible, IrreversibleChange(c.name), x);
    var s4 := Note(s3, c.reversibility == ManualOnly && !unsafe, ManualRollback(c.name));
    NoteMember(s3, c.reversibility == ManualOnly && !unsafe, ManualRollback(c.name), x);
    var s5 := Note(s4, c.compatibility == ForwardIncompatible, ForwardIncompatibleChange(c.name));
    NoteMember(s4, c.compatibility == ForwardIncompatible, ForwardIncompatibleChange(c.name), x);
    var lacking := NeedsPostDeployCheck(c) && !HasRequired(checks, c, PostDeploy);
    NoteMember(s5, lacking, MissingPostDeployCheck(c.name), x);
  }

  lemma ChangeWarningExact(bundle: seq<ChangeSet>, l: Listing, c: DatabaseChange, checks: seq<Check>, x: Finding)
    requires ChangePicked(bundle, l, c) && checks == SelectionOf(BundleIds(bundle), l).checks
    ensures x in ChangeWarnings(checks, c, AfterIrreversible(bundle, l, c)) <==> ChangeWarning(bundle, l, c, x)
  {
    RaisedMembers(checks, c, AfterIrreversible(bundle, l, c), x);
    CoveredExactly(bundle, l, c, PostDeploy);
  }

  // ----- all findings of a posture -----

  lemma PickedCheckExact(bundle: seq<ChangeSet>, l: Listing, env: set<string>, s: Selection, k: Check, x: Finding)
    requires WellFormed(l) && s == SelectionOf(BundleIds(bundle), l) && k in s.checks
    ensures x in CheckBlockers(ContextOf(s, env), k) <==> CheckBlocker(l, env, k, x)
    ensures x in CheckWarnings(ContextOf(s, env), k) <==> CheckWarning(l, k, x)
    ensures x in CheckFindings(ContextOf(s, env), k) <==> CheckFinding(l, env, k, x)
  {
    var full := FullContext(l, env);
    ContextIsFull(l, env, BundleIds(bundle), k);
    FindingsAgree(ContextOf(s, env), full, k);
    CheckBlockerExact(l, env, k, x, full);
    CheckWarningExact(l, env, k, x, full);
    CheckFindingExact(l, env, k, x, full);
  }

  lemma CheckPart(bundle: seq<ChangeSet>, l: Listing, env: set<string>, s: Selection, ctx: Context, x: Finding)
    requires WellFormed(l) && s == SelectionOf(BundleIds(bundle), l) && ctx == ContextOf(s, env)
    ensures x in Flat(BlockersIn(ctx), s.checks) <==>
            exists k :: CheckPicked(bundle, l, k) && CheckBlocker(l, env, k, x)
    ensures x in Flat(WarningsIn(ctx), s.checks) <==> exists k :: CheckPicked(bundle, l, k) && CheckWarning(l, k, x)
    ensures x in Flat(FindingsIn(ctx), s.checks) <==>
            exists k :: CheckPicked(bundle, l, k) && CheckFinding(l, env, k, x)
  {
    SelectionMembers(bundle, l);
    FlatMembers(BlockersIn(ctx), s.checks, x);
    FlatMembers(WarningsIn(ctx), s.checks, x);
    FlatMembers(FindingsIn(ctx), s.checks, x);
    forall k | k in s.checks
      ensures x in BlockersIn(ctx)(k) <==> CheckBlocker(l, env, k, x)
      ensures x in WarningsIn(ctx)(k) <==> CheckWarning(l, k, x)
      ensures x in FindingsIn(ctx)(k) <==> CheckFinding(l, env, k, x)
    {
      PickedCheckExact(bundle, l, env, s, k, x);
    }
  }

  lemma ChangeBlockerPart(bundle: seq<ChangeSet>, l: Listing, s: Selection, x: Finding)
    requires s == SelectionOf(BundleIds(bundle), l)
    ensures x in Flat(BlockersAmong(s.checks), s.changes) <==>
            exists c :: ChangePicked(bundle, l, c) && ChangeBlocker(l, c, x)
  {
    SelectionMembers(bundle, l);
    FlatMembers(BlockersAmong(s.checks), s.changes, x);
    forall c | c in s.changes ensures x in BlockersAmong(s.checks)(c) <==> ChangeBlocker(l, c, x) {
      ChangeBlockerExact(bundle, l, c, s.checks, x);
    }
  }

  lemma WarnedExactly(bundle: seq<ChangeSet>, l: Listing, s: Selection, i: nat, x: Finding)
    requires UniqueChanges(l.changes) && s == SelectionOf(BundleIds(bundle), l) && i < |s.changes|
    ensures WarnedAt(s.checks, s.changes, i, x) <==> ChangeWarning(bundle, l, s.changes[i], x)
  {
    SelectionMembers(bundle, l);
    IrreversibleBefore(bundle, l, s.changes, i);
    ChangeWarningExact(bundle, l, s.changes[i], s.checks, x);
  }

  lemma SomeWarning(bundle: seq<ChangeSet>, l: Listing, s: Selection, x: Finding)
    requires UniqueChanges(l.changes) && s == SelectionOf(BundleIds(bundle), l)
    ensures (exists i | 0 <= i < |s.changes| :: WarnedAt(s.checks, s.changes, i, x)) <==>
            exists c | c in s.changes :: ChangeWarning(bundle, l, c, x)
  {
    if i :| 0 <= i < |s.changes| && WarnedAt(s.checks, s.changes, i, x) {
      WarnedExactly(bundle, l, s, i, x);
    }
    if c :| c in s.changes && ChangeWarning(bundle, l, c, x) {
      var i := WarnedPosition(bundle, l, s, c, x);
    }
  }

  lemma WarnedPosition(bundle: seq<ChangeSet>, l: Listing, s: Selection, c: DatabaseChange, x: Finding) returns (i: nat)
    requires UniqueChanges(l.changes) && s == SelectionOf(BundleIds(bundle), l)
    requires c in s.changes && ChangeWarning(bundle, l, c, x)
    ensures i < |s.changes| && WarnedAt(s.checks, s.changes, i, x)
  {
    i :| 0 <= i < |s.changes| && s.changes[i] == c;
    WarnedExactly(bundle, l, s, i, x);
  }

  lemma ChangeWarningPart(bundle: seq<ChangeSet>, l: Listing, s: Selection, x: Finding)
    requires UniqueChanges(l.changes) && s == SelectionOf(BundleIds(bundle), l)
    ensures x in AllChangeWarnings(s.checks, s.changes) <==>
            exists c :: ChangePicked(bundle, l, c) && ChangeWarning(bundle, l, c, x)
  {
    SelectionMembers(bundle, l);
    AllWarningsMembers(s.checks, s.changes, x);
    SomeWarning(bundle, l, s, x);
  }

  lemma HighlightExact(c: DatabaseChange, x: Finding)
    ensures x in ChangeHighlights(c) <==> ChangeHighlight(c, x)
  {
    var s1 := Note([], c.manualApprovalRequired, ManualApprovalPolicy(c.name));
    NoteMember([], c.manualApprovalRequired, ManualApprovalPolicy(c.name), x);
    var s2 := Note(s1, c.reversibility == Irreversible, IrreversiblePolicy(c.name));
    NoteMember(s1, c.reversibility == Irreversible, IrreversiblePolicy(c.name), x);
    NoteMember(s2, c.compatibility == ForwardIncompatible, ForwardIncompatiblePolicy(c.name), x);
  }

  lemma ChangeFindingPart(bundle: seq<ChangeSet>, l: Listing, s: Selection, x: Finding)
    requires s == SelectionOf(BundleIds(bundle), l)
    ensures x in Flat(ChangeFindings, s.changes) <==> exists c :: ChangePicked(bundle, l, c) && ChangeFinding(c, x)
  {
    SelectionMembers(bundle, l);
    FlatMembers(ChangeFindings, s.changes, x);
  }

  lemma ChangeHighlightPart(bundle: seq<ChangeSet>, l: Listing, s: Selection, x: Finding)
    requires s == SelectionOf(BundleIds(bundle), l)
    ensures x in Flat(ChangeHighlights, s.changes) <==> exists c :: ChangePicked(bundle, l, c) && ChangeHighlight(c, x)
  {
    SelectionMembers(bundle, l);
    FlatMembers(ChangeHighlights, s.changes, x);
    if c :| c in s.changes && x in ChangeHighlights(c) { HighlightExact(c, x); }
    if c :| ChangePicked(bundle, l, c) && ChangeHighlight(c, x) { HighlightExact(c, x); }
  }

  lemma SelectedOrNot(bundle: seq<ChangeSet>, l: Listing, s: Selection)
    requires s == SelectionOf(BundleIds(bundle), l)
    ensures s.changes == [] <==> !HasChanges(bundle, l)
  {
    SelectionMembers(bundle, l);
    if s.changes != [] { assert ChangePicked(bundle, l, s.changes[0]); }
  }

  /** The folds and the fallback behind a snapshot. */
  lemma Parts(bundle: seq<ChangeSet>, l: Listing, env: set<string>) returns (s: Selection, g: Ledger, fallback: nat)
    ensures s == SelectionOf(BundleIds(bundle), l) && g == LedgerOf(s, ContextOf(s, env))
    ensures BuildSpec(bundle, l, env) == ConcludeSpec(s, g, fallback)
    ensures HasChanges(bundle, l) <==> s.changes != []
    ensures fallback == if HasChanges(bundle, l) then 0 else TouchCount(bundle)
  {
    s := SelectionOf(BundleIds(bundle), l);
    g := LedgerOf(s, ContextOf(s, env));
    fallback := if s.changes == [] then TouchCount(bundle) else 0;
    SelectedOrNot(bundle, l, s);
  }

  /** The lists of a snapshot, as sets. */
  lemma ConcludedMembers(s: Selection, g: Ledger, fallback: nat, x: Finding)
    ensures var r := ConcludeSpec(s, g, fallback);
            var relevant := s.changes != [] || fallback > 0;
            && (x in r.posture.blocking <==> relevant && x in g.blockers)
            && (x in r.posture.warning <==> relevant && (x in g.warnings || (fallback > 0 && x == NotFullyClassified)))
            && (x in r.findings <==>
                  relevant && (x in g.findings || (fallback > 0 && x == DetectedHeuristically(fallback))))
            && (x in r.highlights <==> relevant && x in g.highlights)
  {
    NoteMember(g.warnings, fallback > 0, NotFullyClassified, x);
    NoteMember(g.findings, fallback > 0, DetectedHeuristically(fallback), x);
  }

  /** A blocker is listed exactly if some check or some change of the bundle calls for it. */
  lemma BlockingExactly(bundle: seq<ChangeSet>, l: Listing, env: set<string>, x: Finding)
    requires WellFormed(l)
    ensures x in BuildSpec(bundle, l, env).posture.blocking <==>
            && IsRelevant(bundle, l)
            && (|| (exists k :: CheckPicked(bundle, l, k) && CheckBlocker(l, env, k, x))
                || (exists c :: ChangePicked(bundle, l, c) && ChangeBlocker(l, c, x)))
  {
    var s, g, fallback := Parts(bundle, l, env);
    ConcludedMembers(s, g, fallback, x);
    CheckPart(bundle, l, env, s, ContextOf(s, env), x);
    ChangeBlockerPart(bundle, l, s, x);
  }

  /** A warning is listed exactly if some check or some change calls for it, or the bundle is only guessed about. */
  lemma WarningExactly(bundle: seq<ChangeSet>, l: Listing, env: set<string>, x: Finding)
    requires WellFormed(l)
    ensures x in BuildSpec(bundle, l, env).posture.warning <==>
            && IsRelevant(bundle, l)
            && (|| (exists k :: CheckPicked(bundle, l, k) && CheckWarning(l, k, x))
                || (exists c :: ChangePicked(bundle, l, c) && ChangeWarning(bundle, l, c, x))
                || (x == NotFullyClassified && !HasChanges(bundle, l)))
  {
    var s, g, fallback := Parts(bundle, l, env);
    ConcludedMembers(s, g, fallback, x);
    CheckPart(bundle, l, env, s, ContextOf(s, env), x);
    ChangeWarningPart(bundle, l, s, x);
  }

  /** What else is reported: connections, tests and executions behind checks, the target of every change, the guess. */
  lemma FindingsExactly(bundle: seq<ChangeSet>, l: Listing, env: set<string>, x: Finding)
    requires WellFormed(l)
    ensures x in BuildSpec(bundle, l, env).findings <==>
            && IsRelevant(bundle, l)
            && (|| (exists k :: CheckPicked(bundle, l, k) && CheckFinding(l, env, k, x))
                || (exists c :: ChangePicked(bundle, l, c) && ChangeFinding(c, x))
                || (x == DetectedHeuristically(TouchCount(bundle)) && !HasChanges(bundle, l)))
  {
    var s, g, fallback := Parts(bundle, l, env);
    ConcludedMembers(s, g, fallback, x);
    CheckPart(bundle, l, env, s, ContextOf(s, env), x);
    ChangeFindingPart(bundle, l, s, x);
  }

  lemma HighlightsExactly(bundle: seq<ChangeSet>, l: Listing, env: set<string>, x: Finding)
    ensures x in BuildSpec(bundle, l, env).highlights <==>
            IsRelevant(bundle, l) && exists c :: ChangePicked(bundle, l, c) && ChangeHighlight(c, x)
  {
    var s, g, fallback := Parts(bundle, l, env);
    ConcludedMembers(s, g, fallback, x);
    ChangeHighlightPart(bundle, l, s, x);
  }

  /**
   A change that alters or destroys a schema, is forward-incompatible or may lock blocks the deployment
   unless a required check before the deployment is linked to it.
   */
  lemma UngatedChangeBlocks(bundle: seq<ChangeSet>, l: Listing, env: set<string>, c: DatabaseChange)
    requires WellFormed(l) && c in l.changes && exists b | b in bundle :: b.id == c.changeSetId
    requires c.operation == SchemaChange || c.operation == DestructiveChange
             || c.compatibility == ForwardIncompatible || c.lockRisk
    requires forall k | k in l.checks && k.required && k.phase == PreDeploy ::
               !(k.changeId != "" && k.changeId == c.id) && k.changeSetId != c.changeSetId
    ensures var p := BuildSpec(bundle, l, env).posture;
            p.status == Blocked && MissingPreDeployCheck(c.name) in p.blocking
  {
    assert ChangePicked(bundle, l, c) && ChangeBlocker(l, c, MissingPreDeployCheck(c.name));
    BlockingExactly(bundle, l, env, MissingPreDeployCheck(c.name));
    Classification(bundle, l, env);
  }

  lemma NotAboutChecks(l: Listing, env: set<string>, k: Check, x: Finding)
    requires x.MissingPreDeployCheck? || x.MissingPostDeployCheck?
    ensures !CheckBlocker(l, env, k, x) && !CheckWarning(l, k, x)
  {
  }

  /** A missing check before the deployment is reported exactly for the names of the changes that block for it. */
  lemma MissingPreDeployExactly(bundle: seq<ChangeSet>, l: Listing, env: set<string>, name: string)
    requires WellFormed(l)
    ensures MissingPreDeployCheck(name) in BuildSpec(bundle, l, env).posture.blocking <==>
            exists c :: ChangePicked(bundle, l, c) && c.name == name && !Covered(l, c, PreDeploy)
                        && (c.operation == SchemaChange || c.operation == DestructiveChange
                            || c.compatibility == ForwardIncompatible || c.lockRisk)
  {
    BlockingExactly(bundle, l, env, MissingPreDeployCheck(name));
    forall k ensures !CheckBlocker(l, env, k, MissingPreDeployCheck(name)) {
      NotAboutChecks(l, env, k, MissingPreDeployCheck(name));
    }
  }

  /** A missing check after the deployment is reported exactly for the names of the changes that need one. */
  lemma MissingPostDeployExactly(bundle: seq<ChangeSet>, l: Listing, env: set<string>, name: string)
    requires WellFormed(l)
    ensures MissingPostDeployCheck(name) in BuildSpec(bundle, l, env).posture.warning <==>
            exists c :: ChangePicked(bundle, l, c) && c.name == name && !Covered(l, c, PostDeploy)
                        && (c.operation == SchemaChange || c.operation == DataBackfill
                            || c.operation == ExpandContractChange || c.operation == DestructiveChange)
  {
    WarningExactly(bundle, l, env, MissingPostDeployCheck(name));
    forall k ensures !CheckWarning(l, k, MissingPostDeployCheck(name)) {
      NotAboutChecks(l, env, k, MissingPostDeployCheck(name));
    }
  }

  /** The status says which of the two lists hold something, and nothing else. */
  lemma StatusByFindings(bundle: seq<ChangeSet>, l: Listing, env: set<string>)
    requires WellFormed(l)
    ensures var p := BuildSpec(bundle, l, env).posture;
            && (p.status == NoPosture <==> !IsRelevant(bundle, l))
            && (p.status == Blocked <==> p.blocking != [])
            && (p.status == ReviewRequired <==> p.blocking == [] && p.warning != [])
            && (p.status == Advisory <==> IsRelevant(bundle, l) && p.blocking == [] && p.warning == [])
  {
    var s, g, fallback := LedgerRead(bundle, l, env);
    ConcludedStatus(s, g, fallback);
  }

  lemma ConcludedStatus(s: Selection, g: Ledger, fallback: nat)
    requires s.changes != [] ==> fallback == 0
    requires g.pending > 0 || g.manual ==> g.blockers != [] || g.warnings != [] || s.changes == []
    ensures var p := ConcludeSpec(s, g, fallback).posture;
            var relevant := s.changes != [] || fallback > 0;
            && (p.status == NoPosture <==> !relevant)
            && (p.status == Blocked <==> p.blocking != [])
            && (p.status == ReviewRequired <==> p.blocking == [] && p.warning != [])
            && (p.status == Advisory <==> relevant && p.blocking == [] && p.warning == [])
  {
    DedupeEmpty(g.blockers);
    DedupeEmpty(Note(g.warnings, fallback > 0, NotFullyClassified));
  }

  /** How the source of a connection is shown. */
  lemma SourceShown(c: Connection)
    ensures var secret, variable := Text.Trim(c.secretRef), Text.Trim(c.secretRefEnv);
            && (SourceOf(c).EnvSource? <==> Text.Trim(c.sourceType) != "secret_ref_dsn")
            && (SourceOf(c).EnvSource? ==> SourceOf(c).name == c.dsnEnv)
            && (SourceOf(c).SecretSource? ==>
                  && SourceOf(c).reference == (if secret == "" then "unset" else secret)
                  && SourceOf(c).env == (if variable == "" then "unbound" else c.secretRefEnv))
  {
  }
}
