/** buildDatabaseGovernanceSnapshot, step by step, against `Posture.BuildSpec`. */
module PostureBuilder {
  import opened Records
  import opened Ordering
  import opened RuntimeCheck
  import opened Posture
  import Text

  /** The runtime capability of a connection. */
  method AssessCapability(c: Connection, env: set<string>) returns (blockers: seq<Finding>, findings: seq<Finding>)
    ensures blockers == CapabilityBlockers(c, env) && findings == CapabilityFindings(c, env)
  {
    blockers, findings := [], [];
    match Resolve(c, env) {
      case Resolved =>
      case Unresolvable(status, errorClass) =>
        if status == ConnUnsupported {
          if c.status != ConnUnsupported {
            blockers := [UnsupportedRuntimeSource(c.name, SourceOf(c))];
          }
        } else if status == ConnUnresolved {
          if c.status != ConnUnresolved {
            blockers := [CannotResolve(c.name, errorClass, SourceOf(c))];
          }
          if errorClass != "" {
            findings := [CapabilityIs(c.name, errorClass)];
          }
        }
    }
  }

  /** The recorded status of a connection. */
  method AssessStatus(k: Check, c: Connection) returns (blockers: seq<Finding>, warnings: seq<Finding>)
    ensures blockers == StatusBlockers(k, c) && warnings == StatusWarnings(k, c)
  {
    blockers, warnings := [], [];
    match c.status {
      case ConnUnsupported => blockers := [UnsupportedSource(c.name, SourceOf(c))];
      case ConnUnresolved => blockers := [UnresolvedConnection(c.name)];
      case ConnError => blockers := [FailedHealth(c.name)];
      case ConnDefined =>
        if k.required && k.phase == PreDeploy {
          blockers := [DependsOnUntested(k.name, c.name)];
        } else {
          warnings := [NotHealthTested(c.name)];
        }
      case ConnTesting => warnings := [CurrentlyTesting(c.name)];
      case ConnReady =>
    }
  }

  /** The latest persisted test of a connection. */
  method AssessTest(k: Check, c: Connection, tests: map<string, ConnectionTest>)
    returns (blockers: seq<Finding>, warnings: seq<Finding>, findings: seq<Finding>)
    ensures blockers == TestBlockers(k, c, tests) && warnings == TestWarnings(k, c, tests)
            && findings == TestFindings(c, tests)
  {
    blockers, warnings, findings := [], [], [];
    if c.id in tests {
      var latest := tests[c.id];
      findings := [LastTested(c.name, latest.status)];
      if latest.status != RunPassed {
        if k.required && k.phase == PreDeploy {
          blockers := [DependsOnTest(k.name, latest.status, c.name)];
        } else {
          warnings := [LastTested(c.name, latest.status)];
        }
      }
    } else if k.required && k.phase == PreDeploy {
      blockers := [NoHealthEvidence(k.name, c.name)];
    } else {
      warnings := [NoHealthEvidenceYet(c.name)];
    }
  }

  method AssessRequired(k: Check) returns (blockers: seq<Finding>, warnings: seq<Finding>)
    ensures blockers == RequiredBlockers(k) && warnings == RequiredWarnings(k)
  {
    blockers, warnings := [], [];
    if k.required {
      match k.phase {
        case PreDeploy =>
          if k.status != CheckPassed {
            blockers := [PreDeployNotPassed(k.name, k.status)];
          }
        case _ =>
          if k.status == CheckFailed || k.status == CheckBlocked {
            blockers := [LaterCheckFailed(k.phase, k.name, k.status)];
          } else if k.status != CheckPassed {
            warnings := [LaterCheckRemains(k.phase, k.name, k.status)];
          }
      }
    }
  }

  method AssessRuntime(ctx: Context, k: Check)
    returns (blockers: seq<Finding>, warnings: seq<Finding>, findings: seq<Finding>)
    requires k.mode == RuntimeReadOnly
    ensures blockers == RuntimeBlockers(ctx, k) && warnings == RuntimeWarnings(ctx, k)
            && findings == CheckFindings(ctx, k)
  {
    blockers, warnings, findings := [], [], [];
    if k.connectionId == "" {
      blockers := [NoConnection(k.name)];
    } else if k.connectionId !in ctx.connections {
      blockers := [UnavailableConnection(k.name)];
    } else {
      var c := ctx.connections[k.connectionId];
      var b1, f1 := AssessCapability(c, ctx.env);
      var b2, w2 := AssessStatus(k, c);
      var b3, w3, f3 := AssessTest(k, c, ctx.tests);
      blockers, warnings := b1 + b2 + b3, w2 + w3;
      findings := [UsesConnection(k.name, c.name, SourceOf(c))] + f1 + f3;
    }
    if k.id in ctx.executions {
      findings := findings + [LastExecuted(k.name, ctx.executions[k.id].status)];
    } else {
      warnings := warnings + [NoExecutionEvidence(k.name)];
    }
  }

  /** One turn of the loop over the checks. */
  method AssessCheck(ctx: Context, k: Check)
    returns (blockers: seq<Finding>, warnings: seq<Finding>, findings: seq<Finding>)
    ensures blockers == CheckBlockers(ctx, k) && warnings == CheckWarnings(ctx, k) && findings == CheckFindings(ctx, k)
  {
    blockers, warnings := AssessRequired(k);
    findings := [];
    if k.mode == RuntimeReadOnly {
      var b, w, f := AssessRuntime(ctx, k);
      blockers, warnings, findings := blockers + b, warnings + w, f;
    }
  }

  type CheckIndex = map<string, seq<Check>>

  function Lookup(index: CheckIndex, id: string): seq<Check> {
    if id in index then index[id] else []
  }

  ghost predicate IndexesByChange(index: CheckIndex, checks: seq<Check>) {
    forall id, k :: k in Lookup(index, id) <==> k in checks && k.changeId == id && id != ""
  }

  ghost predicate IndexesByChangeSet(index: CheckIndex, checks: seq<Check>) {
    forall id, k :: k in Lookup(index, id) <==> k in checks && k.changeSetId == id
  }

  lemma LookupStep(index: CheckIndex, key: string, x: Check)
    ensures var after := index[key := Lookup(index, key) + [x]];
            forall id, k :: k in Lookup(after, id) <==> k in Lookup(index, id) || (id == key && k == x)
  {
  }

  lemma IndexStep(byChange: CheckIndex, byChangeSet: CheckIndex, seen: seq<Check>, k: Check)
    requires IndexesByChange(byChange, seen) && IndexesByChangeSet(byChangeSet, seen)
    ensures IndexesByChange(if k.changeId != "" then byChange[k.changeId := Lookup(byChange, k.changeId) + [k]]
                            else byChange, seen + [k])
    ensures IndexesByChangeSet(byChangeSet[k.changeSetId := Lookup(byChangeSet, k.changeSetId) + [k]], seen + [k])
  {
    assert forall x :: x in seen + [k] <==> x in seen || x == k;
    LookupStep(byChange, k.changeId, k);
    LookupStep(byChangeSet, k.changeSetId, k);
  }

  /** checksByDatabaseChangeID and checksByChangeSetID. */
  method IndexChecks(checks: seq<Check>) returns (byChange: CheckIndex, byChangeSet: CheckIndex)
    ensures IndexesByChange(byChange, checks) && IndexesByChangeSet(byChangeSet, checks)
  {
    byChange, byChangeSet := map[], map[];
    for i := 0 to |checks|
      invariant IndexesByChange(byChange, checks[..i]) && IndexesByChangeSet(byChangeSet, checks[..i])
    {
      var k := checks[i];
      assert checks[..i + 1] == checks[..i] + [k];
      IndexStep(byChange, byChangeSet, checks[..i], k);
      if k.changeId != "" {
        byChange := byChange[k.changeId := Lookup(byChange, k.changeId) + [k]];
      }
      byChangeSet := byChangeSet[k.changeSetId := Lookup(byChangeSet, k.changeSetId) + [k]];
    }
    assert checks[..|checks|] == checks;
  }

  /** What the loop over the checks has gathered after `seen`. */
  ghost predicate Gathered(ctx: Context, seen: seq<Check>, required: nat, pending: nat,
                           blockers: seq<Finding>, warnings: seq<Finding>, findings: seq<Finding>) {
    && required == |Filter(IsRequired, seen)| && pending == |Filter(IsRequiredPending, seen)|
    && blockers == Flat(BlockersIn(ctx), seen)
    && warnings == Flat(WarningsIn(ctx), seen)
    && findings == Flat(FindingsIn(ctx), seen)
  }

  lemma GatherStep(ctx: Context, seen: seq<Check>, k: Check, required: nat, pending: nat,
                   blockers: seq<Finding>, warnings: seq<Finding>, findings: seq<Finding>)
    requires Gathered(ctx, seen, required, pending, blockers, warnings, findings)
    ensures Gathered(ctx, seen + [k],
                     required + (if k.required then 1 else 0), pending + (if k.required && Pending(k) then 1 else 0),
                     blockers + CheckBlockers(ctx, k), warnings + CheckWarnings(ctx, k),
                     findings + CheckFindings(ctx, k))
  {
    FilterStep(IsRequired, seen, k);
    FilterStep(IsRequiredPending, seen, k);
    FlatStep(BlockersIn(ctx), seen, k);
    FlatStep(WarningsIn(ctx), seen, k);
    FlatStep(FindingsIn(ctx), seen, k);
  }

  lemma GatherNext(ctx: Context, checks: seq<Check>, i: nat, required: nat, pending: nat,
                   blockers: seq<Finding>, warnings: seq<Finding>, findings: seq<Finding>)
    requires i < |checks| && Gathered(ctx, checks[..i], required, pending, blockers, warnings, findings)
    ensures var k := checks[i];
            Gathered(ctx, checks[..i + 1],
                     required + (if k.required then 1 else 0), pending + (if k.required && Pending(k) then 1 else 0),
                     blockers + CheckBlockers(ctx, k), warnings + CheckWarnings(ctx, k),
                     findings + CheckFindings(ctx, k))
  {
    assert checks[..i + 1] == checks[..i] + [checks[i]];
    GatherStep(ctx, checks[..i], checks[i], required, pending, blockers, warnings, findings);
  }

  /** The loop over the checks. */
  method FoldChecks(ctx: Context, checks: seq<Check>)
    returns (required: nat, pending: nat, blockers: seq<Finding>, warnings: seq<Finding>, findings: seq<Finding>)
    ensures Gathered(ctx, checks, required, pending, blockers, warnings, findings)
  {
    required, pending, blockers, warnings, findings := 0, 0, [], [], [];
    for i := 0 to |checks|
      invariant Gathered(ctx, checks[..i], required, pending, blockers, warnings, findings)
    {
      var k := checks[i];
      GatherNext(ctx, checks, i, required, pending, blockers, warnings, findings);
      if k.required {
        required := required + 1;
        if Pending(k) {
          pending := pending + 1;
        }
      }
      var b, w, f := AssessCheck(ctx, k);
      blockers, warnings, findings := blockers + b, warnings + w, findings + f;
    }
    assert checks[..|checks|] == checks;
  }

  /** databaseChangeHasRequiredCheck over the checks linked to a change. */
  method IsCovered(checks: seq<Check>, c: DatabaseChange, phase: Phase, byChange: CheckIndex, byChangeSet: CheckIndex)
      returns (covered: bool)
    requires IndexesByChange(byChange, checks) && IndexesByChangeSet(byChangeSet, checks)
    ensures covered == HasRequired(checks, c, phase)
  {
    var linked := Lookup(byChange, c.id) + Lookup(byChangeSet, c.changeSetId);
    assert forall k :: k in linked <==> k in checks && Linked(k, c);
    for i := 0 to |linked|
      invariant forall j | 0 <= j < i :: !(linked[j].required && linked[j].phase == phase)
    {
      if linked[i].required && linked[i].phase == phase {
        assert linked[i] in linked;
        return true;
      }
    }
    return false;
  }

  function RaiseSafety(current: Safety, c: DatabaseChange): Safety {
    if current == Unsafe || c.reversibility == Irreversible then Unsafe
    else if current == ManualReview || c.reversibility == ManualOnly
         || c.compatibility == ForwardIncompatible then ManualReview
    else current
  }

  /** One turn of the loop over the changes. */
  method AssessChange(c: DatabaseChange, current: Safety, missingPre: bool, missingPost: bool, ghost checks: seq<Check>)
    returns (blockers: seq<Finding>, warnings: seq<Finding>, highlights: seq<Finding>, safety: Safety)
    requires missingPre == (NeedsPreDeployCheck(c) && !HasRequired(checks, c, PreDeploy))
    requires missingPost == (NeedsPostDeployCheck(c) && !HasRequired(checks, c, PostDeploy))
    ensures blockers == ChangeBlockers(checks, c) && warnings == ChangeWarnings(checks, c, current == Unsafe)
    ensures highlights == ChangeHighlights(c) && safety == RaiseSafety(current, c)
  {
    blockers, warnings, highlights, safety := [], [], [], current;
    if c.lockRisk {
      warnings := warnings + [MayLock(c.name)];
    }
    if c.manualApprovalRequired {
      highlights := highlights + [ManualApprovalPolicy(c.name)];
      warnings := warnings + [ManualApprovalNeeded(c.name)];
    }
    if c.reversibility == Irreversible {
      safety := Unsafe;
      highlights := highlights + [IrreversiblePolicy(c.name)];
      warnings := warnings + [IrreversibleChange(c.name)];
    }
    if c.reversibility == ManualOnly && safety != Unsafe {
      safety := ManualReview;
      warnings := warnings + [ManualRollback(c.name)];
    }
    if c.compatibility == ForwardIncompatible {
      if safety != Unsafe {
        safety := ManualReview;
      }
      warnings := warnings + [ForwardIncompatibleChange(c.name)];
      highlights := highlights + [ForwardIncompatiblePolicy(c.name)];
    }
    if missingPre {
      blockers := blockers + [MissingPreDeployCheck(c.name)];
    }
    if missingPost {
      warnings := warnings + [MissingPostDeployCheck(c.name)];
    }
  }

  /** What the loop over the changes gathers. */
  datatype Tally = Tally(blockers: seq<Finding>, warnings: seq<Finding>, findings: seq<Finding>,
                         highlights: seq<Finding>,
                         rank: Rank, safety: Safety, manual: bool)

  function Turned(t: Tally, checks: seq<Check>, c: DatabaseChange): Tally {
    Tally(t.blockers + ChangeBlockers(checks, c), t.warnings + ChangeWarnings(checks, c, t.safety == Unsafe),
          t.findings + ChangeFindings(c), t.highlights + ChangeHighlights(c),
          RaiseRank(t.rank, RankFor(c.compatibility)), RaiseSafety(t.safety, c), t.manual || c.manualApprovalRequired)
  }

  function TallyOf(checks: seq<Check>, changes: seq<DatabaseChange>): Tally {
    if changes == [] then Tally([], [], [], [], RankNone, Standard, false)
    else Turned(TallyOf(checks, changes[..|changes| - 1]), checks, changes[|changes| - 1])
  }

  lemma TallyStep(checks: seq<Check>, seen: seq<DatabaseChange>, c: DatabaseChange)
    ensures TallyOf(checks, seen + [c]) == Turned(TallyOf(checks, seen), checks, c)
  {
    assert (seen + [c])[..|seen|] == seen;
  }

  /** The tally in terms of all changes at once. */
  predicate Assessed(checks: seq<Check>, changes: seq<DatabaseChange>, t: Tally) {
    && t.blockers == Flat(BlockersAmong(checks), changes)
    && t.warnings == AllChangeWarnings(checks, changes)
    && t.findings == Flat(ChangeFindings, changes) && t.highlights == Flat(ChangeHighlights, changes)
    && t.rank == RankOf(changes) && t.safety == SafetyOf(changes) && t.manual == ManualApproval(changes)
  }

  lemma AssessStep(checks: seq<Check>, seen: seq<DatabaseChange>, c: DatabaseChange, t: Tally)
    requires Assessed(checks, seen, t)
    ensures Assessed(checks, seen + [c], Turned(t, checks, c))
  {
    FlatStep(BlockersAmong(checks), seen, c);
    FlatStep(ChangeFindings, seen, c);
    FlatStep(ChangeHighlights, seen, c);
    ChangeWarningsStep(checks, seen, c);
    RankStep(seen, c);
    SafetyStep(seen, c);
  }

  lemma AssessSnoc(checks: seq<Check>, seen: seq<DatabaseChange>, c: DatabaseChange, changes: seq<DatabaseChange>)
    requires Assessed(checks, seen, TallyOf(checks, seen)) && changes == seen + [c]
    ensures Assessed(checks, changes, TallyOf(checks, changes))
  {
    AssessStep(checks, seen, c, TallyOf(checks, seen));
    TallyStep(checks, seen, c);
  }

  lemma AssessNone(checks: seq<Check>)
    ensures Assessed(checks, [], TallyOf(checks, []))
  {
  }

  lemma {:induction false} TallyExact(checks: seq<Check>, changes: seq<DatabaseChange>)
    ensures Assessed(checks, changes, TallyOf(checks, changes))
  {
    if changes == [] {
      AssessNone(checks);
    } else {
      var init, c := changes[..|changes| - 1], changes[|changes| - 1];
      assert changes == init + [c];
      TallyExact(checks, init);
      AssessSnoc(checks, init, c, changes);
    }
  }

  /** The loop over the changes. */
  method FoldChanges(checks: seq<Check>, changes: seq<DatabaseChange>, byChange: CheckIndex, byChangeSet: CheckIndex)
    returns (blockers: seq<Finding>, warnings: seq<Finding>, findings: seq<Finding>, highlights: seq<Finding>,
             rank: Rank, safety: Safety, manual: bool)
    requires IndexesByChange(byChange, checks) && IndexesByChangeSet(byChangeSet, checks)
    ensures Assessed(checks, changes, Tally(blockers, warnings, findings, highlights, rank, safety, manual))
  {
    blockers, warnings, findings, highlights := [], [], [], [];
    rank, safety, manual := RankNone, Standard, false;
    for i := 0 to |changes|
      invariant Tally(blockers, warnings, findings, highlights, rank, safety, manual) == TallyOf(checks, changes[..i])
    {
      var c := changes[i];
      assert changes[..i + 1] == changes[..i] + [c];
      TallyStep(checks, changes[..i], c);
      var b, w, f, h;
      b, w, f, h, rank, safety, manual := AssessTurn(c, rank, safety, manual, checks, byChange, byChangeSet);
      blockers, warnings, findings, highlights := blockers + b, warnings + w, findings + f, highlights + h;
    }
    assert changes[..|changes|] == changes;
    TallyExact(checks, changes);
  }

  method AssessTurn(c: DatabaseChange, currentRank: Rank, currentSafety: Safety, currentManual: bool,
                    checks: seq<Check>, byChange: CheckIndex, byChangeSet: CheckIndex)
    returns (blockers: seq<Finding>, warnings: seq<Finding>, findings: seq<Finding>, highlights: seq<Finding>,
             rank: Rank, safety: Safety, manual: bool)
    requires IndexesByChange(byChange, checks) && IndexesByChangeSet(byChangeSet, checks)
    ensures blockers == ChangeBlockers(checks, c) && warnings == ChangeWarnings(checks, c, currentSafety == Unsafe)
    ensures findings == ChangeFindings(c) && highlights == ChangeHighlights(c)
    ensures rank == RaiseRank(currentRank, RankFor(c.compatibility)) && safety == RaiseSafety(currentSafety, c)
    ensures manual == (currentManual || c.manualApprovalRequired)
  {
    findings := [Targets(c.name, c.datastore, c.operation, c.compatibility, c.reversibility)];
    rank := RaiseRank(currentRank, RankFor(c.compatibility));
    manual := currentManual;
    if c.manualApprovalRequired {
      manual := true;
    }
    blockers, warnings, highlights, safety := AssessLinked(c, currentSafety, checks, byChange, byChangeSet);
  }

  /** The part of a turn that looks at the linked checks. */
  method AssessLinked(c: DatabaseChange, current: Safety, checks: seq<Check>, byChange: CheckIndex,
                      byChangeSet: CheckIndex)
    returns (blockers: seq<Finding>, warnings: seq<Finding>, highlights: seq<Finding>, safety: Safety)
    requires IndexesByChange(byChange, checks) && IndexesByChangeSet(byChangeSet, checks)
    ensures blockers == ChangeBlockers(checks, c) && warnings == ChangeWarnings(checks, c, current == Unsafe)
    ensures highlights == ChangeHighlights(c) && safety == RaiseSafety(current, c)
  {
    var pre := IsCovered(checks, c, PreDeploy, byChange, byChangeSet);
    var post := IsCovered(checks, c, PostDeploy, byChange, byChangeSet);
    blockers, warnings, highlights, safety :=
      AssessChange(c, current, NeedsPreDeployCheck(c) && !pre, NeedsPostDeployCheck(c) && !post, checks);
  }

  lemma RankStep(changes: seq<DatabaseChange>, c: DatabaseChange)
    ensures RankOf(changes + [c]) == RaiseRank(RankOf(changes), RankFor(c.compatibility))
    ensures ManualApproval(changes + [c]) <==> ManualApproval(changes) || c.manualApprovalRequired
  {
    assert forall x :: x in changes + [c] <==> x in changes || x == c;
    assert c in changes + [c];
  }

  lemma SafetyStep(changes: seq<DatabaseChange>, c: DatabaseChange)
    ensures HasIrreversible(changes + [c]) <==> HasIrreversible(changes) || c.reversibility == Irreversible
    ensures SafetyOf(changes + [c]) == RaiseSafety(SafetyOf(changes), c)
  {
    assert forall x :: x in changes + [c] <==> x in changes || x == c;
    assert c in changes + [c];
  }

  method Build(bundle: seq<ChangeSet>, l: Listing, env: set<string>) returns (snapshot: Snapshot)
    requires UniqueIds(l)
    ensures snapshot == BuildSpec(bundle, l, env)
  {
    var ids: set<string>, fallbackCount: nat := {}, 0;
    for i := 0 to |bundle|
      invariant ids == BundleIds(bundle[..i]) && fallbackCount == TouchCount(bundle[..i])
    {
      assert bundle[..i + 1] == bundle[..i] + [bundle[i]];
      FilterStep(Touches, bundle[..i], bundle[i]);
      ids := ids + {bundle[i].id};
      if bundle[i].touchesSchema {
        fallbackCount := fallbackCount + 1;
      }
    }
    assert bundle[..|bundle|] == bundle;

    var selection, ctx := SelectRecords(ids, l, env);
    snapshot := Conclude(selection, ctx, fallbackCount);
  }

  method SelectChanges(ids: set<string>, items: seq<DatabaseChange>) returns (changes: seq<DatabaseChange>)
    requires UniqueChanges(items)
    ensures changes == Sort(ChangeBefore, Filter(ChangeInBundle(ids), items))
  {
    ComparatorsOrder();
    var kept := Select(items, ChangeInBundle(ids));
    FilterDistinguishes(ChangeBefore, ChangeInBundle(ids), items);
    changes := SortedCopy(kept, ChangeBefore);
  }

  method SelectChecks(ids: set<string>, changeIds: set<string>, items: seq<Check>) returns (checks: seq<Check>)
    requires UniqueChecks(items)
    ensures checks == Sort(CheckBefore, Filter(CheckInBundle(ids, changeIds), items))
  {
    ComparatorsOrder();
    var kept := Select(items, CheckInBundle(ids, changeIds));
    FilterDistinguishes(CheckBefore, CheckInBundle(ids, changeIds), items);
    checks := SortedCopy(kept, CheckBefore);
  }

  /** The tests of the referenced connections; indexing them leaves the slice sorted. */
  method SelectTests(references: set<string>, items: seq<ConnectionTest>)
    returns (tests: seq<ConnectionTest>, latest: map<string, ConnectionTest>)
    requires UniqueTests(items)
    ensures tests == Sort(TestNewer, Filter(TestOf(references), items)) && latest == LatestOf(TestNewer, TestKey, tests)
  {
    ComparatorsOrder();
    var kept := Select(items, TestOf(references));
    FilterDistinguishes(TestNewer, TestOf(references), items);
    var slice := new ConnectionTest[|kept|](i requires 0 <= i < |kept| => kept[i]);
    assert slice[..] == kept;
    latest := LatestByKey(slice, TestNewer, TestKey);
    tests := slice[..];
  }

  method SelectExecutions(checkIds: set<string>, items: seq<Execution>)
    returns (executions: seq<Execution>, latest: map<string, Execution>)
    requires UniqueExecutions(items)
    ensures executions == Sort(ExecutionNewer, Filter(ExecutionOf(checkIds), items))
    ensures latest == LatestOf(ExecutionNewer, ExecutionKey, executions)
  {
    ComparatorsOrder();
    var kept := Select(items, ExecutionOf(checkIds));
    FilterDistinguishes(ExecutionNewer, ExecutionOf(checkIds), items);
    var slice := new Execution[|kept|](i requires 0 <= i < |kept| => kept[i]);
    assert slice[..] == kept;
    latest := LatestByKey(slice, ExecutionNewer, ExecutionKey);
    executions := slice[..];
  }

  /** The selection loops, the sorts and the indexes. */
  method SelectRecords(ids: set<string>, l: Listing, env: set<string>) returns (s: Selection, ctx: Context)
    requires UniqueIds(l)
    ensures s == SelectionOf(ids, l) && ctx == ContextOf(s, env)
  {
    var changes := SelectChanges(ids, l.changes);
    var checks := SelectChecks(ids, ChangeIds(changes), l.checks);
    var references := ReferencedIds(checks);
    var connections := Select(l.connections, IdIn(references));
    var byId := IndexConnections(connections);
    var tests, latestTests := SelectTests(references, l.tests);
    var executions, latestExecutions := SelectExecutions(CheckIds(checks), l.executions);
    s := Selection(changes, checks, connections, tests, executions);
    ctx := Context(byId, latestTests, latestExecutions, env);
  }

  method IndexConnections(connections: seq<Connection>) returns (byId: map<string, Connection>)
    ensures byId == IndexById(connections)
  {
    byId := map[];
    for i := 0 to |connections|
      invariant byId == IndexById(connections[..i])
    {
      assert connections[..i + 1][..i] == connections[..i];
      byId := byId[connections[i].id := connections[i]];
    }
    assert connections[..|connections|] == connections;
  }

  /** The two folds. */
  method Fold(s: Selection, ctx: Context) returns (ledger: Ledger)
    ensures ledger == LedgerOf(s, ctx)
  {
    var byChange, byChangeSet := IndexChecks(s.checks);
    var required, pending, b1, w1, f1 := FoldChecks(ctx, s.checks);
    var b2, w2, f2, highlights, rank, safety, manual := FoldChanges(s.checks, s.changes, byChange, byChangeSet);
    ledger := Ledger(required, pending, b1 + b2, w1 + w2, f1 + f2, highlights, rank, safety, manual);
  }

  /** The fallback and the status. */
  method Conclude(s: Selection, ctx: Context, touched: nat) returns (snapshot: Snapshot)
    ensures snapshot == ConcludeSpec(s, LedgerOf(s, ctx), if s.changes == [] then touched else 0)
  {
    var ledger := Fold(s, ctx);
    EmptyFold(s, ledger);
    var warnings, findings, rank, safety := ledger.warnings, ledger.findings, ledger.rank, ledger.safety;
    var changeCount := |s.changes|;
    if changeCount == 0 && touched > 0 {
      changeCount := touched;
      findings := findings + [DetectedHeuristically(touched)];
      if rank == RankNone {
        rank := RankSchema;
      }
      if safety == Standard {
        safety := ManualReview;
      }
      warnings := warnings + [NotFullyClassified];
    }
    if changeCount == 0 {
      return Snapshot(s.connections, s.tests, s.changes, s.checks, s.executions, [], [], NO_POSTURE);
    }
    var status := Advisory;
    if |ledger.blockers| > 0 {
      status := Blocked;
    } else if ledger.manual || |warnings| > 0 || ledger.pending > 0 {
      status := ReviewRequired;
    }
    if safety == Standard && (ledger.manual || |warnings| > 0) {
      safety := Guarded;
    }
    snapshot := Snapshot(s.connections, s.tests, s.changes, s.checks, s.executions, Dedupe(findings),
                         Dedupe(ledger.highlights),
                         PostureRecord(status, rank, safety, ledger.manual, changeCount, ledger.required,
                                       ledger.pending,
                                       Dedupe(ledger.blockers), Dedupe(warnings)));
  }

  lemma EmptyFold(s: Selection, g: Ledger)
    requires g.rank == RankOf(s.changes) && g.safety == SafetyOf(s.changes)
    ensures s.changes == [] ==> g.rank == RankNone && g.safety == Standard
    ensures s.changes != [] ==> g.rank != RankNone && g.safety != Guarded
  {
  }
}
