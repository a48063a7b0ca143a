/**
 The database posture of a release bundle: sorted selections of the listed records, the findings
 about them, and the status, safety and rank that `BuildSpec` concludes from those.
 */
module Posture {
  import opened Records
  import opened Ordering
  import opened RuntimeCheck
  import Text

  /** A change set of the release bundle. */
  datatype ChangeSet = ChangeSet(id: string, touchesSchema: bool)

  /** What the store lists for the scope of the release, in whatever order it lists it. */
  datatype Listing = Listing(
    changes: seq<DatabaseChange>, checks: seq<Check>, connections: seq<Connection>,
    tests: seq<ConnectionTest>, executions: seq<Execution>)

  datatype Status = NoPosture | Advisory | ReviewRequired | Blocked
  datatype Safety = Standard | Guarded | ManualReview | Unsafe
  datatype Rank = RankNone | RankBackward | RankExpand | RankSchema | RankForward

  datatype Source = EnvSource(name: string) | SecretSource(reference: string, env: string)

  /** One constructor per message format; the fields are the arguments of the format. */
  datatype Finding =
    | PreDeployNotPassed(check: string, checkStatus: CheckStatus)
    | LaterCheckFailed(phase: Phase, check: string, checkStatus: CheckStatus)
    | LaterCheckRemains(phase: Phase, check: string, checkStatus: CheckStatus)
    | NoConnection(check: string)
    | UnavailableConnection(check: string)
    | UsesConnection(check: string, connection: string, source: Source)
    | UnsupportedRuntimeSource(connection: string, source: Source)
    | CannotResolve(connection: string, errorClass: string, source: Source)
    | CapabilityIs(connection: string, errorClass: string)
    | UnsupportedSource(connection: string, source: Source)
    | UnresolvedConnection(connection: string)
    | FailedHealth(connection: string)
    | DependsOnUntested(check: string, connection: string)
    | NotHealthTested(connection: string)
    | CurrentlyTesting(connection: string)
    | LastTested(connection: string, runStatus: RunStatus)
    | DependsOnTest(check: string, runStatus: RunStatus, connection: string)
    | NoHealthEvidence(check: string, connection: string)
    | NoHealthEvidenceYet(connection: string)
    | LastExecuted(check: string, runStatus: RunStatus)
    | NoExecutionEvidence(check: string)
    | Targets(change: string, datastore: string, operation: Operation, compatibility: Compatibility,
              reversibility: Reversibility)
    | MayLock(change: string)
    | ManualApprovalPolicy(change: string)
    | ManualApprovalNeeded(change: string)
    | IrreversiblePolicy(change: string)
    | IrreversibleChange(change: string)
    | ManualRollback(change: string)
    | ForwardIncompatiblePolicy(change: string)
    | ForwardIncompatibleChange(change: string)
    | MissingPreDeployCheck(change: string)
    | MissingPostDeployCheck(change: string)
    | DetectedHeuristically(count: nat)
    | NotFullyClassified

  datatype PostureRecord = PostureRecord(
    status: Status, compatibility: Rank, safety: Safety, manualApproval: bool,
    changeCount: nat, requiredChecks: nat, pendingChecks: nat, blocking: seq<Finding>, warning: seq<Finding>)

  datatype Snapshot = Snapshot(
    connections: seq<Connection>, tests: seq<ConnectionTest>, changes: seq<DatabaseChange>,
    checks: seq<Check>, executions: seq<Execution>,
    findings: seq<Finding>, highlights: seq<Finding>, posture: PostureRecord)

  // ----- orders -----

  predicate ChangeBefore(a: DatabaseChange, b: DatabaseChange) {
    Text.KeyLess(a.createdAt, a.id, b.createdAt, b.id)
  }

  /** The place of a phase among the three phase names, sorted as text. */
  function PhaseOrder(p: Phase): int {
    match p case PostDeploy => 0 case PreDeploy => 1 case Rollback => 2
  }

  predicate CheckBefore(a: Check, b: Check) {
    if a.phase != b.phase then PhaseOrder(a.phase) < PhaseOrder(b.phase)
    else if a.name != b.name then Text.Less(a.name, b.name)
    else Text.Less(a.id, b.id)
  }

  predicate ExecutionNewer(a: Execution, b: Execution) {
    Text.KeyLess(b.startedAt, b.id, a.startedAt, a.id)
  }

  predicate TestNewer(a: ConnectionTest, b: ConnectionTest) {
    Text.KeyLess(b.startedAt, b.id, a.startedAt, a.id)
  }

  ghost predicate UniqueChanges(s: seq<DatabaseChange>) { forall i, j | 0 <= i < j < |s| :: s[i].id != s[j].id }
  ghost predicate UniqueChecks(s: seq<Check>) { forall i, j | 0 <= i < j < |s| :: s[i].id != s[j].id }
  ghost predicate UniqueConnections(s: seq<Connection>) { forall i, j | 0 <= i < j < |s| :: s[i].id != s[j].id }
  ghost predicate UniqueTests(s: seq<ConnectionTest>) { forall i, j | 0 <= i < j < |s| :: s[i].id != s[j].id }
  ghost predicate UniqueExecutions(s: seq<Execution>) { forall i, j | 0 <= i < j < |s| :: s[i].id != s[j].id }

  /** Records are keyed by id in the store, so a listing never repeats one. */
  ghost predicate UniqueIds(l: Listing) {
    && UniqueChanges(l.changes) && UniqueChecks(l.checks) && UniqueConnections(l.connections)
    && UniqueTests(l.tests) && UniqueExecutions(l.executions)
  }

  /** All four comparators are orders without ties on records with distinct ids. */
  lemma ComparatorsOrder()
    ensures StrictWeak(ChangeBefore) && StrictWeak(CheckBefore) && StrictWeak(ExecutionNewer) && StrictWeak(TestNewer)
    ensures forall a: DatabaseChange, b: DatabaseChange :: a.id != b.id ==> ChangeBefore(a, b) || ChangeBefore(b, a)
    ensures forall a: Check, b: Check :: a.id != b.id ==> CheckBefore(a, b) || CheckBefore(b, a)
    ensures forall a: Execution, b: Execution :: a.id != b.id ==> ExecutionNewer(a, b) || ExecutionNewer(b, a)
    ensures forall a: ConnectionTest, b: ConnectionTest :: a.id != b.id ==> TestNewer(a, b) || TestNewer(b, a)
  {
    Text.KeyOrder();
    assert StrictWeak(ChangeBefore);
    assert StrictWeak(ExecutionNewer);
    assert StrictWeak(TestNewer);
    CheckOrder();
  }

  lemma CheckOrder()
    ensures StrictWeak(CheckBefore)
    ensures forall a: Check, b: Check :: a.id != b.id ==> CheckBefore(a, b) || CheckBefore(b, a)
  {
    forall a: Check ensures !CheckBefore(a, a) { Text.LessIrreflexive(a.id); }
    forall a, b, c | CheckBefore(a, b) && CheckBefore(b, c) ensures CheckBefore(a, c) {
      if a.phase == b.phase == c.phase {
        if a.name == b.name == c.name {
          Text.LessTransitive(a.id, b.id, c.id);
        } else if a.name != b.name && b.name != c.name {
          Text.LessTransitive(a.name, b.name, c.name);
          Text.LessIrreflexive(a.name);
        }
      }
    }
    forall a: Check, b: Check | a.id != b.id ensures CheckBefore(a, b) || CheckBefore(b, a) {
      Text.LessConnected(a.id, b.id);
      if a.name != b.name { Text.LessConnected(a.name, b.name); }
    }
    forall a, b, c | !CheckBefore(a, b) && !CheckBefore(b, c) ensures !CheckBefore(a, c) {
      CheckNegativelyTransitive(a, b, c);
    }
  }

  lemma CheckNegativelyTransitive(a: Check, b: Check, c: Check)
    requires !CheckBefore(a, b) && !CheckBefore(b, c)
    ensures !CheckBefore(a, c)
  {
    if a.phase == b.phase == c.phase {
      if a.name == b.name == c.name {
        Text.LessNegativelyTransitive(a.id, b.id, c.id);
      } else {
        Text.LessIrreflexive(b.name);
        Text.LessNegativelyTransitive(a.name, b.name, c.name);
        if a.name != b.name {
          Text.LessConnected(a.name, b.name);
        }
      }
    }
  }

  // ----- selection -----

  function BundleIds(bundle: seq<ChangeSet>): set<string> {
    set c | c in bundle :: c.id
  }

  predicate Touches(c: ChangeSet) { c.touchesSchema }

  function TouchCount(bundle: seq<ChangeSet>): nat {
    |Filter(Touches, bundle)|
  }

  function ChangeInBundle(ids: set<string>): DatabaseChange -> bool {
    (c: DatabaseChange) => c.changeSetId in ids
  }

  function CheckInBundle(ids: set<string>, changeIds: set<string>): Check -> bool {
    (k: Check) => k.changeSetId in ids || k.changeId in changeIds
  }

  function IdIn(ids: set<string>): Connection -> bool { (c: Connection) => c.id in ids }
  function TestOf(ids: set<string>): ConnectionTest -> bool { (t: ConnectionTest) => t.connectionId in ids }
  function ExecutionOf(ids: set<string>): Execution -> bool { (e: Execution) => e.checkId in ids }

  function TestKey(t: ConnectionTest): string { t.connectionId }
  function ExecutionKey(e: Execution): string { e.checkId }

  function ChangeIds(changes: seq<DatabaseChange>): set<string> { set c | c in changes :: c.id }
  function CheckIds(checks: seq<Check>): set<string> { set k | k in checks :: k.id }
  function ReferencedIds(checks: seq<Check>): set<string> {
    set k | k in checks && Text.Trim(k.connectionId) != "" :: k.connectionId
  }

  /** The records of the bundle. */
  datatype Selection = Selection(
    changes: seq<DatabaseChange>, checks: seq<Check>, connections: seq<Connection>,
    tests: seq<ConnectionTest>, executions: seq<Execution>)

  function SelectionOf(ids: set<string>, l: Listing): Selection {
    var changes := Sort(ChangeBefore, Filter(ChangeInBundle(ids), l.changes));
    var checks := Sort(CheckBefore, Filter(CheckInBundle(ids, ChangeIds(changes)), l.checks));
    var references := ReferencedIds(checks);
    Selection(changes, checks,
              Filter(IdIn(references), l.connections),
              Sort(TestNewer, Filter(TestOf(references), l.tests)),
              Sort(ExecutionNewer, Filter(ExecutionOf(CheckIds(checks)), l.executions)))
  }

  function IndexById(connections: seq<Connection>): map<string, Connection> {
    if connections == [] then map[]
    else
      var c := connections[|connections| - 1];
      IndexById(connections[..|connections| - 1])[c.id := c]
  }

  /** What the classification of one check looks up. */
  datatype Context = Context(
    connections: map<string, Connection>, tests: map<string, ConnectionTest>,
    executions: map<string, Execution>, env: set<string>)

  function ContextOf(s: Selection, env: set<string>): Context {
    Context(IndexById(s.connections), LatestOf(TestNewer, TestKey, s.tests),
            LatestOf(ExecutionNewer, ExecutionKey, s.executions), env)
  }

  // ----- findings about one check -----

  function SourceOf(c: Connection): Source {
    if Text.Trim(c.sourceType) == "secret_ref_dsn" then
      SecretSource(if Text.Trim(c.secretRef) == "" then "unset" else Text.Trim(c.secretRef),
                   if Text.Trim(c.secretRefEnv) == "" then "unbound" else c.secretRefEnv)
    else EnvSource(c.dsnEnv)
  }

  predicate Pending(k: Check) { k.status == CheckDefined || k.status == CheckAdvisory }

  /** A required pre-deploy check turns doubts about its connection into blockers. */
  predicate Gates(k: Check) { k.required && k.phase == PreDeploy }

  function RequiredBlockers(k: Check): seq<Finding> {
    if !k.required then []
    else if k.phase == PreDeploy then if k.status != CheckPassed then [PreDeployNotPassed(k.name, k.status)] else []
    else if k.status == CheckFailed || k.status == CheckBlocked then [LaterCheckFailed(k.phase, k.name, k.status)]
    else []
  }

  function RequiredWarnings(k: Check): seq<Finding> {
    if k.required && k.phase != PreDeploy && k.status !in {CheckFailed, CheckBlocked, CheckPassed}
    then [LaterCheckRemains(k.phase, k.name, k.status)] else []
  }

  function CapabilityBlockers(c: Connection, env: set<string>): seq<Finding> {
    match Resolve(c, env)
    case Resolved => []
    case Unresolvable(status, errorClass) =>
      if c.status == status then []
      else if status == ConnUnsupported then [UnsupportedRuntimeSource(c.name, SourceOf(c))]
      else if status == ConnUnresolved then [CannotResolve(c.name, errorClass, SourceOf(c))]
      else []
  }

  function CapabilityFindings(c: Connection, env: set<string>): seq<Finding> {
    match Resolve(c, env)
    case Resolved => []
    case Unresolvable(status, errorClass) =>
      if status == ConnUnresolved && errorClass != "" then [CapabilityIs(c.name, errorClass)] else []
  }

  function StatusBlockers(k: Check, c: Connection): seq<Finding> {
    match c.status
    case ConnUnsupported => [UnsupportedSource(c.name, SourceOf(c))]
    case ConnUnresolved => [UnresolvedConnection(c.name)]
    case ConnError => [FailedHealth(c.name)]
    case ConnDefined => if Gates(k) then [DependsOnUntested(k.name, c.name)] else []
    case _ => []
  }

  function StatusWarnings(k: Check, c: Connection): seq<Finding> {
    match c.status
    case ConnDefined => if Gates(k) then [] else [NotHealthTested(c.name)]
    case ConnTesting => [CurrentlyTesting(c.name)]
    case _ => []
  }

  function TestBlockers(k: Check, c: Connection, tests: map<string, ConnectionTest>): seq<Finding> {
    if !Gates(k) then []
    else if c.id !in tests then [NoHealthEvidence(k.name, c.name)]
    else if tests[c.id].status != RunPassed then [DependsOnTest(k.name, tests[c.id].status, c.name)]
    else []
  }

  function TestWarnings(k: Check, c: Connection, tests: map<string, ConnectionTest>): seq<Finding> {
    if Gates(k) then []
    else if c.id !in tests then [NoHealthEvidenceYet(c.name)]
    else if tests[c.id].status != RunPassed then [LastTested(c.name, tests[c.id].status)]
    else []
  }

  function TestFindings(c: Connection, tests: map<string, ConnectionTest>): seq<Finding> {
    if c.id in tests then [LastTested(c.name, tests[c.id].status)] else []
  }

  function RuntimeBlockers(ctx: Context, k: Check): seq<Finding> {
    if k.mode != RuntimeReadOnly then []
    else if k.connectionId == "" then [NoConnection(k.name)]
    else if k.connectionId !in ctx.connections then [UnavailableConnection(k.name)]
    else
      var c := ctx.connections[k.connectionId];
      CapabilityBlockers(c, ctx.env) + StatusBlockers(k, c) + TestBlockers(k, c, ctx.tests)
  }

  function RuntimeWarnings(ctx: Context, k: Check): seq<Finding> {
    if k.mode != RuntimeReadOnly then []
    else
      (if k.connectionId == "" || k.connectionId !in ctx.connections then []
       else
         var c := ctx.connections[k.connectionId];
         StatusWarnings(k, c) + TestWarnings(k, c, ctx.tests)) +
      (if k.id in ctx.executions then [] else [NoExecutionEvidence(k.name)])
  }

  function CheckBlockers(ctx: Context, k: Check): seq<Finding> { RequiredBlockers(k) + RuntimeBlockers(ctx, k) }
  function CheckWarnings(ctx: Context, k: Check): seq<Finding> { RequiredWarnings(k) + RuntimeWarnings(ctx, k) }

  function CheckFindings(ctx: Context, k: Check): seq<Finding> {
    if k.mode != RuntimeReadOnly then []
    else
      (if k.connectionId == "" || k.connectionId !in ctx.connections then []
       else
         var c := ctx.connections[k.connectionId];
         [UsesConnection(k.name, c.name, SourceOf(c))] + CapabilityFindings(c, ctx.env) + TestFindings(c, ctx.tests)) +
      (if k.id in ctx.executions then [LastExecuted(k.name, ctx.executions[k.id].status)] else [])
  }

  function Flat<T>(f: T -> seq<Finding>, s: seq<T>): seq<Finding> {
    if s == [] then [] else Flat(f, s[..|s| - 1]) + f(s[|s| - 1])
  }

  lemma FlatStep<T>(f: T -> seq<Finding>, s: seq<T>, x: T)
    ensures Flat(f, s + [x]) == Flat(f, s) + f(x)
  {
    assert (s + [x])[..|s|] == s;
  }

  function BlockersIn(ctx: Context): Check -> seq<Finding> { (k: Check) => CheckBlockers(ctx, k) }
  function WarningsIn(ctx: Context): Check -> seq<Finding> { (k: Check) => CheckWarnings(ctx, k) }
  function FindingsIn(ctx: Context): Check -> seq<Finding> { (k: Check) => CheckFindings(ctx, k) }

  // ----- findings about one change -----

  predicate NeedsPreDeployCheck(c: DatabaseChange) {
    c.operation == SchemaChange || c.operation == DestructiveChange || c.compatibility == ForwardIncompatible
      || c.lockRisk
  }

  predicate NeedsPostDeployCheck(c: DatabaseChange) {
    c.operation in {SchemaChange, DataBackfill, ExpandContractChange, DestructiveChange}
  }

  /** A check counts for a change if it names the change or belongs to its change set. */
  predicate Linked(k: Check, c: DatabaseChange) {
    (k.changeId != "" && k.changeId == c.id) || k.changeSetId == c.changeSetId
  }

  predicate HasRequired(checks: seq<Check>, c: DatabaseChange, phase: Phase) {
    exists k | k in checks :: Linked(k, c) && k.required && k.phase == phase
  }

  function ChangeBlockers(checks: seq<Check>, c: DatabaseChange): seq<Finding> {
    Note([], NeedsPreDeployCheck(c) && !HasRequired(checks, c, PreDeploy), MissingPreDeployCheck(c.name))
  }

  /** Appends a finding if it applies. */
  function Note(s: seq<Finding>, applies: bool, x: Finding): seq<Finding> {
    if applies then s + [x] else s
  }

  /** `unsafe` says that an earlier change has already made rollback unsafe. */
  function ChangeWarnings(checks: seq<Check>, c: DatabaseChange, unsafe: bool): seq<Finding> {
    var s := Note([], c.lockRisk, MayLock(c.name));
    var s := Note(s, c.manualApprovalRequired, ManualApprovalNeeded(c.name));
    var s := Note(s, c.reversibility == Irreversible, IrreversibleChange(c.name));
    var s := Note(s, c.reversibility == ManualOnly && !unsafe, ManualRollback(c.name));
    var s := Note(s, c.compatibility == ForwardIncompatible, ForwardIncompatibleChange(c.name));
    Note(s, NeedsPostDeployCheck(c) && !HasRequired(checks, c, PostDeploy), MissingPostDeployCheck(c.name))
  }

  function ChangeHighlights(c: DatabaseChange): seq<Finding> {
    var s := Note([], c.manualApprovalRequired, ManualApprovalPolicy(c.name));
    var s := Note(s, c.reversibility == Irreversible, IrreversiblePolicy(c.name));
    Note(s, c.compatibility == ForwardIncompatible, ForwardIncompatiblePolicy(c.name))
  }

  function ChangeFindings(c: DatabaseChange): seq<Finding> {
    [Targets(c.name, c.datastore, c.operation, c.compatibility, c.reversibility)]
  }

  function BlockersAmong(checks: seq<Check>): DatabaseChange -> seq<Finding> {
    (c: DatabaseChange) => ChangeBlockers(checks, c)
  }

  predicate HasIrreversible(changes: seq<DatabaseChange>) {
    exists c | c in changes :: c.reversibility == Irreversible
  }

  function AllChangeWarnings(checks: seq<Check>, changes: seq<DatabaseChange>): seq<Finding> {
    if changes == [] then []
    else
      var init := changes[..|changes| - 1];
      AllChangeWarnings(checks, init) + ChangeWarnings(checks, changes[|changes| - 1], HasIrreversible(init))
  }

  lemma ChangeWarningsStep(checks: seq<Check>, changes: seq<DatabaseChange>, c: DatabaseChange)
    ensures AllChangeWarnings(checks, changes + [c]) ==
            AllChangeWarnings(checks, changes) + ChangeWarnings(checks, c, HasIrreversible(changes))
  {
    assert (changes + [c])[..|changes|] == changes;
  }

  /** Rollback safety is the worst that any change calls for. */
  function SafetyOf(changes: seq<DatabaseChange>): Safety {
    if HasIrreversible(changes) then Unsafe
    else if exists c | c in changes ::
         c.reversibility == ManualOnly || c.compatibility == ForwardIncompatible then ManualReview
    else Standard
  }

  function Level(r: Rank): nat {
    match r case RankNone => 0 case RankBackward => 1 case RankExpand => 2 case RankSchema => 3 case RankForward => 4
  }

  function RankFor(c: Compatibility): Rank {
    match c case BackwardCompatible => RankBackward case ExpandContract => RankExpand
    case ForwardIncompatible => RankForward
  }

  /** databaseCompatibilityRank. */
  function RaiseRank(current: Rank, candidate: Rank): Rank {
    if Level(candidate) > Level(current) then candidate else current
  }

  /** Compatibility is the highest rank that any change calls for. */
  function RankOf(changes: seq<DatabaseChange>): Rank {
    if exists c | c in changes :: c.compatibility == ForwardIncompatible then RankForward
    else if exists c | c in changes :: c.compatibility == ExpandContract then RankExpand
    else if changes != [] then RankBackward
    else RankNone
  }

  predicate ManualApproval(changes: seq<DatabaseChange>) {
    exists c | c in changes :: c.manualApprovalRequired
  }

  // ----- the posture -----

  /** dedupeStrings: the first occurrence of every message, in order. */
  function Dedupe(s: seq<Finding>): (r: seq<Finding>)
    ensures forall x :: x in r <==> x in s
    ensures forall i, j | 0 <= i < j < |r| :: r[i] != r[j]
  {
    if s == [] then []
    else
      var r := Dedupe(s[..|s| - 1]);
      var x := s[|s| - 1];
      if x in r then r else r + [x]
  }

  function IsRequired(k: Check): bool { k.required }
  function IsRequiredPending(k: Check): bool { k.required && Pending(k) }

  /** What the two folds leave behind. */
  datatype Ledger = Ledger(
    required: nat, pending: nat,
    blockers: seq<Finding>, warnings: seq<Finding>, findings: seq<Finding>, highlights: seq<Finding>,
    rank: Rank, safety: Safety, manual: bool)

  function LedgerOf(s: Selection, ctx: Context): Ledger {
    Ledger(|Filter(IsRequired, s.checks)|, |Filter(IsRequiredPending, s.checks)|,
           Flat(BlockersIn(ctx), s.checks) + Flat(BlockersAmong(s.checks), s.changes),
           Flat(WarningsIn(ctx), s.checks) + AllChangeWarnings(s.checks, s.changes),
           Flat(FindingsIn(ctx), s.checks) + Flat(ChangeFindings, s.changes),
           Flat(ChangeHighlights, s.changes),
           RankOf(s.changes), SafetyOf(s.changes), ManualApproval(s.changes))
  }

  const NO_POSTURE := PostureRecord(NoPosture, RankNone, Standard, false, 0, 0, 0, [], [])

  /** `fallback` counts the schema-touching change sets of a bundle without database changes. */
  function ConcludeSpec(s: Selection, g: Ledger, fallback: nat): Snapshot {
    if s.changes == [] && fallback == 0 then
      Snapshot(s.connections, s.tests, s.changes, s.checks, s.executions, [], [], NO_POSTURE)
    else
      var warnings := Note(g.warnings, fallback > 0, NotFullyClassified);
      var findings := Note(g.findings, fallback > 0, DetectedHeuristically(fallback));
      var status := if g.blockers != [] then Blocked
                    else if g.manual || warnings != [] || g.pending > 0 then ReviewRequired
                    else Advisory;
      var safety := if fallback > 0 then ManualReview else g.safety;
      Snapshot(s.connections, s.tests, s.changes, s.checks, s.executions, Dedupe(findings), Dedupe(g.highlights),
               PostureRecord(status,
                             if fallback > 0 then RankSchema else g.rank,
                             if safety == Standard && (g.manual || warnings != []) then Guarded else safety,
                             g.manual,
                             if fallback > 0 then fallback else |s.changes|,
                             g.required, g.pending, Dedupe(g.blockers), Dedupe(warnings)))
  }

  function BuildSpec(bundle: seq<ChangeSet>, l: Listing, env: set<string>): Snapshot {
    var s := SelectionOf(BundleIds(bundle), l);
    ConcludeSpec(s, LedgerOf(s, ContextOf(s, env)), if s.changes == [] then TouchCount(bundle) else 0)
  }
}
