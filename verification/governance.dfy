/**
 The governed record store as a value: what every create, update, test and execute operation
 answers and what it leaves in the store.
 */
module Governance {
  import opened Records
  import opened RuntimeCheck
  import Text

  // ----- the catalog the records refer to -----

  datatype EnvironmentRecord = EnvironmentRecord(organization: string, project: string, production: bool)
  datatype ServiceRecord = ServiceRecord(organization: string, project: string)
  datatype ChangeSetRecord = ChangeSetRecord(scope: Scope, serviceId: string)

  datatype Catalog = Catalog(
    projects: map<string, string>, environments: map<string, EnvironmentRecord>,
    services: map<string, ServiceRecord>, changeSets: map<string, ChangeSetRecord>)

  function Fetch<T>(m: map<string, T>, id: string): Result<T> {
    if id in m then Ok(m[id]) else Err(NotFound)
  }

  function Demand(condition: bool): Result<()> {
    if condition then Ok(()) else Err(Validation)
  }

  /** validateProjectEnvironment. */
  function ValidScope(cat: Catalog, scope: Scope): Result<EnvironmentRecord> {
    var _ :- Demand(!Text.IsBlank(scope.organization) && !Text.IsBlank(scope.project)
                    && !Text.IsBlank(scope.environment));
    var owner :- Fetch(cat.projects, scope.project);
    var _ :- Demand(owner == scope.organization);
    var environment :- Fetch(cat.environments, scope.environment);
    var _ :- Demand(environment.organization == scope.organization && environment.project == scope.project);
    Ok(environment)
  }

  /** validateDatabaseGovernanceScope. */
  function ValidChangeScope(cat: Catalog, scope: Scope, serviceId: string,
                            changeSetId: string): Result<(EnvironmentRecord, ChangeSetRecord)> {
    var environment :- ValidScope(cat, scope);
    var _ :- Demand(!Text.IsBlank(changeSetId));
    var changeSet :- Fetch(cat.changeSets, Text.Trim(changeSetId));
    var _ :- Demand(changeSet.scope == scope
                    && (Text.IsBlank(serviceId) || Text.Trim(serviceId) == changeSet.serviceId));
    var _ :- Fetch(cat.services, changeSet.serviceId);
    Ok((environment, changeSet))
  }

  /** validateDatabaseConnectionScope; the service is optional. */
  function ValidConnectionScope(cat: Catalog, scope: Scope, serviceId: string): Result<string> {
    var _ :- ValidScope(cat, scope);
    if Text.IsBlank(serviceId) then Ok("")
    else
      var service :- Fetch(cat.services, Text.Trim(serviceId));
      var _ :- Demand(service.organization == scope.organization && service.project == scope.project);
      Ok(Text.Trim(serviceId))
  }

  // ----- the store -----

  datatype Store = Store(
    changes: map<string, DatabaseChange>, checks: map<string, Check>, connections: map<string, Connection>,
    tests: map<string, ConnectionTest>, executions: map<string, Execution>)

  const EMPTY_STORE := Store(map[], map[], map[], map[], map[])

  predicate Named(name: string, datastore: string, summary: string) {
    name != "" && datastore != "" && summary != ""
  }

  // ----- database changes -----

  predicate RequiresApproval(environment: EnvironmentRecord, operation: Operation, reversibility: Reversibility,
                             lockRisk: bool) {
    environment.production && (lockRisk || operation == DestructiveChange || reversibility == Irreversible)
  }

  datatype NewChange = NewChange(
    scope: Scope, serviceId: string, changeSetId: string, name: string, datastore: string, summary: string,
    operation: Input<Operation>, intent: Input<Intent>, compatibility: Input<Compatibility>,
    reversibility: Input<Reversibility>, risk: Input<RiskLevel>, lockRisk: bool, manualApproval: bool)

  function CreatedChange(cat: Catalog, req: NewChange, id: string, now: Time): Result<DatabaseChange> {
    var (environment, changeSet) :- ValidChangeScope(cat, req.scope, req.serviceId, req.changeSetId);
    var risk :- OrDefault(req.risk, Medium);
    var operation :- req.operation.Required();
    var intent :- req.intent.Required();
    var compatibility :- req.compatibility.Required();
    var reversibility :- req.reversibility.Required();
    var item := DatabaseChange(
      id, now, req.scope, changeSet.serviceId, Text.Trim(req.changeSetId),
      Text.Trim(req.name), Text.Trim(req.datastore), Text.Trim(req.summary),
      operation, intent, compatibility, reversibility, risk, req.lockRisk,
      req.manualApproval || RequiresApproval(environment, operation, reversibility, req.lockRisk), ChangeDefined);
    var _ :- Demand(Named(item.name, item.datastore, item.summary));
    Ok(item)
  }

  datatype ChangePatch = ChangePatch(
    name: Option<string>, datastore: Option<string>, summary: Option<string>,
    operation: Option<Input<Operation>>, intent: Option<Input<Intent>>, compatibility: Option<Input<Compatibility>>,
    reversibility: Option<Input<Reversibility>>, risk: Option<Input<RiskLevel>>,
    lockRisk: Option<bool>, manualApproval: Option<bool>, status: Option<Input<ChangeStatus>>)

  function Patched<T>(patch: Option<T>, current: T): T {
    if patch.Some? then patch.value else current
  }

  function PatchedText(patch: Option<string>, current: string): string {
    if patch.Some? then Text.Trim(patch.value) else current
  }

  function PatchedField<T>(patch: Option<Input<T>>, current: T): Result<T> {
    if patch.Some? then patch.value.Required() else Ok(current)
  }

  function PatchedOr<T>(patch: Option<Input<T>>, default: T, current: T): Result<T> {
    if patch.Some? then OrDefault(patch.value, default) else Ok(current)
  }

  function UpdatedChange(cat: Catalog, item: DatabaseChange, patch: ChangePatch): Result<DatabaseChange> {
    var environment :- Fetch(cat.environments, item.scope.environment);
    var operation :- PatchedField(patch.operation, item.operation);
    var intent :- PatchedField(patch.intent, item.intent);
    var compatibility :- PatchedField(patch.compatibility, item.compatibility);
    var reversibility :- PatchedField(patch.reversibility, item.reversibility);
    var risk :- PatchedOr(patch.risk, Medium, item.risk);
    var status :- PatchedOr(patch.status, ChangeDefined, item.status);
    var lockRisk := Patched(patch.lockRisk, item.lockRisk);
    var next := item.(
      name := PatchedText(patch.name, item.name), datastore := PatchedText(patch.datastore, item.datastore),
      summary := PatchedText(patch.summary, item.summary), operation := operation, intent := intent,
      compatibility := compatibility, reversibility := reversibility, risk := risk,
      lockRisk := lockRisk, status := status,
      manualApprovalRequired :=
        Patched(patch.manualApproval, item.manualApprovalRequired)
          || RequiresApproval(environment, operation, reversibility, lockRisk));
    var _ :- Demand(Named(next.name, next.datastore, next.summary));
    Ok(next)
  }

  // ----- validation checks -----

  /** The database change a check names, if it names one, has the check's own scope and change set. */
  function LinkedChange(s: Store, changeId: string, scope: Scope, changeSetId: string): Result<()> {
    if changeId == "" then Ok(())
    else
      var change :- Fetch(s.changes, changeId);
      Demand(change.scope == scope && change.changeSetId == changeSetId)
  }

  function LinkedConnection(s: Store, connectionId: string, scope: Scope, serviceId: string): Result<()> {
    if connectionId == "" then Ok(())
    else
      var connection :- Fetch(s.connections, connectionId);
      Demand(connection.scope == scope && (connection.serviceId == "" || connection.serviceId == serviceId))
  }

  datatype NewCheck = NewCheck(
    scope: Scope, serviceId: string, changeSetId: string, changeId: string, connectionId: string,
    name: string, summary: string, phase: Input<Phase>, checkType: Input<CheckType>, mode: Input<Mode>,
    status: Input<CheckStatus>, readOnly: bool, required: bool, specification: Specification)

  function CreatedCheck(cat: Catalog, s: Store, req: NewCheck, id: string, now: Time): Result<Check> {
    var (_, changeSet) :- ValidChangeScope(cat, req.scope, req.serviceId, req.changeSetId);
    var phase :- req.phase.Required();
    var checkType :- req.checkType.Required();
    var mode :- OrDefault(req.mode, ManualAttestation);
    var status :- OrDefault(req.status, CheckDefined);
    var changeSetId, changeId, connectionId :=
      Text.Trim(req.changeSetId), Text.Trim(req.changeId), Text.Trim(req.connectionId);
    var _ :- LinkedChange(s, changeId, req.scope, changeSetId);
    var _ :- LinkedConnection(s, connectionId, req.scope, changeSet.serviceId);
    AcceptedCheck(Check(
      id, req.scope, changeSet.serviceId, changeSetId, changeId, connectionId, Text.Trim(req.name),
      Text.Trim(req.summary),
      phase, checkType, req.readOnly || mode != ManualAttestation, req.required, mode, req.specification, status,
      if Terminal(status) then Some(now) else None))
  }

  /**
   A new check must be described, and one that is executed must have a
   connection, no status yet and a specification that parses.
   */
  function AcceptedCheck(item: Check): Result<Check> {
    var _ :- Demand(item.name != "" && !item.specification.Blank? && item.summary != "");
    var _ :- Demand(item.mode == RuntimeReadOnly ==> item.connectionId != "" && item.status == CheckDefined);
    var _ :- Parse(item.mode, item.checkType, item.specification);
    Ok(item)
  }

  datatype CheckPatch = CheckPatch(
    changeId: Option<string>, connectionId: Option<string>, name: Option<string>, summary: Option<string>,
    phase: Option<Input<Phase>>, checkType: Option<Input<CheckType>>, mode: Option<Input<Mode>>,
    status: Option<Input<CheckStatus>>, readOnly: Option<bool>, required: Option<bool>,
    specification: Option<Specification>, lastRunAt: Option<Time>, setsResultSummary: bool)

  function RelinkedCheck(s: Store, item: Check, patch: CheckPatch): Result<Check> {
    var changeId, connectionId :=
      PatchedText(patch.changeId, item.changeId), PatchedText(patch.connectionId, item.connectionId);
    var _ :- if patch.changeId.Some? then LinkedChange(s, changeId, item.scope, item.changeSetId) else Ok(());
    var _ :- if patch.connectionId.Some? then LinkedConnection(s, connectionId, item.scope, item.serviceId) else Ok(());
    Ok(item.(changeId := changeId, connectionId := connectionId))
  }

  /** The fields a request sets, before the effects of a mode change. */
  function RevisedCheck(item: Check, patch: CheckPatch): Result<Check> {
    var phase :- PatchedField(patch.phase, item.phase);
    var checkType :- PatchedField(patch.checkType, item.checkType);
    var mode :- PatchedOr(patch.mode, ManualAttestation, item.mode);
    var _ :- Demand(mode == RuntimeReadOnly ==> patch.status.None?);
    var status :- PatchedOr(patch.status, CheckDefined, item.status);
    var _ :- Demand(mode == RuntimeReadOnly ==> patch.lastRunAt.None? && !patch.setsResultSummary);
    Ok(item.(
      name := PatchedText(patch.name, item.name), summary := PatchedText(patch.summary, item.summary),
      phase := phase, checkType := checkType, required := Patched(patch.required, item.required), mode := mode,
      readOnly := mode != ManualAttestation || Patched(patch.readOnly, item.readOnly),
      specification := Patched(patch.specification, item.specification), status := status,
      lastRunAt := if patch.lastRunAt.Some? then patch.lastRunAt else item.lastRunAt))
  }

  /** A check whose mode becomes runtime starts over; a manual verdict is stamped with the time. */
  function SettledCheck(item: Check, modeSet: bool, statusSet: bool, now: Time): Result<Check> {
    var runtime := item.mode == RuntimeReadOnly;
    if runtime && (item.connectionId == "" || Parse(item.mode, item.checkType, item.specification).Err?)
    then Err(Validation)
    else if runtime && modeSet then Ok(item.(status := CheckDefined, lastRunAt := None))
    else if statusSet && item.lastRunAt.None? && Terminal(item.status) then Ok(item.(lastRunAt := Some(now)))
    else Ok(item)
  }

  function UpdatedCheck(s: Store, item: Check, patch: CheckPatch, now: Time): Result<Check> {
    var relinked :- RelinkedCheck(s, item, patch);
    var revised :- RevisedCheck(relinked, patch);
    var next :- SettledCheck(revised, patch.mode.Some?, patch.status.Some?, now);
    var _ :- Demand(next.name != "" && !next.specification.Blank? && next.summary != "");
    Ok(next)
  }

  // ----- connection references -----

  datatype SourceValues = SourceValues(sourceType: string, dsnEnv: string, secretRef: string, secretRefEnv: string)

  predicate IsEnvName(s: string) {
    s != "" && ('A' <= s[0] <= 'Z' || s[0] == '_')
      && forall i | 1 <= i < |s| :: 'A' <= s[i] <= 'Z' || '0' <= s[i] <= '9' || s[i] == '_'
  }

  predicate LooksLikeSecretReference(value: string) {
    var s := Text.Trim(value);
    s != "" && (forall c | c in s :: c !in {' ', '\t', '\r', '\n'}) && ('/' in s || ':' in s)
  }

  function NormalizeSource(v: SourceValues): Result<SourceValues> {
    var token := Text.Token(v.sourceType);
    var sourceType := if token == "" then "env_dsn" else token;
    if sourceType == "env_dsn" then
      var name := Text.Trim(v.dsnEnv);
      var _ :- Demand(IsEnvName(name) && Text.IsBlank(v.secretRef) && Text.IsBlank(v.secretRefEnv));
      Ok(SourceValues("env_dsn", name, "", ""))
    else if sourceType == "secret_ref_dsn" then
      var reference, name := Text.Trim(v.secretRef), Text.Trim(v.secretRefEnv);
      var _ :- Demand(LooksLikeSecretReference(reference) && Text.IsBlank(v.dsnEnv) && (name == "" || IsEnvName(name)));
      Ok(SourceValues("secret_ref_dsn", "", reference, name))
    else Err(Validation)
  }

  function NormalizeDriver(value: string): Result<string> {
    if Text.Token(value) in ["", "postgres"] then Ok("postgres") else Err(Validation)
  }

  /** The six fields that health evidence is about. */
  datatype HealthInputs = HealthInputs(driver: string, source: SourceValues, readOnlyCapable: bool)

  function SourceValuesOf(c: Connection): SourceValues {
    SourceValues(c.sourceType, c.dsnEnv, c.secretRef, c.secretRefEnv)
  }

  function InputsOf(c: Connection): HealthInputs {
    HealthInputs(c.driver, SourceValuesOf(c), c.readOnlyCapable)
  }

  function BaseStatus(c: Connection): ConnectionStatus {
    if Text.Trim(c.sourceType) == "secret_ref_dsn" && Text.IsBlank(c.secretRefEnv) then ConnUnresolved else ConnDefined
  }

  function ResetHealth(c: Connection): Connection {
    c.(status := BaseStatus(c), lastTestedAt := None, lastHealthyAt := None, lastErrorClass := "")
  }

  function WithSource(c: Connection, v: SourceValues): Connection {
    c.(sourceType := v.sourceType, dsnEnv := v.dsnEnv, secretRef := v.secretRef, secretRefEnv := v.secretRefEnv)
  }

  datatype NewConnection = NewConnection(
    scope: Scope, serviceId: string, name: string, datastore: string, summary: string,
    driver: string, source: SourceValues, readOnlyCapable: bool)

  function CreatedConnection(cat: Catalog, req: NewConnection, id: string): Result<Connection> {
    var serviceId :- ValidConnectionScope(cat, req.scope, req.serviceId);
    var driver :- NormalizeDriver(req.driver);
    var source :- NormalizeSource(req.source);
    var item := Connection(
      id, req.scope, serviceId, Text.Trim(req.name), Text.Trim(req.datastore), Text.Trim(req.summary), driver,
      source.sourceType, source.dsnEnv, source.secretRef, source.secretRefEnv,
      req.readOnlyCapable || driver == "postgres",
      ConnDefined, None, None, "");
    var _ :- Demand(Named(item.name, item.datastore, item.summary));
    Ok(ResetHealth(item))
  }

  datatype ConnectionPatch = ConnectionPatch(
    name: Option<string>, datastore: Option<string>, summary: Option<string>, driver: Option<string>,
    sourceType: Option<string>, dsnEnv: Option<string>, secretRef: Option<string>, secretRefEnv: Option<string>,
    readOnlyCapable: Option<bool>)

  /** Naming a source type drops the values of the other one unless the request sets them. */
  function PatchedSource(c: Connection, patch: ConnectionPatch): SourceValues {
    var becomes := if patch.sourceType.Some? then Text.Token(patch.sourceType.value) else "";
    SourceValues(
      Patched(patch.sourceType, c.sourceType),
      Patched(patch.dsnEnv, if becomes == "secret_ref_dsn" then "" else c.dsnEnv),
      Patched(patch.secretRef, if becomes == "env_dsn" then "" else c.secretRef),
      Patched(patch.secretRefEnv, if becomes == "env_dsn" then "" else c.secretRefEnv))
  }

  /** The fields a request sets, before the effect on health evidence. */
  function RevisedConnection(item: Connection, patch: ConnectionPatch): Result<Connection> {
    var driver :- if patch.driver.Some? then NormalizeDriver(patch.driver.value) else Ok(item.driver);
    var source :- NormalizeSource(PatchedSource(item, patch));
    var next := WithSource(item, source).(
      name := PatchedText(patch.name, item.name), datastore := PatchedText(patch.datastore, item.datastore),
      summary := PatchedText(patch.summary, item.summary), driver := driver,
      readOnlyCapable := Patched(patch.readOnlyCapable, item.readOnlyCapable));
    var _ :- Demand(Named(next.name, next.datastore, next.summary));
    Ok(next)
  }

  function UpdatedConnection(item: Connection, patch: ConnectionPatch): Result<Connection> {
    var next :- RevisedConnection(item, patch);
    Ok(if InputsOf(next) != InputsOf(item) then ResetHealth(next) else next)
  }

  // ----- testing a connection -----

  function Probe(c: Connection, env: set<string>, db: Database): Outcome {
    match Resolve(c, env)
    case Unresolvable(status, errorClass) => Outcome(RunBlocked, errorClass, status)
    case Resolved =>
      if db.session.Some? then Outcome(RunErrored, db.session.value, ConnError)
      else if 0 in db.faults then Outcome(RunErrored, "query_failed", ConnError)
      else if db.commitFails then Outcome(RunErrored, "commit", ConnError)
      else Outcome(RunPassed, "", ConnReady)
  }

  lemma ProbeIgnoresStatus(c: Connection, status: ConnectionStatus, env: set<string>, db: Database)
    ensures Probe(c.(status := status), env, db) == Probe(c, env, db)
  {
  }

  /** The health fields a probe or a check execution leaves on its connection. */
  function Examined(c: Connection, result: Outcome, at: Time): Connection {
    var passed := result.status == RunPassed;
    c.(status := result.connectionStatus, lastTestedAt := Some(at),
       lastHealthyAt := if passed then Some(at) else c.lastHealthyAt,
       lastErrorClass := if passed then "" else result.errorClass)
  }

  /**
   Store writes happen one after the other and any of them may fail. `writes` is the number
   that succeed; the operation then stops. The audit record, written last, is not part of the store.
   */
  function ProbedStore(s: Store, c: Connection, result: Outcome, testId: string, now: Time, done: Time,
                       writes: nat): Store {
    var test := ConnectionTest(testId, c.scope, c.id, Running, now, None);
    s.(tests := if writes == 0 then s.tests
                else s.tests[testId := if writes < 3 then test
                                       else test.(status := result.status, completedAt := Some(done))],
       connections := if writes < 2 then s.connections
                      else s.connections[c.id := if writes < 4 then c.(status := ConnTesting)
                                                 else Examined(c, result, done)])
  }

  function TestedStore(s: Store, c: Connection, testId: string, env: set<string>, db: Database, now: Time, done: Time,
                       writes: nat): Store {
    ProbedStore(s, c, Probe(c, env, db), testId, now, done, writes)
  }

  // ----- executing a check -----

  /** Whether a check may be executed, and with which connection and specification. */
  function Executable(s: Store, k: Check): Result<(Connection, SpecFields)> {
    var _ :- Demand(k.mode == RuntimeReadOnly && !Text.IsBlank(k.connectionId));
    var connection :- Fetch(s.connections, k.connectionId);
    var spec :- Parse(k.mode, k.checkType, k.specification);
    Ok((connection, spec))
  }

  /** The check status that mirrors the status of an execution. */
  function Image(status: RunStatus): CheckStatus {
    match status case RunPassed => CheckPassed case RunFailed => CheckFailed case _ => CheckBlocked
  }

  lemma ExecutableSpec(s: Store, k: Check)
    requires Executable(s, k).Ok?
    ensures k.mode == RuntimeReadOnly && k.connectionId in s.connections
            && Executable(s, k).value.0 == s.connections[k.connectionId]
    ensures Parse(RuntimeReadOnly, k.checkType, k.specification) == Ok(Executable(s, k).value.1)
    ensures k.checkType == RowCountAssertion ==> Executable(s, k).value.1.expectedCount.Some?
  {
  }

  function ExecutionOutcome(s: Store, k: Check, env: set<string>, db: Database): Outcome
    requires Executable(s, k).Ok?
  {
    ExecutableSpec(s, k);
    var (connection, spec) := Executable(s, k).value;
    RuntimeCheck.Execute(connection, env, k.checkType, spec, db)
  }

  /** The execution record is written twice, then the connection, then the check; `writes` succeed. */
  function RecordedStore(s: Store, k: Check, connection: Connection, result: Outcome, executionId: string, now: Time,
                         done: Time, writes: nat): Store {
    var execution := Execution(executionId, k.scope, k.id, connection.id, Running, now, None);
    s.(executions := if writes == 0 then s.executions
                     else
                       s.executions[executionId :=
                         if writes < 2 then execution
                         else execution.(status := result.status, completedAt := Some(done))],
       connections := if writes < 3 then s.connections
                      else s.connections[connection.id := Examined(connection, result, done)],
       checks := if writes < 4 then s.checks
                 else s.checks[k.id := k.(status := Image(result.status), lastRunAt := Some(done))])
  }

  function ExecutedStore(s: Store, k: Check, executionId: string, env: set<string>, db: Database, now: Time,
                         done: Time, writes: nat): Store
    requires Executable(s, k).Ok?
  {
    RecordedStore(s, k, Executable(s, k).value.0, ExecutionOutcome(s, k, env, db), executionId, now, done, writes)
  }
}
