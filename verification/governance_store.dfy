/** The operations on the governed record store, step by step, against the functions of `Governance`. */
module GovernanceStore {
  import opened Records
  import opened RuntimeCheck
  import opened Governance
  import Text
  import Runs = GovernanceRuns

  /** Applies the fields of a request to a change, one by one. */
  method PatchChange(catalog: Catalog, environment: EnvironmentRecord, current: DatabaseChange, patch: ChangePatch)
      returns (r: Result<DatabaseChange>)
    requires Fetch(catalog.environments, current.scope.environment) == Ok(environment)
    ensures r == UpdatedChange(catalog, current, patch)
  {
    var item := current;
    item := item.(name := PatchedText(patch.name, item.name));
    item := item.(datastore := PatchedText(patch.datastore, item.datastore));
    var operation :- PatchedField(patch.operation, item.operation);
    item := item.(operation := operation);
    var intent :- PatchedField(patch.intent, item.intent);
    item := item.(intent := intent);
    var compatibility :- PatchedField(patch.compatibility, item.compatibility);
    item := item.(compatibility := compatibility);
    var reversibility :- PatchedField(patch.reversibility, item.reversibility);
    item := item.(reversibility := reversibility);
    var risk :- PatchedOr(patch.risk, Medium, item.risk);
    item := item.(risk := risk);
    item := item.(lockRisk := Patched(patch.lockRisk, item.lockRisk));
    item := item.(manualApprovalRequired := Patched(patch.manualApproval, item.manualApprovalRequired));
    item := item.(manualApprovalRequired :=
      item.manualApprovalRequired || RequiresApproval(environment, item.operation, item.reversibility, item.lockRisk));
    var status :- PatchedOr(patch.status, ChangeDefined, item.status);
    item := item.(status := status);
    item := item.(summary := PatchedText(patch.summary, item.summary));
    if item.name == "" || item.datastore == "" || item.summary == "" {
      return Err(Validation);
    }
    return Ok(item);
  }

  /** The change and the connection a new check names. */
  method CheckLinks(store: Store, scope: Scope, serviceId: string, changeSetId: string, changeId: string,
                    connectionId: string)
    returns (r: Result<()>)
    ensures var linked := LinkedChange(store, changeId, scope, changeSetId);
            r == if linked.Err? then linked else LinkedConnection(store, connectionId, scope, serviceId)
  {
    if changeId != "" {
      var change :- Fetch(store.changes, changeId);
      if change.scope != scope || change.changeSetId != changeSetId {
        return Err(Validation);
      }
    }
    if connectionId != "" {
      var connection :- Fetch(store.connections, connectionId);
      if connection.scope != scope || (connection.serviceId != "" && connection.serviceId != serviceId) {
        return Err(Validation);
      }
    }
    return Ok(());
  }

  /** Builds the record of a new check. */
  method BuildCheck(catalog: Catalog, store: Store, req: NewCheck, id: string, now: Time) returns (r: Result<Check>)
    ensures r == CreatedCheck(catalog, store, req, id, now)
  {
    var scope :- ValidChangeScope(catalog, req.scope, req.serviceId, req.changeSetId);
    var changeSet := scope.1;
    var phase :- req.phase.Required();
    var checkType :- req.checkType.Required();
    var mode :- OrDefault(req.mode, ManualAttestation);
    var status :- OrDefault(req.status, CheckDefined);
    var changeSetId, changeId, connectionId :=
      Text.Trim(req.changeSetId), Text.Trim(req.changeId), Text.Trim(req.connectionId);
    var _ :- CheckLinks(store, req.scope, changeSet.serviceId, changeSetId, changeId, connectionId);
    var item := Check(
      id, req.scope, changeSet.serviceId, changeSetId, changeId, connectionId, Text.Trim(req.name),
      Text.Trim(req.summary),
      phase, checkType, req.readOnly || mode != ManualAttestation, req.required, mode, req.specification, status, None);
    if item.name == "" || item.specification.Blank? || item.summary == "" {
      return Err(Validation);
    }
    if item.mode == RuntimeReadOnly {
      if item.connectionId == "" || (req.status != Absent && item.status != CheckDefined) {
        return Err(Validation);
      }
      var _ :- Parse(item.mode, item.checkType, item.specification);
      item := item.(status := CheckDefined, lastRunAt := None);
    }
    if item.status == CheckPassed || item.status == CheckFailed || item.status == CheckBlocked {
      item := item.(lastRunAt := Some(now));
    }
    return Ok(item);
  }

  /** The change and the connection a request links a check to. */
  method RelinkCheck(store: Store, current: Check, patch: CheckPatch) returns (r: Result<Check>)
    ensures r == RelinkedCheck(store, current, patch)
  {
    var item := current;
    item := item.(changeId := PatchedText(patch.changeId, item.changeId));
    if patch.changeId.Some? {
      var _ :- LinkedChange(store, item.changeId, item.scope, item.changeSetId);
    }
    item := item.(connectionId := PatchedText(patch.connectionId, item.connectionId));
    if patch.connectionId.Some? {
      var _ :- LinkedConnection(store, item.connectionId, item.scope, item.serviceId);
    }
    return Ok(item);
  }

  /** Applies the other fields of a request to a check, one by one. */
  method ReviseCheck(current: Check, patch: CheckPatch) returns (r: Result<Check>)
    ensures r == RevisedCheck(current, patch)
  {
    var item := current;
    item := item.(name := PatchedText(patch.name, item.name));
    var phase :- PatchedField(patch.phase, item.phase);
    item := item.(phase := phase);
    var checkType :- PatchedField(patch.checkType, item.checkType);
    item := item.(checkType := checkType);
    item := item.(readOnly := Patched(patch.readOnly, item.readOnly));
    item := item.(required := Patched(patch.required, item.required));
    var mode :- PatchedOr(patch.mode, ManualAttestation, item.mode);
    item := item.(mode := mode);
    item := item.(specification := Patched(patch.specification, item.specification));
    if patch.status.Some? && item.mode == RuntimeReadOnly {
      return Err(Validation);
    }
    var status :- PatchedOr(patch.status, CheckDefined, item.status);
    item := item.(status := status);
    item := item.(summary := PatchedText(patch.summary, item.summary));
    if (patch.lastRunAt.Some? || patch.setsResultSummary) && item.mode == RuntimeReadOnly {
      return Err(Validation);
    }
    item := item.(lastRunAt := if patch.lastRunAt.Some? then patch.lastRunAt else item.lastRunAt);
    item := item.(readOnly := item.mode != ManualAttestation || item.readOnly);
    return Ok(item);
  }

  method SettleCheck(current: Check, modeSet: bool, statusSet: bool, now: Time) returns (r: Result<Check>)
    requires statusSet ==> current.mode != RuntimeReadOnly
    ensures r == SettledCheck(current, modeSet, statusSet, now)
  {
    var item := current;
    if item.mode == RuntimeReadOnly {
      if item.connectionId == "" {
        return Err(Validation);
      }
      var _ :- Parse(item.mode, item.checkType, item.specification);
      if modeSet {
        item := item.(status := CheckDefined, lastRunAt := None);
      }
    }
    if statusSet && item.lastRunAt == None && (item.status == CheckPassed || item.status == CheckFailed
                                               || item.status == CheckBlocked) {
      item := item.(lastRunAt := Some(now));
    }
    return Ok(item);
  }

  /** Applies the fields of a request to a connection. */
  method ReviseConnection(current: Connection, patch: ConnectionPatch) returns (r: Result<Connection>)
    ensures r == RevisedConnection(current, patch)
  {
    var item := current;
    item := item.(name := PatchedText(patch.name, item.name));
    item := item.(datastore := PatchedText(patch.datastore, item.datastore));
    if patch.driver.Some? {
      var driver :- NormalizeDriver(patch.driver.value);
      item := item.(driver := driver);
    }
    var values := MergeSource(item, patch);
    var source :- NormalizeSource(values);
    item := WithSource(item, source);
    item := item.(readOnlyCapable := Patched(patch.readOnlyCapable, item.readOnlyCapable));
    item := item.(summary := PatchedText(patch.summary, item.summary));
    if item.name == "" || item.datastore == "" || item.summary == "" {
      return Err(Validation);
    }
    return Ok(item);
  }

  /** Forgets the health of the connection if an input of it has changed. */
  method PatchConnection(current: Connection, patch: ConnectionPatch) returns (r: Result<Connection>)
    ensures r == UpdatedConnection(current, patch)
  {
    var item :- ReviseConnection(current, patch);
    if InputsOf(current) != InputsOf(item) {
      item := ResetHealth(item);
    }
    return Ok(item);
  }

  /** The source values of a request, with the current ones where the request is silent. */
  method MergeSource(item: Connection, patch: ConnectionPatch) returns (values: SourceValues)
    ensures values == PatchedSource(item, patch)
  {
    var sourceType, dsnEnv, secretRef, secretRefEnv := item.sourceType, item.dsnEnv, item.secretRef, item.secretRefEnv;
    if patch.sourceType.Some? {
      sourceType := patch.sourceType.value;
    }
    if patch.dsnEnv.Some? {
      dsnEnv := patch.dsnEnv.value;
    } else if patch.sourceType.Some? && Text.Token(patch.sourceType.value) == "secret_ref_dsn" {
      dsnEnv := "";
    }
    if patch.secretRef.Some? {
      secretRef := patch.secretRef.value;
    } else if patch.sourceType.Some? && Text.Token(patch.sourceType.value) == "env_dsn" {
      secretRef := "";
    }
    if patch.secretRefEnv.Some? {
      secretRefEnv := patch.secretRefEnv.value;
    } else if patch.sourceType.Some? && Text.Token(patch.sourceType.value) == "env_dsn" {
      secretRefEnv := "";
    }
    values := SourceValues(sourceType, dsnEnv, secretRef, secretRefEnv);
  }

  /** The health fields of a connection after a probe or an execution. */
  method Examine(current: Connection, result: Outcome, at: Time) returns (c: Connection)
    ensures c == Examined(current, result, at)
  {
    c := current.(lastTestedAt := Some(at), status := result.connectionStatus, lastErrorClass := result.errorClass);
    if result.status == RunPassed {
      c := c.(lastHealthyAt := Some(at), lastErrorClass := "");
    }
  }

  /** The check after an execution. */
  method Reflect(current: Check, result: Outcome, at: Time) returns (check: Check)
    ensures check == current.(status := Image(result.status), lastRunAt := Some(at))
  {
    check := current.(lastRunAt := Some(at));
    match result.status {
      case RunPassed => check := check.(status := CheckPassed);
      case RunFailed => check := check.(status := CheckFailed);
      case _ => check := check.(status := CheckBlocked);
    }
  }

  class RecordStore {
    const catalog: Catalog
    var changes: map<string, DatabaseChange>
    var checks: map<string, Check>
    var connections: map<string, Connection>
    var tests: map<string, ConnectionTest>
    var executions: map<string, Execution>

    function State(): Store
      reads this
    {
      Store(changes, checks, connections, tests, executions)
    }

    constructor (catalog: Catalog)
      ensures this.catalog == catalog && State() == EMPTY_STORE
    {
      this.catalog := catalog;
      changes, checks, connections, tests, executions := map[], map[], map[], map[], map[];
    }

    method CreateChange(req: NewChange, id: string, now: Time, auditOk: bool) returns (r: Result<DatabaseChange>)
      modifies this
      ensures var made := CreatedChange(catalog, req, id, now);
              && r == Answer(made, auditOk)
              && State() == if made.Ok? then old(State()).(changes := old(changes)[id := made.value]) else old(State())
    {
      var scope :- ValidChangeScope(catalog, req.scope, req.serviceId, req.changeSetId);
      var risk :- OrDefault(req.risk, Medium);
      var operation :- req.operation.Required();
      var intent :- req.intent.Required();
      var compatibility :- req.compatibility.Required();
      var reversibility :- req.reversibility.Required();
      var item := DatabaseChange(
        id, now, req.scope, scope.1.serviceId, Text.Trim(req.changeSetId),
        Text.Trim(req.name), Text.Trim(req.datastore), Text.Trim(req.summary),
        operation, intent, compatibility, reversibility, risk, req.lockRisk, req.manualApproval, ChangeDefined);
      if RequiresApproval(scope.0, operation, reversibility, req.lockRisk) {
        item := item.(manualApprovalRequired := true);
      }
      if item.name == "" || item.datastore == "" || item.summary == "" {
        return Err(Validation);
      }
      changes := changes[id := item];
      return Answer(Ok(item), auditOk);
    }

    method UpdateChange(id: string, patch: ChangePatch, auditOk: bool) returns (r: Result<DatabaseChange>)
      modifies this
      ensures var made := if id in old(changes) then UpdatedChange(catalog, old(changes)[id], patch) else Err(NotFound);
              && r == Answer(made, auditOk)
              && State() == if made.Ok? then old(State()).(changes := old(changes)[made.value.id := made.value])
                            else old(State())
    {
      var item :- Fetch(changes, id);
      var environment :- Fetch(catalog.environments, item.scope.environment);
      item :- PatchChange(catalog, environment, item, patch);
      changes := changes[item.id := item];
      return Answer(Ok(item), auditOk);
    }

    method CreateCheck(req: NewCheck, id: string, now: Time, auditOk: bool) returns (r: Result<Check>)
      modifies this
      ensures var made := CreatedCheck(catalog, old(State()), req, id, now);
              && r == Answer(made, auditOk)
              && State() == if made.Ok? then old(State()).(checks := old(checks)[id := made.value]) else old(State())
    {
      var item :- BuildCheck(catalog, State(), req, id, now);
      checks := checks[id := item];
      return Answer(Ok(item), auditOk);
    }

    method UpdateCheck(id: string, patch: CheckPatch, now: Time, auditOk: bool) returns (r: Result<Check>)
      modifies this
      ensures var made := if id in old(checks) then UpdatedCheck(old(State()), old(checks)[id], patch, now)
                          else Err(NotFound);
              && r == Answer(made, auditOk)
              && State() == if made.Ok? then old(State()).(checks := old(checks)[made.value.id := made.value])
                            else old(State())
    {
      var item :- Fetch(checks, id);
      item :- RelinkCheck(State(), item, patch);
      item :- ReviseCheck(item, patch);
      item :- SettleCheck(item, patch.mode.Some?, patch.status.Some?, now);
      if item.name == "" || item.specification.Blank? || item.summary == "" {
        return Err(Validation);
      }
      checks := checks[item.id := item];
      return Answer(Ok(item), auditOk);
    }

    method CreateConnection(req: NewConnection, id: string, auditOk: bool) returns (r: Result<Connection>)
      modifies this
      ensures var made := CreatedConnection(catalog, req, id);
              && r == Answer(made, auditOk)
              && State() == if made.Ok? then old(State()).(connections := old(connections)[id := made.value])
                            else old(State())
    {
      var serviceId :- ValidConnectionScope(catalog, req.scope, req.serviceId);
      var driver :- NormalizeDriver(req.driver);
      var source :- NormalizeSource(req.source);
      var item := Connection(
        id, req.scope, "", Text.Trim(req.name), Text.Trim(req.datastore), Text.Trim(req.summary), driver,
        source.sourceType, source.dsnEnv, source.secretRef, source.secretRefEnv,
        req.readOnlyCapable || driver == "postgres",
        ConnDefined, None, None, "");
      item := ResetHealth(item);
      item := item.(serviceId := serviceId);
      if item.name == "" || item.datastore == "" || item.summary == "" {
        return Err(Validation);
      }
      connections := connections[id := item];
      return Answer(Ok(item), auditOk);
    }

    method UpdateConnection(id: string, patch: ConnectionPatch, auditOk: bool) returns (r: Result<Connection>)
      modifies this
      ensures var made := if id in old(connections) then UpdatedConnection(old(connections)[id], patch)
                          else Err(NotFound);
              && r == Answer(made, auditOk)
              && State() == if made.Ok?
                            then old(State()).(connections := old(connections)[made.value.id := made.value])
                            else old(State())
    {
      var item :- Fetch(connections, id);
      item :- PatchConnection(item, patch);
      connections := connections[item.id := item];
      return Answer(Ok(item), auditOk);
    }

    /** TestDatabaseConnectionReference; of four store writes and an audit record, the first `writes` succeed. */
    method TestConnection(id: string, testId: string, env: set<string>, db: Database, now: Time, done: Time,
                          writes: nat)
      returns (r: Result<ConnectionTest>)
      modifies this
      ensures id !in old(connections) ==> r == Err(NotFound) && State() == old(State())
      ensures id in old(connections) ==>
                && State() == TestedStore(old(State()), old(connections)[id], testId, env, db, now, done, writes)
                && r == if writes < 5 then Err(Unavailable) else Ok(tests[testId])
    {
      var connection :- Fetch(connections, id);
      ProbeIgnoresStatus(connection, ConnTesting, env, db);
      var result := Probe(connection.(status := ConnTesting), env, db);
      r := RecordProbe(connection, result, testId, now, done, writes);
    }

    /** The store writes around the probe of a connection. */
    method RecordProbe(current: Connection, result: Outcome, testId: string, now: Time, done: Time, writes: nat)
      returns (r: Result<ConnectionTest>)
      modifies this
      ensures State() == ProbedStore(old(State()), current, result, testId, now, done, writes)
      ensures r == if writes < 5 then Err(Unavailable) else Ok(tests[testId])
    {
      var connection := current;
      var test := ConnectionTest(testId, connection.scope, connection.id, Running, now, None);
      if writes == 0 { return Err(Unavailable); }
      tests := tests[testId := test];

      connection := connection.(status := ConnTesting);
      if writes == 1 { return Err(Unavailable); }
      connections := connections[connection.id := connection];

      test := test.(status := result.status, completedAt := Some(done));
      if writes == 2 { return Err(Unavailable); }
      tests := tests[testId := test];
      assert tests == old(tests)[testId := test];

      connection := Examine(connection, result, done);
      assert connection == Examined(current, result, done);
      if writes == 3 { return Err(Unavailable); }
      connections := connections[connection.id := connection];
      assert connections == old(connections)[connection.id := connection];
      if writes == 4 { return Err(Unavailable); }
      return Ok(test);
    }

    method Admit(check: Check) returns (r: Result<(Connection, SpecFields)>)
      ensures r == Executable(State(), check)
    {
      if check.mode != RuntimeReadOnly || Text.Trim(check.connectionId) == "" {
        return Err(Validation);
      }
      var connection :- Fetch(connections, check.connectionId);
      var spec :- Parse(check.mode, check.checkType, check.specification);
      return Ok((connection, spec));
    }

    /** ExecuteDatabaseValidationCheck; of four store writes and an audit record, the first `writes` succeed. */
    method ExecuteCheck(id: string, executionId: string, env: set<string>, db: Database, now: Time, done: Time,
                        writes: nat)
      returns (r: Result<Execution>)
      modifies this
      ensures id !in old(checks) ==> r == Err(NotFound) && State() == old(State())
      ensures id in old(checks) ==>
                var admitted := Executable(old(State()), old(checks)[id]);
                if admitted.Err? then r == Err(admitted.error) && State() == old(State())
                else
                  && State() == ExecutedStore(old(State()), old(checks)[id], executionId, env, db, now, done, writes)
                  && r == if writes < 5 then Err(Unavailable) else Ok(executions[executionId])
    {
      var check :- Fetch(checks, id);
      var admitted :- Admit(check);
      ExecutableSpec(State(), check);
      var result := RuntimeCheck.Execute(admitted.0, env, check.checkType, admitted.1, db);
      r := RecordOutcome(check, admitted.0, result, executionId, now, done, writes);
    }

    /** The store writes around the execution of a check. */
    method RecordOutcome(current: Check, admitted: Connection, result: Outcome, executionId: string, now: Time,
                         done: Time, writes: nat)
      returns (r: Result<Execution>)
      modifies this
      ensures State() == RecordedStore(old(State()), current, admitted, result, executionId, now, done, writes)
      ensures r == if writes < 5 then Err(Unavailable) else Ok(executions[executionId])
    {
      var check, connection := current, admitted;
      var execution := Execution(executionId, check.scope, check.id, connection.id, Running, now, None);
      if writes == 0 { return Err(Unavailable); }
      executions := executions[executionId := execution];

      execution := execution.(status := result.status, completedAt := Some(done));
      if writes == 1 { return Err(Unavailable); }
      executions := executions[executionId := execution];
      assert executions == old(executions)[executionId := execution];

      connection := Examine(connection, result, done);
      if writes == 2 { return Err(Unavailable); }
      connections := connections[connection.id := connection];

      check := Reflect(check, result, done);
      if writes == 3 { return Err(Unavailable); }
      checks := checks[check.id := check];
      if writes == 4 { return Err(Unavailable); }
      return Ok(execution);
    }

    /** Every event of a run is a call of one of the methods. */
    method Perform(e: Runs.Event, now: Time, auditOk: bool)
      modifies this
      ensures State() == Runs.Apply(catalog, old(State()), e, now)
    {
      match e {
        case ChangeCreated(req, id) => var _ := CreateChange(req, id, now, auditOk);
        case ChangeUpdated(id, patch) => var _ := UpdateChange(id, patch, auditOk);
        case CheckCreated(req, id) => var _ := CreateCheck(req, id, now, auditOk);
        case CheckUpdated(id, patch) => var _ := UpdateCheck(id, patch, now, auditOk);
        case ConnectionCreated(req, id) => var _ := CreateConnection(req, id, auditOk);
        case ConnectionUpdated(id, patch) => var _ := UpdateConnection(id, patch, auditOk);
        case ConnectionTested(id, testId, env, db, done, writes) =>
          var _ := TestConnection(id, testId, env, db, now, done, writes);
        case CheckExecuted(id, executionId, env, db, done, writes) =>
          var _ := ExecuteCheck(id, executionId, env, db, now, done, writes);
      }
    }

    /** A run of method calls leaves the store that the laws of runs speak of, with every record in order. */
    method Replay(run: seq<Runs.Step>, auditOk: bool, ghost w: Runs.World) returns (ghost end: Runs.World)
      requires State() == w.store && Runs.Inv(catalog, w) && Runs.LegalRun(catalog, w, run)
      modifies this
      ensures end == Runs.After(catalog, w, run) && State() == end.store && Runs.Inv(catalog, end)
    {
      end := w;
      for i := 0 to |run|
        invariant State() == end.store && Runs.After(catalog, end, run[i..]) == Runs.After(catalog, w, run)
      {
        assert run[i..][0] == run[i] && run[i..][1..] == run[i + 1..];
        Perform(run[i].event, run[i].now, auditOk);
        end := Runs.Advance(catalog, end, run[i].event, run[i].now);
      }
      Runs.RunKeeps(catalog, w, run);
    }
  }
}
