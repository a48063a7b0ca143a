/** Runs of the governed record store, and what holds in every state they reach. */
module GovernanceRuns {
  import opened Records
  import opened RuntimeCheck
  import opened Governance
  import Text

  // ----- runs -----

  datatype Event =
    | ChangeCreated(newChange: NewChange, id: string)
    | ChangeUpdated(id: string, changePatch: ChangePatch)
    | CheckCreated(newCheck: NewCheck, id: string)
    | CheckUpdated(id: string, checkPatch: CheckPatch)
    | ConnectionCreated(newConnection: NewConnection, id: string)
    | ConnectionUpdated(id: string, connectionPatch: ConnectionPatch)
    | ConnectionTested(id: string, testId: string, env: set<string>, db: Database, done: Time, writes: nat)
    | CheckExecuted(id: string, executionId: string, env: set<string>, db: Database, done: Time, writes: nat)

  /** What each operation of `RecordStore` leaves in the store. */
  function Apply(cat: Catalog, s: Store, e: Event, now: Time): Store {
    match e
    case ChangeCreated(req, id) =>
      var r := CreatedChange(cat, req, id, now);
      if r.Ok? then s.(changes := s.changes[id := r.value]) else s
    case ChangeUpdated(id, patch) =>
      var r := if id in s.changes then UpdatedChange(cat, s.changes[id], patch) else Err(NotFound);
      if r.Ok? then s.(changes := s.changes[r.value.id := r.value]) else s
    case CheckCreated(req, id) =>
      var r := CreatedCheck(cat, s, req, id, now);
      if r.Ok? then s.(checks := s.checks[id := r.value]) else s
    case CheckUpdated(id, patch) =>
      var r := if id in s.checks then UpdatedCheck(s, s.checks[id], patch, now) else Err(NotFound);
      if r.Ok? then s.(checks := s.checks[r.value.id := r.value]) else s
    case ConnectionCreated(req, id) =>
      var r := CreatedConnection(cat, req, id);
      if r.Ok? then s.(connections := s.connections[id := r.value]) else s
    case ConnectionUpdated(id, patch) =>
      var r := if id in s.connections then UpdatedConnection(s.connections[id], patch) else Err(NotFound);
      if r.Ok? then s.(connections := s.connections[r.value.id := r.value]) else s
    case ConnectionTested(id, testId, env, db, done, writes) =>
      if id in s.connections then TestedStore(s, s.connections[id], testId, env, db, now, done, writes) else s
    case CheckExecuted(id, executionId, env, db, done, writes) =>
      if id in s.checks && Executable(s, s.checks[id]).Ok?
      then ExecutedStore(s, s.checks[id], executionId, env, db, now, done, writes) else s
  }

  /**
   The store together with the parts of its past that the invariants speak of: when the mode of a
   check was last set, which execution last reached it, which inputs a connection was last
   examined with, and what an execution was about.
   */
  datatype World = World(
    store: Store, clock: Time,
    modeSetAt: map<string, Time>, lastRun: map<string, Option<string>>, examined: map<string, HealthInputs>,
    ranOn: map<string, Subject>)

  /** What an execution of a check is about. */
  datatype Subject = Subject(checkType: CheckType, specification: Specification, connectionId: string,
                             inputs: Option<HealthInputs>)

  /** The inputs say which database the connection leads to. */
  function SubjectOf(s: Store, k: Check): Subject {
    Subject(k.checkType, k.specification, k.connectionId,
            if k.connectionId in s.connections then Some(InputsOf(s.connections[k.connectionId])) else None)
  }

  const START := World(EMPTY_STORE, 0, map[], map[], map[], map[])

  predicate StoreId(id: string) { id != "" && Text.Trimmed(id) }

  /** Ids are fresh and the clock is strictly increasing. */
  predicate Legal(w: World, e: Event, now: Time) {
    && now > w.clock
    && match e
       case ChangeCreated(_, id) => StoreId(id) && id !in w.store.changes
       case CheckCreated(_, id) => StoreId(id) && id !in w.store.checks
       case ConnectionCreated(_, id) => StoreId(id) && id !in w.store.connections
       case ConnectionTested(_, id, _, _, done, _) => StoreId(id) && id !in w.store.tests && done >= now
       case CheckExecuted(_, id, _, _, done, _) => StoreId(id) && id !in w.store.executions && done >= now
       case _ => true
  }

  /** The event sets the mode of this check. */
  predicate SetsMode(cat: Catalog, s: Store, e: Event, now: Time, id: string) {
    || (e.CheckCreated? && e.id == id && CreatedCheck(cat, s, e.newCheck, id, now).Ok?)
    || (e.CheckUpdated? && e.id == id && id in s.checks && e.checkPatch.mode.Some?
        && UpdatedCheck(s, s.checks[id], e.checkPatch, now).Ok?)
  }

  function Advance(cat: Catalog, w: World, e: Event, now: Time): World {
    var s := w.store;
    var runs := e.CheckExecuted? && e.id in s.checks && Executable(s, s.checks[e.id]).Ok?;
    World(
      Apply(cat, s, e, now),
      if e.ConnectionTested? || e.CheckExecuted? then e.done else now,
      if (e.CheckCreated? || e.CheckUpdated?) && SetsMode(cat, s, e, now, e.id) then w.modeSetAt[e.id := now]
      else w.modeSetAt,
      if (e.CheckCreated? || e.CheckUpdated?) && SetsMode(cat, s, e, now, e.id) then w.lastRun[e.id := None]
      else if runs && e.writes >= 4 then w.lastRun[e.id := Some(e.executionId)]
      else w.lastRun,
      if e.ConnectionTested? && e.id in s.connections && e.writes >= 4
      then w.examined[e.id := InputsOf(s.connections[e.id])]
      else if runs && e.writes >= 3 then
        var c := Executable(s, s.checks[e.id]).value.0;
        w.examined[c.id := InputsOf(c)]
      else w.examined,
      if runs && e.writes > 0 then w.ranOn[e.executionId := SubjectOf(s, s.checks[e.id])] else w.ranOn)
  }

  datatype Step = Step(event: Event, now: Time)

  predicate LegalRun(cat: Catalog, w: World, run: seq<Step>)
    decreases |run|
  {
    run == [] || (Legal(w, run[0].event, run[0].now)
                  && LegalRun(cat, Advance(cat, w, run[0].event, run[0].now), run[1..]))
  }

  function After(cat: Catalog, w: World, run: seq<Step>): World
    decreases |run|
  {
    if run == [] then w else After(cat, Advance(cat, w, run[0].event, run[0].now), run[1..])
  }

  /** No execution stops between its store writes. */
  predicate Complete(e: Event) {
    e.CheckExecuted? ==> e.writes == 0 || e.writes >= 4
  }

  predicate CompleteRun(run: seq<Step>) {
    forall i | 0 <= i < |run| :: Complete(run[i].event)
  }

  // ----- what holds of every record -----

  /** The scope of a record is the scope of its change set. */
  predicate Scoped(cat: Catalog, scope: Scope, serviceId: string, changeSetId: string) {
    && scope.environment in cat.environments
    && changeSetId in cat.changeSets && cat.changeSets[changeSetId] == ChangeSetRecord(scope, serviceId)
  }

  /** A production change with a lock, a destructive operation or no way back always needs approval. */
  predicate ChangeOk(cat: Catalog, id: string, c: DatabaseChange) {
    && c.id == id && StoreId(id)
    && Scoped(cat, c.scope, c.serviceId, c.changeSetId)
    && (RequiresApproval(cat.environments[c.scope.environment], c.operation, c.reversibility, c.lockRisk) ==>
        c.manualApprovalRequired)
  }

  /** A check is in the scope of what it links to. */
  predicate CheckLinked(cat: Catalog, s: Store, k: Check) {
    && Scoped(cat, k.scope, k.serviceId, k.changeSetId)
    && (k.changeId != "" ==>
        k.changeId in s.changes && s.changes[k.changeId].scope == k.scope
        && s.changes[k.changeId].changeSetId == k.changeSetId)
    && (k.connectionId != "" ==> k.connectionId in s.connections && s.connections[k.connectionId].scope == k.scope)
  }

  /** A verdict has a run time, and a runtime check can be executed. */
  predicate CheckSound(k: Check) {
    && (Terminal(k.status) ==> k.lastRunAt.Some?)
    && (k.mode != ManualAttestation ==> k.readOnly)
    && (k.mode == RuntimeReadOnly ==> k.connectionId != "" && Parse(k.mode, k.checkType, k.specification).Ok?)
  }

  predicate CheckOk(cat: Catalog, s: Store, id: string, k: Check) {
    k.id == id && StoreId(id) && CheckLinked(cat, s, k) && CheckSound(k)
  }

  /** The shape normalizeDatabaseConnectionSourceValues gives to stored values. */
  predicate SourceShape(v: SourceValues) {
    || (v.sourceType == "env_dsn" && IsEnvName(v.dsnEnv) && v.secretRef == "" && v.secretRefEnv == "")
    || (v.sourceType == "secret_ref_dsn" && v.dsnEnv == "" && Text.Trimmed(v.secretRef)
        && LooksLikeSecretReference(v.secretRef)
        && (v.secretRefEnv == "" || IsEnvName(v.secretRefEnv)))
  }

  /** Health evidence is about the current inputs, and health is never younger than the last examination. */
  predicate ConnectionOk(examined: map<string, HealthInputs>, clock: Time, id: string, c: Connection) {
    && c.id == id && StoreId(id)
    && SourceShape(SourceValuesOf(c))
    && c.status != ConnUnsupported
    && (c.lastTestedAt.Some? ==> id in examined && examined[id] == InputsOf(c) && c.lastTestedAt.value <= clock)
    && (c.lastHealthyAt.Some? ==> c.lastTestedAt.Some? && c.lastHealthyAt.value <= c.lastTestedAt.value)
  }

  predicate ExecutionOk(s: Store, clock: Time, id: string, e: Execution) {
    && e.id == id && e.startedAt <= clock
    && e.checkId in s.checks && s.checks[e.checkId].scope == e.scope
  }

  ghost predicate ChangesOk(cat: Catalog, changes: map<string, DatabaseChange>) {
    forall id | id in changes :: ChangeOk(cat, id, changes[id])
  }

  ghost predicate ChecksOk(cat: Catalog, s: Store) {
    forall id | id in s.checks :: CheckOk(cat, s, id, s.checks[id])
  }

  ghost predicate ConnectionsOk(examined: map<string, HealthInputs>, clock: Time,
                                connections: map<string, Connection>) {
    forall id | id in connections :: ConnectionOk(examined, clock, id, connections[id])
  }

  ghost predicate TestsOk(tests: map<string, ConnectionTest>) {
    forall id | id in tests :: tests[id].id == id
  }

  ghost predicate ExecutionsOk(s: Store, clock: Time) {
    forall id | id in s.executions :: ExecutionOk(s, clock, id, s.executions[id])
  }

  ghost predicate Inv(cat: Catalog, w: World) {
    && ChangesOk(cat, w.store.changes)
    && ChecksOk(cat, w.store)
    && ConnectionsOk(w.examined, w.clock, w.store.connections)
    && TestsOk(w.store.tests)
    && ExecutionsOk(w.store, w.clock)
  }

  // ----- the source values of a connection -----

  lemma EnvNameTrimmed(s: string)
    requires IsEnvName(s)
    ensures Text.Trim(s) == s
  {
    assert !Text.IsSpace(s[0]) && !Text.IsSpace(s[|s| - 1]);
  }

  /** Normalising gives values of the stored shape, and stored values are left alone. */
  lemma NormalizeFixpoint(v: SourceValues)
    ensures NormalizeSource(v).Ok? ==> SourceShape(NormalizeSource(v).value)
    ensures SourceShape(v) ==> NormalizeSource(v) == Ok(v)
  {
    if SourceShape(v) {
      StoredTokens();
      assert Text.Trim("") == "";
      if v.sourceType == "env_dsn" {
        EnvNameTrimmed(v.dsnEnv);
      } else if v.secretRefEnv != "" {
        EnvNameTrimmed(v.secretRefEnv);
      }
    }
  }

  lemma StoredTokens()
    ensures Text.Token("env_dsn") == "env_dsn" && Text.Token("secret_ref_dsn") == "secret_ref_dsn"
  {
    assert Text.Lower("env_dsn") == "env_dsn";
    assert Text.Lower("secret_ref_dsn") == "secret_ref_dsn";
  }

  predicate NamesNoInput(patch: ConnectionPatch) {
    && patch.driver.None? && patch.sourceType.None? && patch.dsnEnv.None?
    && patch.secretRef.None? && patch.secretRefEnv.None? && patch.readOnlyCapable.None?
  }

  /**
   An update keeps all health evidence if it leaves the six inputs as they are, in particular if it
   names none of them; otherwise it forgets all of it.
   */
  lemma UpdateKeepsOrForgetsHealth(c: Connection, patch: ConnectionPatch)
    requires SourceShape(SourceValuesOf(c)) && UpdatedConnection(c, patch).Ok?
    ensures var next := UpdatedConnection(c, patch).value;
            if InputsOf(next) == InputsOf(c)
            then next.status == c.status && next.lastTestedAt == c.lastTestedAt
                 && next.lastHealthyAt == c.lastHealthyAt && next.lastErrorClass == c.lastErrorClass
            else next.lastTestedAt == None && next.lastHealthyAt == None && next.lastErrorClass == ""
                 && next.status == BaseStatus(next)
    ensures NamesNoInput(patch) ==> InputsOf(UpdatedConnection(c, patch).value) == InputsOf(c)
    ensures SourceShape(SourceValuesOf(UpdatedConnection(c, patch).value))
  {
    NormalizeFixpoint(SourceValuesOf(c));
    NormalizeFixpoint(PatchedSource(c, patch));
  }

  // ----- one record at a time -----

  /** What went into a new change. */
  lemma NewChangeParts(cat: Catalog, req: NewChange, id: string, now: Time)
      returns (c: DatabaseChange, environment: EnvironmentRecord, changeSet: ChangeSetRecord)
    requires CreatedChange(cat, req, id, now).Ok?
    ensures c == CreatedChange(cat, req, id, now).value && c.id == id && c.changeSetId == Text.Trim(req.changeSetId)
    ensures ValidChangeScope(cat, c.scope, req.serviceId, req.changeSetId) == Ok((environment, changeSet))
            && c.serviceId == changeSet.serviceId
    ensures RequiresApproval(environment, c.operation, c.reversibility, c.lockRisk) ==> c.manualApprovalRequired
  {
    c := CreatedChange(cat, req, id, now).value;
    var parts := ValidChangeScope(cat, req.scope, req.serviceId, req.changeSetId).value;
    environment, changeSet := parts.0, parts.1;
  }

  lemma ScopeFound(cat: Catalog, scope: Scope, serviceId: string, changeSetId: string)
    requires ValidChangeScope(cat, scope, serviceId, changeSetId).Ok?
    ensures var (environment, changeSet) := ValidChangeScope(cat, scope, serviceId, changeSetId).value;
            && changeSet.scope == scope && Scoped(cat, scope, changeSet.serviceId, Text.Trim(changeSetId))
            && cat.environments[scope.environment] == environment
  {
  }

  lemma NewChangeOk(cat: Catalog, req: NewChange, id: string, now: Time)
    requires StoreId(id) && CreatedChange(cat, req, id, now).Ok?
    ensures ChangeOk(cat, id, CreatedChange(cat, req, id, now).value)
  {
    var c, _, _ := NewChangeParts(cat, req, id, now);
    ScopeFound(cat, c.scope, req.serviceId, req.changeSetId);
  }

  lemma PatchedChangeOk(cat: Catalog, id: string, c: DatabaseChange, patch: ChangePatch)
    requires ChangeOk(cat, id, c) && UpdatedChange(cat, c, patch).Ok?
    ensures var next := UpdatedChange(cat, c, patch).value;
            ChangeOk(cat, id, next) && next.scope == c.scope && next.changeSetId == c.changeSetId
  {
  }

  /** What went into a new check. */
  lemma NewCheckParts(cat: Catalog, s: Store, req: NewCheck, id: string, now: Time)
      returns (k: Check, changeSet: ChangeSetRecord)
    requires CreatedCheck(cat, s, req, id, now).Ok?
    ensures k == CreatedCheck(cat, s, req, id, now).value && k.id == id && AcceptedCheck(k) == Ok(k)
    ensures ValidChangeScope(cat, k.scope, req.serviceId, req.changeSetId).Ok?
            && k.changeSetId == Text.Trim(req.changeSetId)
    ensures changeSet == ValidChangeScope(cat, k.scope, req.serviceId, req.changeSetId).value.1
            && k.serviceId == changeSet.serviceId
    ensures LinkedChange(s, k.changeId, k.scope, k.changeSetId).Ok?
            && LinkedConnection(s, k.connectionId, k.scope, k.serviceId).Ok?
    ensures (Terminal(k.status) ==> k.lastRunAt == Some(now)) && (!Terminal(k.status) ==> k.lastRunAt == None)
    ensures k.mode != ManualAttestation ==> k.readOnly
  {
    k := CreatedCheck(cat, s, req, id, now).value;
    changeSet := ValidChangeScope(cat, req.scope, req.serviceId, req.changeSetId).value.1;
  }

  lemma LinksFound(cat: Catalog, s: Store, k: Check)
    requires Scoped(cat, k.scope, k.serviceId, k.changeSetId)
    requires LinkedChange(s, k.changeId, k.scope, k.changeSetId).Ok?
             && LinkedConnection(s, k.connectionId, k.scope, k.serviceId).Ok?
    ensures CheckLinked(cat, s, k)
  {
  }

  lemma AcceptedIsSound(k: Check)
    requires AcceptedCheck(k).Ok? && (Terminal(k.status) ==> k.lastRunAt.Some?)
             && (k.mode != ManualAttestation ==> k.readOnly)
    ensures CheckSound(k) && (k.mode == RuntimeReadOnly ==> k.status == CheckDefined)
  {
  }

  lemma NewCheckOk(cat: Catalog, s: Store, req: NewCheck, id: string, now: Time)
    requires StoreId(id) && CreatedCheck(cat, s, req, id, now).Ok?
    ensures CheckOk(cat, s, id, CreatedCheck(cat, s, req, id, now).value)
  {
    var k, _ := NewCheckParts(cat, s, req, id, now);
    ScopeFound(cat, k.scope, req.serviceId, req.changeSetId);
    LinksFound(cat, s, k);
    AcceptedIsSound(k);
  }

  lemma RelinkedOk(cat: Catalog, s: Store, k: Check, patch: CheckPatch)
    requires CheckLinked(cat, s, k) && RelinkedCheck(s, k, patch).Ok?
    ensures var next := RelinkedCheck(s, k, patch).value;
            CheckLinked(cat, s, next) && next == k.(changeId := next.changeId, connectionId := next.connectionId)
  {
  }

  /** The links of two checks are the same. */
  predicate SameLinks(k: Check, next: Check) {
    && next.id == k.id && next.scope == k.scope && next.serviceId == k.serviceId && next.changeSetId == k.changeSetId
    && next.changeId == k.changeId && next.connectionId == k.connectionId
  }

  lemma RevisedFrame(k: Check, patch: CheckPatch)
    requires RevisedCheck(k, patch).Ok? && (k.mode != ManualAttestation ==> k.readOnly)
    ensures var next := RevisedCheck(k, patch).value;
            && SameLinks(k, next) && (next.mode != ManualAttestation ==> next.readOnly)
            && (patch.mode.None? ==> next.mode == k.mode)
            && (patch.status.None? ==> next.status == k.status)
            && (k.lastRunAt.Some? ==> next.lastRunAt.Some?)
  {
  }

  lemma SettledSound(k: Check, modeSet: bool, statusSet: bool, now: Time)
    requires SettledCheck(k, modeSet, statusSet, now).Ok? && (k.mode != ManualAttestation ==> k.readOnly)
    requires !statusSet && Terminal(k.status) ==> k.lastRunAt.Some?
    ensures var next := SettledCheck(k, modeSet, statusSet, now).value;
            SameLinks(k, next) && CheckSound(next)
  {
  }

  lemma PatchedCheckOk(cat: Catalog, s: Store, id: string, k: Check, patch: CheckPatch, now: Time)
    requires CheckOk(cat, s, id, k) && UpdatedCheck(s, k, patch, now).Ok?
    ensures CheckOk(cat, s, id, UpdatedCheck(s, k, patch, now).value)
            && UpdatedCheck(s, k, patch, now).value.scope == k.scope
  {
    RelinkedOk(cat, s, k, patch);
    var relinked := RelinkedCheck(s, k, patch).value;
    RevisedFrame(relinked, patch);
    SettledSound(RevisedCheck(relinked, patch).value, patch.mode.Some?, patch.status.Some?, now);
  }

  /** An execution changes nothing about a check but its status and its run time. */
  lemma ReflectedOk(cat: Catalog, s: Store, id: string, k: Check, status: CheckStatus, at: Time)
    requires CheckOk(cat, s, id, k)
    ensures CheckOk(cat, s, id, k.(status := status, lastRunAt := Some(at)))
  {
  }

  lemma NewConnectionOk(examined: map<string, HealthInputs>, clock: Time, cat: Catalog, req: NewConnection, id: string)
    requires StoreId(id) && CreatedConnection(cat, req, id).Ok?
    ensures ConnectionOk(examined, clock, id, CreatedConnection(cat, req, id).value)
  {
    NormalizeFixpoint(req.source);
  }

  /** A request sets the six inputs and the descriptive fields, and nothing else. */
  lemma RevisedConnectionFrame(c: Connection, patch: ConnectionPatch)
    requires RevisedConnection(c, patch).Ok?
    ensures var next := RevisedConnection(c, patch).value;
            && next.id == c.id && next.scope == c.scope && next.status == c.status
            && next.lastTestedAt == c.lastTestedAt && next.lastHealthyAt == c.lastHealthyAt
            && next.lastErrorClass == c.lastErrorClass
  {
  }

  lemma UpdateFrame(c: Connection, patch: ConnectionPatch)
    requires UpdatedConnection(c, patch).Ok?
    ensures var next := UpdatedConnection(c, patch).value;
            next.id == c.id && next.scope == c.scope && (next.status == c.status || next.status == BaseStatus(next))
  {
    RevisedConnectionFrame(c, patch);
  }

  /** Health evidence that is kept or forgotten as a whole stays about the current inputs. */
  lemma HealthKept(examined: map<string, HealthInputs>, clock: Time, id: string, c: Connection, next: Connection)
    requires ConnectionOk(examined, clock, id, c) && next.id == c.id && SourceShape(SourceValuesOf(next))
             && next.status != ConnUnsupported
    requires if InputsOf(next) == InputsOf(c)
             then next.lastTestedAt == c.lastTestedAt && next.lastHealthyAt == c.lastHealthyAt
             else next.lastTestedAt == None && next.lastHealthyAt == None
    ensures ConnectionOk(examined, clock, id, next)
  {
  }

  lemma PatchedConnectionOk(examined: map<string, HealthInputs>, clock: Time, id: string, c: Connection,
                            patch: ConnectionPatch)
    requires ConnectionOk(examined, clock, id, c) && UpdatedConnection(c, patch).Ok?
    ensures var next := UpdatedConnection(c, patch).value;
            ConnectionOk(examined, clock, id, next) && next.scope == c.scope
  {
    UpdateKeepsOrForgetsHealth(c, patch);
    UpdateFrame(c, patch);
    HealthKept(examined, clock, id, c, UpdatedConnection(c, patch).value);
  }

  /** A stored connection never resolves to "unsupported". */
  lemma StoredSourceSupported(c: Connection, env: set<string>)
    requires SourceShape(SourceValuesOf(c))
    ensures Resolve(c, env).Unresolvable? ==> Resolve(c, env).status == ConnUnresolved
  {
    assert Text.Trimmed("env_dsn") && Text.Trimmed("secret_ref_dsn");
  }

  // ----- one step -----

  /** Records are never deleted, and the scopes that other records rely on never change. */
  ghost predicate Extends(s: Store, t: Store) {
    && (forall id | id in s.changes ::
        id in t.changes && t.changes[id].scope == s.changes[id].scope
        && t.changes[id].changeSetId == s.changes[id].changeSetId)
    && (forall id | id in s.checks :: id in t.checks && t.checks[id].scope == s.checks[id].scope)
    && (forall id | id in s.connections :: id in t.connections && t.connections[id].scope == s.connections[id].scope)
  }

  lemma ChecksSurvive(cat: Catalog, s: Store, t: Store)
    requires Extends(s, t) && ChecksOk(cat, s) && t.checks == s.checks
    ensures ChecksOk(cat, t)
  {
    forall id | id in t.checks ensures CheckOk(cat, t, id, t.checks[id]) {
      assert CheckOk(cat, s, id, s.checks[id]);
    }
  }

  lemma ExecutionsSurvive(s: Store, t: Store, before: Time, after: Time)
    requires Extends(s, t) && ExecutionsOk(s, before) && t.executions == s.executions && before <= after
    ensures ExecutionsOk(t, after)
  {
    forall id | id in t.executions ensures ExecutionOk(t, after, id, t.executions[id]) {
      assert ExecutionOk(s, before, id, s.executions[id]);
    }
  }

  lemma ConnectionsSurvive(examined: map<string, HealthInputs>, connections: map<string, Connection>, before: Time,
                           after: Time)
    requires ConnectionsOk(examined, before, connections) && before <= after
    ensures ConnectionsOk(examined, after, connections)
  {
    forall id | id in connections ensures ConnectionOk(examined, after, id, connections[id]) {
      assert ConnectionOk(examined, before, id, connections[id]);
    }
  }

  /** Nothing happened but the passing of time. */
  predicate Idle(w: World, v: World) {
    v.store == w.store && v.examined == w.examined && v.clock >= w.clock
  }

  lemma IdleKeeps(cat: Catalog, w: World, v: World)
    requires Inv(cat, w) && Idle(w, v)
    ensures Inv(cat, v) && Extends(w.store, v.store)
  {
    ConnectionsSurvive(w.examined, w.store.connections, w.clock, v.clock);
    ExecutionsSurvive(w.store, v.store, w.clock, v.clock);
  }

  lemma PutChange(cat: Catalog, w: World, v: World, id: string, c: DatabaseChange)
    requires Inv(cat, w) && Idle(w, v.(store := w.store)) && ChangeOk(cat, id, c)
    requires id in w.store.changes ==>
             c.scope == w.store.changes[id].scope && c.changeSetId == w.store.changes[id].changeSetId
    requires v.store == w.store.(changes := w.store.changes[id := c])
    ensures Inv(cat, v) && Extends(w.store, v.store)
  {
    assert Extends(w.store, v.store);
    ChecksSurvive(cat, w.store, v.store);
    ConnectionsSurvive(w.examined, w.store.connections, w.clock, v.clock);
    ExecutionsSurvive(w.store, v.store, w.clock, v.clock);
    assert ChangesOk(cat, v.store.changes);
  }

  lemma PutCheck(cat: Catalog, w: World, v: World, id: string, k: Check)
    requires Inv(cat, w) && Idle(w, v.(store := w.store)) && CheckOk(cat, w.store, id, k)
    requires id in w.store.checks ==> k.scope == w.store.checks[id].scope
    requires v.store == w.store.(checks := w.store.checks[id := k])
    ensures Inv(cat, v) && Extends(w.store, v.store)
  {
    assert Extends(w.store, v.store);
    ConnectionsSurvive(w.examined, w.store.connections, w.clock, v.clock);
    ExecutionsSurvive(w.store, v.store, w.clock, v.clock);
    ChecksPut(cat, w.store, v.store, id, k);
  }

  lemma ChecksPut(cat: Catalog, s: Store, t: Store, id: string, k: Check)
    requires ChecksOk(cat, s) && CheckOk(cat, s, id, k) && t == s.(checks := s.checks[id := k])
    ensures ChecksOk(cat, t)
  {
    forall x | x in t.checks ensures CheckOk(cat, t, x, t.checks[x]) {
      assert CheckOk(cat, s, x, if x == id then k else s.checks[x]);
    }
  }

  lemma PutConnection(cat: Catalog, w: World, v: World, id: string, c: Connection)
    requires Inv(cat, w) && v.clock >= w.clock && ConnectionOk(v.examined, v.clock, id, c)
    requires v.examined == w.examined || v.examined == w.examined[id := InputsOf(c)]
    requires id in w.store.connections ==> c.scope == w.store.connections[id].scope
    requires v.store == w.store.(connections := w.store.connections[id := c])
    ensures Inv(cat, v) && Extends(w.store, v.store)
  {
    assert Extends(w.store, v.store);
    ChecksSurvive(cat, w.store, v.store);
    ExecutionsSurvive(w.store, v.store, w.clock, v.clock);
    ConnectionsPut(w, v, id, c);
  }

  lemma ConnectionsPut(w: World, v: World, id: string, c: Connection)
    requires ConnectionsOk(w.examined, w.clock, w.store.connections) && ConnectionOk(v.examined, v.clock, id, c)
    requires v.clock >= w.clock && (v.examined == w.examined || v.examined == w.examined[id := InputsOf(c)])
    requires v.store.connections == w.store.connections[id := c]
    ensures ConnectionsOk(v.examined, v.clock, v.store.connections)
  {
    forall x | x in v.store.connections ensures ConnectionOk(v.examined, v.clock, x, v.store.connections[x]) {
      if x != id { assert ConnectionOk(w.examined, w.clock, x, w.store.connections[x]); }
    }
  }

  lemma PutTest(cat: Catalog, w: World, v: World, t: ConnectionTest)
    requires Inv(cat, w) && Idle(w, v.(store := w.store))
    requires v.store == w.store.(tests := w.store.tests[t.id := t])
    ensures Inv(cat, v) && Extends(w.store, v.store)
  {
    assert Extends(w.store, v.store);
    ChecksSurvive(cat, w.store, v.store);
    ConnectionsSurvive(w.examined, w.store.connections, w.clock, v.clock);
    ExecutionsSurvive(w.store, v.store, w.clock, v.clock);
  }

  lemma PutExecution(cat: Catalog, w: World, v: World, e: Execution)
    requires Inv(cat, w) && Idle(w, v.(store := w.store)) && ExecutionOk(w.store, v.clock, e.id, e)
    requires v.store == w.store.(executions := w.store.executions[e.id := e])
    ensures Inv(cat, v) && Extends(w.store, v.store)
  {
    assert Extends(w.store, v.store);
    ChecksSurvive(cat, w.store, v.store);
    ConnectionsSurvive(w.examined, w.store.connections, w.clock, v.clock);
    forall id | id in v.store.executions ensures ExecutionOk(v.store, v.clock, id, v.store.executions[id]) {
      if id != e.id { assert ExecutionOk(w.store, w.clock, id, w.store.executions[id]); }
    }
  }

  lemma ChangeStepKeeps(cat: Catalog, w: World, e: Event, now: Time)
    requires Inv(cat, w) && Legal(w, e, now) && (e.ChangeCreated? || e.ChangeUpdated?)
    ensures Inv(cat, Advance(cat, w, e, now)) && Extends(w.store, Apply(cat, w.store, e, now))
  {
    var s, v := w.store, Advance(cat, w, e, now);
    if e.ChangeCreated? && CreatedChange(cat, e.newChange, e.id, now).Ok? {
      NewChangeOk(cat, e.newChange, e.id, now);
      PutChange(cat, w, v, e.id, CreatedChange(cat, e.newChange, e.id, now).value);
    } else if e.ChangeUpdated? && e.id in s.changes && UpdatedChange(cat, s.changes[e.id], e.changePatch).Ok? {
      PatchedChangeOk(cat, e.id, s.changes[e.id], e.changePatch);
      PutChange(cat, w, v, e.id, UpdatedChange(cat, s.changes[e.id], e.changePatch).value);
    } else {
      IdleKeeps(cat, w, v);
    }
  }

  lemma CheckStepKeeps(cat: Catalog, w: World, e: Event, now: Time)
    requires Inv(cat, w) && Legal(w, e, now) && (e.CheckCreated? || e.CheckUpdated?)
    ensures Inv(cat, Advance(cat, w, e, now)) && Extends(w.store, Apply(cat, w.store, e, now))
  {
    var s, v := w.store, Advance(cat, w, e, now);
    if e.CheckCreated? && CreatedCheck(cat, s, e.newCheck, e.id, now).Ok? {
      NewCheckOk(cat, s, e.newCheck, e.id, now);
      PutCheck(cat, w, v, e.id, CreatedCheck(cat, s, e.newCheck, e.id, now).value);
    } else if e.CheckUpdated? && e.id in s.checks && UpdatedCheck(s, s.checks[e.id], e.checkPatch, now).Ok? {
      PatchedCheckOk(cat, s, e.id, s.checks[e.id], e.checkPatch, now);
      PutCheck(cat, w, v, e.id, UpdatedCheck(s, s.checks[e.id], e.checkPatch, now).value);
    } else {
      IdleKeeps(cat, w, v);
    }
  }

  lemma ConnectionStepKeeps(cat: Catalog, w: World, e: Event, now: Time)
    requires Inv(cat, w) && Legal(w, e, now) && (e.ConnectionCreated? || e.ConnectionUpdated?)
    ensures Inv(cat, Advance(cat, w, e, now)) && Extends(w.store, Apply(cat, w.store, e, now))
  {
    var s, v := w.store, Advance(cat, w, e, now);
    if e.ConnectionCreated? && CreatedConnection(cat, e.newConnection, e.id).Ok? {
      NewConnectionOk(w.examined, now, cat, e.newConnection, e.id);
      PutConnection(cat, w, v, e.id, CreatedConnection(cat, e.newConnection, e.id).value);
    } else if e.ConnectionUpdated? && e.id in s.connections
              && UpdatedConnection(s.connections[e.id], e.connectionPatch).Ok? {
      PatchedConnectionOk(w.examined, now, e.id, s.connections[e.id], e.connectionPatch);
      PutConnection(cat, w, v, e.id, UpdatedConnection(s.connections[e.id], e.connectionPatch).value);
    } else {
      IdleKeeps(cat, w, v);
    }
  }

  /** A probe or an execution leaves evidence about the inputs it used. */
  lemma ExaminedOk(examined: map<string, HealthInputs>, clock: Time, id: string, c: Connection, result: Outcome,
                   at: Time)
    requires ConnectionOk(examined, clock, id, c) && clock <= at && result.connectionStatus != ConnUnsupported
    ensures ConnectionOk(examined[id := InputsOf(c)], at, id, Examined(c, result, at))
    ensures Examined(c, result, at).scope == c.scope && InputsOf(Examined(c, result, at)) == InputsOf(c)
  {
  }

  lemma TestStepKeeps(cat: Catalog, w: World, e: Event, now: Time)
    requires Inv(cat, w) && Legal(w, e, now) && e.ConnectionTested?
    ensures Inv(cat, Advance(cat, w, e, now)) && Extends(w.store, Apply(cat, w.store, e, now))
  {
    var s, v := w.store, Advance(cat, w, e, now);
    if e.id !in s.connections || e.writes == 0 {
      IdleKeeps(cat, w, v);
    } else {
      var c := s.connections[e.id];
      StoredSourceSupported(c, e.env);
      assert ConnectionOk(w.examined, w.clock, e.id, c);
      ExaminedOk(w.examined, w.clock, e.id, c, Probe(c, e.env, e.db), e.done);
      ProbeKeeps(cat, w, v, c, Probe(c, e.env, e.db), e.testId, now, e.done, e.writes);
    }
  }

  lemma ProbeKeeps(cat: Catalog, w: World, v: World, c: Connection, result: Outcome, testId: string, now: Time,
                   done: Time, writes: nat)
    requires Inv(cat, w) && w.clock <= now <= done == v.clock && writes > 0
    requires c.id in w.store.connections && w.store.connections[c.id] == c
    requires v.store == ProbedStore(w.store, c, result, testId, now, done, writes)
    requires v.examined == if writes >= 4 then w.examined[c.id := InputsOf(c)] else w.examined
    requires writes >= 4 ==>
             ConnectionOk(v.examined, done, c.id, Examined(c, result, done))
             && InputsOf(Examined(c, result, done)) == InputsOf(c)
    ensures Inv(cat, v) && Extends(w.store, v.store)
  {
    var tested := w.(clock := done, store := w.store.(tests := v.store.tests));
    PutTest(cat, w, tested, v.store.tests[testId]);
    if writes == 1 {
      IdleKeeps(cat, tested, v);
    } else {
      assert ConnectionOk(w.examined, w.clock, c.id, c);
      PutConnection(cat, tested, v, c.id, v.store.connections[c.id]);
    }
  }

  lemma ExecuteStepKeeps(cat: Catalog, w: World, e: Event, now: Time)
    requires Inv(cat, w) && Legal(w, e, now) && e.CheckExecuted?
    ensures Inv(cat, Advance(cat, w, e, now)) && Extends(w.store, Apply(cat, w.store, e, now))
  {
    var s, v := w.store, Advance(cat, w, e, now);
    if e.id !in s.checks || Executable(s, s.checks[e.id]).Err? || e.writes == 0 {
      IdleKeeps(cat, w, v);
    } else {
      var k := s.checks[e.id];
      ExecutableSpec(s, k);
      var c := s.connections[k.connectionId];
      var result := ExecutionOutcome(s, k, e.env, e.db);
      assert ConnectionOk(w.examined, w.clock, c.id, c);
      assert CheckOk(cat, s, e.id, k);
      OutcomeSupported(s, k, e.env, e.db);
      ExaminedOk(w.examined, w.clock, c.id, c, result, e.done);
      RecordKeeps(cat, w, v, k, c, result, e.executionId, now, e.done, e.writes);
    }
  }

  /** The writes of an execution, one kind of record after the other. */
  lemma RecordKeeps(cat: Catalog, w: World, v: World, k: Check, c: Connection, result: Outcome, executionId: string,
                    now: Time, done: Time, writes: nat)
    requires Inv(cat, w) && w.clock <= now <= done == v.clock && writes > 0
    requires k.id in w.store.checks && w.store.checks[k.id] == k && c.id in w.store.connections
             && w.store.connections[c.id] == c
    requires v.store == RecordedStore(w.store, k, c, result, executionId, now, done, writes)
    requires v.examined == if writes >= 3 then w.examined[c.id := InputsOf(c)] else w.examined
    requires writes >= 3 ==>
             ConnectionOk(v.examined, done, c.id, Examined(c, result, done))
             && InputsOf(Examined(c, result, done)) == InputsOf(c)
    ensures Inv(cat, v) && Extends(w.store, v.store)
  {
    var execution := v.store.executions[executionId];
    var executed := w.(clock := done, store := w.store.(executions := w.store.executions[executionId := execution]));
    RecordedParts(w.store, k, c, result, executionId, now, done, writes);
    PutExecution(cat, w, executed, execution);
    if writes < 3 {
      IdleKeeps(cat, executed, v);
    } else {
      ReachConnection(cat, executed, v, k, c, Examined(c, result, done), result.status, writes);
    }
  }

  lemma RecordedParts(s: Store, k: Check, c: Connection, result: Outcome, x: string, now: Time, done: Time, writes: nat)
    requires writes > 0
    ensures var t := RecordedStore(s, k, c, result, x, now, done, writes);
            && x in t.executions && t.executions[x].id == x && t.executions[x].startedAt == now
            && t.executions[x].checkId == k.id && t.executions[x].scope == k.scope
            && var u := s.(executions := s.executions[x := t.executions[x]]);
               var n := u.(connections := u.connections[c.id := Examined(c, result, done)]);
               t == if writes < 3 then u
                    else if writes < 4 then n
                    else n.(checks := n.checks[k.id := k.(status := Image(result.status), lastRunAt := Some(done))])
  {
  }

  lemma ReachConnection(cat: Catalog, w: World, v: World, k: Check, c: Connection, next: Connection,
                        status: RunStatus, writes: nat)
    requires Inv(cat, w) && w.clock == v.clock && writes >= 3
    requires k.id in w.store.checks && w.store.checks[k.id] == k && c.id in w.store.connections
             && w.store.connections[c.id] == c
    requires ConnectionOk(v.examined, v.clock, c.id, next) && next.scope == c.scope && InputsOf(next) == InputsOf(c)
    requires v.examined == w.examined[c.id := InputsOf(c)]
    requires var connected := w.store.(connections := w.store.connections[c.id := next]);
             v.store == if writes < 4 then connected
                        else
                          connected.(checks :=
                            connected.checks[k.id := k.(status := Image(status), lastRunAt := Some(v.clock))])
    ensures Inv(cat, v) && Extends(w.store, v.store)
  {
    var connected := v.(store := w.store.(connections := w.store.connections[c.id := next]));
    PutConnection(cat, w, connected, c.id, next);
    if writes >= 4 {
      assert CheckOk(cat, connected.store, k.id, connected.store.checks[k.id]);
      ReflectedOk(cat, connected.store, k.id, k, Image(status), v.clock);
      PutCheck(cat, connected, v, k.id, k.(status := Image(status), lastRunAt := Some(v.clock)));
    }
  }

  lemma OutcomeSupported(s: Store, k: Check, env: set<string>, db: Database)
    requires Executable(s, k).Ok? && SourceShape(SourceValuesOf(Executable(s, k).value.0))
    ensures ExecutionOutcome(s, k, env, db).connectionStatus != ConnUnsupported
    ensures ExecutionOutcome(s, k, env, db).status != Running
  {
    ExecutableSpec(s, k);
    var (c, spec) := Executable(s, k).value;
    StoredSourceSupported(c, env);
    ExecuteFinishes(c, env, k.checkType, spec, db);
  }

  lemma ExecuteFinishes(c: Connection, env: set<string>, checkType: CheckType, spec: SpecFields, db: Database)
    requires checkType == RowCountAssertion ==> spec.expectedCount.Some?
    requires Resolve(c, env).Unresolvable? ==> Resolve(c, env).status == ConnUnresolved
    ensures var result := Execute(c, env, checkType, spec, db);
            result.connectionStatus != ConnUnsupported && result.status != Running
  {
    ExistenceFinishes(spec, db);
    if spec.expectedCount.Some? { RowCountFinishes(spec, db); }
  }

  lemma ExistenceFinishes(spec: SpecFields, db: Database)
    ensures RunExistence(spec, db).connectionStatus != ConnUnsupported && RunExistence(spec, db).status != Running
  {
  }

  lemma RowCountFinishes(spec: SpecFields, db: Database)
    requires spec.expectedCount.Some?
    ensures RunRowCount(spec, db).connectionStatus != ConnUnsupported && RunRowCount(spec, db).status != Running
  {
  }

  lemma StepKeeps(cat: Catalog, w: World, e: Event, now: Time)
    requires Inv(cat, w) && Legal(w, e, now)
    ensures Inv(cat, Advance(cat, w, e, now)) && Extends(w.store, Apply(cat, w.store, e, now))
  {
    if e.ChangeCreated? || e.ChangeUpdated? {
      ChangeStepKeeps(cat, w, e, now);
    } else if e.CheckCreated? || e.CheckUpdated? {
      CheckStepKeeps(cat, w, e, now);
    } else if e.ConnectionCreated? || e.ConnectionUpdated? {
      ConnectionStepKeeps(cat, w, e, now);
    } else if e.ConnectionTested? {
      TestStepKeeps(cat, w, e, now);
    } else {
      ExecuteStepKeeps(cat, w, e, now);
    }
  }

  /** Every state of every run keeps the record invariants, however many store writes fail half-way. */
  lemma {:induction false} RunKeeps(cat: Catalog, w: World, run: seq<Step>)
    requires Inv(cat, w) && LegalRun(cat, w, run)
    ensures Inv(cat, After(cat, w, run))
    decreases |run|
  {
    if run == [] {
    } else {
      StepKeeps(cat, w, run[0].event, run[0].now);
      RunKeeps(cat, Advance(cat, w, run[0].event, run[0].now), run[1..]);
    }
  }
}
