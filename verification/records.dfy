/** The governed records of a database deployment, and the small types shared by all modules. */
module Records {

  datatype Option<+T> = None | Some(value: T)

  datatype Error = Validation | NotFound | Forbidden | Unavailable

  datatype Result<+T> = Ok(value: T) | Err(error: Error)
  {
    predicate IsFailure() { Err? }
    function PropagateFailure<U>(): Result<U> requires Err? { Err(error) }
    function Extract(): T requires Ok? { value }
  }

  /** An enumerated text field of a request, after normalisation: empty, not an allowed value, or a value. */
  datatype Input<+T> = Absent | Unsupported | Given(value: T)
  {
    function Required(): Result<T> {
      if Given? then Ok(value) else Err(Validation)
    }
  }

  /** The answer to a request that has been carried out, or refused: the audit record is written last, and may fail. */
  function Answer<T>(r: Result<T>, auditOk: bool): Result<T> {
    if r.Ok? && !auditOk then Err(Unavailable) else r
  }

  /** A request succeeds exactly if it is carried out and audited. */
  lemma AnsweredExactly<T>(r: Result<T>, auditOk: bool)
    ensures Answer(r, auditOk).Ok? <==> r.Ok? && auditOk
    ensures r.Ok? && auditOk ==> Answer(r, auditOk).value == r.value
    ensures r.Err? ==> Answer(r, auditOk) == r
  {
  }

  function OrDefault<T>(i: Input<T>, default: T): Result<T> {
    match i case Absent => Ok(default) case Unsupported => Err(Validation) case Given(v) => Ok(v)
  }

  /** Nanoseconds on one clock. */
  type Time = int

  datatype Scope = Scope(organization: string, project: string, environment: string)

  // ----- database changes -----

  datatype Operation = SchemaChange | DataBackfill | IndexChange | DestructiveChange | ExpandContractChange
  datatype Intent = DuringDeploy | BeforeDeploy | AfterDeploy | OutOfBand
  datatype Compatibility = BackwardCompatible | ExpandContract | ForwardIncompatible
  datatype Reversibility = Reversible | Irreversible | ManualOnly
  datatype RiskLevel = Low | Medium | High | Critical
  datatype ChangeStatus = ChangeDefined | ChangeReviewed | ChangeApproved | ChangeCompleted | ChangeBlocked

  datatype DatabaseChange = DatabaseChange(
    id: string, createdAt: Time, scope: Scope, serviceId: string, changeSetId: string,
    name: string, datastore: string, summary: string,
    operation: Operation, intent: Intent, compatibility: Compatibility, reversibility: Reversibility,
    risk: RiskLevel, lockRisk: bool, manualApprovalRequired: bool, status: ChangeStatus)

  // ----- validation checks -----

  datatype Phase = PreDeploy | PostDeploy | Rollback
  datatype CheckType = MigrationCompletion | CompatibilityCheck | RowCountAssertion | ExistenceAssertion
    | CustomReadOnly
  datatype Mode = ManualAttestation | AdvisoryOnly | RuntimeReadOnly
  datatype CheckStatus = CheckDefined | CheckPassed | CheckFailed | CheckBlocked | CheckAdvisory

  /** A verdict, as opposed to a status that still waits for one. */
  predicate Terminal(status: CheckStatus) {
    status == CheckPassed || status == CheckFailed || status == CheckBlocked
  }

  /** The JSON object a runtime specification decodes to. */
  datatype SpecFields = SpecFields(
    subject: string, schema: string, table: string, column: string, index: string,
    value: string, operator: string, expectedCount: Option<int>)

  /** A trimmed specification text: empty, some other text, or a text that decodes as JSON. */
  datatype Specification = Blank | NotJson | Json(fields: SpecFields)

  datatype Check = Check(
    id: string, scope: Scope, serviceId: string, changeSetId: string, changeId: string, connectionId: string,
    name: string, summary: string, phase: Phase, checkType: CheckType, readOnly: bool, required: bool,
    mode: Mode, specification: Specification, status: CheckStatus, lastRunAt: Option<Time>)

  // ----- connections, their tests, and executions -----

  datatype ConnectionStatus = ConnDefined | ConnTesting | ConnReady | ConnError | ConnUnresolved | ConnUnsupported

  datatype Connection = Connection(
    id: string, scope: Scope, serviceId: string, name: string, datastore: string, summary: string,
    driver: string, sourceType: string, dsnEnv: string, secretRef: string, secretRefEnv: string, readOnlyCapable: bool,
    status: ConnectionStatus, lastTestedAt: Option<Time>, lastHealthyAt: Option<Time>, lastErrorClass: string)

  datatype RunStatus = Running | RunPassed | RunFailed | RunBlocked | RunErrored

  datatype ConnectionTest = ConnectionTest(
    id: string, scope: Scope, connectionId: string, status: RunStatus, startedAt: Time, completedAt: Option<Time>)

  datatype Execution = Execution(
    id: string, scope: Scope, checkId: string, connectionId: string, status: RunStatus, startedAt: Time,
    completedAt: Option<Time>)
}
