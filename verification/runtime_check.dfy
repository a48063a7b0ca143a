/**
 The runtime validator: which specifications are accepted, how a connection reference is
 resolved, and what verdict a check gets from a database that may fail at any query.
 */
module RuntimeCheck {
  import opened Records
  import Text

  // ----- accepting a specification -----

  predicate IsLetter(c: char) { 'a' <= c <= 'z' || 'A' <= c <= 'Z' || c == '_' }
  predicate IsDigit(c: char) { '0' <= c <= '9' }

  predicate IsIdentifier(s: string) {
    s != "" && IsLetter(s[0]) && forall i | 1 <= i < |s| :: IsLetter(s[i]) || IsDigit(s[i])
  }

  const EMPTY_SPEC := SpecFields("", "", "", "", "", "", "", None)

  function Parse(mode: Mode, checkType: CheckType, specification: Specification): Result<SpecFields> {
    if mode != RuntimeReadOnly then Ok(EMPTY_SPEC)
    else if !specification.Json? then Err(Validation)
    else
      var raw := specification.fields;
      var spec := if raw.schema == "" then raw.(schema := "public") else raw;
      match checkType
      case ExistenceAssertion =>
        var spec := if spec.subject == "" then spec.(subject := "table") else spec;
        if || (spec.subject == "table" && spec.table != "")
           || (spec.subject == "column" && spec.table != "" && spec.column != "")
           || (spec.subject == "index" && spec.index != "")
        then CheckIdentifiers(spec) else Err(Validation)
      case MigrationCompletion =>
        var spec := if spec.subject == "" then spec.(subject := "table") else spec;
        if || (spec.subject == "table" && spec.table != "")
           || (spec.subject == "migration_marker" && spec.table != "" && spec.column != ""
               && Text.Trim(spec.value) != "")
        then CheckIdentifiers(spec) else Err(Validation)
      case RowCountAssertion =>
        if spec.table == "" || spec.expectedCount.None? then Err(Validation)
        else if spec.operator in ["eq", "gt", "gte", "lt", "lte"] then CheckIdentifiers(spec)
        else Err(Validation)
      case _ => Err(Validation)
  }

  function CheckIdentifiers(spec: SpecFields): Result<SpecFields> {
    if forall s | s in [spec.schema, spec.table, spec.column, spec.index] :: s == "" || IsIdentifier(s)
    then Ok(spec) else Err(Validation)
  }

  // ----- resolving a connection -----

  datatype Resolution = Resolved | Unresolvable(status: ConnectionStatus, errorClass: string)

  /** `env` holds the names that have a non-blank value in the runtime environment. */
  function Resolve(connection: Connection, env: set<string>): Resolution {
    var source := Text.Trim(connection.sourceType);
    if source == "env_dsn" || source == "" then
      if Text.Trim(connection.dsnEnv) == "" then Unresolvable(ConnUnresolved, "missing_env_ref")
      else if Text.Trim(connection.dsnEnv) in env then Resolved
      else Unresolvable(ConnUnresolved, "missing_env_value")
    else if source == "secret_ref_dsn" then
      if Text.Trim(connection.secretRefEnv) == "" then Unresolvable(ConnUnresolved, "missing_secret_ref_env")
      else if Text.Trim(connection.secretRefEnv) in env then Resolved
      else Unresolvable(ConnUnresolved, "missing_secret_ref_env_value")
    else Unresolvable(ConnUnsupported, "unsupported_source")
  }

  // ----- a database that may fail -----

  /**
   The catalog a read-only session sees, and how that session misbehaves: `session` is the error
   class if it cannot be opened, `faults` the ordinals of the queries that return an error.
   */
  datatype Database = Database(
    tables: set<(string, string)>,
    columns: set<(string, string, string)>,
    indexes: set<(string, string)>,
    rows: map<(string, string), seq<map<string, string>>>,
    session: Option<string>,
    faults: set<nat>,
    commitFails: bool)
  {
    function Rows(schema: string, table: string): seq<map<string, string>> {
      if (schema, table) in rows then rows[(schema, table)] else []
    }

    /** SELECT EXISTS (... WHERE column = value). */
    predicate HasRow(schema: string, table: string, column: string, value: string) {
      exists i | 0 <= i < |Rows(schema, table)| :: column in Rows(schema, table)[i]
        && Rows(schema, table)[i][column] == value
    }
  }

  function CompareRowCount(actual: int, operator: string, expected: int): bool {
    if operator == "eq" then actual == expected
    else if operator == "gt" then actual > expected
    else if operator == "gte" then actual >= expected
    else if operator == "lt" then actual < expected
    else if operator == "lte" then actual <= expected
    else false
  }

  datatype Outcome = Outcome(status: RunStatus, errorClass: string, connectionStatus: ConnectionStatus)

  const QUERY_ERROR := Outcome(RunErrored, "query_failed", ConnReady)

  function Verdict(holds: bool): Outcome {
    Outcome(if holds then RunPassed else RunFailed, "", ConnReady)
  }

  function RunExistence(spec: SpecFields, db: Database): Outcome {
    if spec.subject == "table" then
      if 0 in db.faults then QUERY_ERROR else Verdict((spec.schema, spec.table) in db.tables)
    else if spec.subject == "column" then
      if 0 in db.faults then QUERY_ERROR else Verdict((spec.schema, spec.table, spec.column) in db.columns)
    else if spec.subject == "index" then
      if 0 in db.faults then QUERY_ERROR else Verdict((spec.schema, spec.index) in db.indexes)
    else if spec.subject == "migration_marker" then
      if 0 in db.faults then QUERY_ERROR
      else if (spec.schema, spec.table) !in db.tables then Verdict(false)
      else if 1 in db.faults then QUERY_ERROR
      else if (spec.schema, spec.table, spec.column) !in db.columns then Verdict(false)
      // The error of the last query is kept in a variable that shadows the one tested afterwards,
      // so a failing query reads as "no such row".
      else if 2 in db.faults then Verdict(false)
      else Verdict(db.HasRow(spec.schema, spec.table, spec.column, spec.value))
    else Outcome(RunBlocked, "unsupported_subject", ConnDefined)
  }

  function RunRowCount(spec: SpecFields, db: Database): Outcome
    requires spec.expectedCount.Some?
  {
    if 0 in db.faults then QUERY_ERROR
    else if (spec.schema, spec.table) !in db.tables then Verdict(false)
    else if 1 in db.faults then QUERY_ERROR
    else Verdict(CompareRowCount(|db.Rows(spec.schema, spec.table)|, spec.operator, spec.expectedCount.value))
  }

  function Execute(connection: Connection, env: set<string>, checkType: CheckType, spec: SpecFields,
                   db: Database): Outcome
    requires checkType == RowCountAssertion ==> spec.expectedCount.Some?
  {
    match Resolve(connection, env)
    case Unresolvable(status, errorClass) => Outcome(RunBlocked, errorClass, status)
    case Resolved =>
      if db.session.Some? then Outcome(RunErrored, db.session.value, ConnError)
      else
        var result := match checkType {
          case ExistenceAssertion => RunExistence(spec, db)
          case MigrationCompletion => RunExistence(spec, db)
          case RowCountAssertion => RunRowCount(spec, db)
          case _ => Outcome(RunBlocked, "unsupported_check_type", ConnDefined)
        };
        if (result.status == RunPassed || result.status == RunFailed) && db.commitFails
        then Outcome(RunErrored, "commit", ConnError)
        else result
  }

  // ----- what a verdict means -----

  /** The assertion a specification makes about a catalog, without any query plan. */
  predicate Holds(checkType: CheckType, spec: SpecFields, db: Database) {
    var here := (spec.schema, spec.table);
    if checkType == RowCountAssertion then
      && here in db.tables && spec.expectedCount.Some?
      && var n := |db.Rows(spec.schema, spec.table)|;
         var m := spec.expectedCount.value;
         || (n == m && spec.operator in {"eq", "gte", "lte"})
         || (n > m && spec.operator in {"gt", "gte"})
         || (n < m && spec.operator in {"lt", "lte"})
    else if spec.subject == "table" then here in db.tables
    else if spec.subject == "column" then (spec.schema, spec.table, spec.column) in db.columns
    else if spec.subject == "index" then (spec.schema, spec.index) in db.indexes
    else
      && here in db.tables && (spec.schema, spec.table, spec.column) in db.columns
      && db.HasRow(spec.schema, spec.table, spec.column, spec.value)
  }

  /** How many queries a check issues when none of them fails. */
  function QueryCount(checkType: CheckType, spec: SpecFields, db: Database): nat {
    if checkType == RowCountAssertion then
      if (spec.schema, spec.table) in db.tables then 2 else 1
    else if spec.subject == "migration_marker" then
      if (spec.schema, spec.table) !in db.tables then 1
      else if (spec.schema, spec.table, spec.column) !in db.columns then 2
      else 3
    else 1
  }

  /** A query error that the executor does not look at: the marker lookup of a migration check. */
  predicate Swallowed(checkType: CheckType, spec: SpecFields, query: nat) {
    checkType == MigrationCompletion && spec.subject == "migration_marker" && query == 2
  }

  /** Some query that is looked at fails. */
  predicate Fails(checkType: CheckType, spec: SpecFields, db: Database) {
    exists q | 0 <= q < QueryCount(checkType, spec, db) :: q in db.faults && !Swallowed(checkType, spec, q)
  }

  predicate Undisturbed(checkType: CheckType, spec: SpecFields, db: Database) {
    forall q | 0 <= q < QueryCount(checkType, spec, db) :: q !in db.faults
  }

  /** The outcome of a body that ran queries: an error, a pass or a failure, each exactly when it should be. */
  predicate Exact(status: RunStatus, fails: bool, holds: bool) {
    (status == RunErrored <==> fails) && (status == RunPassed <==> holds)
      && (status == RunErrored || status == RunPassed || status == RunFailed)
  }

  /** The subjects that the existence executor supports, by the type of the check. */
  predicate LooksUp(checkType: CheckType, spec: SpecFields) {
    match checkType
    case ExistenceAssertion => spec.subject in {"table", "column", "index"}
    case MigrationCompletion => spec.subject in {"table", "migration_marker"}
    case _ => false
  }

  predicate Counts(spec: SpecFields) {
    spec.expectedCount.Some? && spec.operator in ["eq", "gt", "gte", "lt", "lte"]
  }

  lemma ExistenceExact(checkType: CheckType, spec: SpecFields, db: Database)
    requires LooksUp(checkType, spec)
    ensures Exact(RunExistence(spec, db).status, Fails(checkType, spec, db),
                  Undisturbed(checkType, spec, db) && Holds(checkType, spec, db))
  {
    assert QueryCount(checkType, spec, db) <= 3;
    assert Fails(checkType, spec, db) <==>
           || 0 in db.faults
           || (1 in db.faults && QueryCount(checkType, spec, db) >= 2)
           || (2 in db.faults && QueryCount(checkType, spec, db) >= 3 && !Swallowed(checkType, spec, 2));
    assert Undisturbed(checkType, spec, db) <==>
           && 0 !in db.faults
           && (QueryCount(checkType, spec, db) >= 2 ==> 1 !in db.faults)
           && (QueryCount(checkType, spec, db) >= 3 ==> 2 !in db.faults);
  }

  lemma RowCountExact(spec: SpecFields, db: Database)
    requires Counts(spec)
    ensures Exact(RunRowCount(spec, db).status, Fails(RowCountAssertion, spec, db),
                  Undisturbed(RowCountAssertion, spec, db) && Holds(RowCountAssertion, spec, db))
  {
    assert QueryCount(RowCountAssertion, spec, db) <= 2;
    assert Fails(RowCountAssertion, spec, db) <==>
           0 in db.faults || (1 in db.faults && QueryCount(RowCountAssertion, spec, db) == 2);
    assert Undisturbed(RowCountAssertion, spec, db) <==>
           0 !in db.faults && (QueryCount(RowCountAssertion, spec, db) == 2 ==> 1 !in db.faults);
  }

  /** An accepted specification has a subject or an operator that its executor supports. */
  lemma AcceptedIsSupported(checkType: CheckType, text: Specification, spec: SpecFields)
    requires Parse(RuntimeReadOnly, checkType, text) == Ok(spec)
    ensures if checkType == RowCountAssertion then Counts(spec) else LooksUp(checkType, spec)
  {
  }

  /**
   Every accepted specification is executable, and its verdict is exact. "blocked" says that the
   connection does not resolve and nothing else; "errored" says that a session, a commit or a
   query failed, except the marker lookup; "passed" says that nothing failed and the assertion holds.
   */
  lemma VerdictExact(connection: Connection, env: set<string>, checkType: CheckType, text: Specification,
                     spec: SpecFields, db: Database)
    requires Parse(RuntimeReadOnly, checkType, text) == Ok(spec)
    ensures checkType == RowCountAssertion ==> spec.expectedCount.Some?
    ensures var run := Execute(connection, env, checkType, spec, db);
            var resolved := Resolve(connection, env).Resolved?;
            var queries := QueryCount(checkType, spec, db);
            && (run.status == RunBlocked <==> !resolved)
            && (run.status == RunErrored <==>
                  resolved && (db.session.Some? || db.commitFails
                               || exists q | 0 <= q < queries :: q in db.faults && !Swallowed(checkType, spec, q)))
            && (run.status == RunPassed <==>
                  && resolved && db.session.None? && !db.commitFails
                  && (forall q | 0 <= q < queries :: q !in db.faults)
                  && Holds(checkType, spec, db))
            && run.status != Running
  {
    AcceptedIsSupported(checkType, text, spec);
    if checkType == RowCountAssertion {
      RowCountExact(spec, db);
    } else {
      ExistenceExact(checkType, spec, db);
    }
  }

  /**
   That no query error gives a verdict fails for one query: a marker
   lookup that errors is "failed" if the commit succeeds.
   */
  lemma MarkerQueryErrorReadsAsFailed(connection: Connection, env: set<string>) returns (spec: SpecFields, db: Database)
    requires Resolve(connection, env).Resolved?
    ensures Parse(RuntimeReadOnly, MigrationCompletion, Json(spec)) == Ok(spec)
    ensures db.faults != {} && db.session.None? && !db.commitFails
    ensures Holds(MigrationCompletion, spec, db)
    ensures Execute(connection, env, MigrationCompletion, spec, db) == Outcome(RunFailed, "", ConnReady)
  {
    spec := SpecFields("migration_marker", "s", "t", "c", "", "v", "", None);
    db := Database({("s", "t")}, {("s", "t", "c")}, {}, map[("s", "t") := [map["c" := "v"]]], None, {2}, false);
    assert db.Rows("s", "t")[0]["c"] == "v";
    assert forall s | s in ["s", "t", "c", ""] :: s == "" || IsIdentifier(s);
    assert Text.Trim("v") == "v";
  }

  // ----- what is accepted, resolved and asserted, case by case -----

  /** A connection resolves exactly if the variable its source names has a value, and each refusal has one cause. */
  lemma ResolveExactly(c: Connection, env: set<string>)
    ensures var kind, name, secret := Text.Trim(c.sourceType), Text.Trim(c.dsnEnv), Text.Trim(c.secretRefEnv);
            var r := Resolve(c, env);
            && (r == Resolved <==>
                  || (kind in {"", "env_dsn"} && name != "" && name in env)
                  || (kind == "secret_ref_dsn" && secret != "" && secret in env))
            && (r == Unresolvable(ConnUnresolved, "missing_env_ref") <==> kind in {"", "env_dsn"} && name == "")
            && (r == Unresolvable(ConnUnresolved, "missing_env_value") <==>
                  kind in {"", "env_dsn"} && name != "" && name !in env)
            && (r == Unresolvable(ConnUnresolved, "missing_secret_ref_env") <==>
                  kind == "secret_ref_dsn" && secret == "")
            && (r == Unresolvable(ConnUnresolved, "missing_secret_ref_env_value") <==>
                  kind == "secret_ref_dsn" && secret != "" && secret !in env)
            && (r == Unresolvable(ConnUnsupported, "unsupported_source") <==>
                  kind !in {"", "env_dsn", "secret_ref_dsn"})
  {
  }

  /** Identifiers: letters, digits and underscores, no digit first. */
  lemma IdentifierExactly(s: string)
    ensures IsIdentifier(s) <==>
            && s != "" && s[0] !in Text.DIGITS
            && forall i | 0 <= i < |s| ::
                 s[i] in Text.CAPITALS || s[i] in Text.SMALL || s[i] in Text.DIGITS || s[i] == '_'
  {
    forall i | 0 <= i < |s|
      ensures s[i] in Text.CAPITALS <==> 'A' <= s[i] <= 'Z'
      ensures s[i] in Text.SMALL <==> 'a' <= s[i] <= 'z'
      ensures s[i] in Text.DIGITS <==> '0' <= s[i] <= '9'
    {
      Text.CapitalExactly(s[i]);
      Text.SmallExactly(s[i]);
      Text.DigitExactly(s[i]);
    }
  }

  /** Every name in a specification is an identifier. */
  predicate NamesOk(raw: SpecFields) {
    forall s | s in {raw.schema, raw.table, raw.column, raw.index} :: s == "" || IsIdentifier(s)
  }

  /** Which decoded specifications a runtime check accepts, by the type of the check. */
  lemma ParseExactly(checkType: CheckType, text: Specification)
    ensures Parse(RuntimeReadOnly, checkType, text).Ok? <==>
            && text.Json? && NamesOk(text.fields)
            && var raw := text.fields;
               || (checkType in {ExistenceAssertion, MigrationCompletion} && raw.subject in {"", "table"}
                   && raw.table != "")
               || (checkType == ExistenceAssertion && raw.subject == "column" && raw.table != "" && raw.column != "")
               || (checkType == ExistenceAssertion && raw.subject == "index" && raw.index != "")
               || (checkType == MigrationCompletion && raw.subject == "migration_marker"
                   && raw.table != "" && raw.column != "" && Text.Trim(raw.value) != "")
               || (checkType == RowCountAssertion && raw.table != "" && raw.expectedCount.Some?
                   && raw.operator in {"eq", "gt", "gte", "lt", "lte"})
    ensures Parse(RuntimeReadOnly, checkType, text).Ok? ==>
              var raw, spec := text.fields, Parse(RuntimeReadOnly, checkType, text).value;
              && spec == raw.(schema := spec.schema, subject := spec.subject)
              && spec.schema == (if raw.schema == "" then "public" else raw.schema)
              && spec.subject == (if raw.subject == "" && checkType != RowCountAssertion then "table" else raw.subject)
  {
    assert IsIdentifier("public");
  }

  /** A database on which nothing fails. */
  predicate Sound(db: Database) { db.session.None? && db.faults == {} && !db.commitFails }

  /** On a database on which nothing fails, a check passes exactly if its assertion is true of the catalog. */
  lemma PassesExactly(c: Connection, env: set<string>, checkType: CheckType, text: Specification, spec: SpecFields,
                      db: Database)
    requires Parse(RuntimeReadOnly, checkType, text) == Ok(spec) && Resolve(c, env).Resolved? && Sound(db)
    ensures checkType == RowCountAssertion ==> spec.expectedCount.Some?
    ensures var passes := Execute(c, env, checkType, spec, db) == Outcome(RunPassed, "", ConnReady);
            && (passes || Execute(c, env, checkType, spec, db) == Outcome(RunFailed, "", ConnReady))
            && (checkType != RowCountAssertion && spec.subject == "table" ==>
                  (passes <==> (spec.schema, spec.table) in db.tables))
            && (checkType != RowCountAssertion && spec.subject == "column" ==>
                  (passes <==> (spec.schema, spec.table, spec.column) in db.columns))
            && (checkType != RowCountAssertion && spec.subject == "index" ==>
                  (passes <==> (spec.schema, spec.index) in db.indexes))
            && (checkType != RowCountAssertion && spec.subject == "migration_marker" ==>
                  (passes <==> && (spec.schema, spec.table) in db.tables
                               && (spec.schema, spec.table, spec.column) in db.columns
                               && (spec.schema, spec.table) in db.rows
                               && exists row | row in db.rows[(spec.schema, spec.table)] ::
                                    spec.column in row && row[spec.column] == spec.value))
  {
    AcceptedIsSupported(checkType, text, spec);
    VerdictExact(c, env, checkType, text, spec, db);
    if spec.subject == "migration_marker" && checkType != RowCountAssertion {
      MarkerRow(spec, db);
    }
  }

  lemma MarkerRow(spec: SpecFields, db: Database)
    ensures db.HasRow(spec.schema, spec.table, spec.column, spec.value) <==>
            && (spec.schema, spec.table) in db.rows
            && exists row | row in db.rows[(spec.schema, spec.table)] ::
                 spec.column in row && row[spec.column] == spec.value
  {
    var rows := db.Rows(spec.schema, spec.table);
    if row :| row in rows && spec.column in row && row[spec.column] == spec.value {
      var i :| 0 <= i < |rows| && rows[i] == row;
      assert spec.column in db.Rows(spec.schema, spec.table)[i];
    }
  }

  /** A row count is compared with the expected number as the operator says. */
  lemma CountsExactly(c: Connection, env: set<string>, text: Specification, spec: SpecFields, db: Database, n: nat)
    requires Parse(RuntimeReadOnly, RowCountAssertion, text) == Ok(spec) && Resolve(c, env).Resolved? && Sound(db)
    requires n == if (spec.schema, spec.table) in db.rows then |db.rows[(spec.schema, spec.table)]| else 0
    ensures spec.expectedCount.Some?
    ensures var passes := Execute(c, env, RowCountAssertion, spec, db) == Outcome(RunPassed, "", ConnReady);
            var m := spec.expectedCount.value;
            && (passes || Execute(c, env, RowCountAssertion, spec, db) == Outcome(RunFailed, "", ConnReady))
            && (passes ==> (spec.schema, spec.table) in db.tables)
            && ((spec.schema, spec.table) in db.tables ==>
                  && (spec.operator == "eq" ==> (passes <==> n == m))
                  && (spec.operator == "gt" ==> (passes <==> n > m))
                  && (spec.operator == "gte" ==> (passes <==> n >= m))
                  && (spec.operator == "lt" ==> (passes <==> n < m))
                  && (spec.operator == "lte" ==> (passes <==> n <= m)))
  {
    AcceptedIsSupported(RowCountAssertion, text, spec);
    VerdictExact(c, env, RowCountAssertion, text, spec, db);
  }
}
