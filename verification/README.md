# Model of change-control-plane governance

This project models the state-changing core of a release control plane and proves what it keeps:

- **Database deployment governance.** Connection references, database changes, validation checks, connection tests and
  check executions form a governed record store. Create, update, test and execute operations change it, and a snapshot
  builder folds it into the database posture of a release bundle (none, advisory, review_required, blocked, with a
  compatibility rank, a rollback safety and findings).
- **Integration sync scheduling.** Flags, schedule, claim, failure counter, capped exponential backoff and freshness of
  an integration, and the normaliser of its instance key.
- **Reconciliation and selection.** The Kubernetes inventory reconcile, manual recovery of outbox events next to the
  dispatcher, and the choice of the effective rollback policy.

Where the program changes records and slices step by step, so does the model: classes whose methods write their fields,
arrays sorted in place, loops with invariants. Each such method is proved against a function or predicate, and the laws
are lemmas about those; each class has a method that performs any step of a run, so the results about runs are results
about its methods. Whole-run results quantify over all sequences of operations, including operations that stop
after any of their store writes, and over all interleavings of operators and dispatchers.

| file | content |
|---|---|
| `text`, `ordering`, `records` | string operations, sorting and latest-per-key indexes, the records |
| `runtime_check` | specifications, connection resolution and verdicts over a database that may fail |
| `posture`, `posture_builder`, `posture_laws`, `posture_order`, `posture_monotone`, `posture_subject`, `posture_findings`, `posture_contents` | the posture: definition, builder, meaning, order independence, monotonicity, what it does not look at, the reasons of every finding, what a snapshot holds |
| `governance`, `governance_store`, `governance_runs`, `governance_fields`, `governance_outcomes` | the record store: operations, class, invariants over runs, every field and refusal, outcomes of tests and executions |
| `check_evidence`, `verdict_subject`, `reachable_posture`, `evidence_examples`, `advisory_examples` | the evidence behind verdicts, what a verdict is about, consequences for postures, four concrete runs |
| `instance_key`, `integrations`, `integration_store`, `integration_runs`, `integration_fields`, `schedule_laws` | integrations: keys, operations, class, invariants over runs, every field, backoff and freshness |
| `discovery`, `discovery_laws`, `discovery_fields` | the inventory reconcile, its laws, and every field |
| `outbox`, `outbox_runs`, `outbox_service` | outbox recovery, its interleavings, and the store with the work in flight |
| `rollback_policy` | the effective rollback policy |

## Assumptions

- Query limits are not reached, except the limits of one and five of the duplicate lookups, which are modelled.
- Findings are constructors of a datatype with the arguments of their text; two findings are duplicates if their
  constructor and arguments agree.
- An enumerated request field is modelled after normalisation as absent, unsupported or given. A specification text is
  blank, not JSON, or the decoded object. Kinds and modes of integrations are modelled after normalisation.
- Generated ids are fresh, non-blank and without outer white space; derived resource ids are injective in organization,
  integration, type, namespace and name. Times are nanoseconds on one clock, which is strictly increasing over the runs
  of the record store; integers do not overflow; the lag is whole seconds, without floating-point rounding.
- A runtime environment is the set of names that have a non-blank value. Database, provider and graph outcomes are
  parameters, so every combination of failures is covered.
- Lower-casing, and folding against an ASCII text, are exact for every character whose result is ASCII, and leave other
  characters alone.
- The outbox follows the durable store: records are copies, a conditional write is atomic and a transaction is
  all-or-nothing.
- A rollback limit is a real number.

## Where the program and its documentation or intent part

- Every query error of a runtime check is meant to end in "errored", never in a verdict; a marker lookup that errors
  reads as "failed" if the commit still succeeds (`RuntimeCheck.MarkerQueryErrorReadsAsFailed`), because an inner
  variable shadows the error that is tested afterwards.
- `docs/architecture/scheduled-sync.md` describes retry timing as capped below the schedule interval; it is capped at the
  interval. `ScheduleLaws.RetryBelowInterval` says exactly when a retry comes earlier than the interval,
  `ScheduleLaws.AlwaysBelowInterval` for which intervals all retries do, and `ScheduleLaws.RetryAtInterval` is an
  integration whose retry does not.
- A connection test also reschedules the next sync and releases the claim of a sync that is still running
  (`ScheduleLaws.TestFreesClaim`).
- Monotonicity of the posture fails for the first classified change of a bundle that was only guessed to touch a schema;
  `PostureMonotone.FirstChangeReplacesGuess` says exactly when for status, rank and safety, and
  `PostureMonotone.FirstChangeLowersStatus` is such a bundle.
- A posture without changes and without schema-touching change sets is "none" even if its checks raise blockers
  (`PostureLaws.Classification`; `PostureLaws.NoneHidesBlockers` is such a bundle).
- The status of a runtime check is meant to mirror its latest execution; it does exactly while that execution has not
  stopped between its store writes (`CheckEvidence.MirrorsExactly`, with a run that fails in
  `EvidenceExamples.PassOutlivesLostWrite`).
- An update of type, specification or connection keeps the verdict of a runtime check, and an update of a connection
  keeps the verdicts of the checks that use it. So a verdict can be about a specification that the check no longer has,
  or about a database that its connection no longer names; `VerdictSubject.VerdictsCurrentExactly` says exactly when,
  and `EvidenceExamples.PassOutlivesSpecification` and `AdvisoryExamples.AdvisoryOutlivesConnection` are runs. The
  posture does not notice another type or specification at all (`PostureSubject.PostureIgnoresSubject`), and another
  database only until the connection has been tested again.
- The compare-and-swap of outbox recovery guards the status and not the record, so histories can lose entries;
  `OutboxRuns.HistoryExactly` says exactly when.

## Model

| member | source | states |
|---|---|---|
| `Ordering.SortSlice` | internal/app/database_governance.go:703-708 | The library sort of a slice: the result is an ordered permutation of the old contents; nothing is said about ties |
| `Ordering.OrderedUnique` | internal/app/database_governance.go:721-729 | When a comparator leaves no ties, two ordered permutations are the same sequence, so it does not matter how the sort breaks ties or which input order it got |
| `Ordering.SortPermutes` | internal/app/database_governance.go:703-729 | Two listings of the same tie-free records sort to the same sequence |
| `Ordering.LatestByKey` | internal/app/database_execution.go:800-815 | Sort in place, keep the first of every key: afterwards the slice is a sorted permutation of its input, and the index holds, for exactly the keys present, an item that no other item of its key beats; without ties it equals the running maximum per key |
| `Ordering.LatestOfIsIndex` | internal/app/database_connection_health.go:472-487 | The running maximum per key has exactly the keys present and a maximal item for each |
| `Ordering.LatestIndexUnique` | internal/app/database_connection_health.go:472-487 | Without ties there is only one such index, whatever order the items are listed in |
| `Posture.ComparatorsOrder` | internal/app/database_governance.go:703-729 | The comparators for changes, checks, executions and tests are strict weak orders, and records with different ids never tie |
| `PostureBuilder.Build` | internal/app/database_governance.go:667-990 | The imperative builder (three selection loops, two sorts, two latest-per-key indexes, a fold over checks, a fold over changes, the fallback) returns the snapshot of the order-free specification |
| `PostureBuilder.IndexChecks` | internal/app/database_governance.go:804-808 | The two indexes hold, for every id, exactly the checks that name the change, and exactly those that belong to the change set |
| `PostureBuilder.SelectRecords` | internal/app/database_governance.go:686-790 | The selection loops, sorts and indexes give the order-free selection and its latest-per-key indexes |
| `PostureBuilder.AssessRuntime` | internal/app/database_governance.go:826-886 | The nested switches over capability, status and latest test of the connection, and the execution, raise the specified findings in order |
| `PostureBuilder.FoldChecks` | internal/app/database_governance.go:804-887 | Counts, blockers, warnings and findings of the loop over the checks, in order |
| `PostureBuilder.IsCovered` | internal/app/database_governance.go:917-924 | Looking through the two indexes finds a required check of the phase exactly when some selected check linked to the change is one |
| `PostureBuilder.AssessChange` | internal/app/database_governance.go:892-924 | One turn of the loop over the changes: its blockers, warnings, highlights and the raised safety |
| `PostureBuilder.FoldChanges` | internal/app/database_governance.go:889-925 | The running rank and safety end as the maxima over all changes; the suppressed warning of a manual-only change after an irreversible one is accounted for |
| `PostureBuilder.Conclude` | internal/app/database_governance.go:927-976 | The fallback for bundles that are only guessed to touch a schema, the status switch and the guarded rule |
| `PostureLaws.SelectionMembers` | internal/app/database_governance.go:686-720 | What is selected, as sets: changes of the bundle's change sets; checks of those change sets or of a selected change |
| `PostureLaws.ContextIsFull` | internal/app/database_governance.go:731-790 | For a selected check, the filtered connections, tests and executions say exactly what all records of the scope say |
| `PostureLaws.RequiredFindings` | internal/app/database_governance.go:809-825 | A required check that has not passed raises exactly one finding: a blocker if it is a pre-deploy check or has failed or is blocked, a warning otherwise |
| `PostureLaws.CheckBlockersExact` | internal/app/database_governance.go:809-881 | A check raises a blocker if and only if it is a required one in a bad state or its connection may not be used |
| `PostureLaws.CheckWarningsExact` | internal/app/database_governance.go:815-886 | A check raises a warning if and only if it is still pending after deploy, lacks an execution, or its connection is doubtful |
| `PostureLaws.ChangeWarningsExact` | internal/app/database_governance.go:892-924 | The changes raise some warning if and only if one of them has a property that calls for one, although the warning of a manual-only change is dropped after an irreversible one |
| `PostureLaws.Classification` | internal/app/database_governance.go:792-976 | Status, rollback safety and compatibility of every posture as facts about sets of records: blocked iff a blocking condition holds, else review_required iff a doubt exists, else advisory; safety and rank are maxima over the changes with the fallback and the guarded rule |
| `PostureLaws.PendingIsNotSilent` | internal/app/database_governance.go:811-814 | A pending required check always comes with a blocker or a warning, so the pending count never decides the status alone |
| `PostureLaws.AdvisoryExactly` | internal/app/database_governance.go:804-965 | Advisory if and only if a classified change exists, every required check passed, every runtime check has a resolvable ready connection whose latest test passed and has been executed, and every change is free of risk and has the required checks it needs |
| `PostureLaws.AdvisoryIsPossible` | internal/app/database_governance.go:804-965 | A concrete bundle with a schema change and a required runtime gate whose posture is advisory |
| `PostureLaws.NoneHidesBlockers` | internal/app/database_governance.go:927-959 | In every environment, a concrete bundle with a failed required pre-deploy check, and so with a blocker, whose posture is "none" and lists no blocker |
| `PostureFindings.BlockingExactly` | internal/app/database_governance.go:804-925 | A message is in the blocking list exactly if some selected check, its connection or its latest test gives one of the ten reasons for it, or some selected change lacks a check it needs before the deployment; the reasons are written out over the listed records |
| `PostureFindings.WarningExactly` | internal/app/database_governance.go:804-937 | The same for the warning list: three reasons of a check, four of its connection and its latest test, six of a change (a manual rollback exactly if no older change of the bundle is irreversible), and the guess |
| `PostureFindings.FindingsExactly` | internal/app/database_governance.go:829-937 | The same for the reported findings: connections, capabilities, latest tests and latest executions of runtime checks, the target of every change, and the number of guessed change sets |
| `PostureFindings.HighlightsExactly` | internal/app/database_governance.go:892-925 | The same for the highlights of the changes |
| `PostureFindings.UngatedChangeBlocks` | internal/app/database_governance.go:917-920 | A selected change that alters or destroys a schema, is forward-incompatible or may lock, and is linked to no required pre-deploy check, makes the posture blocked and is named in the blocking list |
| `PostureFindings.MissingPreDeployExactly` | internal/app/database_governance.go:1111-1113 | A missing pre-deploy check is reported exactly for the names of such changes |
| `PostureFindings.MissingPostDeployExactly` | internal/app/database_governance.go:1115-1117 | A missing post-deploy check is reported exactly for the names of schema, backfill, expand-contract and destructive changes to which no required post-deploy check is linked |
| `PostureFindings.StatusByFindings` | internal/app/database_governance.go:956-962 | Whatever the records are, the status says which of the two finding lists are empty: the approval flag and the pending count never decide it on their own |
| `PostureContents.SnapshotMembers` | internal/app/database_governance.go:686-790 | The records of a snapshot, as sets over the listing: changes and checks of the change sets of the bundle, checks of those changes, and the connections, tests and executions those checks refer to |
| `PostureContents.SnapshotSorted` | internal/app/database_governance.go:703-729 | The order of a snapshot: changes oldest first, checks by phase name, name and id, tests and executions newest first |
| `PostureContents.SnapshotCounts` | internal/app/database_governance.go:804-976 | The counts of a posture are the numbers of selected changes, required checks and required checks without a verdict; approval is needed exactly if some change asks for it |
| `PostureContents.DedupeOrder` | internal/app/database_governance.go:963-976 | A message is listed before another one if it occurs before it |
| `PostureOrder.SelectionPermutes` | internal/app/database_governance.go:686-788 | The selection does not depend on listing order, except that connections keep it |
| `PostureOrder.SnapshotOrderFree` | internal/app/database_governance.go:667-990 | Permuting the bundle and everything the store lists leaves posture, findings, highlights, changes, checks, tests and executions unchanged, and permutes the connections |
| `PostureMonotone.AnotherChangeNeverImproves` | internal/app/database_governance.go:889-965 | With at least one classified change, recording another never lowers status, rollback safety or compatibility rank |
| `PostureMonotone.FirstChangeReplacesGuess` | internal/app/database_governance.go:927-976 | The first classified change of a bundle that was only guessed to touch a schema: the status does not fall iff something is still unclean, the rank does not fall iff the change is forward-incompatible, the safety does not fall iff the change is not reversible or is forward-incompatible |
| `PostureMonotone.FirstChangeLowersStatus` | internal/app/database_governance.go:927-959 | A concrete bundle that goes from review_required to advisory when its change is recorded |
| `PostureMonotone.LosingAPassNeverImproves` | internal/app/database_governance.go:809-825 | A required check that stops being passed never lowers status or rollback safety |
| `PostureMonotone.CoverageKept` | internal/app/database_governance.go:917-924 | Selecting more changes brings in more checks, but none that could cover an older change |
| `PostureSubject.PostureIgnoresSubject` | internal/app/database_governance.go:667-990 | However many checks get another type, specification, summary, scope, service, read-only flag or run time, the whole snapshot except the listed checks stays the same: posture, findings, highlights, changes, connections, tests and executions |
| `RuntimeCheck.VerdictExact` | internal/app/database_execution.go:475-737 | Every accepted specification is executable, with exact verdicts: blocked iff the connection does not resolve; errored iff session, commit or a looked-at query fails; passed iff nothing fails and the assertion holds in the catalog |
| `RuntimeCheck.PassesExactly` | internal/app/database_execution.go:607-702 | On a database on which nothing fails, an existence or migration check passes exactly if the table, column, index or marker row is there, and otherwise fails |
| `RuntimeCheck.CountsExactly` | internal/app/database_execution.go:704-790 | A row-count check passes exactly if the table is there and its number of rows compares with the expected one as the operator says |
| `RuntimeCheck.ParseExactly` | internal/app/database_execution.go:475-544 | Exactly which decoded specifications each type of check accepts, and the two defaults that are filled in |
| `RuntimeCheck.ResolveExactly` | internal/app/database_connection_health.go:289-326 | A connection resolves exactly if the variable that its source names has a value; each error class has exactly one cause |
| `RuntimeCheck.MarkerQueryErrorReadsAsFailed` | internal/app/database_execution.go:635-677 | A concrete migration-marker check whose assertion holds and whose last query errors, but not its commit, is reported failed, not errored |
| `GovernanceStore.PatchChange` | internal/app/database_governance.go:196-258 | Applying the fields of an update one by one gives the updated change, approval flag included, or the first error |
| `GovernanceStore.CheckLinks` | internal/app/database_governance.go:317-341 | A named change or connection must exist in the scope, change set and service of the check, or the first error is answered |
| `GovernanceStore.BuildCheck` | internal/app/database_governance.go:299-394 | A new check is scope-checked, linked, normalised and stamped as specified, or refused |
| `GovernanceStore.RelinkCheck` | internal/app/database_governance.go:432-462 | Relinking demands that change and connection exist in the check's own scope |
| `GovernanceStore.ReviseCheck` | internal/app/database_governance.go:463-540 | A runtime check refuses a status, a run time or a result summary from the caller; other modes than manual attestation force read-only |
| `GovernanceStore.SettleCheck` | internal/app/database_governance.go:528-544 | Setting the mode to runtime clears status and run time; a manual verdict without a run time is stamped |
| `GovernanceStore.MergeSource` | internal/app/database_execution.go:187-208 | Naming a source type drops the values of the other one unless the request sets them |
| `GovernanceStore.ReviseConnection` | internal/app/database_execution.go:174-225 | Applying the fields of an update one by one gives the revised connection with a normalised source, or the first error |
| `GovernanceStore.PatchConnection` | internal/app/database_execution.go:174-227 | The health evidence is reset iff one of the six inputs changed |
| `GovernanceStore.RecordStore.CreateChange` | internal/app/database_governance.go:97-167 | Stores a new change and answers it, or an error if the audit record written afterwards fails; a refused request stores nothing |
| `GovernanceStore.RecordStore.UpdateChange` | internal/app/database_governance.go:184-274 | Stores the updated change and answers it, or an error if the audit record written afterwards fails; a refused request stores nothing |
| `GovernanceStore.RecordStore.CreateCheck` | internal/app/database_governance.go:288-402 | Stores a new check and answers it, or an error if the audit record written afterwards fails; a refused request stores nothing |
| `GovernanceStore.RecordStore.UpdateCheck` | internal/app/database_governance.go:419-556 | Stores the updated check and answers it, or an error if the audit record written afterwards fails; a refused request stores nothing |
| `GovernanceStore.RecordStore.CreateConnection` | internal/app/database_execution.go:86-141 | Stores a new connection reference and answers it, or an error if the audit record written afterwards fails; a refused request stores nothing |
| `GovernanceStore.RecordStore.UpdateConnection` | internal/app/database_execution.go:158-236 | Stores the updated connection reference and answers it, or an error if the audit record written afterwards fails; a refused request stores nothing |
| `GovernanceStore.RecordStore.TestConnection` | internal/app/database_connection_health.go:79-157 | A connection test writes test, connection, test, connection and the audit record; any of the writes may be the last one that succeeds, and the answer is an error unless all do |
| `GovernanceStore.RecordStore.Admit` | internal/app/database_execution.go:283-302 | Only a runtime check with a stored connection and a specification that parses is executed |
| `GovernanceStore.RecordStore.ExecuteCheck` | internal/app/database_execution.go:269-374 | An execution writes execution, execution, connection, check and the audit record; any of the writes may be the last one that succeeds, the answer is an error unless all do, and a refused execution writes nothing |
| `GovernanceStore.RecordStore.Perform` | internal/app/database_execution.go:86-374 | Every event of a run is a call of one of the methods, with the effect that the laws of runs are about |
| `GovernanceStore.RecordStore.Replay` | internal/app/database_execution.go:86-374 | A legal run of method calls leaves the store of the run, and every record in it keeps the invariants |
| `GovernanceFields.ChangeUpdateAccepted` | internal/app/database_governance.go:184-266 | Exactly which updates of a change are accepted |
| `GovernanceFields.ChangeUpdateFields` | internal/app/database_governance.go:196-258 | Every field after an accepted update of a change: named fields have the value of the request, the others stay; approval is required exactly if it is kept, asked for, or demanded by a production change that locks, destroys or cannot be reverted |
| `GovernanceFields.ChangeCreatedExactly` | internal/app/database_governance.go:97-160 | Exactly which new changes are accepted, and every field of one that is |
| `GovernanceFields.CheckCreatedExactly` | internal/app/database_governance.go:288-394 | Exactly which new checks are accepted, and every field of one that is |
| `GovernanceFields.CheckUpdateAccepted` | internal/app/database_governance.go:419-546 | Exactly which updates of a check are accepted: links, choices, texts, and what a runtime check must have and may not be given |
| `GovernanceFields.CheckUpdateFields` | internal/app/database_governance.go:432-546 | Every field after an accepted update of a check, with the reset of a check whose mode is set to runtime and the time stamp of a manual verdict |
| `GovernanceFields.ConnectionCreatedExactly` | internal/app/database_execution.go:86-134 | Exactly which new connection references are accepted, and every field of one that is |
| `GovernanceFields.ConnectionUpdatedExactly` | internal/app/database_execution.go:158-228 | Exactly which updates of a connection reference are accepted, and every field after one that is; health is forgotten exactly if driver, source type, variable, secret, secret variable or read-only flag has changed |
| `GovernanceFields.SourceExactly` | internal/app/database_connection_health.go:193-233 | Exactly which sources are accepted, and the normal form that is stored |
| `GovernanceFields.NewCheckRefused` | internal/app/database_governance.go:299-341 | A refused check is answered with not found exactly if the first thing wrong is a record that does not exist, and with a validation error otherwise |
| `GovernanceFields.CheckUpdateRefused` | internal/app/database_governance.go:432-462 | The same for an update of a check |
| `GovernanceOutcomes.TestedExactly` | internal/app/database_connection_health.go:357-414 | After a test whose writes succeed: passed, ready and healthy exactly if the connection resolves and session, query and commit succeed; blocked exactly if it does not resolve; otherwise errored; with the error class of the first thing that failed |
| `GovernanceOutcomes.StoppedTestExactly` | internal/app/database_connection_health.go:90-146 | What a test leaves that stops after none, one, two or three of its writes |
| `GovernanceOutcomes.ExecutedCheckExactly` | internal/app/database_execution.go:354-368 | The check after an execution whose writes succeed: passed exactly if the connection resolves, nothing fails and the assertion holds; blocked exactly if the connection does not resolve or the session, the commit or a looked-at query fails; failed in every other case |
| `GovernanceOutcomes.ExecutionRecordExactly` | internal/app/database_execution.go:306-340 | The execution record after each number of writes, with the status of the run in terms of catalog and faults |
| `GovernanceOutcomes.ExecutedConnectionExactly` | internal/app/database_execution.go:341-353 | The connection after an execution: healthy only if the check passed, in error exactly if session or commit failed, with the error class of what failed |
| `GovernanceOutcomes.AdmittedExactly` | internal/app/database_execution.go:283-302 | Exactly which checks are executed, and which refusals are not found |
| `GovernanceRuns.NormalizeFixpoint` | internal/app/database_connection_health.go:193-233 | Normalising source values always gives values of the stored shape, and leaves stored values alone |
| `GovernanceRuns.UpdateKeepsOrForgetsHealth` | internal/app/database_execution.go:180-227 | An update keeps all health evidence if the six inputs stay the same, in particular if it names none of them, and otherwise forgets all of it |
| `GovernanceRuns.PatchedChangeOk` | internal/app/database_governance.go:241-247 | An update keeps scope and change set, and keeps manual approval on production changes that lock, destroy or cannot be reverted |
| `GovernanceRuns.NewCheckOk` | internal/app/database_governance.go:317-394 | A new check is in the scope of the change and the connection it names; a verdict has a run time; runtime checks have a connection and a specification that parses |
| `GovernanceRuns.PatchedCheckOk` | internal/app/database_governance.go:436-544 | An update keeps all of that |
| `GovernanceRuns.ExaminedOk` | internal/app/database_execution.go:341-352 | A probe or execution leaves evidence about the inputs it used, with LastHealthyAt not after LastTestedAt |
| `GovernanceRuns.StoredSourceSupported` | internal/app/database_connection_health.go:289-326 | A stored connection never resolves to unsupported |
| `GovernanceRuns.StepKeeps` | internal/app/database_governance.go:97-556 | Every operation, complete or cut short, keeps the record invariants and never removes or rescopes a record |
| `GovernanceRuns.RunKeeps` | internal/app/database_execution.go:86-374 | The record invariants hold in every state of every run: scope links, approval, run times, read-only, parsable specifications, health evidence about the current inputs |
| `CheckEvidence.UpdateKeepsOrClears` | internal/app/database_governance.go:493-540 | An update changes the status of a runtime check only by setting its mode again, which clears it |
| `CheckEvidence.StatusMirrorsLatestExecution` | internal/app/database_execution.go:324-368 | Over every run in which no execution stops between its store writes, a runtime check's status and run time are the image of its latest execution since its mode was set, or defined and empty if there is none |
| `CheckEvidence.MirrorsExactly` | internal/app/database_execution.go:320-368 | In every reachable state, whichever writes failed, a runtime check mirrors its latest execution if and only if the latest execution that wrote anything since the mode was set also reached the check |
| `CheckEvidence.StepMirrorsExactly` | internal/app/database_execution.go:320-368 | One operation breaks the correspondence if and only if it is an admitted execution that stops between its first and its last store write |
| `CheckEvidence.Reached` | internal/app/database_execution.go:354-368 | An execution that reaches its check leaves it mirroring that execution, whatever was lost before |
| `CheckEvidence.VerdictIsEarned` | internal/app/database_execution.go:324-368 | Over every run, whichever writes fail, a verdict of a runtime check is the image of some finished execution since its mode was set |
| `CheckEvidence.LostWriteLeavesStalePass` | internal/app/database_execution.go:341-368 | The worst case of that: an execution that does not pass and whose check write is lost leaves a passed check behind a newer execution with another verdict |
| `EvidenceExamples.PassOutlivesLostWrite` | internal/app/database_execution.go:341-368 | A concrete run from the empty store that ends in that case |
| `VerdictSubject.VerdictsCurrentExactly` | internal/app/database_governance.go:490-544 | Over every run, whichever writes fail: every verdict of every state is about the current type, specification and connection of its check and about the current inputs of that connection, if and only if no update of a runtime check with a verdict changes those without setting its mode and no update changes the inputs of a connection that such a check refers to |
| `VerdictSubject.StepCurrentExactly` | internal/app/database_execution.go:158-236 | One operation makes a verdict outdated if and only if it is such an update of the check or of its connection |
| `VerdictSubject.AnySpecificationIsAccepted` | internal/app/database_governance.go:490-544 | Any runtime check accepts another specification that parses, and keeps its verdict and run time |
| `EvidenceExamples.PassOutlivesSpecification` | internal/app/database_governance.go:490-544 | A concrete run from the empty store that ends with a passed check on a table that was never looked up |
| `AdvisoryExamples.AdvisoryIsReachable` | internal/app/database_governance.go:804-965 | A concrete run from the empty store that ends in an advisory posture with a required runtime gate, with every invariant, every check mirroring its execution and every verdict current |
| `AdvisoryExamples.AdvisoryOutlivesConnection` | internal/app/database_execution.go:158-236 | A concrete run without lost writes in which the connection is pointed at another database and tested there: the posture is advisory again, and the only execution looked at the first database |
| `ReachablePosture.ChangeFilterIsRedundant` | internal/app/database_governance.go:711-720 | In every reachable store the DatabaseChangeID filter selects nothing that the ChangeSetID filter does not, and the index by change adds nothing to the required-check test |
| `ReachablePosture.DeadBlockersUnreachable` | internal/app/database_governance.go:828-848 | In every reachable store the blockers for a missing, unavailable or unsupported connection cannot occur |
| `ReachablePosture.IndexHoldsMirroredRun` | internal/app/database_execution.go:800-815 | The latest execution in the builder's index of a passed runtime check is a passed one since its mode was set |
| `ReachablePosture.AdvisoryRestsOnExecutions` | internal/app/database_governance.go:804-965 | An advisory posture of a store whose checks mirror their executions: the latest listed execution of every required runtime check passed and started after the check's mode was last set; it ran the current type and specification over the current connection with its current inputs if and only if the verdict is current |
| `ReachablePosture.AdvisoryRestsOnSomeRun` | internal/app/database_governance.go:804-965 | If writes may be lost, an advisory posture still has a finished, passed execution since the mode was set for every required runtime check |
| `InstanceKey.NormalizeInstanceKey` | internal/app/integrations_live.go:716-746 | The rune loop with its dash flag joins the maximal runs of letters and digits with single dashes |
| `InstanceKey.KeyGrammar` | internal/app/integrations_live.go:716-746 | Every key is a word of letters and digits with single inner dashes |
| `InstanceKey.KeyIdempotent` | internal/app/integrations_live.go:716-746 | Normalising a key again gives the same key for every fallback |
| `InstanceKey.KeyExactly` | internal/app/integrations_live.go:721-744 | Whatever separates the words of the chosen text, its key is those words with single dashes between them |
| `InstanceKey.RunsSpell` | internal/app/integrations_live.go:726-740 | Every text is words between separators, so that law covers all texts |
| `InstanceKey.DefaultExactly` | internal/app/integrations_live.go:721-744 | A chosen text without letter or digit gives "default"; nothing else does, except texts whose only run is that word |
| `IntegrationStore.RetrySeconds` | internal/app/pilot_runtime_depth.go:159-168 | The doubling loop computes min(900, 60*2^(k-1)) and never doubles more than four times |
| `IntegrationStore.NextSyncTime` | internal/app/pilot_runtime_depth.go:151-176 | The next attempt: nothing unless enabled and scheduled; after an error the smaller of interval and backoff; otherwise the interval |
| `IntegrationStore.ApplyScheduleDefaults` | internal/app/pilot_runtime_depth.go:53-78 | Defaults, clearing and the first due time as specified |
| `IntegrationStore.RecordRun` | internal/app/integrations_live.go:507-536 | The fields a run sets on the record, in order, as one specified record |
| `IntegrationStore.IntegrationService.CreateIntegration` | internal/app/operations.go:378-457 | A create with one looked-up duplicate candidate refuses exactly the taken keys; a failing audit record leaves the integration stored |
| `IntegrationStore.IntegrationService.UpdateIntegration` | internal/app/operations.go:459-578 | An update with five looked-up candidates refuses exactly the keys another integration has; a failing audit record leaves the update stored |
| `IntegrationStore.IntegrationService.PersistRun` | internal/app/integrations_live.go:498-549 | The record and exactly one run are written together, or neither |
| `IntegrationStore.IntegrationService.SyncWithTrigger` | internal/app/integrations_live.go:268-328 | Every path persists exactly one run and clears the claim unless that transaction fails, and then changes nothing; success iff configuration, kind, provider, transaction and graph all allow it |
| `IntegrationStore.IntegrationService.Claim` | internal/app/store.go:935-953 | A claim is taken iff the integration is scheduled and due and not held by a young claim; an unknown integration is an error |
| `IntegrationStore.IntegrationService.Perform` | internal/app/operations.go:378-578 | Every event of a run is a call of one of the methods, with the effect that the laws of runs are about |
| `IntegrationStore.IntegrationService.Replay` | internal/app/operations.go:378-578 | A legal run of method calls leaves the registry of the run, well scheduled and with unique keys |
| `IntegrationFields.CreatedExactly` | internal/app/operations.go:378-457 | Exactly which integrations can be created, and every field of a new one, defaults and first due time included |
| `IntegrationFields.UpdatedExactly` | internal/app/operations.go:459-568 | Exactly which updates are accepted, and every field after one that is: what disabling and unscheduling clear, and when the next sync is due |
| `IntegrationFields.PersistedExactly` | internal/app/integrations_live.go:507-536 | Every field after a persisted run, for tests and syncs, successes and failures |
| `IntegrationFields.PersistedSchedule` | internal/app/pilot_runtime_depth.go:151-176 | The next due time, interval and threshold after a persisted run |
| `IntegrationFields.FreshnessExactly` | internal/app/pilot_runtime_depth.go:80-119 | Exactly when an integration shows as each of the eight states, when it counts as stale, and with which lag |
| `IntegrationFields.DefaultsByKind` | internal/app/pilot_runtime_depth.go:18-40 | The default interval of every kind and the default threshold of every interval |
| `IntegrationRuns.CreatedOk` | internal/app/operations.go:388-446 | A created integration is well scheduled, has no failures, and its key was free |
| `IntegrationRuns.UpdatedOk` | internal/app/operations.go:532-568 | An update keeps the schedule invariant, frees the counter and the claim exactly when it disables or unschedules, and leaves sync times alone |
| `IntegrationRuns.PersistedOk` | internal/app/integrations_live.go:498-549 | A persisted run keeps the schedule invariant, the identity and the flags, and clears the claim |
| `IntegrationRuns.RunKeeps` | internal/app/operations.go:378-578 | In every state of every run: next sync set iff enabled and scheduled; disabled implies neither scheduled nor controlled; control implies active_control mode; scheduled implies positive interval and threshold; claims only on scheduled integrations; organization, kind and key are unique |
| `IntegrationRuns.CounterCountsFailures` | internal/app/integrations_live.go:515-537 | Over every run from an empty registry the counter is the number of failed syncs since the last successful sync or the last update that left the integration disabled |
| `IntegrationRuns.LeaseHolds` | internal/app/store.go:935-953 | While no run is persisted and no update unschedules it, a claimed integration cannot be claimed again within the time to live, over any interleaving of events |
| `ScheduleLaws.BackoffTable` | internal/app/pilot_runtime_depth.go:159-168 | The delays are 60, 120, 240, 480 and then 900 seconds |
| `ScheduleLaws.BackoffGrows` | internal/app/pilot_runtime_depth.go:159-168 | The delay never decreases with the number of failures and stays between 60 and 900 |
| `ScheduleLaws.TotalClosedForm` | internal/app/pilot_runtime_depth.go:151-176 | The total delay of k failures is 60*(2^n-1) + (k-n)*min(interval, 900), where n is the smaller of k and the number of delays 60, 120, 240, 480 below the interval |
| `ScheduleLaws.ChainDelay` | internal/app/integrations_live.go:515-537 | In a chain of failing syncs, each run when due, the counter after k failures is k and the next attempt is due exactly the total delay after the first |
| `ScheduleLaws.RetryBelowInterval` | internal/app/pilot_runtime_depth.go:151-168 | After any number of failures the retry is after the failure and never later than the interval, and it is earlier than the interval if and only if the backoff is below the interval |
| `ScheduleLaws.AlwaysBelowInterval` | internal/app/pilot_runtime_depth.go:151-168 | It is earlier after every number of failures if and only if the interval is above 900 seconds |
| `ScheduleLaws.RetryAtInterval` | internal/app/pilot_runtime_depth.go:151-168 | A well-scheduled integration with the default interval of Kubernetes and three failures: the next failure is retried exactly one interval later |
| `ScheduleLaws.StalenessPersists` | internal/app/pilot_runtime_depth.go:80-119 | A record that is stale stays stale until it is written again |
| `ScheduleLaws.DefaultThresholdCoversInterval` | internal/app/pilot_runtime_depth.go:29-51 | The default threshold is at least twice the interval |
| `ScheduleLaws.FreshUntilNextSync` | internal/app/pilot_runtime_depth.go:80-119 | After a successful sync the integration is fresh at every moment up to the next scheduled sync if and only if the threshold is at least the interval |
| `ScheduleLaws.FailureShows` | internal/app/pilot_runtime_depth.go:100-106 | A failed sync later than the last success shows as error, or stale_error exactly past the threshold, and never as fresh |
| `ScheduleLaws.OnlySuccessEndsFailure` | internal/app/integrations_live.go:515-535 | A persisted run ends that state if and only if it is a successful sync |
| `ScheduleLaws.UpdateKeepsFailure` | internal/app/operations.go:459-578 | An update neither starts nor ends it |
| `ScheduleLaws.NeverFreshBeforeSuccess` | internal/app/pilot_runtime_depth.go:80-119 | Over every run without a successful sync, a failing integration stays failing and is never fresh; while scheduled it shows error or stale_error |
| `ScheduleLaws.TestReschedules` | internal/app/integrations_live.go:507-537 | After a connection test an integration can be claimed if and only if it is scheduled and the delay after the test is over: the test puts off the next sync and takes any claim away |
| `ScheduleLaws.TestFreesClaim` | internal/app/integrations_live.go:536-537 | A test during a claimed sync lets another worker claim within the time to live of the first claim if and only if the integration is scheduled and the delay ends by then, which a delay over 120 seconds never does |
| `ScheduleLaws.FailingTestFreesClaim` | internal/app/integrations_live.go:536-537 | It does happen: a test that fails within a minute of the claim, with at most one earlier failure |
| `ScheduleLaws.NeverSucceededStaysUnstale` | internal/app/pilot_runtime_depth.go:87-106 | An integration that never succeeded measures its lag from the last attempt, so whether it is stale at the next retry does not depend on when it first failed |
| `Discovery.DiscoveryStore.Observe` | internal/app/discovery_helpers.go:99-177 | One workload: mappings are filled in only where empty, status follows the mapping, and nothing is written if ownership cannot be inferred |
| `Discovery.DiscoveryStore.Sync` | internal/app/discovery_helpers.go:65-97 | The loop observes every parsable item, stops at the first that fails, and marks the unseen ones missing only at the end; the answer counts the items left without a service or an environment |
| `Discovery.DiscoveryStore.MarkUnseen` | internal/app/discovery_helpers.go:373-403 | Exactly the unseen resources of the integration are marked missing |
| `DiscoveryFields.SyncSucceedsExactly` | internal/app/discovery_helpers.go:65-90 | A sync succeeds exactly if the owning team of every shown workload can be looked up, judged by what was known before the sync and by the catalog |
| `DiscoveryFields.SyncedExactly` | internal/app/discovery_helpers.go:99-177 | What a successful sync leaves of every resource: a shown workload is mapped from what was known before the sync and reported as its last item says, an unshown one is missing and otherwise as it was, nothing else is touched |
| `DiscoveryFields.UnmappedExactly` | internal/app/discovery_helpers.go:74-90 | The answer is the number of items for whose workload neither the store nor the catalog has both a service and an environment |
| `DiscoveryFields.GuessExactly` | internal/app/discovery_helpers.go:335-353 | The first catalog entry whose slug or name matches is taken, and nothing if none does |
| `DiscoveryFields.TokenExactly` | internal/app/discovery_helpers.go:355-362 | Names match up to case, outer white space and one of four suffixes |
| `DiscoveryLaws.ObservedSettles` | internal/app/discovery_helpers.go:132-177 | Observing a workload keeps set mappings and leaves nothing for the same catalog to add |
| `DiscoveryLaws.MissingExactly` | internal/app/discovery_helpers.go:65-90 | After a sync a stored workload of the integration is missing iff the inventory did not show it, every shown one is stored and other resources are untouched; a sync that stops half-way marks nothing missing and has touched only shown workloads |
| `DiscoveryLaws.Replay` | internal/app/discovery_helpers.go:19-97 | A sequence of sync calls leaves the resources that the laws of many syncs speak of, with every mapping kept |
| `DiscoveryLaws.MappingsLast` | internal/app/discovery_helpers.go:141-165 | No number of syncs, of whatever integrations and catalogs, changes a set service, environment or project mapping |
| `DiscoveryLaws.ReturningWorkloadIsMapped` | internal/app/discovery_helpers.go:141-176 | A mapped workload that vanishes for any number of syncs and returns is mapped again with the same service and environment |
| `DiscoveryLaws.SyncIsIdempotent` | internal/app/discovery_helpers.go:65-177 | Repeating a successful sync with the same inventory and catalog succeeds and changes only times |
| `Outbox.AppendEntry` | internal/app/outbox_recovery.go:144-159 | Appending keeps the last ten entries, the new one last |
| `Outbox.OutboxStore.UpdateIfStatus` | internal/app/store.go:2056-2068 | An atomic conditional write on the status |
| `Outbox.OutboxStore.Prepare` | internal/app/outbox_recovery.go:35-56 | The read half of a recovery, with its four ways to refuse |
| `Outbox.OutboxStore.Commit` | internal/app/outbox_recovery.go:58-78 | The transaction: it succeeds iff the status is still the one read and the audit record can be written; otherwise nothing changes |
| `Outbox.OutboxStore.Recover` | internal/app/outbox_recovery.go:14-79 | With nothing in between, a retry succeeds iff the event is the operator's and in error, a requeue iff it is the operator's and dead-lettered; the event is then pending, unclaimed, due at once, with one more history entry and one audit record |
| `Outbox.OutboxStore.Claim` | internal/app/store.go:2008-2043 | The part of a dispatcher's claim that concerns one event |
| `Outbox.OutboxStore.Complete` | internal/events/bus.go:114-162 | The end of a dispatch writes the dispatcher's copy whatever the stored event has become, and nothing if there is none |
| `Outbox.OutboxStore.Publish` | internal/events/bus.go:83-107 | A published event waits for a dispatcher with an empty history |
| `Outbox.DispatchedExactly` | internal/events/bus.go:114-162 | Every field after a dispatch, by its outcome: delivered, failed for now, failed for good |
| `Outbox.ClaimableAfterDispatch` | internal/app/store.go:2008-2043 | After a dispatch an event can be claimed again exactly if it failed for now and the delay is over |
| `Outbox.ClaimableAfterClaim` | internal/app/store.go:2008-2043 | A claimed event can be claimed by another dispatcher exactly once the first claim is stale |
| `Outbox.ClaimableAtOnce` | internal/app/store.go:2008-2043 | A new event and a recovered one can be claimed at any time |
| `OutboxService.OutboxSystem.Perform` | internal/app/outbox_recovery.go:22-79 | Every step of an interleaving is a call of the store, with the effect that the laws of interleavings are about |
| `OutboxService.OutboxSystem.Replay` | internal/app/outbox_recovery.go:22-79 | Any interleaving of calls on an empty store leaves the world of the run |
| `OutboxRuns.AuditsAreMoves` | internal/app/outbox_recovery.go:58-79 | Over every interleaving, the audit trail of an event lists exactly its moves from error or dead_letter back to pending, with the status each left, in order |
| `OutboxRuns.SuccessesAreAudits` | internal/app/outbox_recovery.go:58-79 | Over every interleaving, successful recoveries and audit records are equally many |
| `OutboxRuns.AuditedByAction` | internal/app/outbox_recovery.go:14-20 | Over every interleaving, an audit record is of a retry exactly if the event was in error, and of a requeue exactly if it was dead-lettered |
| `OutboxRuns.OnlyFailureMakesRecoverable` | internal/events/bus.go:114-162 | An event that is pending and later recoverable has had a failed dispatch in between |
| `OutboxRuns.RecoveriesAlternate` | internal/app/outbox_recovery.go:47-62 | Between two recoveries of one event a dispatcher has written a failed outcome for it |
| `OutboxRuns.HistoryGenuine` | internal/app/outbox_recovery.go:144-159 | Over every interleaving, a stored history has at most ten entries and all of them are logged recoveries of that event |
| `OutboxRuns.HistoryExactly` | internal/app/outbox_recovery.go:58-79 | The stored history is the last ten entries of the full log in every state of a run if nobody writes a copy read before a recovery of the same event, and, when no two entries of a log are equal, only if |
| `OutboxRuns.LateCommitLosesEntry` | internal/app/outbox_recovery.go:58-79 | A concrete run in which an overtaken recovery succeeds and erases the other recovery's entry |
| `RollbackPolicies.BeatsIsStrictWeak` | internal/app/runtime_history.go:237-259 | The comparator is a strict weak order whose ties are equal specificity, priority and creation time |
| `RollbackPolicies.BeatsExactly` | internal/app/runtime_history.go:237-276 | A policy outranks another one by restricting more of service and environment, then by restricting the project, then by priority, then by age |
| `RollbackPolicies.DefaultLimits` | internal/app/runtime_history.go:278-321 | The limits of the built-in policy for exposed and for unexposed rollouts, and what counts as exposed |
| `RollbackPolicies.RiskTightens` | internal/app/runtime_history.go:278-321 | Where no stored policy applies, a riskier rollout never gets a looser limit or newly ignored signals, and the limits tighten exactly between an unexposed and an exposed one |
| `RollbackPolicies.Resolve` | internal/app/runtime_history.go:212-262 | Filter, sort in place and take the head: the result is a best applicable policy, or the built-in default if none applies |
| `RollbackPolicies.ListingOrderFree` | internal/app/runtime_history.go:237-261 | Any listing order yields an equally ranked policy |
| `RollbackPolicies.DeterminedExactly` | internal/app/runtime_history.go:237-261 | The policy is determined if and only if no other applicable policy ties with it |
| `RollbackPolicies.AddingPolicy` | internal/app/runtime_history.go:213-233 | A disabled or out-of-scope policy changes nothing; one that applies displaces the result exactly when it outranks it |
| `RollbackPolicies.NarrowerWins` | internal/app/runtime_history.go:264-276 | A policy is never chosen over an applicable one that restricts all its scope fields and one more, whatever their priorities |
| `RollbackPolicies.DefaultExactly` | internal/app/runtime_history.go:233-236 | The built-in default is used if and only if nothing applies |

## Left out

- Authorization, audit payloads, status events, team lookups, metadata and error texts of the modelled operations; of audit records only whether they are written is kept, and for the outbox their sequence.
- Evidence lists, result details, trigger names, actors and UpdatedAt of the governed records: they do not feed any modelled decision.
- HTTP handlers, page state, CLI, webhooks, onboarding and the Kubernetes, Prometheus, GitHub and GitLab clients: plumbing.
- SQL text, DSN resolution and error redaction: an abstract catalog and abstract failures stand for them.
- GovernanceStore.RecordStore.CreateChange: a failing store write of a create or an update is the same as no operation, and is not modelled apart.
- IntegrationStore.IntegrationService.SyncWithTrigger: the repositories, resources and relationships a sync stores are not modelled; their outcome is a parameter.
- IntegrationRuns.RunKeeps: an update is one step from its read to its write, as are create and sync; concurrent updates of one integration are not interleaved.
- OutboxRuns.HistoryExactly: two recoveries with identical entries (same operator, same nanosecond) would hide a stale write from the "only if" direction, so entries are taken to be distinct.
- Outbox.OutboxStore.Claim: the order and the limit of a claimed batch, the retry delay of a dispatcher and its dead-letter rule; outcomes are parameters.
- The in-memory store shares metadata maps between reads and has no rollback, so there even a refused recovery can leave a history entry; the model follows the durable store.
- Diagnosis fields of history entries (error class, dead-letter time, hint) and the "last action" metadata, which repeat the newest entry.
- Discovery of Prometheus resources: the same reconcile with another key and no name-based mapping.
- Provenance, owner team and provider details of discovered resources; only whether the owning team can be looked up is kept.
- Create, update and scope validation of rollback policies; names and descriptions of policies.
- Release rollout transitions, policy evaluation, risk scoring and release analysis: separate engines.
