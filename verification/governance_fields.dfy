/**
 What each operation of the record store leaves in every field, and exactly which requests it accepts, in the
 terms of the request.
 */
module GovernanceFields {
  import opened Records
  import opened RuntimeCheck
  import opened Governance
  import Text

  // ----- scopes -----

  /** The names of a scope exist and belong together. */
  predicate ScopeExists(cat: Catalog, scope: Scope) {
    && !Text.IsBlank(scope.organization) && !Text.IsBlank(scope.project) && !Text.IsBlank(scope.environment)
    && scope.project in cat.projects && cat.projects[scope.project] == scope.organization
    && scope.environment in cat.environments
    && cat.environments[scope.environment].organization == scope.organization
    && cat.environments[scope.environment].project == scope.project
  }

  /** The change set exists in the scope, its service exists, and is the one the request names, if it names one. */
  predicate ChangeSetExists(cat: Catalog, scope: Scope, serviceId: string, changeSetId: string) {
    && ScopeExists(cat, scope)
    && !Text.IsBlank(changeSetId) && Text.Trim(changeSetId) in cat.changeSets
    && var changeSet := cat.changeSets[Text.Trim(changeSetId)];
       && changeSet.scope == scope && changeSet.serviceId in cat.services
       && (!Text.IsBlank(serviceId) ==> Text.Trim(serviceId) == changeSet.serviceId)
  }

  lemma ChangeScopeExactly(cat: Catalog, scope: Scope, serviceId: string, changeSetId: string)
    ensures var r := ValidChangeScope(cat, scope, serviceId, changeSetId);
            && (r.Ok? <==> ChangeSetExists(cat, scope, serviceId, changeSetId))
            && (r.Ok? ==> r.value == (cat.environments[scope.environment], cat.changeSets[Text.Trim(changeSetId)]))
  {
  }

  lemma ConnectionScopeExactly(cat: Catalog, scope: Scope, serviceId: string)
    ensures var r := ValidConnectionScope(cat, scope, serviceId);
            && (r.Ok? <==>
                  && ScopeExists(cat, scope)
                  && (!Text.IsBlank(serviceId) ==>
                        && Text.Trim(serviceId) in cat.services
                        && cat.services[Text.Trim(serviceId)].organization == scope.organization
                        && cat.services[Text.Trim(serviceId)].project == scope.project))
            && (r.Ok? ==> r.value == Text.Trim(serviceId))
  {
  }

  // ----- fields of requests -----

  /** A text of an update: named texts are trimmed, others stay. */
  predicate TextSet(patch: Option<string>, before: string, after: string) {
    after == match patch case None => before case Some(text) => Text.Trim(text)
  }

  predicate Set<T(==)>(patch: Option<T>, before: T, after: T) {
    after == match patch case None => before case Some(value) => value
  }

  /** An enumerated field of an update: a named one must have a value, and gets it. */
  predicate Chosen<T(==)>(patch: Option<Input<T>>, before: T, after: T) {
    match patch case None => after == before case Some(input) => input == Given(after)
  }

  /** An enumerated field with a default for the empty text. */
  predicate ChosenOr<T(==)>(patch: Option<Input<T>>, default: T, before: T, after: T) {
    match patch
    case None => after == before
    case Some(input) => input == Given(after) || (input == Absent && after == default)
  }

  predicate Usable<T>(patch: Option<Input<T>>) { patch.Some? ==> patch.value.Given? }
  predicate UsableOr<T>(patch: Option<Input<T>>) { patch.Some? ==> !patch.value.Unsupported? }

  // ----- database changes -----

  /** An update is accepted exactly if the fields it names have values and no text becomes empty. */
  lemma ChangeUpdateAccepted(cat: Catalog, c: DatabaseChange, patch: ChangePatch)
    ensures UpdatedChange(cat, c, patch).Ok? <==>
            && c.scope.environment in cat.environments
            && Usable(patch.operation) && Usable(patch.intent) && Usable(patch.compatibility)
            && Usable(patch.reversibility) && UsableOr(patch.risk) && UsableOr(patch.status)
            && PatchedText(patch.name, c.name) != "" && PatchedText(patch.datastore, c.datastore) != ""
            && PatchedText(patch.summary, c.summary) != ""
  {
  }

  /** Production changes that lock, destroy or cannot be reverted always need an approval. */
  predicate ApprovalDemanded(production: bool, c: DatabaseChange) {
    production && (c.lockRisk || c.operation == DestructiveChange || c.reversibility == Irreversible)
  }

  /** Every field after an accepted update of a change. */
  lemma ChangeUpdateFields(cat: Catalog, c: DatabaseChange, patch: ChangePatch, next: DatabaseChange)
    requires UpdatedChange(cat, c, patch) == Ok(next)
    ensures next.id == c.id && next.createdAt == c.createdAt && next.scope == c.scope
    ensures next.serviceId == c.serviceId && next.changeSetId == c.changeSetId
    ensures TextSet(patch.name, c.name, next.name) && TextSet(patch.datastore, c.datastore, next.datastore)
    ensures TextSet(patch.summary, c.summary, next.summary)
    ensures Chosen(patch.operation, c.operation, next.operation) && Chosen(patch.intent, c.intent, next.intent)
    ensures Chosen(patch.compatibility, c.compatibility, next.compatibility)
    ensures Chosen(patch.reversibility, c.reversibility, next.reversibility)
    ensures ChosenOr(patch.risk, Medium, c.risk, next.risk)
    ensures ChosenOr(patch.status, ChangeDefined, c.status, next.status)
    ensures Set(patch.lockRisk, c.lockRisk, next.lockRisk)
    ensures c.scope.environment in cat.environments
    ensures next.manualApprovalRequired <==>
            || (patch.manualApproval == None && c.manualApprovalRequired) || patch.manualApproval == Some(true)
            || ApprovalDemanded(cat.environments[c.scope.environment].production, next)
  {
  }

  /** What a new change names exists, and its choices have values. */
  predicate ChangeSound(cat: Catalog, req: NewChange) {
    && ChangeSetExists(cat, req.scope, req.serviceId, req.changeSetId)
    && req.operation.Given? && req.intent.Given? && req.compatibility.Given? && req.reversibility.Given?
    && !req.risk.Unsupported?
  }

  /** The record that a sound request describes. */
  predicate DescribesChange(cat: Catalog, req: NewChange, id: string, now: Time, c: DatabaseChange) {
    && c.id == id && c.createdAt == now && c.scope == req.scope && c.changeSetId == Text.Trim(req.changeSetId)
    && c.changeSetId in cat.changeSets && c.serviceId == cat.changeSets[c.changeSetId].serviceId
    && c.name == Text.Trim(req.name) && c.datastore == Text.Trim(req.datastore)
    && c.summary == Text.Trim(req.summary) && c.lockRisk == req.lockRisk && c.status == ChangeDefined
    && req.operation == Given(c.operation) && req.intent == Given(c.intent)
    && req.compatibility == Given(c.compatibility) && req.reversibility == Given(c.reversibility)
    && (req.risk == Given(c.risk) || (req.risk == Absent && c.risk == Medium))
    && c.scope.environment in cat.environments
    && (c.manualApprovalRequired <==>
          req.manualApproval || ApprovalDemanded(cat.environments[c.scope.environment].production, c))
  }

  lemma UnsoundChangeRefused(cat: Catalog, req: NewChange, id: string, now: Time)
    requires !ChangeSound(cat, req)
    ensures CreatedChange(cat, req, id, now).Err?
  {
    ChangeScopeExactly(cat, req.scope, req.serviceId, req.changeSetId);
  }

  lemma SoundChangeDescribed(cat: Catalog, req: NewChange, id: string, now: Time) returns (c: DatabaseChange)
    requires ChangeSound(cat, req)
    ensures DescribesChange(cat, req, id, now, c)
    ensures CreatedChange(cat, req, id, now) ==
            if c.name != "" && c.datastore != "" && c.summary != "" then Ok(c) else Err(Validation)
  {
    ChangeScopeExactly(cat, req.scope, req.serviceId, req.changeSetId);
    var environment := cat.environments[req.scope.environment];
    c := DatabaseChange(
      id, now, req.scope, cat.changeSets[Text.Trim(req.changeSetId)].serviceId, Text.Trim(req.changeSetId),
      Text.Trim(req.name), Text.Trim(req.datastore), Text.Trim(req.summary), req.operation.value, req.intent.value,
      req.compatibility.value, req.reversibility.value, if req.risk.Given? then req.risk.value else Medium,
      req.lockRisk,
      req.manualApproval
        || RequiresApproval(environment, req.operation.value, req.reversibility.value, req.lockRisk), ChangeDefined);
  }

  /** Exactly which new changes are accepted, and every field of one that is. */
  lemma ChangeCreatedExactly(cat: Catalog, req: NewChange, id: string, now: Time)
    ensures var r := CreatedChange(cat, req, id, now);
            && (r.Ok? <==>
                  && ChangeSound(cat, req)
                  && Text.Trim(req.name) != "" && Text.Trim(req.datastore) != "" && Text.Trim(req.summary) != "")
            && (r.Ok? ==> DescribesChange(cat, req, id, now, r.value))
  {
    if ChangeSound(cat, req) {
      var c := SoundChangeDescribed(cat, req, id, now);
    } else {
      UnsoundChangeRefused(cat, req, id, now);
    }
  }

  // ----- validation checks -----

  /** A check that names a change names a stored one of its scope and change set. */
  predicate NamesChange(s: Store, changeId: string, scope: Scope, changeSetId: string) {
    changeId != "" ==>
      changeId in s.changes && s.changes[changeId].scope == scope && s.changes[changeId].changeSetId == changeSetId
  }

  /** A check that names a connection names a stored one of its scope, for its service or for any. */
  predicate NamesConnection(s: Store, connectionId: string, scope: Scope, serviceId: string) {
    connectionId != "" ==>
      && connectionId in s.connections && s.connections[connectionId].scope == scope
      && (s.connections[connectionId].serviceId == "" || s.connections[connectionId].serviceId == serviceId)
  }

  lemma LinksExactly(s: Store, id: string, scope: Scope, owner: string)
    ensures LinkedChange(s, id, scope, owner).Ok? <==> NamesChange(s, id, scope, owner)
    ensures LinkedConnection(s, id, scope, owner).Ok? <==> NamesConnection(s, id, scope, owner)
  {
  }

  /** The mode that a request leads to. */
  function ModeFor(input: Input<Mode>): Mode { if input.Given? then input.value else ManualAttestation }

  /** What a new check names exists, and its choices have values. */
  predicate CreationSound(cat: Catalog, s: Store, req: NewCheck) {
    && ChangeSetExists(cat, req.scope, req.serviceId, req.changeSetId)
    && req.phase.Given? && req.checkType.Given? && !req.mode.Unsupported? && !req.status.Unsupported?
    && NamesChange(s, Text.Trim(req.changeId), req.scope, Text.Trim(req.changeSetId))
    && NamesConnection(s, Text.Trim(req.connectionId), req.scope, cat.changeSets[Text.Trim(req.changeSetId)].serviceId)
  }

  /** The record that a sound request describes. */
  predicate DescribesCheck(cat: Catalog, req: NewCheck, id: string, now: Time, k: Check) {
    && k.id == id && k.scope == req.scope && k.changeSetId == Text.Trim(req.changeSetId)
    && k.changeSetId in cat.changeSets && k.serviceId == cat.changeSets[k.changeSetId].serviceId
    && k.changeId == Text.Trim(req.changeId) && k.connectionId == Text.Trim(req.connectionId)
    && k.name == Text.Trim(req.name) && k.summary == Text.Trim(req.summary)
    && k.required == req.required && k.specification == req.specification
    && req.phase == Given(k.phase) && req.checkType == Given(k.checkType) && k.mode == ModeFor(req.mode)
    && (req.status == Given(k.status) || (req.status == Absent && k.status == CheckDefined))
    && (k.readOnly <==> req.readOnly || k.mode != ManualAttestation)
    && k.lastRunAt == if k.status in {CheckPassed, CheckFailed, CheckBlocked} then Some(now) else None
  }

  lemma UnsoundCheckRefused(cat: Catalog, s: Store, req: NewCheck, id: string, now: Time)
    requires !CreationSound(cat, s, req)
    ensures CreatedCheck(cat, s, req, id, now).Err?
  {
    ChangeScopeExactly(cat, req.scope, req.serviceId, req.changeSetId);
    if ChangeSetExists(cat, req.scope, req.serviceId, req.changeSetId) {
      UnlinkedCheckRefused(cat, s, req, id, now, cat.changeSets[Text.Trim(req.changeSetId)]);
    }
  }

  lemma UnlinkedCheckRefused(cat: Catalog, s: Store, req: NewCheck, id: string, now: Time, changeSet: ChangeSetRecord)
    requires ValidChangeScope(cat, req.scope, req.serviceId, req.changeSetId).Ok?
    requires ValidChangeScope(cat, req.scope, req.serviceId, req.changeSetId).value.1 == changeSet
    requires req.phase.Given? && req.checkType.Given? && !req.mode.Unsupported? && !req.status.Unsupported? ==>
               || !NamesChange(s, Text.Trim(req.changeId), req.scope, Text.Trim(req.changeSetId))
               || !NamesConnection(s, Text.Trim(req.connectionId), req.scope, changeSet.serviceId)
    ensures CreatedCheck(cat, s, req, id, now).Err?
  {
    LinksExactly(s, Text.Trim(req.changeId), req.scope, Text.Trim(req.changeSetId));
    LinksExactly(s, Text.Trim(req.connectionId), req.scope, changeSet.serviceId);
  }

  lemma SoundCheckDescribed(cat: Catalog, s: Store, req: NewCheck, id: string, now: Time) returns (k: Check)
    requires CreationSound(cat, s, req)
    ensures DescribesCheck(cat, req, id, now, k) && CreatedCheck(cat, s, req, id, now) == AcceptedCheck(k)
  {
    ChangeScopeExactly(cat, req.scope, req.serviceId, req.changeSetId);
    var changeSetId := Text.Trim(req.changeSetId);
    var serviceId := cat.changeSets[changeSetId].serviceId;
    LinksExactly(s, Text.Trim(req.changeId), req.scope, changeSetId);
    LinksExactly(s, Text.Trim(req.connectionId), req.scope, serviceId);
    var status := if req.status.Given? then req.status.value else CheckDefined;
    k := Check(id, req.scope, serviceId, changeSetId, Text.Trim(req.changeId), Text.Trim(req.connectionId),
               Text.Trim(req.name), Text.Trim(req.summary), req.phase.value, req.checkType.value,
               req.readOnly || ModeFor(req.mode) != ManualAttestation, req.required, ModeFor(req.mode),
               req.specification, status, if Terminal(status) then Some(now) else None);
  }

  lemma AcceptedExactly(k: Check)
    ensures AcceptedCheck(k).Ok? <==>
            && k.name != "" && k.summary != "" && !k.specification.Blank?
            && (k.mode == RuntimeReadOnly ==>
                  && k.connectionId != "" && k.status == CheckDefined
                  && Parse(RuntimeReadOnly, k.checkType, k.specification).Ok?)
    ensures AcceptedCheck(k).Ok? ==> AcceptedCheck(k).value == k
  {
  }

  /** Exactly which new checks are accepted, and every field of one that is. */
  lemma CheckCreatedExactly(cat: Catalog, s: Store, req: NewCheck, id: string, now: Time)
    ensures var r := CreatedCheck(cat, s, req, id, now);
            && (r.Ok? <==>
                  && CreationSound(cat, s, req)
                  && Text.Trim(req.name) != "" && Text.Trim(req.summary) != "" && !req.specification.Blank?
                  && (req.mode == Given(RuntimeReadOnly) ==>
                        && Text.Trim(req.connectionId) != "" && req.status in {Absent, Given(CheckDefined)}
                        && Parse(RuntimeReadOnly, req.checkType.value, req.specification).Ok?))
            && (r.Ok? ==> DescribesCheck(cat, req, id, now, r.value))
  {
    if CreationSound(cat, s, req) {
      var k := SoundCheckDescribed(cat, s, req, id, now);
      AcceptedExactly(k);
    } else {
      UnsoundCheckRefused(cat, s, req, id, now);
    }
  }

  /** The mode of a check after an update. */
  function ModeAfter(k: Check, patch: CheckPatch): Mode {
    if patch.mode.Some? then ModeFor(patch.mode.value) else k.mode
  }

  lemma RelinkAccepted(s: Store, k: Check, patch: CheckPatch)
    ensures var r := RelinkedCheck(s, k, patch);
            && (r.Ok? <==>
                  && (patch.changeId.Some? ==>
                        NamesChange(s, Text.Trim(patch.changeId.value), k.scope, k.changeSetId))
                  && (patch.connectionId.Some? ==>
                        NamesConnection(s, Text.Trim(patch.connectionId.value), k.scope, k.serviceId)))
            && (r.Ok? ==>
                  && r.value == k.(changeId := r.value.changeId, connectionId := r.value.connectionId)
                  && TextSet(patch.changeId, k.changeId, r.value.changeId)
                  && TextSet(patch.connectionId, k.connectionId, r.value.connectionId))
  {
  }

  /** The choices of an update have values, and a runtime check is given no verdict. */
  predicate RevisionSound(k: Check, patch: CheckPatch) {
    && Usable(patch.phase) && Usable(patch.checkType) && UsableOr(patch.mode) && UsableOr(patch.status)
    && (ModeAfter(k, patch) == RuntimeReadOnly ==>
          patch.status == None && patch.lastRunAt == None && !patch.setsResultSummary)
  }

  lemma RevisionAccepted(k: Check, patch: CheckPatch)
    ensures RevisedCheck(k, patch).Ok? <==> RevisionSound(k, patch)
  {
  }

  lemma RevisionFields(k: Check, patch: CheckPatch, next: Check)
    requires RevisedCheck(k, patch) == Ok(next)
    ensures next.id == k.id && next.scope == k.scope && next.serviceId == k.serviceId
    ensures next.changeSetId == k.changeSetId && next.changeId == k.changeId && next.connectionId == k.connectionId
    ensures TextSet(patch.name, k.name, next.name) && TextSet(patch.summary, k.summary, next.summary)
    ensures Set(patch.required, k.required, next.required)
    ensures Set(patch.specification, k.specification, next.specification)
    ensures Chosen(patch.phase, k.phase, next.phase) && Chosen(patch.checkType, k.checkType, next.checkType)
    ensures next.mode == ModeAfter(k, patch) && ChosenOr(patch.status, CheckDefined, k.status, next.status)
    ensures next.readOnly <==>
            || next.mode != ManualAttestation || patch.readOnly == Some(true)
            || (patch.readOnly == None && k.readOnly)
    ensures next.lastRunAt == if patch.lastRunAt.Some? then patch.lastRunAt else k.lastRunAt
  {
  }

  /** What an accepted update makes of the text, link and choice fields of a check. */
  predicate CheckSettings(k: Check, patch: CheckPatch, next: Check) {
    && next.id == k.id && next.scope == k.scope && next.serviceId == k.serviceId && next.changeSetId == k.changeSetId
    && TextSet(patch.changeId, k.changeId, next.changeId)
    && TextSet(patch.connectionId, k.connectionId, next.connectionId)
    && TextSet(patch.name, k.name, next.name) && TextSet(patch.summary, k.summary, next.summary)
    && Set(patch.required, k.required, next.required)
    && Set(patch.specification, k.specification, next.specification)
    && Chosen(patch.phase, k.phase, next.phase) && Chosen(patch.checkType, k.checkType, next.checkType)
    && next.mode == ModeAfter(k, patch)
    && (next.readOnly <==>
          || next.mode != ManualAttestation || patch.readOnly == Some(true)
          || (patch.readOnly == None && k.readOnly))
  }

  /** Status and run time: setting the mode to runtime clears both, and a new verdict without a time is stamped. */
  predicate CheckProgress(k: Check, patch: CheckPatch, now: Time, next: Check) {
    if next.mode == RuntimeReadOnly && patch.mode.Some? then next.status == CheckDefined && next.lastRunAt == None
    else
      && ChosenOr(patch.status, CheckDefined, k.status, next.status)
      && var time := if patch.lastRunAt.Some? then patch.lastRunAt else k.lastRunAt;
         next.lastRunAt ==
         if time == None && patch.status.Some? && next.status in {CheckPassed, CheckFailed, CheckBlocked} then Some(now)
         else time
  }

  lemma SettlementExactly(k: Check, modeSet: bool, statusSet: bool, now: Time)
    ensures var r := SettledCheck(k, modeSet, statusSet, now);
            var runtime := k.mode == RuntimeReadOnly;
            && (r.Ok? <==> (runtime ==>
                            k.connectionId != "" && Parse(RuntimeReadOnly, k.checkType, k.specification).Ok?))
            && (r.Ok? ==>
                  var stamped := k.lastRunAt == None && statusSet
                    && k.status in {CheckPassed, CheckFailed, CheckBlocked};
                  r.value == if runtime && modeSet then k.(status := CheckDefined, lastRunAt := None)
                             else if stamped then k.(lastRunAt := Some(now)) else k)
  {
  }

  /** The three steps of an accepted update. */
  lemma UpdateSteps(s: Store, k: Check, patch: CheckPatch, now: Time) returns (linked: Check, revised: Check)
    ensures UpdatedCheck(s, k, patch, now).Ok? ==>
              && RelinkedCheck(s, k, patch) == Ok(linked) && RevisedCheck(linked, patch) == Ok(revised)
              && SettledCheck(revised, patch.mode.Some?, patch.status.Some?, now) == UpdatedCheck(s, k, patch, now)
  {
    linked, revised := k, k;
    if UpdatedCheck(s, k, patch, now).Ok? {
      linked := RelinkedCheck(s, k, patch).value;
      revised := RevisedCheck(linked, patch).value;
    }
  }

  /** Every field after an accepted update of a check. */
  lemma CheckUpdateFields(s: Store, k: Check, patch: CheckPatch, now: Time, next: Check)
    requires UpdatedCheck(s, k, patch, now) == Ok(next)
    ensures CheckSettings(k, patch, next) && CheckProgress(k, patch, now, next)
  {
    var linked, revised := UpdateSteps(s, k, patch, now);
    RelinkAccepted(s, k, patch);
    RevisionFields(linked, patch, revised);
    SettlementExactly(revised, patch.mode.Some?, patch.status.Some?, now);
    FieldsCombine(k, linked, revised, next, patch, now);
  }

  lemma FieldsCombine(k: Check, linked: Check, revised: Check, next: Check, patch: CheckPatch, now: Time)
    requires linked == k.(changeId := linked.changeId, connectionId := linked.connectionId)
    requires TextSet(patch.changeId, k.changeId, linked.changeId)
    requires TextSet(patch.connectionId, k.connectionId, linked.connectionId)
    requires CheckSettings(linked, patch.(changeId := None, connectionId := None), revised)
    requires ChosenOr(patch.status, CheckDefined, k.status, revised.status)
    requires revised.lastRunAt == if patch.lastRunAt.Some? then patch.lastRunAt else k.lastRunAt
    requires var stamped :=
               revised.lastRunAt == None && patch.status.Some?
                 && revised.status in {CheckPassed, CheckFailed, CheckBlocked};
             next == if revised.mode == RuntimeReadOnly && patch.mode.Some?
                     then revised.(status := CheckDefined, lastRunAt := None)
                     else if stamped then revised.(lastRunAt := Some(now)) else revised
    ensures CheckSettings(k, patch, next) && CheckProgress(k, patch, now, next)
  {
  }

  lemma UpdateAcceptedSteps(s: Store, k: Check, patch: CheckPatch, now: Time, linked: Result<Check>,
                            revised: Result<Check>, settled: Result<Check>)
    requires linked == RelinkedCheck(s, k, patch)
    requires revised == if linked.Ok? then RevisedCheck(linked.value, patch) else linked
    requires settled ==
             if revised.Ok? then SettledCheck(revised.value, patch.mode.Some?, patch.status.Some?, now) else revised
    ensures UpdatedCheck(s, k, patch, now).Ok? <==>
            && settled.Ok?
            && settled.value.name != "" && !settled.value.specification.Blank? && settled.value.summary != ""
  {
  }

  lemma LinkedUpdateAccepted(s: Store, k: Check, patch: CheckPatch, now: Time, linked: Check)
    requires RelinkedCheck(s, k, patch) == Ok(linked)
    ensures UpdatedCheck(s, k, patch, now).Ok? <==>
            && RevisionSound(linked, patch)
            && PatchedText(patch.name, linked.name) != "" && PatchedText(patch.summary, linked.summary) != ""
            && !Patched(patch.specification, linked.specification).Blank?
            && (ModeAfter(linked, patch) == RuntimeReadOnly ==>
                  && linked.connectionId != ""
                  && Parse(RuntimeReadOnly, if patch.checkType.Some? then patch.checkType.value.value
                                            else linked.checkType,
                           Patched(patch.specification, linked.specification)).Ok?)
  {
    RevisionAccepted(linked, patch);
    var revised := RevisedCheck(linked, patch);
    var settled := if revised.Ok? then SettledCheck(revised.value, patch.mode.Some?, patch.status.Some?, now)
                   else revised;
    UpdateAcceptedSteps(s, k, patch, now, Ok(linked), revised, settled);
    if revised.Ok? {
      RevisionFields(linked, patch, revised.value);
      SettlementExactly(revised.value, patch.mode.Some?, patch.status.Some?, now);
    }
  }

  /** Exactly which updates of a check are accepted. */
  lemma CheckUpdateAccepted(s: Store, k: Check, patch: CheckPatch, now: Time)
    ensures UpdatedCheck(s, k, patch, now).Ok? <==>
            && (patch.changeId.Some? ==> NamesChange(s, Text.Trim(patch.changeId.value), k.scope, k.changeSetId))
            && (patch.connectionId.Some? ==>
                  NamesConnection(s, Text.Trim(patch.connectionId.value), k.scope, k.serviceId))
            && RevisionSound(k, patch)
            && PatchedText(patch.name, k.name) != "" && PatchedText(patch.summary, k.summary) != ""
            && !Patched(patch.specification, k.specification).Blank?
            && (ModeAfter(k, patch) == RuntimeReadOnly ==>
                  && PatchedText(patch.connectionId, k.connectionId) != ""
                  && Parse(RuntimeReadOnly, if patch.checkType.Some? then patch.checkType.value.value else k.checkType,
                           Patched(patch.specification, k.specification)).Ok?)
  {
    RelinkAccepted(s, k, patch);
    var linked := RelinkedCheck(s, k, patch);
    if linked.Ok? {
      LinkedUpdateAccepted(s, k, patch, now, linked.value);
    } else {
      UpdateAcceptedSteps(s, k, patch, now, linked, linked, linked);
    }
  }

  // ----- connection references -----

  /** A source names a variable of the environment, or a secret and perhaps the variable that holds it. */
  predicate SourceSound(v: SourceValues) {
    var kind := Text.Token(v.sourceType);
    || (kind in {"", "env_dsn"}
        && IsEnvName(Text.Trim(v.dsnEnv)) && Text.IsBlank(v.secretRef) && Text.IsBlank(v.secretRefEnv))
    || (kind == "secret_ref_dsn" && LooksLikeSecretReference(v.secretRef) && Text.IsBlank(v.dsnEnv)
        && (Text.IsBlank(v.secretRefEnv) || IsEnvName(Text.Trim(v.secretRefEnv))))
  }

  lemma SourceExactly(v: SourceValues)
    ensures NormalizeSource(v).Ok? <==> SourceSound(v)
    ensures SourceSound(v) ==>
              var r := NormalizeSource(v).value;
              if Text.Token(v.sourceType) == "secret_ref_dsn"
              then r == SourceValues("secret_ref_dsn", "", Text.Trim(v.secretRef), Text.Trim(v.secretRefEnv))
              else r == SourceValues("env_dsn", Text.Trim(v.dsnEnv), "", "")
  {
    assert Text.Trim(Text.Trim(v.secretRef)) == Text.Trim(v.secretRef);
  }

  /** Names of variables: capital letters, digits and underscores, no digit first. */
  lemma EnvNameExactly(name: string)
    ensures IsEnvName(name) <==>
            && name != "" && name[0] !in Text.DIGITS
            && forall i | 0 <= i < |name| :: name[i] in Text.CAPITALS || name[i] in Text.DIGITS || name[i] == '_'
  {
    forall i | 0 <= i < |name|
      ensures name[i] in Text.CAPITALS <==> 'A' <= name[i] <= 'Z'
      ensures name[i] in Text.DIGITS <==> '0' <= name[i] <= '9'
    {
      Text.CapitalExactly(name[i]);
      Text.DigitExactly(name[i]);
    }
  }

  /** The health of a connection that nobody has looked at since its inputs changed. */
  predicate Unexamined(c: Connection) {
    && c.status == (if c.sourceType == "secret_ref_dsn" && Text.IsBlank(c.secretRefEnv) then ConnUnresolved
                    else ConnDefined)
    && c.lastTestedAt == None && c.lastHealthyAt == None && c.lastErrorClass == ""
  }

  lemma ResetExactly(c: Connection)
    requires Text.Trimmed(c.sourceType)
    ensures Unexamined(ResetHealth(c)) && InputsOf(ResetHealth(c)) == InputsOf(c)
    ensures var r := ResetHealth(c);
            && r.id == c.id && r.scope == c.scope && r.serviceId == c.serviceId
            && r.name == c.name && r.datastore == c.datastore && r.summary == c.summary
  {
  }

  /** Exactly which new connections are accepted, and every field of one that is. */
  lemma ConnectionCreatedExactly(cat: Catalog, req: NewConnection, id: string)
    ensures var r := CreatedConnection(cat, req, id);
            && (r.Ok? <==>
                  && ValidConnectionScope(cat, req.scope, req.serviceId).Ok?
                  && Text.Token(req.driver) in {"", "postgres"} && SourceSound(req.source)
                  && Text.Trim(req.name) != "" && Text.Trim(req.datastore) != "" && Text.Trim(req.summary) != "")
            && (r.Ok? ==>
                  var c := r.value;
                  && c.id == id && c.scope == req.scope && c.serviceId == Text.Trim(req.serviceId)
                  && c.name == Text.Trim(req.name) && c.datastore == Text.Trim(req.datastore)
                  && c.summary == Text.Trim(req.summary) && c.driver == "postgres" && c.readOnlyCapable
                  && SourceValuesOf(c) == NormalizeSource(req.source).value && Unexamined(c))
  {
    ConnectionScopeExactly(cat, req.scope, req.serviceId);
    SourceExactly(req.source);
    assert Text.Trimmed("env_dsn") && Text.Trimmed("secret_ref_dsn");
  }

  /** The source an update asks for: a named type drops the values of the other type that are not named. */
  predicate AsksFor(c: Connection, patch: ConnectionPatch, v: SourceValues) {
    var kind := if patch.sourceType.Some? then Text.Token(patch.sourceType.value) else "";
    && Set(patch.sourceType, c.sourceType, v.sourceType)
    && Set(patch.dsnEnv, if kind == "secret_ref_dsn" then "" else c.dsnEnv, v.dsnEnv)
    && Set(patch.secretRef, if kind == "env_dsn" then "" else c.secretRef, v.secretRef)
    && Set(patch.secretRefEnv, if kind == "env_dsn" then "" else c.secretRefEnv, v.secretRefEnv)
  }

  predicate DriverSound(patch: ConnectionPatch) {
    patch.driver.Some? ==> Text.Token(patch.driver.value) in {"", "postgres"}
  }

  /** Exactly which revisions are accepted, and every configured field of one that is. */
  lemma RevisionExactly(c: Connection, patch: ConnectionPatch) returns (v: SourceValues)
    ensures AsksFor(c, patch, v)
    ensures var r := RevisedConnection(c, patch);
            && (r.Ok? <==>
                  && DriverSound(patch) && SourceSound(v)
                  && PatchedText(patch.name, c.name) != "" && PatchedText(patch.datastore, c.datastore) != ""
                  && PatchedText(patch.summary, c.summary) != "")
            && (r.Ok? ==>
                  var next := r.value;
                  && next.id == c.id && next.scope == c.scope && next.serviceId == c.serviceId
                  && TextSet(patch.name, c.name, next.name) && TextSet(patch.datastore, c.datastore, next.datastore)
                  && TextSet(patch.summary, c.summary, next.summary)
                  && next.driver == (if patch.driver.Some? then "postgres" else c.driver)
                  && Set(patch.readOnlyCapable, c.readOnlyCapable, next.readOnlyCapable)
                  && SourceValuesOf(next) == NormalizeSource(v).value && Text.Trimmed(next.sourceType)
                  && SameHealth(c, next))
  {
    v := PatchedSource(c, patch);
    SourceExactly(v);
    assert Text.Trimmed("env_dsn") && Text.Trimmed("secret_ref_dsn");
  }

  predicate SameHealth(c: Connection, next: Connection) {
    && next.status == c.status && next.lastTestedAt == c.lastTestedAt && next.lastHealthyAt == c.lastHealthyAt
    && next.lastErrorClass == c.lastErrorClass
  }

  /** The six fields that decide which database is reached, and how. */
  predicate SameDatabase(c: Connection, next: Connection) {
    && next.driver == c.driver && next.sourceType == c.sourceType && next.dsnEnv == c.dsnEnv
    && next.secretRef == c.secretRef && next.secretRefEnv == c.secretRefEnv && next.readOnlyCapable == c.readOnlyCapable
  }

  /** Exactly which updates of a connection are accepted, and every field after one that is. */
  lemma ConnectionUpdatedExactly(c: Connection, patch: ConnectionPatch) returns (v: SourceValues)
    ensures AsksFor(c, patch, v)
    ensures var r := UpdatedConnection(c, patch);
            && (r.Ok? <==>
                  && DriverSound(patch) && SourceSound(v)
                  && PatchedText(patch.name, c.name) != "" && PatchedText(patch.datastore, c.datastore) != ""
                  && PatchedText(patch.summary, c.summary) != "")
            && (r.Ok? ==>
                  var next := r.value;
                  && next.id == c.id && next.scope == c.scope && next.serviceId == c.serviceId
                  && TextSet(patch.name, c.name, next.name) && TextSet(patch.datastore, c.datastore, next.datastore)
                  && TextSet(patch.summary, c.summary, next.summary)
                  && next.driver == (if patch.driver.Some? then "postgres" else c.driver)
                  && Set(patch.readOnlyCapable, c.readOnlyCapable, next.readOnlyCapable)
                  && SourceValuesOf(next) == NormalizeSource(v).value
                  && (if SameDatabase(c, next) then SameHealth(c, next) else Unexamined(next)))
  {
    v := RevisionExactly(c, patch);
    if RevisedConnection(c, patch).Ok? {
      ResetExactly(RevisedConnection(c, patch).value);
    }
  }

  // ----- which error is answered -----

  predicate Refusal<T>(r: Result<T>) { r.Err? ==> r.error == NotFound || r.error == Validation }

  /** The scope is well-formed, and the first thing wrong with it is a project or an environment that does not exist. */
  predicate ScopeMissing(cat: Catalog, scope: Scope) {
    && !Text.IsBlank(scope.organization) && !Text.IsBlank(scope.project) && !Text.IsBlank(scope.environment)
    && (scope.project !in cat.projects
        || (cat.projects[scope.project] == scope.organization && scope.environment !in cat.environments))
  }

  predicate ChangeSetMissing(cat: Catalog, scope: Scope, serviceId: string, changeSetId: string) {
    || ScopeMissing(cat, scope)
    || (ScopeExists(cat, scope) && !Text.IsBlank(changeSetId)
        && (Text.Trim(changeSetId) !in cat.changeSets ||
            var changeSet := cat.changeSets[Text.Trim(changeSetId)];
            && changeSet.scope == scope && changeSet.serviceId !in cat.services
            && (!Text.IsBlank(serviceId) ==> Text.Trim(serviceId) == changeSet.serviceId)))
  }

  lemma ScopeRefused(cat: Catalog, scope: Scope)
    ensures Refusal(ValidScope(cat, scope)) && (ValidScope(cat, scope) == Err(NotFound) <==> ScopeMissing(cat, scope))
    ensures ValidScope(cat, scope).Ok? <==> ScopeExists(cat, scope)
  {
  }

  lemma ChangeScopeRefused(cat: Catalog, scope: Scope, serviceId: string, changeSetId: string)
    ensures var r := ValidChangeScope(cat, scope, serviceId, changeSetId);
            Refusal(r) && (r == Err(NotFound) <==> ChangeSetMissing(cat, scope, serviceId, changeSetId))
  {
    ScopeRefused(cat, scope);
  }

  /** Changes: "not found" is about the catalog, everything else is a validation error. */
  lemma NewChangeRefused(cat: Catalog, req: NewChange, id: string, now: Time)
    ensures var r := CreatedChange(cat, req, id, now);
            Refusal(r) && (r == Err(NotFound) <==> ChangeSetMissing(cat, req.scope, req.serviceId, req.changeSetId))
  {
    ChangeScopeRefused(cat, req.scope, req.serviceId, req.changeSetId);
    ChangeScopeExactly(cat, req.scope, req.serviceId, req.changeSetId);
    if ChangeSound(cat, req) {
      var c := SoundChangeDescribed(cat, req, id, now);
    } else if ChangeSetExists(cat, req.scope, req.serviceId, req.changeSetId) {
      UnsoundChoicesRefused(cat, req, id, now);
    }
  }

  lemma UnsoundChoicesRefused(cat: Catalog, req: NewChange, id: string, now: Time)
    requires ValidChangeScope(cat, req.scope, req.serviceId, req.changeSetId).Ok?
    requires !(req.operation.Given? && req.intent.Given? && req.compatibility.Given? && req.reversibility.Given?
               && !req.risk.Unsupported?)
    ensures CreatedChange(cat, req, id, now) == Err(Validation)
  {
  }

  lemma ChangeUpdateRefused(cat: Catalog, c: DatabaseChange, patch: ChangePatch)
    ensures var r := UpdatedChange(cat, c, patch);
            Refusal(r) && (r == Err(NotFound) <==> c.scope.environment !in cat.environments)
  {
  }

  /** A link to a change or a connection that is not stored is "not found", one outside the scope is not valid. */
  lemma LinkRefused(s: Store, id: string, scope: Scope, owner: string)
    ensures Refusal(LinkedChange(s, id, scope, owner)) && Refusal(LinkedConnection(s, id, scope, owner))
    ensures LinkedChange(s, id, scope, owner) == Err(NotFound) <==> id != "" && id !in s.changes
    ensures LinkedConnection(s, id, scope, owner) == Err(NotFound) <==> id != "" && id !in s.connections
  {
  }

  predicate ChoicesSound(req: NewCheck) {
    req.phase.Given? && req.checkType.Given? && !req.mode.Unsupported? && !req.status.Unsupported?
  }

  lemma NewCheckRefused(cat: Catalog, s: Store, req: NewCheck, id: string, now: Time)
    ensures var r := CreatedCheck(cat, s, req, id, now);
            var changeId, connectionId := Text.Trim(req.changeId), Text.Trim(req.connectionId);
            && Refusal(r)
            && (r == Err(NotFound) <==>
                  || ChangeSetMissing(cat, req.scope, req.serviceId, req.changeSetId)
                  || (ChangeSetExists(cat, req.scope, req.serviceId, req.changeSetId) && ChoicesSound(req)
                      && ((changeId != "" && changeId !in s.changes)
                          || (NamesChange(s, changeId, req.scope, Text.Trim(req.changeSetId))
                              && connectionId != "" && connectionId !in s.connections))))
  {
    ChangeScopeRefused(cat, req.scope, req.serviceId, req.changeSetId);
    ChangeScopeExactly(cat, req.scope, req.serviceId, req.changeSetId);
    if ChangeSetExists(cat, req.scope, req.serviceId, req.changeSetId) {
      var changeSet := cat.changeSets[Text.Trim(req.changeSetId)];
      LinkErrors(s, req, Text.Trim(req.changeSetId), changeSet.serviceId);
      if CreationSound(cat, s, req) {
        var k := SoundCheckDescribed(cat, s, req, id, now);
        AcceptanceRefused(k);
      } else {
        UnlinkedError(cat, s, req, id, now, changeSet);
      }
    }
  }

  lemma AcceptanceRefused(k: Check)
    ensures AcceptedCheck(k).Err? ==> AcceptedCheck(k).error == Validation
  {
  }

  lemma LinkErrors(s: Store, req: NewCheck, changeSetId: string, serviceId: string)
    ensures var changeId, connectionId := Text.Trim(req.changeId), Text.Trim(req.connectionId);
            var change, connection := LinkedChange(s, changeId, req.scope, changeSetId),
                                      LinkedConnection(s, connectionId, req.scope, serviceId);
            && Refusal(change) && Refusal(connection)
            && (change.Ok? <==> NamesChange(s, changeId, req.scope, changeSetId))
            && (connection.Ok? <==> NamesConnection(s, connectionId, req.scope, serviceId))
            && (change == Err(NotFound) <==> changeId != "" && changeId !in s.changes)
            && (connection == Err(NotFound) <==> connectionId != "" && connectionId !in s.connections)
  {
  }

  lemma UnlinkedError(cat: Catalog, s: Store, req: NewCheck, id: string, now: Time, changeSet: ChangeSetRecord)
    requires ValidChangeScope(cat, req.scope, req.serviceId, req.changeSetId).Ok?
    requires ValidChangeScope(cat, req.scope, req.serviceId, req.changeSetId).value.1 == changeSet
    requires var change := LinkedChange(s, Text.Trim(req.changeId), req.scope, Text.Trim(req.changeSetId));
             var connection := LinkedConnection(s, Text.Trim(req.connectionId), req.scope, changeSet.serviceId);
             !ChoicesSound(req) || change.Err? || connection.Err?
    ensures var change := LinkedChange(s, Text.Trim(req.changeId), req.scope, Text.Trim(req.changeSetId));
            var connection := LinkedConnection(s, Text.Trim(req.connectionId), req.scope, changeSet.serviceId);
            CreatedCheck(cat, s, req, id, now) ==
            if !ChoicesSound(req) then Err(Validation)
            else if change.Err? then Err(change.error) else Err(connection.error)
  {
  }

  /** An update of a check is "not found" exactly if it names a change or a connection that is not stored. */
  lemma CheckUpdateRefused(s: Store, k: Check, patch: CheckPatch, now: Time)
    ensures var r := UpdatedCheck(s, k, patch, now);
            && Refusal(r)
            && (r == Err(NotFound) <==>
                  || (patch.changeId.Some? && Text.Trim(patch.changeId.value) != ""
                      && Text.Trim(patch.changeId.value) !in s.changes)
                  || ((patch.changeId.Some? ==> NamesChange(s, Text.Trim(patch.changeId.value), k.scope, k.changeSetId))
                      && patch.connectionId.Some? && Text.Trim(patch.connectionId.value) != ""
                      && Text.Trim(patch.connectionId.value) !in s.connections))
  {
    RelinkRefused(s, k, patch);
    if RelinkedCheck(s, k, patch).Ok? {
      RevisionRefused(s, k, patch, now);
    }
  }

  lemma RelinkRefused(s: Store, k: Check, patch: CheckPatch)
    ensures var r := RelinkedCheck(s, k, patch);
            && Refusal(r)
            && (r == Err(NotFound) <==>
                  || (patch.changeId.Some? && Text.Trim(patch.changeId.value) != ""
                      && Text.Trim(patch.changeId.value) !in s.changes)
                  || ((patch.changeId.Some? ==> NamesChange(s, Text.Trim(patch.changeId.value), k.scope, k.changeSetId))
                      && patch.connectionId.Some? && Text.Trim(patch.connectionId.value) != ""
                      && Text.Trim(patch.connectionId.value) !in s.connections))
  {
  }

  lemma RevisionRefused(s: Store, k: Check, patch: CheckPatch, now: Time)
    requires RelinkedCheck(s, k, patch).Ok?
    ensures UpdatedCheck(s, k, patch, now).Err? ==> UpdatedCheck(s, k, patch, now).error == Validation
  {
  }

  lemma ConnectionScopeRefused(cat: Catalog, scope: Scope, serviceId: string)
    ensures var r := ValidConnectionScope(cat, scope, serviceId);
            && Refusal(r)
            && (r == Err(NotFound) <==>
                  || ScopeMissing(cat, scope)
                  || (ScopeExists(cat, scope) && !Text.IsBlank(serviceId) && Text.Trim(serviceId) !in cat.services))
  {
    ScopeRefused(cat, scope);
  }

  lemma SettingsRefused(cat: Catalog, req: NewConnection, id: string)
    requires ValidConnectionScope(cat, req.scope, req.serviceId).Ok?
    ensures CreatedConnection(cat, req, id).Err? ==> CreatedConnection(cat, req, id).error == Validation
  {
  }

  /** Connections: "not found" is about the catalog, everything else is a validation error. */
  lemma NewConnectionRefused(cat: Catalog, req: NewConnection, id: string)
    ensures var r := CreatedConnection(cat, req, id);
            && Refusal(r)
            && (r == Err(NotFound) <==>
                  || ScopeMissing(cat, req.scope)
                  || (ScopeExists(cat, req.scope) && !Text.IsBlank(req.serviceId)
                      && Text.Trim(req.serviceId) !in cat.services))
  {
    ConnectionScopeRefused(cat, req.scope, req.serviceId);
    if ValidConnectionScope(cat, req.scope, req.serviceId).Ok? {
      SettingsRefused(cat, req, id);
    }
  }

  lemma ConnectionUpdateRefused(c: Connection, patch: ConnectionPatch)
    ensures UpdatedConnection(c, patch).Err? ==> UpdatedConnection(c, patch).error == Validation
  {
  }
}
