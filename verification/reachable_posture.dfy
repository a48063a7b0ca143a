/** Postures of reachable stores: which branches of the builder are dead, and what "advisory" rests on. */
module ReachablePosture {
  import opened Records
  import opened Ordering
  import opened RuntimeCheck
  import opened Governance
  import opened GovernanceRuns
  import opened CheckEvidence
  import opened VerdictSubject
  import opened Posture
  import opened PostureLaws
  import Text

  /** The listing shows exactly the records of one scope; no query limit is reached. */
  ghost predicate Lists(s: Store, scope: Scope, l: Listing) {
    && UniqueIds(l)
    && (forall c :: c in l.changes <==> c.id in s.changes && s.changes[c.id] == c && c.scope == scope)
    && (forall k :: k in l.checks <==> k.id in s.checks && s.checks[k.id] == k && k.scope == scope)
    && (forall c :: c in l.connections <==> c.id in s.connections && s.connections[c.id] == c && c.scope == scope)
    && (forall t :: t in l.tests <==> t.id in s.tests && s.tests[t.id] == t && t.scope == scope)
    && (forall e :: e in l.executions <==> e.id in s.executions && s.executions[e.id] == e && e.scope == scope)
  }

  lemma ListingWellFormed(cat: Catalog, w: World, scope: Scope, l: Listing)
    requires Inv(cat, w) && Lists(w.store, scope, l)
    ensures WellFormed(l)
  {
    forall c | c in l.connections ensures Text.Trim(c.id) != "" {
      assert ConnectionOk(w.examined, w.clock, c.id, c);
    }
  }

  /** Selecting checks by the change they name finds nothing that their change set does not find. */
  lemma ChangeFilterIsRedundant(cat: Catalog, w: World, scope: Scope, bundle: seq<ChangeSet>, l: Listing)
    requires Inv(cat, w) && Lists(w.store, scope, l)
    ensures forall k :: CheckPicked(bundle, l, k) <==> k in l.checks && k.changeSetId in BundleIds(bundle)
    ensures forall c, k | ChangePicked(bundle, l, c) && k in l.checks :: Linked(k, c) <==>
            k.changeSetId == c.changeSetId
  {
    forall k | k in l.checks ensures CheckOk(cat, w.store, k.id, k) {}
    forall c | c in l.changes ensures c.id in w.store.changes && w.store.changes[c.id] == c {}
  }

  lemma {:induction false} FlatMember<T(!new)>(f: T -> seq<Finding>, s: seq<T>, x: Finding)
    requires x in Flat(f, s)
    ensures exists t | t in s :: x in f(t)
  {
    var init, last := s[..|s| - 1], s[|s| - 1];
    assert s == init + [last];
    if x in f(last) {
      assert last in s;
    } else {
      FlatMember(f, init, x);
      var t :| t in init && x in f(t);
      assert t in s;
    }
  }

  /** The connection of a stored runtime check is always among the listed ones. */
  lemma ConnectionAvailable(cat: Catalog, w: World, scope: Scope, l: Listing, k: Check)
    requires Inv(cat, w) && Lists(w.store, scope, l) && k in l.checks && k.mode == RuntimeReadOnly
    ensures k.connectionId != "" && k.connectionId in IndexById(l.connections)
    ensures IndexById(l.connections)[k.connectionId] == w.store.connections[k.connectionId]
  {
    assert CheckOk(cat, w.store, k.id, k);
    var c := w.store.connections[k.connectionId];
    assert ConnectionOk(w.examined, w.clock, k.connectionId, c);
    assert c in l.connections;
    IndexByIdExact(l.connections);
  }

  predicate DeadFinding(f: Finding) {
    f.NoConnection? || f.UnavailableConnection? || f.UnsupportedRuntimeSource? || f.UnsupportedSource?
  }

  lemma NoDeadBlockers(ctx: Context, k: Check)
    requires k.mode == RuntimeReadOnly ==> k.connectionId != "" && k.connectionId in ctx.connections
    requires k.mode == RuntimeReadOnly ==>
               var c := ctx.connections[k.connectionId];
               c.status != ConnUnsupported && (Resolve(c, ctx.env).Unresolvable? ==>
                                               Resolve(c, ctx.env).status == ConnUnresolved)
    ensures forall f | f in CheckBlockers(ctx, k) :: !DeadFinding(f)
  {
    if k.mode == RuntimeReadOnly {
      var c := ctx.connections[k.connectionId];
      assert forall f | f in CapabilityBlockers(c, ctx.env) :: !DeadFinding(f);
      assert forall f | f in StatusBlockers(k, c) :: !DeadFinding(f);
      assert forall f | f in TestBlockers(k, c, ctx.tests) :: !DeadFinding(f);
      assert RuntimeBlockers(ctx, k) == CapabilityBlockers(c, ctx.env) + StatusBlockers(k, c)
             + TestBlockers(k, c, ctx.tests);
    }
    assert forall f | f in RequiredBlockers(k) :: !DeadFinding(f);
  }

  lemma SelectedCheckAlive(cat: Catalog, w: World, scope: Scope, bundle: seq<ChangeSet>, l: Listing, env: set<string>,
                           k: Check)
    requires Inv(cat, w) && Lists(w.store, scope, l) && CheckPicked(bundle, l, k)
    ensures forall f | f in CheckBlockers(ContextOf(SelectionOf(BundleIds(bundle), l), env), k) :: !DeadFinding(f)
  {
    var ids := BundleIds(bundle);
    ListingWellFormed(cat, w, scope, l);
    SelectionMembers(bundle, l);
    ContextIsFull(l, env, ids, k);
    if k.mode == RuntimeReadOnly {
      ConnectionAvailable(cat, w, scope, l, k);
      var c := w.store.connections[k.connectionId];
      assert ConnectionOk(w.examined, w.clock, k.connectionId, c);
      StoredSourceSupported(c, env);
    }
    NoDeadBlockers(ContextOf(SelectionOf(ids, l), env), k);
  }

  lemma LedgerAlive(s: Selection, ctx: Context)
    requires forall k | k in s.checks :: forall f | f in CheckBlockers(ctx, k) :: !DeadFinding(f)
    ensures forall f | f in LedgerOf(s, ctx).blockers :: !DeadFinding(f)
  {
    forall f | f in LedgerOf(s, ctx).blockers ensures !DeadFinding(f) {
      if f in Flat(BlockersIn(ctx), s.checks) {
        FlatMember(BlockersIn(ctx), s.checks, f);
      } else {
        FlatMember(BlockersAmong(s.checks), s.changes, f);
      }
    }
  }

  /** Four of the builder's blockers cannot occur in a reachable store. */
  lemma DeadBlockersUnreachable(cat: Catalog, w: World, scope: Scope, bundle: seq<ChangeSet>, l: Listing,
                                env: set<string>)
    requires Inv(cat, w) && Lists(w.store, scope, l)
    ensures forall f | f in BuildSpec(bundle, l, env).posture.blocking :: !DeadFinding(f)
  {
    SelectionMembers(bundle, l);
    var s := SelectionOf(BundleIds(bundle), l);
    var ctx := ContextOf(s, env);
    forall k | k in s.checks ensures forall f | f in CheckBlockers(ctx, k) :: !DeadFinding(f) {
      SelectedCheckAlive(cat, w, scope, bundle, l, env, k);
    }
    LedgerAlive(s, ctx);
    BlockingIsDeduped(bundle, l, env);
  }

  lemma BlockingIsDeduped(bundle: seq<ChangeSet>, l: Listing, env: set<string>)
    ensures var s := SelectionOf(BundleIds(bundle), l);
            forall f | f in BuildSpec(bundle, l, env).posture.blocking :: f in LedgerOf(s, ContextOf(s, env)).blockers
  {
  }

  /** The latest execution in the builder's index is the one the status of the check mirrors. */
  lemma IndexHoldsMirroredRun(cat: Catalog, w: World, scope: Scope, l: Listing, k: Check, index: map<string, Execution>)
    requires Inv(cat, w) && Mirrors(w, k.id, k) && Lists(w.store, scope, l) && k in l.checks
    requires k.mode == RuntimeReadOnly && k.status == CheckPassed
    requires IsLatestIndex(index, ExecutionNewer, ExecutionKey, l.executions)
    ensures k.id in index && k.id in w.modeSetAt && k.id in w.lastRun
    ensures var latest := index[k.id];
            && latest.status == RunPassed && latest.checkId == k.id && latest.startedAt > w.modeSetAt[k.id]
            && k.lastRunAt == latest.completedAt
            && latest.id in w.store.executions && w.lastRun[k.id] == Some(latest.id)
  {
    var x := w.lastRun[k.id].value;
    var seen := w.store.executions[x];
    assert ExecutionOk(w.store, w.clock, x, seen);
    assert seen in l.executions && ExecutionKey(seen) == k.id;
    var latest := index[k.id];
    assert latest in l.executions && ExecutionKey(latest) == k.id;
    assert !ExecutionNewer(seen, latest);
    assert latest.startedAt >= seen.startedAt;
    assert RunSince(w, k.id, latest.id);
  }

  /**
   An advisory posture of a reachable store vouches for real runs: the latest execution that the builder
   sees for a required runtime check has passed, and was started after the mode of the check was last set.
   It ran what the check says now exactly if the verdict is current.
   */
  lemma AdvisoryRestsOnExecutions(cat: Catalog, w: World, scope: Scope, bundle: seq<ChangeSet>, l: Listing,
                                  env: set<string>, k: Check)
    requires Inv(cat, w) && AllMirror(w) && Lists(w.store, scope, l)
    requires BuildSpec(bundle, l, env).posture.status == Advisory
    requires CheckPicked(bundle, l, k) && k.required && k.mode == RuntimeReadOnly
    ensures k.id in FullContext(l, env).executions && k.id in w.modeSetAt
    ensures var latest := FullContext(l, env).executions[k.id];
            && latest.status == RunPassed && latest.checkId == k.id && latest.startedAt > w.modeSetAt[k.id]
            && k.lastRunAt == latest.completedAt
            && (Current(w, k.id, k) <==> latest.id in w.ranOn && w.ranOn[latest.id] == SubjectOf(w.store, k))
  {
    ListingWellFormed(cat, w, scope, l);
    AdvisoryExactly(bundle, l, env);
    assert CheckClean(FullContext(l, env), k);
    ComparatorsOrder();
    LatestOfIsIndex(ExecutionNewer, ExecutionKey, l.executions);
    assert Mirrors(w, k.id, k);
    IndexHoldsMirroredRun(cat, w, scope, l, k, FullContext(l, env).executions);
  }

  lemma PassIsEarned(w: World, id: string, k: Check)
    requires Earned(w, id, k) && k.mode == RuntimeReadOnly && k.status == CheckPassed
    ensures exists x ::
            RunSince(w, id, x) && Finished(w.store.executions[x]) && w.store.executions[x].status == RunPassed
  {
    var x :| RunSince(w, id, x) && Finished(w.store.executions[x]) && k.status == Image(w.store.executions[x].status);
    assert w.store.executions[x].status == RunPassed;
  }

  lemma AdvisoryNeedsPass(bundle: seq<ChangeSet>, l: Listing, env: set<string>, k: Check)
    requires WellFormed(l) && BuildSpec(bundle, l, env).posture.status == Advisory
    requires CheckPicked(bundle, l, k) && k.required
    ensures k.status == CheckPassed
  {
    AdvisoryExactly(bundle, l, env);
    assert CheckClean(FullContext(l, env), k);
  }

  /**
   If store writes may fail, an advisory posture still has, for every
   required runtime check, a passed execution since its mode was set.
   */
  lemma AdvisoryRestsOnSomeRun(cat: Catalog, w: World, scope: Scope, bundle: seq<ChangeSet>, l: Listing,
                               env: set<string>, k: Check)
    requires Inv(cat, w) && AllEarned(w) && Lists(w.store, scope, l)
    requires BuildSpec(bundle, l, env).posture.status == Advisory
    requires CheckPicked(bundle, l, k) && k.required && k.mode == RuntimeReadOnly
    ensures exists x ::
            RunSince(w, k.id, x) && Finished(w.store.executions[x]) && w.store.executions[x].status == RunPassed
  {
    ListingWellFormed(cat, w, scope, l);
    AdvisoryNeedsPass(bundle, l, env, k);
    assert Earned(w, k.id, w.store.checks[k.id]);
    PassIsEarned(w, k.id, k);
  }
}
