/** What the posture means: a classification of the records of the bundle, and when it is advisory. */
module PostureLaws {
  import opened Records
  import opened Ordering
  import opened RuntimeCheck
  import opened Posture
  import Text

  // ----- the selection, order-free -----

  /** The store never hands out a blank connection id. */
  ghost predicate WellFormed(l: Listing) {
    UniqueIds(l) && forall c | c in l.connections :: Text.Trim(c.id) != ""
  }

  predicate ChangePicked(bundle: seq<ChangeSet>, l: Listing, c: DatabaseChange) {
    c in l.changes && c.changeSetId in BundleIds(bundle)
  }

  ghost predicate CheckPicked(bundle: seq<ChangeSet>, l: Listing, k: Check) {
    k in l.checks && (k.changeSetId in BundleIds(bundle)
                      || exists c :: ChangePicked(bundle, l, c) && c.id == k.changeId)
  }

  lemma SelectionMembers(bundle: seq<ChangeSet>, l: Listing)
    ensures var s := SelectionOf(BundleIds(bundle), l);
            && (forall c :: c in s.changes <==> ChangePicked(bundle, l, c))
            && (forall k :: k in s.checks <==> CheckPicked(bundle, l, k))
  {
    var ids := BundleIds(bundle);
    var s := SelectionOf(ids, l);
    SortFilterMembers(ChangeBefore, ChangeInBundle(ids), l.changes);
    SortFilterMembers(CheckBefore, CheckInBundle(ids, ChangeIds(s.changes)), l.checks);
    forall k | k in l.checks ensures k in s.checks <==> CheckPicked(bundle, l, k) {
      assert k.changeId in ChangeIds(s.changes) <==> exists c :: ChangePicked(bundle, l, c) && c.id == k.changeId;
    }
  }

  // ----- looking up the whole listing instead of the selection -----

  function FullContext(l: Listing, env: set<string>): Context {
    Context(IndexById(l.connections), LatestOf(TestNewer, TestKey, l.tests),
            LatestOf(ExecutionNewer, ExecutionKey, l.executions), env)
  }

  lemma {:induction false} IndexByIdExact(s: seq<Connection>)
    requires UniqueConnections(s)
    ensures forall c | c in s :: c.id in IndexById(s) && IndexById(s)[c.id] == c
    ensures forall id | id in IndexById(s) :: IndexById(s)[id] in s && IndexById(s)[id].id == id
  {
    if s == [] {
    } else {
      IndexByIdExact(s[..|s| - 1]);
      assert s == s[..|s| - 1] + [s[|s| - 1]];
    }
  }

  /** Restricting the items to some keys does not change what the index says about those keys. */
  lemma LatestOfRestricted<T(!new)>(newer: (T, T) -> bool, key: T -> string, keep: T -> bool, items: seq<T>,
                                    kept: seq<T>, k: string)
    requires StrictWeak(newer) && Distinguishes(newer, items)
    requires forall x :: x in kept <==> x in items && keep(x)
    requires forall x | x in items && key(x) == k :: keep(x)
    ensures var m, n := LatestOf(newer, key, kept), LatestOf(newer, key, items);
            (k in m <==> k in n) && (k in m ==> m[k] == n[k])
  {
    var m, n := LatestOf(newer, key, kept), LatestOf(newer, key, items);
    LatestOfIsIndex(newer, key, kept);
    LatestOfIsIndex(newer, key, items);
    if k in m {
      assert key(m[k]) in n;
      assert m[k] in items && n[k] in kept;
      assert !newer(m[k], n[k]) && !newer(n[k], m[k]);
    }
    if k in n {
      assert key(n[k]) in m;
    }
  }

  /** The two contexts agree on everything that the classification of `k` looks up. */
  predicate AgreeOn(a: Context, b: Context, k: Check) {
    && a.env == b.env
    && (k.connectionId in a.connections <==> k.connectionId in b.connections)
    && (k.connectionId in a.connections ==>
          var c := a.connections[k.connectionId];
          && c == b.connections[k.connectionId] && c.id == k.connectionId
          && (c.id in a.tests <==> c.id in b.tests) && (c.id in a.tests ==> a.tests[c.id] == b.tests[c.id]))
    && (k.id in a.executions <==> k.id in b.executions)
    && (k.id in a.executions ==> a.executions[k.id] == b.executions[k.id])
  }

  lemma ConnectionsAgree(l: Listing, ids: set<string>, k: Check)
    requires WellFormed(l) && k in SelectionOf(ids, l).checks
    ensures var some, all := IndexById(SelectionOf(ids, l).connections), IndexById(l.connections);
            && (k.connectionId in some <==> k.connectionId in all)
            && (k.connectionId in some ==>
                some[k.connectionId] == all[k.connectionId] && all[k.connectionId].id == k.connectionId
                && k.connectionId in ReferencedIds(SelectionOf(ids, l).checks))
  {
    var s := SelectionOf(ids, l);
    var references := ReferencedIds(s.checks);
    FilterKeepsUnique(IdIn(references), l.connections);
    IndexByIdExact(s.connections);
    IndexByIdExact(l.connections);
    var all := IndexById(l.connections);
    if k.connectionId in all {
      assert all[k.connectionId] in s.connections;
    }
  }

  /** For a check of the selection, the selected records say what all records of the scope say. */
  lemma ContextIsFull(l: Listing, env: set<string>, ids: set<string>, k: Check)
    requires WellFormed(l) && k in SelectionOf(ids, l).checks
    ensures AgreeOn(ContextOf(SelectionOf(ids, l), env), FullContext(l, env), k)
  {
    ComparatorsOrder();
    ConnectionsAgree(l, ids, k);
    var s := SelectionOf(ids, l);
    var references := ReferencedIds(s.checks);
    if k.connectionId in references {
      SortFilterMembers(TestNewer, TestOf(references), l.tests);
      LatestOfRestricted(TestNewer, TestKey, TestOf(references), l.tests, s.tests, k.connectionId);
    }
    var checkIds := CheckIds(s.checks);
    SortFilterMembers(ExecutionNewer, ExecutionOf(checkIds), l.executions);
    LatestOfRestricted(ExecutionNewer, ExecutionKey, ExecutionOf(checkIds), l.executions, s.executions, k.id);
  }

  lemma {:induction false} FilterKeepsUnique(keep: Connection -> bool, s: seq<Connection>)
    requires UniqueConnections(s)
    ensures UniqueConnections(Filter(keep, s))
  {
    if s == [] {
    } else {
      FilterKeepsUnique(keep, s[..|s| - 1]);
      var r := Filter(keep, s[..|s| - 1]);
      forall i | 0 <= i < |r| ensures r[i].id != s[|s| - 1].id {
        assert r[i] in s[..|s| - 1];
      }
    }
  }

  // ----- the declarative classification -----

  predicate TestPassed(ctx: Context, id: string) {
    id in ctx.tests && ctx.tests[id].status == RunPassed
  }

  /** A runtime check may not proceed over its connection. */
  predicate ConnectionBlocks(ctx: Context, k: Check) {
    k.connectionId !in ctx.connections || k.connectionId == "" ||
    var c := ctx.connections[k.connectionId];
    || !Resolve(c, ctx.env).Resolved?
    || c.status in {ConnUnsupported, ConnUnresolved, ConnError}
    || (Gates(k) && (c.status == ConnDefined || !TestPassed(ctx, c.id)))
  }

  predicate CheckBlocks(ctx: Context, k: Check) {
    || (k.required && k.status != CheckPassed
        && (k.phase == PreDeploy || k.status == CheckFailed || k.status == CheckBlocked))
    || (k.mode == RuntimeReadOnly && ConnectionBlocks(ctx, k))
  }

  predicate CheckWarns(ctx: Context, k: Check) {
    || (k.required && k.phase != PreDeploy && Pending(k))
    || (k.mode == RuntimeReadOnly &&
        (|| k.id !in ctx.executions
         || (k.connectionId != "" && k.connectionId in ctx.connections &&
             var c := ctx.connections[k.connectionId];
             c.status == ConnTesting || (!Gates(k) && (c.status == ConnDefined || !TestPassed(ctx, c.id))))))
  }

  predicate ChangeBlocks(checks: seq<Check>, c: DatabaseChange) {
    NeedsPreDeployCheck(c) && !HasRequired(checks, c, PreDeploy)
  }

  predicate ChangeWarns(checks: seq<Check>, c: DatabaseChange) {
    || c.lockRisk || c.manualApprovalRequired || c.reversibility != Reversible || c.compatibility == ForwardIncompatible
    || (NeedsPostDeployCheck(c) && !HasRequired(checks, c, PostDeploy))
  }

  lemma CapabilityExact(c: Connection, k: Check, env: set<string>)
    ensures CapabilityBlockers(c, env) != [] || StatusBlockers(k, c) != [] <==>
            !Resolve(c, env).Resolved? || c.status in {ConnUnsupported, ConnUnresolved, ConnError}
              || (Gates(k) && c.status == ConnDefined)
  {
  }

  /**
   A required check that has not passed raises one finding: a blocker
   before deploy or for a bad verdict, else a warning.
   */
  lemma RequiredFindings(k: Check)
    ensures |RequiredBlockers(k)| + |RequiredWarnings(k)| == if k.required && k.status != CheckPassed then 1 else 0
    ensures RequiredBlockers(k) != [] <==>
            k.required && k.status != CheckPassed && (k.phase == PreDeploy || Terminal(k.status))
  {
  }

  lemma CheckBlockersExact(ctx: Context, k: Check)
    ensures CheckBlockers(ctx, k) != [] <==> CheckBlocks(ctx, k)
  {
    RuntimeBlockersExact(ctx, k);
    assert RequiredBlockers(k) != [] <==>
           k.required && k.status != CheckPassed
             && (k.phase == PreDeploy || k.status == CheckFailed || k.status == CheckBlocked);
  }

  lemma RuntimeBlockersExact(ctx: Context, k: Check)
    ensures RuntimeBlockers(ctx, k) != [] <==> k.mode == RuntimeReadOnly && ConnectionBlocks(ctx, k)
  {
    if k.mode == RuntimeReadOnly && k.connectionId != "" && k.connectionId in ctx.connections {
      var c := ctx.connections[k.connectionId];
      CapabilityExact(c, k, ctx.env);
      var x, y, z := CapabilityBlockers(c, ctx.env), StatusBlockers(k, c), TestBlockers(k, c, ctx.tests);
      assert RuntimeBlockers(ctx, k) == x + y + z;
      assert z != [] <==> Gates(k) && !TestPassed(ctx, c.id);
    }
  }

  lemma CheckWarningsExact(ctx: Context, k: Check)
    ensures CheckWarnings(ctx, k) != [] <==> CheckWarns(ctx, k)
  {
    if k.mode == RuntimeReadOnly && k.connectionId != "" && k.connectionId in ctx.connections {
      var c := ctx.connections[k.connectionId];
      assert StatusWarnings(k, c) != [] <==> c.status == ConnTesting || (!Gates(k) && c.status == ConnDefined);
      assert TestWarnings(k, c, ctx.tests) != [] <==> !Gates(k) && !TestPassed(ctx, c.id);
    }
  }

  lemma BlocksAgree(a: Context, b: Context, k: Check)
    requires AgreeOn(a, b, k)
    ensures CheckBlocks(a, k) <==> CheckBlocks(b, k)
    ensures CheckWarns(a, k) <==> CheckWarns(b, k)
  {
  }

  lemma {:induction false} FlatExact<T(!new)>(f: T -> seq<Finding>, s: seq<T>)
    ensures Flat(f, s) != [] <==> exists x | x in s :: f(x) != []
  {
    if s == [] {
    } else {
      FlatExact(f, s[..|s| - 1]);
      assert s == s[..|s| - 1] + [s[|s| - 1]];
    }
  }

  lemma OneChangeWarns(checks: seq<Check>, c: DatabaseChange)
    ensures ChangeWarnings(checks, c, false) != [] <==> ChangeWarns(checks, c)
  {
  }

  /** A manual-only change whose own warning is suppressed follows an irreversible one, which warns. */
  lemma {:induction false} ChangeWarningsExact(checks: seq<Check>, changes: seq<DatabaseChange>)
    ensures AllChangeWarnings(checks, changes) != [] <==> exists c | c in changes :: ChangeWarns(checks, c)
  {
    if changes == [] {
    } else {
      var init, c := changes[..|changes| - 1], changes[|changes| - 1];
      ChangeWarningsExact(checks, init);
      assert changes == init + [c];
      assert forall x :: x in changes <==> x in init || x == c;
      if HasIrreversible(init) {
        var x :| x in init && x.reversibility == Irreversible;
        assert ChangeWarns(checks, x);
        assert AllChangeWarnings(checks, changes) != [];
      } else {
        OneChangeWarns(checks, c);
      }
    }
  }

  /** The facts about one bundle that the status is decided by. */
  ghost predicate IsBlocked(bundle: seq<ChangeSet>, l: Listing, env: set<string>) {
    var checks := SelectionOf(BundleIds(bundle), l).checks;
    || (exists k :: CheckPicked(bundle, l, k) && CheckBlocks(FullContext(l, env), k))
    || (exists c :: ChangePicked(bundle, l, c) && ChangeBlocks(checks, c))
  }

  ghost predicate IsDoubted(bundle: seq<ChangeSet>, l: Listing, env: set<string>) {
    var checks := SelectionOf(BundleIds(bundle), l).checks;
    || !HasChanges(bundle, l)
    || (exists k :: CheckPicked(bundle, l, k) && CheckWarns(FullContext(l, env), k))
    || (exists c :: ChangePicked(bundle, l, c) && ChangeWarns(checks, c))
  }

  ghost predicate HasChanges(bundle: seq<ChangeSet>, l: Listing) {
    exists c :: ChangePicked(bundle, l, c)
  }

  ghost predicate AnyReversibility(bundle: seq<ChangeSet>, l: Listing, r: Reversibility) {
    exists c :: ChangePicked(bundle, l, c) && c.reversibility == r
  }

  ghost predicate AnyCompatibility(bundle: seq<ChangeSet>, l: Listing, r: Compatibility) {
    exists c :: ChangePicked(bundle, l, c) && c.compatibility == r
  }

  /** Over the selection, findings about a check depend on what the whole listing says of it. */
  lemma SelectedCheckExact(bundle: seq<ChangeSet>, l: Listing, env: set<string>, s: Selection, ctx: Context, k: Check)
    requires WellFormed(l) && s == SelectionOf(BundleIds(bundle), l) && ctx == ContextOf(s, env) && k in s.checks
    ensures CheckBlockers(ctx, k) != [] <==> CheckBlocks(FullContext(l, env), k)
    ensures CheckWarnings(ctx, k) != [] <==> CheckWarns(FullContext(l, env), k)
  {
    ContextIsFull(l, env, BundleIds(bundle), k);
    CheckBlockersExact(ctx, k);
    CheckWarningsExact(ctx, k);
    BlocksAgree(ctx, FullContext(l, env), k);
  }

  lemma BlockersExact(bundle: seq<ChangeSet>, l: Listing, env: set<string>, s: Selection, ctx: Context)
    requires WellFormed(l) && s == SelectionOf(BundleIds(bundle), l) && ctx == ContextOf(s, env)
    ensures Flat(BlockersIn(ctx), s.checks) != [] || Flat(BlockersAmong(s.checks), s.changes) != [] <==>
            IsBlocked(bundle, l, env)
  {
    SelectionMembers(bundle, l);
    FlatExact(BlockersIn(ctx), s.checks);
    FlatExact(BlockersAmong(s.checks), s.changes);
    forall k | k in s.checks ensures BlockersIn(ctx)(k) != [] <==> CheckBlocks(FullContext(l, env), k) {
      SelectedCheckExact(bundle, l, env, s, ctx, k);
    }
    forall c ensures BlockersAmong(s.checks)(c) != [] <==> ChangeBlocks(s.checks, c) {}
  }

  lemma WarningsExact(bundle: seq<ChangeSet>, l: Listing, env: set<string>, s: Selection, ctx: Context)
    requires WellFormed(l) && s == SelectionOf(BundleIds(bundle), l) && ctx == ContextOf(s, env)
    requires HasChanges(bundle, l)
    ensures Flat(WarningsIn(ctx), s.checks) != [] || AllChangeWarnings(s.checks, s.changes) != [] <==>
            IsDoubted(bundle, l, env)
  {
    SelectionMembers(bundle, l);
    FlatExact(WarningsIn(ctx), s.checks);
    ChangeWarningsExact(s.checks, s.changes);
    forall k | k in s.checks ensures WarningsIn(ctx)(k) != [] <==> CheckWarns(FullContext(l, env), k) {
      SelectedCheckExact(bundle, l, env, s, ctx, k);
    }
  }

  /** A pending required check always raises a blocker or a warning of its own. */
  lemma PendingIsNotSilent(bundle: seq<ChangeSet>, l: Listing, env: set<string>)
    requires WellFormed(l)
    requires |Filter(IsRequiredPending, SelectionOf(BundleIds(bundle), l).checks)| > 0
    ensures IsBlocked(bundle, l, env) || IsDoubted(bundle, l, env)
  {
    SelectionMembers(bundle, l);
    var s := SelectionOf(BundleIds(bundle), l);
    var k := Filter(IsRequiredPending, s.checks)[0];
    assert k in Filter(IsRequiredPending, s.checks);
    assert CheckPicked(bundle, l, k);
    assert CheckBlocks(FullContext(l, env), k) || CheckWarns(FullContext(l, env), k);
  }

  /** The posture is relevant if the bundle has database changes or is said to touch a schema. */
  ghost predicate IsRelevant(bundle: seq<ChangeSet>, l: Listing) {
    HasChanges(bundle, l) || TouchCount(bundle) > 0
  }

  /** The status, the safety and the rank of a posture, as facts about sets of records. */
  lemma Classification(bundle: seq<ChangeSet>, l: Listing, env: set<string>)
    requires WellFormed(l)
    ensures BuildSpec(bundle, l, env).posture.status ==
            if !IsRelevant(bundle, l) then NoPosture
            else if IsBlocked(bundle, l, env) then Blocked
            else if IsDoubted(bundle, l, env) then ReviewRequired
            else Advisory
    ensures BuildSpec(bundle, l, env).posture.safety ==
            if !IsRelevant(bundle, l) then Standard
            else if AnyReversibility(bundle, l, Irreversible) then Unsafe
            else if !HasChanges(bundle, l) || AnyReversibility(bundle, l, ManualOnly)
                 || AnyCompatibility(bundle, l, ForwardIncompatible)
            then ManualReview
            else if IsDoubted(bundle, l, env) then Guarded
            else Standard
    ensures BuildSpec(bundle, l, env).posture.compatibility ==
            if !IsRelevant(bundle, l) then RankNone
            else if !HasChanges(bundle, l) then RankSchema
            else if AnyCompatibility(bundle, l, ForwardIncompatible) then RankForward
            else if AnyCompatibility(bundle, l, ExpandContract) then RankExpand
            else RankBackward
    ensures var p := BuildSpec(bundle, l, env).posture;
            p.status == Blocked <==> p.blocking != []
  {
    StatusExact(bundle, l, env);
    ExtremesExact(bundle, l, env);
  }

  /** The posture in terms of what the folds left behind, and when those are empty. */
  lemma PostureRead(bundle: seq<ChangeSet>, l: Listing, env: set<string>)
      returns (blockers: seq<Finding>, safety: Safety, rank: Rank)
    requires WellFormed(l)
    ensures blockers != [] <==> IsBlocked(bundle, l, env)
    ensures var changes := SelectionOf(BundleIds(bundle), l).changes;
            safety == SafetyOf(changes) && rank == RankOf(changes)
    ensures var p := BuildSpec(bundle, l, env).posture;
            if !IsRelevant(bundle, l) then p == NO_POSTURE
            else
              && p.blocking == Dedupe(blockers)
              && p.status == (if blockers != [] then Blocked else if IsDoubted(bundle, l, env) then ReviewRequired
                              else Advisory)
              && p.compatibility == (if !HasChanges(bundle, l) then RankSchema else rank)
              && p.safety == (if !HasChanges(bundle, l) then ManualReview
                              else if safety == Standard && IsDoubted(bundle, l, env) then Guarded else safety)
  {
    var s, g, fallback := LedgerRead(bundle, l, env);
    ReadConclusion(s, g, fallback, HasChanges(bundle, l), IsDoubted(bundle, l, env));
    blockers, safety, rank := g.blockers, g.safety, g.rank;
  }

  /** What the folds leave behind, and what it says about the bundle. */
  lemma LedgerRead(bundle: seq<ChangeSet>, l: Listing, env: set<string>)
      returns (s: Selection, g: Ledger, fallback: nat)
    requires WellFormed(l)
    ensures BuildSpec(bundle, l, env) == ConcludeSpec(s, g, fallback)
    ensures s.changes == SelectionOf(BundleIds(bundle), l).changes && g.safety == SafetyOf(s.changes)
            && g.rank == RankOf(s.changes)
    ensures g.blockers != [] <==> IsBlocked(bundle, l, env)
    ensures HasChanges(bundle, l) <==> s.changes != []
    ensures HasChanges(bundle, l) ==>
            fallback == 0 && (g.warnings != [] <==> IsDoubted(bundle, l, env)) && (g.manual ==> g.warnings != [])
    ensures !HasChanges(bundle, l) ==> IsDoubted(bundle, l, env) && (fallback == 0 <==> !IsRelevant(bundle, l))
    ensures g.pending > 0 || g.manual ==> g.blockers != [] || IsDoubted(bundle, l, env)
  {
    s := SelectionOf(BundleIds(bundle), l);
    g := LedgerOf(s, ContextOf(s, env));
    fallback := if s.changes == [] then TouchCount(bundle) else 0;
    LedgerBlocks(bundle, l, env, s, ContextOf(s, env), g);
    LedgerStatus(bundle, l, env, s, ContextOf(s, env), g);
  }

  lemma LedgerBlocks(bundle: seq<ChangeSet>, l: Listing, env: set<string>, s: Selection, ctx: Context, g: Ledger)
    requires WellFormed(l) && s == SelectionOf(BundleIds(bundle), l) && ctx == ContextOf(s, env)
             && g == LedgerOf(s, ctx)
    ensures g.blockers != [] <==> IsBlocked(bundle, l, env)
  {
    BlockersExact(bundle, l, env, s, ctx);
  }

  lemma ReadConclusion(s: Selection, g: Ledger, fallback: nat, classified: bool, doubted: bool)
    requires classified <==> s.changes != []
    requires classified ==> fallback == 0 && (g.warnings != [] <==> doubted) && (g.manual ==> g.warnings != [])
    requires !classified ==> doubted
    requires g.pending > 0 || g.manual ==> g.blockers != [] || doubted
    ensures var p := ConcludeSpec(s, g, fallback).posture;
            if !classified && fallback == 0 then p == NO_POSTURE
            else
              && p.blocking == Dedupe(g.blockers)
              && p.status == (if g.blockers != [] then Blocked else if doubted then ReviewRequired else Advisory)
              && p.compatibility == (if !classified then RankSchema else g.rank)
              && p.safety == (if !classified then ManualReview else if g.safety == Standard && doubted then Guarded
                              else g.safety)
  {
    ConcludeExact(s, g, fallback);
  }

  lemma StatusExact(bundle: seq<ChangeSet>, l: Listing, env: set<string>)
    requires WellFormed(l)
    ensures var p := BuildSpec(bundle, l, env).posture;
            && p.status == (if !IsRelevant(bundle, l) then NoPosture
                            else if IsBlocked(bundle, l, env) then Blocked
                            else if IsDoubted(bundle, l, env) then ReviewRequired
                            else Advisory)
            && (p.status == Blocked <==> p.blocking != [])
  {
    var blockers, _, _ := PostureRead(bundle, l, env);
    DedupeEmpty(blockers);
  }

  lemma ExtremesExact(bundle: seq<ChangeSet>, l: Listing, env: set<string>)
    requires WellFormed(l)
    ensures BuildSpec(bundle, l, env).posture.safety ==
            if !IsRelevant(bundle, l) then Standard
            else if AnyReversibility(bundle, l, Irreversible) then Unsafe
            else if !HasChanges(bundle, l) || AnyReversibility(bundle, l, ManualOnly)
                 || AnyCompatibility(bundle, l, ForwardIncompatible)
            then ManualReview
            else if IsDoubted(bundle, l, env) then Guarded
            else Standard
    ensures BuildSpec(bundle, l, env).posture.compatibility ==
            if !IsRelevant(bundle, l) then RankNone
            else if !HasChanges(bundle, l) then RankSchema
            else if AnyCompatibility(bundle, l, ForwardIncompatible) then RankForward
            else if AnyCompatibility(bundle, l, ExpandContract) then RankExpand
            else RankBackward
  {
    var _, safety, rank := PostureRead(bundle, l, env);
    if HasChanges(bundle, l) { SelectedExtremes(bundle, l); }
  }

  lemma ConcludeExact(s: Selection, g: Ledger, fallback: nat)
    requires g.pending > 0 || g.manual ==> g.blockers != [] || s.changes == [] || g.warnings != []
    requires s.changes != [] ==> fallback == 0
    ensures var p := ConcludeSpec(s, g, fallback).posture;
            if s.changes == [] && fallback == 0 then p == NO_POSTURE
            else
              && p.blocking == Dedupe(g.blockers)
              && p.status == (if g.blockers != [] then Blocked
                              else if s.changes == [] || g.warnings != [] then ReviewRequired else Advisory)
              && p.compatibility == (if s.changes == [] then RankSchema else g.rank)
              && p.safety == (if s.changes == [] then ManualReview
                              else if g.safety == Standard && (g.manual || g.warnings != []) then Guarded else g.safety)
  {
  }

  lemma LedgerStatus(bundle: seq<ChangeSet>, l: Listing, env: set<string>, s: Selection, ctx: Context, g: Ledger)
    requires WellFormed(l) && s == SelectionOf(BundleIds(bundle), l) && ctx == ContextOf(s, env)
             && g == LedgerOf(s, ctx)
    ensures s.changes == [] <==> !HasChanges(bundle, l)
    ensures g.pending > 0 || g.manual ==> IsBlocked(bundle, l, env) || IsDoubted(bundle, l, env)
    ensures s.changes != [] && g.manual ==> g.warnings != []
    ensures s.changes != [] ==> (g.warnings != [] <==> IsDoubted(bundle, l, env))
  {
    SelectionMembers(bundle, l);
    if s.changes != [] {
      assert ChangePicked(bundle, l, s.changes[0]);
      WarningsExact(bundle, l, env, s, ctx);
      if g.manual {
        var c :| c in s.changes && c.manualApprovalRequired;
        assert ChangeWarns(s.checks, c);
      }
    }
    if g.pending > 0 {
      PendingIsNotSilent(bundle, l, env);
    }
  }

  lemma SelectedExtremes(bundle: seq<ChangeSet>, l: Listing)
    requires HasChanges(bundle, l)
    ensures SafetyOf(SelectionOf(BundleIds(bundle), l).changes) ==
            if AnyReversibility(bundle, l, Irreversible) then Unsafe
            else if AnyReversibility(bundle, l, ManualOnly)
                 || AnyCompatibility(bundle, l, ForwardIncompatible) then ManualReview
            else Standard
    ensures RankOf(SelectionOf(BundleIds(bundle), l).changes) ==
            if AnyCompatibility(bundle, l, ForwardIncompatible) then RankForward
            else if AnyCompatibility(bundle, l, ExpandContract) then RankExpand
            else RankBackward
  {
    SelectionMembers(bundle, l);
    var c :| ChangePicked(bundle, l, c);
    assert c in SelectionOf(BundleIds(bundle), l).changes;
  }

  lemma DedupeEmpty(s: seq<Finding>)
    ensures Dedupe(s) == [] <==> s == []
  {
    if s != [] {
      assert s[0] in Dedupe(s);
    }
  }

  /**
   A required check has passed; a runtime check has been executed
   over a ready connection whose latest test passed.
   */
  predicate CheckClean(ctx: Context, k: Check) {
    && (k.required ==> k.status == CheckPassed)
    && (k.mode == RuntimeReadOnly ==>
          && k.connectionId in ctx.connections && k.id in ctx.executions
          && var c := ctx.connections[k.connectionId];
             Resolve(c, ctx.env) == Resolved && c.status == ConnReady && TestPassed(ctx, c.id))
  }

  /** A change without risk that lacks no required check. */
  ghost predicate ChangeClean(bundle: seq<ChangeSet>, l: Listing, c: DatabaseChange) {
    && !c.lockRisk && !c.manualApprovalRequired && c.reversibility == Reversible
    && c.compatibility != ForwardIncompatible
    && (NeedsPreDeployCheck(c) ==> exists k ::
        CheckPicked(bundle, l, k) && Linked(k, c) && k.required && k.phase == PreDeploy)
    && (NeedsPostDeployCheck(c) ==> exists k ::
        CheckPicked(bundle, l, k) && Linked(k, c) && k.required && k.phase == PostDeploy)
  }

  lemma CheckCleanExact(ctx: Context, k: Check)
    requires k.connectionId in ctx.connections ==> k.connectionId != ""
    ensures CheckClean(ctx, k) <==> !CheckBlocks(ctx, k) && !CheckWarns(ctx, k)
  {
  }

  lemma ChangeCleanExact(bundle: seq<ChangeSet>, l: Listing, checks: seq<Check>, c: DatabaseChange)
    requires forall k :: k in checks <==> CheckPicked(bundle, l, k)
    ensures ChangeClean(bundle, l, c) <==> !ChangeBlocks(checks, c) && !ChangeWarns(checks, c)
  {
    assert forall phase :: HasRequired(checks, c, phase) <==>
                           exists k :: CheckPicked(bundle, l, k) && Linked(k, c) && k.required && k.phase == phase;
  }

  ghost predicate IsClean(bundle: seq<ChangeSet>, l: Listing, env: set<string>) {
    && HasChanges(bundle, l)
    && (forall k | CheckPicked(bundle, l, k) :: CheckClean(FullContext(l, env), k))
    && (forall c | ChangePicked(bundle, l, c) :: ChangeClean(bundle, l, c))
  }

  /**
   An advisory posture is earned: it is given exactly if there is a classified change, every required
   check has passed, every runtime check has a resolvable, ready connection whose latest test passed and
   has been executed, and every change is free of risk and has the required checks it needs.
   */
  lemma AdvisoryExactly(bundle: seq<ChangeSet>, l: Listing, env: set<string>)
    requires WellFormed(l)
    ensures BuildSpec(bundle, l, env).posture.status == Advisory <==> IsClean(bundle, l, env)
  {
    StatusExact(bundle, l, env);
    CleanExactly(bundle, l, env);
  }

  lemma CleanExactly(bundle: seq<ChangeSet>, l: Listing, env: set<string>)
    requires WellFormed(l)
    ensures IsClean(bundle, l, env) <==> !IsBlocked(bundle, l, env) && !IsDoubted(bundle, l, env)
  {
    SelectionMembers(bundle, l);
    IndexByIdExact(l.connections);
    assert Text.Trim("") == "";
    var full := FullContext(l, env);
    var checks := SelectionOf(BundleIds(bundle), l).checks;
    forall k ensures CheckClean(full, k) <==> !CheckBlocks(full, k) && !CheckWarns(full, k) {
      CheckCleanExact(full, k);
    }
    forall c ensures ChangeClean(bundle, l, c) <==> !ChangeBlocks(checks, c) && !ChangeWarns(checks, c) {
      ChangeCleanExact(bundle, l, checks, c);
    }
  }

  // ----- an advisory posture with a runtime gate -----

  const HERE := Scope("o", "p", "v")
  const ONE_CHANGE := DatabaseChange("c", 0, HERE, "", "s", "n", "d", "x", SchemaChange, BeforeDeploy,
                                     BackwardCompatible, Reversible,
                                    Low, false, false, ChangeDefined)
  const GATE_CHECK := Check("k", HERE, "", "s", "c", "r", "n", "x", PreDeploy, ExistenceAssertion, true, true,
                            RuntimeReadOnly,
                           Json(EMPTY_SPEC.(table := "t")), CheckPassed, Some(4))
  const LATER_CHECK := Check("q", HERE, "", "s", "", "", "n", "x", PostDeploy, CustomReadOnly, true, true,
                             ManualAttestation,
                            NotJson, CheckPassed, Some(4))
  const READY_CONNECTION := Connection("r", HERE, "", "n", "d", "x", "postgres", "env_dsn", "E", "", "", true,
                                       ConnReady, Some(2), Some(2), "")
  const ONE_LISTING := Listing([ONE_CHANGE], [GATE_CHECK, LATER_CHECK], [READY_CONNECTION],
                              [ConnectionTest("t", HERE, "r", RunPassed, 1, Some(2))],
                              [Execution("e", HERE, "k", "r", RunPassed, 3, Some(4))])

  lemma OneLookup(full: Context)
    requires full == FullContext(ONE_LISTING, {"E"})
    ensures "r" in full.connections && full.connections["r"] == READY_CONNECTION && full.env == {"E"}
    ensures TestPassed(full, "r") && "k" in full.executions
  {
    ComparatorsOrder();
    IndexByIdExact(ONE_LISTING.connections);
    LatestOfIsIndex(TestNewer, TestKey, ONE_LISTING.tests);
    LatestOfIsIndex(ExecutionNewer, ExecutionKey, ONE_LISTING.executions);
    assert READY_CONNECTION in ONE_LISTING.connections;
    assert ONE_LISTING.tests[0] in ONE_LISTING.tests && ONE_LISTING.executions[0] in ONE_LISTING.executions;
    assert TestKey(ONE_LISTING.tests[0]) == "r" && ExecutionKey(ONE_LISTING.executions[0]) == "k";
  }

  lemma OneContext(full: Context)
    requires full == FullContext(ONE_LISTING, {"E"})
    ensures WellFormed(ONE_LISTING)
    ensures CheckClean(full, GATE_CHECK) && CheckClean(full, LATER_CHECK)
  {
    OneLookup(full);
    assert Text.Trimmed("r") && Text.Trimmed("env_dsn") && Text.Trimmed("E");
    assert Resolve(READY_CONNECTION, {"E"}) == Resolved;
  }

  lemma OnePicked(bundle: seq<ChangeSet>, l: Listing)
    requires bundle == [ChangeSet("s", true)] && l == ONE_LISTING
    ensures ChangePicked(bundle, l, ONE_CHANGE)
            && forall c :: ChangePicked(bundle, l, c) ==> c == ONE_CHANGE && ChangeClean(bundle, l, c)
    ensures CheckPicked(bundle, l, GATE_CHECK)
            && forall k :: CheckPicked(bundle, l, k) ==> k == GATE_CHECK || k == LATER_CHECK
  {
    assert ChangeSet("s", true) in bundle && "s" in BundleIds(bundle);
    assert ONE_CHANGE in l.changes && GATE_CHECK in l.checks && LATER_CHECK in l.checks;
    assert CheckPicked(bundle, l, GATE_CHECK) && Linked(GATE_CHECK, ONE_CHANGE);
    assert CheckPicked(bundle, l, LATER_CHECK) && Linked(LATER_CHECK, ONE_CHANGE);
  }

  lemma CleanExample() returns (bundle: seq<ChangeSet>, l: Listing, env: set<string>, k: Check)
    ensures WellFormed(l) && IsClean(bundle, l, env)
    ensures CheckPicked(bundle, l, k) && k.required && k.mode == RuntimeReadOnly
    ensures |l.changes| == 1 && TouchCount(bundle) > 0
  {
    bundle, l, env, k := [ChangeSet("s", true)], ONE_LISTING, {"E"}, GATE_CHECK;
    OneContext(FullContext(l, env));
    OnePicked(bundle, l);
  }

  /** A schema change with a passed runtime gate and a passed later check has an advisory posture. */
  lemma AdvisoryIsPossible() returns (bundle: seq<ChangeSet>, l: Listing, env: set<string>, k: Check)
    ensures WellFormed(l) && BuildSpec(bundle, l, env).posture.status == Advisory
    ensures CheckPicked(bundle, l, k) && k.required && k.mode == RuntimeReadOnly
  {
    bundle, l, env, k := CleanExample();
    AdvisoryExactly(bundle, l, env);
  }

  // ----- a posture that hides its blockers -----

  lemma FailedGate() returns (bundle: seq<ChangeSet>, l: Listing, k: Check)
    ensures WellFormed(l) && l.changes == [] && TouchCount(bundle) == 0
    ensures k in l.checks && k.changeSetId in BundleIds(bundle)
    ensures k.required && k.phase == PreDeploy && k.status == CheckFailed
  {
    bundle, k := [ChangeSet("s", false)], LATER_CHECK.(phase := PreDeploy, status := CheckFailed);
    l := Listing([], [k], [], [], []);
    assert ChangeSet("s", false) in bundle;
  }

  /** It happens: a required check failed before the deployment, and the posture is "none" and lists no blocker. */
  lemma NoneHidesBlockers(env: set<string>) returns (bundle: seq<ChangeSet>, l: Listing)
    ensures WellFormed(l) && IsBlocked(bundle, l, env)
    ensures BuildSpec(bundle, l, env).posture == NO_POSTURE
  {
    var k;
    bundle, l, k := FailedGate();
    assert CheckPicked(bundle, l, k);
    var blockers, safety, rank := PostureRead(bundle, l, env);
  }
}
