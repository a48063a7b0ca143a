/** Which records a snapshot holds, in which order, and what a posture counts. */
module PostureContents {
  import opened Records
  import opened Ordering
  import opened RuntimeCheck
  import opened Posture
  import opened PostureLaws
  import Text

  // ----- contents -----

  /** A snapshot shows the selected records. */
  predicate Shows(r: Snapshot, s: Selection) {
    && r.changes == s.changes && r.checks == s.checks && r.connections == s.connections
    && r.tests == s.tests && r.executions == s.executions
  }

  lemma Shown(bundle: seq<ChangeSet>, l: Listing, env: set<string>) returns (r: Snapshot, s: Selection)
    ensures r == BuildSpec(bundle, l, env) && s == SelectionOf(BundleIds(bundle), l) && Shows(r, s)
  {
    r, s := BuildSpec(bundle, l, env), SelectionOf(BundleIds(bundle), l);
  }

  /** The records of the bundle: its changes and checks, and what those checks refer to. */
  ghost predicate HoldsExactly(bundle: seq<ChangeSet>, l: Listing, r: Snapshot) {
    && (forall c :: c in r.changes <==> c in l.changes && exists b | b in bundle :: b.id == c.changeSetId)
    && (forall k :: k in r.checks <==>
          && k in l.checks
          && ((exists b | b in bundle :: b.id == k.changeSetId) || exists c | c in r.changes :: c.id == k.changeId))
    && (forall c :: c in r.connections <==>
          c in l.connections && exists k | k in r.checks :: k.connectionId == c.id && Text.Trim(c.id) != "")
    && (forall t :: t in r.tests <==>
          && t in l.tests
          && exists k | k in r.checks :: k.connectionId == t.connectionId && Text.Trim(t.connectionId) != "")
    && (forall e :: e in r.executions <==> e in l.executions && exists k | k in r.checks :: k.id == e.checkId)
  }

  lemma SelectedExactly(bundle: seq<ChangeSet>, l: Listing, s: Selection, r: Snapshot)
    requires s == SelectionOf(BundleIds(bundle), l) && Shows(r, s)
    ensures HoldsExactly(bundle, l, r)
  {
    SelectionMembers(bundle, l);
    SortFilterMembers(TestNewer, TestOf(ReferencedIds(s.checks)), l.tests);
    SortFilterMembers(ExecutionNewer, ExecutionOf(CheckIds(s.checks)), l.executions);
  }

  lemma SnapshotMembers(bundle: seq<ChangeSet>, l: Listing, env: set<string>)
    ensures HoldsExactly(bundle, l, BuildSpec(bundle, l, env))
  {
    var r, s := Shown(bundle, l, env);
    SelectedExactly(bundle, l, s, r);
  }

  // ----- order -----

  /** The name of a phase in requests and records. */
  function PhaseName(p: Phase): string {
    match p case PreDeploy => "pre_deploy" case PostDeploy => "post_deploy" case Rollback => "rollback"
  }

  lemma PhasesByName(p: Phase, q: Phase)
    ensures PhaseOrder(p) < PhaseOrder(q) <==> Text.Less(PhaseName(p), PhaseName(q))
  {
    var pre, post, back := PhaseName(PreDeploy), PhaseName(PostDeploy), PhaseName(Rollback);
    assert pre[0] == post[0] == 'p' && back[0] == 'r';
    assert pre[1..][0] == 'r' && post[1..][0] == 'o';
    Text.LessIrreflexive(PhaseName(p));
  }

  ghost predicate Ascending<T(!new)>(before: (T, T) -> bool, s: seq<T>) {
    forall i, j | 0 <= i < j < |s| :: before(s[i], s[j])
  }

  lemma SortedStrictly<T(!new)>(less: (T, T) -> bool, keep: T -> bool, items: seq<T>)
    requires StrictWeak(less) && Distinguishes(less, items)
    ensures Ascending(less, Sort(less, Filter(keep, items)))
  {
    var kept := Filter(keep, items);
    FilterDistinguishes(less, keep, items);
    SortOrders(less, kept);
    DistinguishesPermutes(less, kept, Sort(less, kept));
  }

  lemma ChecksAscending(ids: set<string>, l: Listing, s: Selection)
    requires UniqueIds(l) && s == SelectionOf(ids, l)
    ensures Ascending(ChangeBefore, s.changes) && Ascending(CheckBefore, s.checks)
  {
    ComparatorsOrder();
    SortedStrictly(ChangeBefore, ChangeInBundle(ids), l.changes);
    SortedStrictly(CheckBefore, CheckInBundle(ids, ChangeIds(s.changes)), l.checks);
  }

  lemma EvidenceAscending(ids: set<string>, l: Listing, s: Selection)
    requires UniqueIds(l) && s == SelectionOf(ids, l)
    ensures Ascending(TestNewer, s.tests) && Ascending(ExecutionNewer, s.executions)
  {
    ComparatorsOrder();
    SortedStrictly(TestNewer, TestOf(ReferencedIds(s.checks)), l.tests);
    SortedStrictly(ExecutionNewer, ExecutionOf(CheckIds(s.checks)), l.executions);
  }

  /** By a time, then by id. */
  predicate Older(t: Time, id: string, u: Time, other: string) {
    t < u || (t == u && Text.Less(id, other))
  }

  predicate Earlier(a: Check, b: Check) {
    || Text.Less(PhaseName(a.phase), PhaseName(b.phase))
    || (a.phase == b.phase && Text.Less(a.name, b.name))
    || (a.phase == b.phase && a.name == b.name && Text.Less(a.id, b.id))
  }

  lemma CheckBeforeIsEarlier(a: Check, b: Check)
    ensures CheckBefore(a, b) <==> Earlier(a, b)
  {
    PhasesByName(a.phase, b.phase);
    Text.LessIrreflexive(a.name);
  }

  /**
   Changes come oldest first, checks by phase name and name, tests and executions newest first;
   ids break the ties.
   */
  ghost predicate SortedExactly(r: Snapshot) {
    && (var s := r.changes; forall i, j | 0 <= i < j < |s| :: Older(s[i].createdAt, s[i].id, s[j].createdAt, s[j].id))
    && (var s := r.checks; forall i, j | 0 <= i < j < |s| :: Earlier(s[i], s[j]))
    && (var s := r.tests; forall i, j | 0 <= i < j < |s| :: Older(s[j].startedAt, s[j].id, s[i].startedAt, s[i].id))
    && (var s := r.executions; forall i, j | 0 <= i < j < |s| ::
          Older(s[j].startedAt, s[j].id, s[i].startedAt, s[i].id))
  }

  lemma ShownSorted(s: Selection, r: Snapshot)
    requires Shows(r, s)
    requires Ascending(ChangeBefore, s.changes) && Ascending(CheckBefore, s.checks)
    requires Ascending(TestNewer, s.tests) && Ascending(ExecutionNewer, s.executions)
    ensures SortedExactly(r)
  {
    forall i, j | 0 <= i < j < |r.checks| ensures Earlier(r.checks[i], r.checks[j]) {
      CheckBeforeIsEarlier(r.checks[i], r.checks[j]);
    }
  }

  lemma SnapshotSorted(bundle: seq<ChangeSet>, l: Listing, env: set<string>)
    requires UniqueIds(l)
    ensures SortedExactly(BuildSpec(bundle, l, env))
  {
    var r, s := Shown(bundle, l, env);
    ChecksAscending(BundleIds(bundle), l, s);
    EvidenceAscending(BundleIds(bundle), l, s);
    ShownSorted(s, r);
  }

  // ----- counts -----

  ghost predicate Repeats<T>(s: seq<T>) { exists i, j | 0 <= i < j < |s| :: s[i] == s[j] }

  lemma LastIsNew<T>(s: seq<T>)
    requires !Repeats(s) && s != []
    ensures !Repeats(s[..|s| - 1]) && s[|s| - 1] !in s[..|s| - 1]
    ensures s == s[..|s| - 1] + [s[|s| - 1]]
  {
  }

  /** The size of a filtered sequence without repetition is the number of its items. */
  lemma {:induction false} FilterCounts<T(!new)>(keep: T -> bool, s: seq<T>, chosen: set<T>)
    requires !Repeats(s) && forall x :: x in chosen <==> x in s && keep(x)
    ensures |Filter(keep, s)| == |chosen|
  {
    if s != [] {
      var init, last := s[..|s| - 1], s[|s| - 1];
      LastIsNew(s);
      FilterCounts(keep, init, chosen - {last});
      assert keep(last) <==> last in chosen;
    } else {
      assert chosen == {};
    }
  }

  lemma {:induction false} SequenceCounts<T>(s: seq<T>, chosen: set<T>)
    requires !Repeats(s) && forall x :: x in chosen <==> x in s
    ensures |s| == |chosen|
  {
    if s != [] {
      var init, last := s[..|s| - 1], s[|s| - 1];
      LastIsNew(s);
      SequenceCounts(init, chosen - {last});
    } else {
      assert chosen == {};
    }
  }

  lemma AscendingRepeatsNot<T(!new)>(less: (T, T) -> bool, s: seq<T>)
    requires StrictWeak(less) && Ascending(less, s)
    ensures !Repeats(s)
  {
  }

  lemma LedgerCounts(ids: set<string>, l: Listing, s: Selection, g: Ledger, env: set<string>)
    requires UniqueIds(l) && s == SelectionOf(ids, l) && g == LedgerOf(s, ContextOf(s, env))
    ensures g.required == |set k | k in s.checks && k.required|
    ensures g.pending == |set k | k in s.checks && k.required
            && (k.status == CheckDefined || k.status == CheckAdvisory)|
    ensures |s.changes| == |set c | c in s.changes|
    ensures g.manual <==> exists c | c in s.changes :: c.manualApprovalRequired
  {
    ComparatorsOrder();
    ChecksAscending(ids, l, s);
    AscendingRepeatsNot(ChangeBefore, s.changes);
    AscendingRepeatsNot(CheckBefore, s.checks);
    CheckCounts(s.checks);
    SequenceCounts(s.changes, set c | c in s.changes);
  }

  lemma CheckCounts(checks: seq<Check>)
    requires !Repeats(checks)
    ensures |Filter(IsRequired, checks)| == |set k | k in checks && k.required|
    ensures |Filter(IsRequiredPending, checks)| ==
            |set k | k in checks && k.required && (k.status == CheckDefined || k.status == CheckAdvisory)|
  {
    FilterCounts(IsRequired, checks, set k | k in checks && k.required);
    FilterCounts(IsRequiredPending, checks,
                 set k | k in checks && k.required && (k.status == CheckDefined || k.status == CheckAdvisory));
  }

  /** The numbers count changes, required checks, and those of them that still wait for a verdict. */
  ghost predicate CountsExactly(r: Snapshot, touches: nat) {
    var p := r.posture;
    if r.changes == [] && touches == 0
    then p.requiredChecks == p.pendingChecks == p.changeCount == 0 && !p.manualApproval
    else
      && p.requiredChecks == |set k | k in r.checks && k.required|
      && p.pendingChecks ==
         |set k | k in r.checks && k.required && (k.status == CheckDefined || k.status == CheckAdvisory)|
      && p.changeCount == (if r.changes != [] then |set c | c in r.changes| else touches)
      && (p.manualApproval <==> exists c | c in r.changes :: c.manualApprovalRequired)
  }

  lemma SnapshotCounts(bundle: seq<ChangeSet>, l: Listing, env: set<string>)
    requires UniqueIds(l)
    ensures CountsExactly(BuildSpec(bundle, l, env), TouchCount(bundle))
  {
    var r, s := Shown(bundle, l, env);
    var g := LedgerOf(s, ContextOf(s, env));
    LedgerCounts(BundleIds(bundle), l, s, g, env);
    ConcludedCounts(s, g, if s.changes == [] then TouchCount(bundle) else 0, TouchCount(bundle));
  }

  lemma ConcludedCounts(s: Selection, g: Ledger, fallback: nat, touches: nat)
    requires fallback == if s.changes == [] then touches else 0
    requires g.required == |set k | k in s.checks && k.required|
    requires g.pending == |set k | k in s.checks && k.required
             && (k.status == CheckDefined || k.status == CheckAdvisory)|
    requires |s.changes| == |set c | c in s.changes|
    requires g.manual <==> exists c | c in s.changes :: c.manualApprovalRequired
    ensures CountsExactly(ConcludeSpec(s, g, fallback), touches)
  {
  }

  /** The fallback counts the change sets that touch a schema. */
  lemma {:induction false} TouchesCounted(bundle: seq<ChangeSet>)
    ensures TouchCount(bundle) == |set i | 0 <= i < |bundle| && bundle[i].touchesSchema|
  {
    var all := set i | 0 <= i < |bundle| && bundle[i].touchesSchema;
    if bundle == [] {
      assert all == {};
    } else {
      var n := |bundle| - 1;
      TouchesCounted(bundle[..n]);
      var before := set i | 0 <= i < n && bundle[..n][i].touchesSchema;
      assert all == if bundle[n].touchesSchema then before + {n} else before;
    }
  }

  /** `x` occurs in some beginning of `s` in which `y` does not. */
  ghost predicate OccursFirst(s: seq<Finding>, x: Finding, y: Finding) {
    exists n | 0 <= n <= |s| :: x in s[..n] && y !in s[..n]
  }

  lemma StillFirst(s: seq<Finding>, m: nat, x: Finding, y: Finding)
    requires m <= |s| && OccursFirst(s[..m], x, y)
    ensures OccursFirst(s, x, y)
  {
    var n :| 0 <= n <= m && x in s[..m][..n] && y !in s[..m][..n];
    assert s[..n] == s[..m][..n];
  }

  ghost predicate InOrder(s: seq<Finding>, r: seq<Finding>) {
    forall i, j | 0 <= i < j < |r| :: OccursFirst(s, r[i], r[j])
  }

  lemma OneMoreInOrder(s: seq<Finding>, m: nat, r: seq<Finding>, x: Finding)
    requires m <= |s| && InOrder(s[..m], r) && x !in s[..m] && forall y | y in r :: y in s[..m]
    ensures InOrder(s, r) && InOrder(s, r + [x])
  {
    var all := r + [x];
    forall i, j | 0 <= i < j < |all| ensures OccursFirst(s, all[i], all[j]) {
      if j < |r| {
        assert OccursFirst(s[..m], r[i], r[j]);
        StillFirst(s, m, r[i], r[j]);
      } else {
        assert all[i] == r[i] && r[i] in s[..m];
      }
    }
    assert forall i | 0 <= i < |r| :: all[i] == r[i];
  }

  /** Messages are listed in the order in which they first occur. */
  lemma {:induction false} DedupeOrder(s: seq<Finding>)
    ensures InOrder(s, Dedupe(s))
  {
    if s != [] {
      var m := |s| - 1;
      var before := Dedupe(s[..m]);
      DedupeOrder(s[..m]);
      if s[m] in before {
        forall i, j | 0 <= i < j < |before| ensures OccursFirst(s, before[i], before[j]) {
          assert OccursFirst(s[..m], before[i], before[j]);
          StillFirst(s, m, before[i], before[j]);
        }
      } else {
        OneMoreInOrder(s, m, before, s[m]);
      }
    }
  }
}
