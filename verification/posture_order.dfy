/** The posture does not depend on the order in which anything is listed. */
module PostureOrder {
  import opened Records
  import opened Ordering
  import opened Posture
  import opened PostureLaws

  ghost predicate Permuted(a: Listing, b: Listing) {
    && multiset(a.changes) == multiset(b.changes) && multiset(a.checks) == multiset(b.checks)
    && multiset(a.connections) == multiset(b.connections) && multiset(a.tests) == multiset(b.tests)
    && multiset(a.executions) == multiset(b.executions)
  }

  lemma TouchCountPermutes(a: seq<ChangeSet>, b: seq<ChangeSet>)
    requires multiset(a) == multiset(b)
    ensures TouchCount(a) == TouchCount(b)
  {
    FilterPermutes(Touches, a, b);
    assert |multiset(Filter(Touches, a))| == |multiset(Filter(Touches, b))|;
  }

  lemma BundleIdsPermute(a: seq<ChangeSet>, b: seq<ChangeSet>)
    requires multiset(a) == multiset(b)
    ensures BundleIds(a) == BundleIds(b)
  {
    assert forall c :: c in a <==> c in multiset(a);
    assert forall c :: c in b <==> c in multiset(b);
  }

  lemma SelectSortPermutes<T(!new)>(less: (T, T) -> bool, keep: T -> bool, a: seq<T>, b: seq<T>)
    requires StrictWeak(less) && Distinguishes(less, a) && multiset(a) == multiset(b)
    ensures Sort(less, Filter(keep, a)) == Sort(less, Filter(keep, b))
  {
    FilterPermutes(keep, a, b);
    FilterDistinguishes(less, keep, a);
    SortPermutes(less, Filter(keep, a), Filter(keep, b));
  }

  /** Everything the builder selects is the same, except that connections stay in listing order. */
  lemma SelectionPermutes(ids: set<string>, a: Listing, b: Listing)
    requires UniqueIds(a) && Permuted(a, b)
    ensures var s, t := SelectionOf(ids, a), SelectionOf(ids, b);
            && multiset(s.connections) == multiset(t.connections)
            && s.(connections := []) == t.(connections := [])
  {
    ComparatorsOrder();
    var s := SelectionOf(ids, a);
    SelectSortPermutes(ChangeBefore, ChangeInBundle(ids), a.changes, b.changes);
    SelectSortPermutes(CheckBefore, CheckInBundle(ids, ChangeIds(s.changes)), a.checks, b.checks);
    FilterPermutes(IdIn(ReferencedIds(s.checks)), a.connections, b.connections);
    SelectSortPermutes(TestNewer, TestOf(ReferencedIds(s.checks)), a.tests, b.tests);
    SelectSortPermutes(ExecutionNewer, ExecutionOf(CheckIds(s.checks)), a.executions, b.executions);
  }

  lemma IndexByIdPermutes(a: seq<Connection>, b: seq<Connection>)
    requires UniqueConnections(a) && UniqueConnections(b) && multiset(a) == multiset(b)
    ensures IndexById(a) == IndexById(b)
  {
    IndexByIdExact(a);
    IndexByIdExact(b);
    IndexIncluded(a, b);
    IndexIncluded(b, a);
  }

  lemma IndexIncluded(a: seq<Connection>, b: seq<Connection>)
    requires UniqueConnections(a) && UniqueConnections(b) && multiset(a) == multiset(b)
    ensures forall id | id in IndexById(a) :: id in IndexById(b) && IndexById(b)[id] == IndexById(a)[id]
  {
    IndexByIdExact(a);
    IndexByIdExact(b);
    forall id | id in IndexById(a) ensures id in IndexById(b) && IndexById(b)[id] == IndexById(a)[id] {
      var c := IndexById(a)[id];
      assert c in multiset(a);
      assert c in b;
    }
  }

  /**
   Two listings of the same records and two listings of the same bundle give the same posture,
   findings, highlights, changes, checks, tests and executions.
   */
  lemma SnapshotOrderFree(x: seq<ChangeSet>, y: seq<ChangeSet>, a: Listing, b: Listing, env: set<string>)
    requires UniqueIds(a) && UniqueIds(b) && Permuted(a, b) && multiset(x) == multiset(y)
    ensures BuildSpec(x, a, env).(connections := []) == BuildSpec(y, b, env).(connections := [])
    ensures multiset(BuildSpec(x, a, env).connections) == multiset(BuildSpec(y, b, env).connections)
  {
    BundleIdsPermute(x, y);
    TouchCountPermutes(x, y);
    var ids := BundleIds(x);
    SelectionPermutes(ids, a, b);
    var s, t := SelectionOf(ids, a), SelectionOf(ids, b);
    FilterKeepsUnique(IdIn(ReferencedIds(s.checks)), a.connections);
    FilterKeepsUnique(IdIn(ReferencedIds(s.checks)), b.connections);
    IndexByIdPermutes(s.connections, t.connections);
    assert ContextOf(s, env) == ContextOf(t, env);
    assert LedgerOf(s, ContextOf(s, env)) == LedgerOf(t, ContextOf(t, env));
    ConcludeSame(s, t, LedgerOf(s, ContextOf(s, env)), if s.changes == [] then TouchCount(x) else 0);
  }

  lemma ConcludeSame(s: Selection, t: Selection, g: Ledger, fallback: nat)
    requires s.(connections := []) == t.(connections := [])
    ensures ConcludeSpec(s, g, fallback).(connections := []) == ConcludeSpec(t, g, fallback).(connections := [])
    ensures ConcludeSpec(s, g, fallback).connections == s.connections
            && ConcludeSpec(t, g, fallback).connections == t.connections
  {
  }
}
