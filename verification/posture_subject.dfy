/** What the posture does not look at: the things a check asserts and describes. */
module PostureSubject {
  import opened Records
  import opened Ordering
  import opened RuntimeCheck
  import opened Posture

  /** The two checks differ at most in what they assert, how they describe it, and when they last ran. */
  predicate SameVerdict(a: Check, b: Check) {
    && a.id == b.id && a.name == b.name && a.status == b.status
    && a.phase == b.phase && a.mode == b.mode && a.required == b.required
    && a.changeSetId == b.changeSetId && a.changeId == b.changeId && a.connectionId == b.connectionId
  }

  ghost predicate SameVerdicts(s: seq<Check>, t: seq<Check>) {
    |s| == |t| && forall i | 0 <= i < |s| :: SameVerdict(s[i], t[i])
  }

  lemma SameVerdictsSplit(s: seq<Check>, t: seq<Check>)
    requires SameVerdicts(s, t) && s != []
    ensures t != [] && SameVerdict(s[0], t[0]) && SameVerdicts(s[1..], t[1..])
    ensures SameVerdict(s[|s| - 1], t[|t| - 1]) && SameVerdicts(s[..|s| - 1], t[..|t| - 1])
  {
  }

  // ----- selection -----

  lemma {:induction false} FilterAlike(keep: Check -> bool, s: seq<Check>, t: seq<Check>)
    requires SameVerdicts(s, t) && forall a, b | SameVerdict(a, b) :: keep(a) == keep(b)
    ensures SameVerdicts(Filter(keep, s), Filter(keep, t))
  {
    if s != [] {
      SameVerdictsSplit(s, t);
      FilterAlike(keep, s[..|s| - 1], t[..|t| - 1]);
    }
  }

  lemma {:induction false} InsertAlike(less: (Check, Check) -> bool, x: Check, y: Check, s: seq<Check>, t: seq<Check>)
    requires SameVerdict(x, y) && SameVerdicts(s, t)
    requires forall a, b, c, d | SameVerdict(a, b) && SameVerdict(c, d) :: less(a, c) == less(b, d)
    ensures SameVerdicts(Insert(less, x, s), Insert(less, y, t))
  {
    if s != [] {
      SameVerdictsSplit(s, t);
      assert less(s[0], x) == less(t[0], y);
    }
    if s != [] && less(s[0], x) {
      InsertAlike(less, x, y, s[1..], t[1..]);
    }
  }

  lemma {:induction false} SortAlike(less: (Check, Check) -> bool, s: seq<Check>, t: seq<Check>)
    requires SameVerdicts(s, t)
    requires forall a, b, c, d | SameVerdict(a, b) && SameVerdict(c, d) :: less(a, c) == less(b, d)
    ensures SameVerdicts(Sort(less, s), Sort(less, t))
  {
    if s != [] {
      SameVerdictsSplit(s, t);
      SortAlike(less, s[1..], t[1..]);
      InsertAlike(less, s[0], t[0], Sort(less, s[1..]), Sort(less, t[1..]));
    }
  }

  lemma SelectedAlike(keep: Check -> bool, s: seq<Check>, t: seq<Check>)
    requires SameVerdicts(s, t) && forall a, b | SameVerdict(a, b) :: keep(a) == keep(b)
    ensures SameVerdicts(Sort(CheckBefore, Filter(keep, s)), Sort(CheckBefore, Filter(keep, t)))
  {
    FilterAlike(keep, s, t);
    SortAlike(CheckBefore, Filter(keep, s), Filter(keep, t));
  }

  /** Whatever occurs in `s` has its counterpart in `t`. */
  lemma Counterpart(s: seq<Check>, t: seq<Check>, a: Check) returns (b: Check)
    requires SameVerdicts(s, t) && a in s
    ensures b in t && SameVerdict(a, b)
  {
    var i :| 0 <= i < |s| && s[i] == a;
    b := t[i];
  }

  lemma Flipped(s: seq<Check>, t: seq<Check>)
    requires SameVerdicts(s, t)
    ensures SameVerdicts(t, s)
  {
  }

  lemma IdsWithin(s: seq<Check>, t: seq<Check>)
    requires SameVerdicts(s, t)
    ensures CheckIds(s) <= CheckIds(t) && ReferencedIds(s) <= ReferencedIds(t)
  {
    forall a | a in s ensures exists b :: b in t && SameVerdict(a, b) {
      var b := Counterpart(s, t, a);
    }
  }

  lemma IdsAlike(s: seq<Check>, t: seq<Check>)
    requires SameVerdicts(s, t)
    ensures CheckIds(s) == CheckIds(t) && ReferencedIds(s) == ReferencedIds(t)
  {
    Flipped(s, t);
    IdsWithin(s, t);
    IdsWithin(t, s);
  }

  lemma SelectionAlike(ids: set<string>, l: Listing, other: Listing, s: Selection, t: Selection)
    requires other == l.(checks := other.checks) && SameVerdicts(l.checks, other.checks)
    requires s == SelectionOf(ids, l) && t == SelectionOf(ids, other)
    ensures t == s.(checks := t.checks) && SameVerdicts(s.checks, t.checks)
  {
    SelectedAlike(CheckInBundle(ids, ChangeIds(s.changes)), l.checks, other.checks);
    IdsAlike(s.checks, t.checks);
  }

  // ----- findings -----

  lemma {:induction false} FlatAlike(f: Check -> seq<Finding>, s: seq<Check>, t: seq<Check>)
    requires SameVerdicts(s, t) && forall a, b | SameVerdict(a, b) :: f(a) == f(b)
    ensures Flat(f, s) == Flat(f, t)
  {
    if s != [] {
      SameVerdictsSplit(s, t);
      FlatAlike(f, s[..|s| - 1], t[..|t| - 1]);
    }
  }

  lemma CoverageWithin(s: seq<Check>, t: seq<Check>, c: DatabaseChange, phase: Phase)
    requires SameVerdicts(s, t) && HasRequired(s, c, phase)
    ensures HasRequired(t, c, phase)
  {
    var a :| a in s && Linked(a, c) && a.required && a.phase == phase;
    var b := Counterpart(s, t, a);
    assert Linked(b, c);
  }

  lemma CoverageAlike(s: seq<Check>, t: seq<Check>, c: DatabaseChange)
    requires SameVerdicts(s, t)
    ensures ChangeBlockers(s, c) == ChangeBlockers(t, c)
    ensures forall unsafe :: ChangeWarnings(s, c, unsafe) == ChangeWarnings(t, c, unsafe)
  {
    Flipped(s, t);
    forall phase ensures HasRequired(s, c, phase) <==> HasRequired(t, c, phase) {
      if HasRequired(s, c, phase) { CoverageWithin(s, t, c, phase); }
      if HasRequired(t, c, phase) { CoverageWithin(t, s, c, phase); }
    }
  }

  lemma {:induction false} ChangesAlike(s: seq<Check>, t: seq<Check>, changes: seq<DatabaseChange>)
    requires SameVerdicts(s, t)
    ensures Flat(BlockersAmong(s), changes) == Flat(BlockersAmong(t), changes)
    ensures AllChangeWarnings(s, changes) == AllChangeWarnings(t, changes)
  {
    if changes != [] {
      ChangesAlike(s, t, changes[..|changes| - 1]);
      CoverageAlike(s, t, changes[|changes| - 1]);
    }
  }

  lemma CountsAlike(s: seq<Check>, t: seq<Check>)
    requires SameVerdicts(s, t)
    ensures |Filter(IsRequired, s)| == |Filter(IsRequired, t)|
    ensures |Filter(IsRequiredPending, s)| == |Filter(IsRequiredPending, t)|
  {
    FilterAlike(IsRequired, s, t);
    FilterAlike(IsRequiredPending, s, t);
  }

  lemma FindingsAlike(ctx: Context, s: seq<Check>, t: seq<Check>)
    requires SameVerdicts(s, t)
    ensures Flat(BlockersIn(ctx), s) == Flat(BlockersIn(ctx), t)
    ensures Flat(WarningsIn(ctx), s) == Flat(WarningsIn(ctx), t)
    ensures Flat(FindingsIn(ctx), s) == Flat(FindingsIn(ctx), t)
  {
    forall a, b | SameVerdict(a, b)
      ensures BlockersIn(ctx)(a) == BlockersIn(ctx)(b) && WarningsIn(ctx)(a) == WarningsIn(ctx)(b)
      ensures FindingsIn(ctx)(a) == FindingsIn(ctx)(b)
    {
      CheckAlike(ctx, a, b);
    }
    FlatAlike(BlockersIn(ctx), s, t);
    FlatAlike(WarningsIn(ctx), s, t);
    FlatAlike(FindingsIn(ctx), s, t);
  }

  lemma CheckAlike(ctx: Context, a: Check, b: Check)
    requires SameVerdict(a, b)
    ensures BlockersIn(ctx)(a) == BlockersIn(ctx)(b)
    ensures WarningsIn(ctx)(a) == WarningsIn(ctx)(b)
    ensures FindingsIn(ctx)(a) == FindingsIn(ctx)(b)
  {
    assert RequiredBlockers(a) == RequiredBlockers(b) && RequiredWarnings(a) == RequiredWarnings(b);
    if a.mode == RuntimeReadOnly && a.connectionId != "" && a.connectionId in ctx.connections {
      ConnectionAlike(a, b, ctx.connections[a.connectionId], ctx.tests);
    }
  }

  lemma ConnectionAlike(a: Check, b: Check, c: Connection, tests: map<string, ConnectionTest>)
    requires SameVerdict(a, b)
    ensures StatusBlockers(a, c) == StatusBlockers(b, c) && TestBlockers(a, c, tests) == TestBlockers(b, c, tests)
    ensures StatusWarnings(a, c) == StatusWarnings(b, c) && TestWarnings(a, c, tests) == TestWarnings(b, c, tests)
  {
  }

  lemma LedgerAlike(s: Selection, t: Selection, ctx: Context)
    requires t == s.(checks := t.checks) && SameVerdicts(s.checks, t.checks)
    ensures LedgerOf(s, ctx) == LedgerOf(t, ctx)
  {
    CountsAlike(s.checks, t.checks);
    FindingsAlike(ctx, s.checks, t.checks);
    ChangesAlike(s.checks, t.checks, s.changes);
  }

  lemma ConclusionAlike(s: Selection, t: Selection, g: Ledger, fallback: nat)
    requires t == s.(checks := t.checks)
    ensures ConcludeSpec(t, g, fallback) == ConcludeSpec(s, g, fallback).(checks := t.checks)
    ensures ConcludeSpec(s, g, fallback).checks == s.checks
  {
  }

  /**
   Whatever checks come to assert, nothing that is concluded from them changes: neither the posture nor
   the findings, the highlights and the other records of the snapshot. Only the listed checks show it.
   */
  lemma PostureIgnoresSubject(bundle: seq<ChangeSet>, l: Listing, other: Listing, env: set<string>)
    requires other == l.(checks := other.checks) && SameVerdicts(l.checks, other.checks)
    ensures var before, after := BuildSpec(bundle, l, env), BuildSpec(bundle, other, env);
            after == before.(checks := after.checks) && SameVerdicts(before.checks, after.checks)
  {
    var s, t := SelectionOf(BundleIds(bundle), l), SelectionOf(BundleIds(bundle), other);
    SelectionAlike(BundleIds(bundle), l, other, s, t);
    LedgerAlike(s, t, ContextOf(s, env));
    ConclusionAlike(s, t, LedgerOf(s, ContextOf(s, env)), if s.changes == [] then TouchCount(bundle) else 0);
  }
}
