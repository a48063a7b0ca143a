/** More changes and worse checks never make a posture look better, and the one case where they do. */
module PostureMonotone {
  import opened Records
  import opened Ordering
  import opened RuntimeCheck
  import opened Posture
  import opened PostureLaws

  function StatusLevel(s: Status): nat {
    match s case NoPosture => 0 case Advisory => 1 case ReviewRequired => 2 case Blocked => 3
  }

  function SafetyLevel(s: Safety): nat {
    match s case Standard => 0 case Guarded => 1 case ManualReview => 2 case Unsafe => 3
  }

  predicate AtLeast(better: PostureRecord, worse: PostureRecord) {
    && StatusLevel(better.status) <= StatusLevel(worse.status)
    && SafetyLevel(better.safety) <= SafetyLevel(worse.safety)
  }

  /** The facts that Classification reads a posture off. */
  datatype Facts = Facts(relevant: bool, classified: bool, blocked: bool, doubted: bool,
                         irreversible: bool, manualOnly: bool, forward: bool, expand: bool)

  ghost function FactsOf(bundle: seq<ChangeSet>, l: Listing, env: set<string>): Facts {
    Facts(IsRelevant(bundle, l), HasChanges(bundle, l), IsBlocked(bundle, l, env), IsDoubted(bundle, l, env),
          AnyReversibility(bundle, l, Irreversible), AnyReversibility(bundle, l, ManualOnly),
          AnyCompatibility(bundle, l, ForwardIncompatible), AnyCompatibility(bundle, l, ExpandContract))
  }

  function StatusFor(f: Facts): Status {
    if !f.relevant then NoPosture else if f.blocked then Blocked else if f.doubted then ReviewRequired else Advisory
  }

  function SafetyFor(f: Facts): Safety {
    if !f.relevant then Standard
    else if f.irreversible then Unsafe
    else if !f.classified || f.manualOnly || f.forward then ManualReview
    else if f.doubted then Guarded
    else Standard
  }

  function RankFrom(f: Facts): Rank {
    if !f.relevant then RankNone
    else if !f.classified then RankSchema
    else if f.forward then RankForward
    else if f.expand then RankExpand
    else RankBackward
  }

  lemma ReadOff(bundle: seq<ChangeSet>, l: Listing, env: set<string>, p: PostureRecord, f: Facts)
    requires WellFormed(l) && p == BuildSpec(bundle, l, env).posture && f == FactsOf(bundle, l, env)
    ensures p.status == StatusFor(f) && p.safety == SafetyFor(f) && p.compatibility == RankFrom(f)
    ensures f.classified ==> f.relevant
    ensures !f.classified ==> f.doubted && !f.irreversible && !f.manualOnly && !f.forward && !f.expand
  {
    Classification(bundle, l, env);
  }

  /** Whatever `f` says, `g` says too. */
  predicate Implied(f: Facts, g: Facts) {
    && (f.relevant ==> g.relevant) && (f.classified ==> g.classified) && (f.blocked ==> g.blocked)
    && (f.doubted ==> g.doubted)
    && (f.irreversible ==> g.irreversible) && (f.manualOnly ==> g.manualOnly) && (f.forward ==> g.forward)
    && (f.expand ==> g.expand)
  }

  lemma ImpliedIsWorse(f: Facts, g: Facts)
    requires Implied(f, g) && (f.classified <==> g.classified)
    ensures StatusLevel(StatusFor(f)) <= StatusLevel(StatusFor(g))
    ensures SafetyLevel(SafetyFor(f)) <= SafetyLevel(SafetyFor(g))
    ensures Level(RankFrom(f)) <= Level(RankFrom(g))
  {
  }

  /** Selecting more changes selects more checks, but none that could cover an older change. */
  lemma CoverageKept(bundle: seq<ChangeSet>, l: Listing, c: DatabaseChange, earlier: DatabaseChange, phase: Phase)
    requires ChangePicked(bundle, l, earlier) && earlier.id != c.id
    ensures var more := l.(changes := l.changes + [c]);
            HasRequired(SelectionOf(BundleIds(bundle), more).checks, earlier, phase) <==>
              HasRequired(SelectionOf(BundleIds(bundle), l).checks, earlier, phase)
  {
    var more := l.(changes := l.changes + [c]);
    SelectionMembers(bundle, l);
    SelectionMembers(bundle, more);
    forall k | Linked(k, earlier) ensures CheckPicked(bundle, more, k) <==> CheckPicked(bundle, l, k) {
      if CheckPicked(bundle, l, k) {
        PickedKept(bundle, l, c, k);
      }
    }
  }

  lemma PickedKept(bundle: seq<ChangeSet>, l: Listing, c: DatabaseChange, k: Check)
    requires CheckPicked(bundle, l, k)
    ensures CheckPicked(bundle, l.(changes := l.changes + [c]), k)
  {
    var more := l.(changes := l.changes + [c]);
    if k.changeSetId !in BundleIds(bundle) {
      var d :| ChangePicked(bundle, l, d) && d.id == k.changeId;
      assert ChangePicked(bundle, more, d);
    }
  }

  /** Blocking and warning conditions survive the arrival of another change. */
  lemma ConditionsKept(bundle: seq<ChangeSet>, l: Listing, env: set<string>, c: DatabaseChange)
    requires WellFormed(l) && HasChanges(bundle, l) && c.id !in ChangeIds(l.changes)
    ensures var more := l.(changes := l.changes + [c]);
            && (IsBlocked(bundle, l, env) ==> IsBlocked(bundle, more, env))
            && (IsDoubted(bundle, l, env) ==> IsDoubted(bundle, more, env))
  {
    var more := l.(changes := l.changes + [c]);
    assert FullContext(l, env) == FullContext(more, env);
    forall d | ChangePicked(bundle, l, d) ensures ChangePicked(bundle, more, d) && d.id != c.id {
      assert d.id in ChangeIds(l.changes);
    }
    forall k | CheckPicked(bundle, l, k) ensures CheckPicked(bundle, more, k) {
      PickedKept(bundle, l, c, k);
    }
    forall d, phase | ChangePicked(bundle, l, d)
      ensures HasRequired(SelectionOf(BundleIds(bundle), more).checks, d, phase) <==>
              HasRequired(SelectionOf(BundleIds(bundle), l).checks, d, phase) {
      CoverageKept(bundle, l, c, d, phase);
    }
  }

  lemma ExtremesKept(bundle: seq<ChangeSet>, l: Listing, c: DatabaseChange)
    ensures var more := l.(changes := l.changes + [c]);
            && (HasChanges(bundle, l) ==> HasChanges(bundle, more))
            && (forall r :: AnyReversibility(bundle, l, r) ==> AnyReversibility(bundle, more, r))
            && (forall r :: AnyCompatibility(bundle, l, r) ==> AnyCompatibility(bundle, more, r))
  {
    var more := l.(changes := l.changes + [c]);
    forall d | ChangePicked(bundle, l, d) ensures ChangePicked(bundle, more, d) {}
  }

  /**
   Once a bundle has a database change, recording another one never lowers the status, the rollback
   safety or the compatibility rank. The position in the listing is immaterial (SnapshotOrderFree).
   */
  lemma AnotherChangeNeverImproves(bundle: seq<ChangeSet>, l: Listing, env: set<string>, c: DatabaseChange)
    requires WellFormed(l) && c.id !in ChangeIds(l.changes) && HasChanges(bundle, l)
    ensures var more := l.(changes := l.changes + [c]);
            var before, after := BuildSpec(bundle, l, env).posture, BuildSpec(bundle, more, env).posture;
            AtLeast(before, after) && Level(before.compatibility) <= Level(after.compatibility)
  {
    var more := l.(changes := l.changes + [c]);
    MoreWellFormed(l, c);
    var f, g := FactsOf(bundle, l, env), FactsOf(bundle, more, env);
    ReadOff(bundle, l, env, BuildSpec(bundle, l, env).posture, f);
    ReadOff(bundle, more, env, BuildSpec(bundle, more, env).posture, g);
    FactsKept(bundle, l, env, c, f, g);
    ImpliedIsWorse(f, g);
  }

  lemma FactsKept(bundle: seq<ChangeSet>, l: Listing, env: set<string>, c: DatabaseChange, f: Facts, g: Facts)
    requires WellFormed(l) && c.id !in ChangeIds(l.changes) && HasChanges(bundle, l)
    requires f == FactsOf(bundle, l, env) && g == FactsOf(bundle, l.(changes := l.changes + [c]), env)
    ensures Implied(f, g) && f.classified && g.classified
  {
    ConditionsKept(bundle, l, env, c);
    ExtremesKept(bundle, l, c);
  }

  lemma MoreWellFormed(l: Listing, c: DatabaseChange)
    requires WellFormed(l) && c.id !in ChangeIds(l.changes)
    ensures WellFormed(l.(changes := l.changes + [c]))
  {
    var s := l.changes + [c];
    forall i, j | 0 <= i < j < |s| ensures s[i].id != s[j].id {
      if j == |l.changes| { assert s[i] in l.changes && s[i].id in ChangeIds(l.changes); }
    }
  }

  /**
   The first classified change of a bundle that was only guessed to touch the schema replaces the guess.
   The status falls if nothing is then left to doubt, the rank falls unless the change is forward-incompatible,
   and the safety falls unless the change itself calls for manual review or worse: monotonicity fails exactly there.
   */
  lemma FirstChangeReplacesGuess(bundle: seq<ChangeSet>, l: Listing, env: set<string>, c: DatabaseChange)
    requires WellFormed(l) && c.id !in ChangeIds(l.changes)
    requires !HasChanges(bundle, l) && TouchCount(bundle) > 0 && c.changeSetId in BundleIds(bundle)
    ensures var more := l.(changes := l.changes + [c]);
            var before, after := BuildSpec(bundle, l, env).posture, BuildSpec(bundle, more, env).posture;
            && (StatusLevel(before.status) <= StatusLevel(after.status) <==> !IsClean(bundle, more, env))
            && (Level(before.compatibility) <= Level(after.compatibility) <==> c.compatibility == ForwardIncompatible)
            && (SafetyLevel(before.safety) <= SafetyLevel(after.safety) <==>
                  c.reversibility != Reversible || c.compatibility == ForwardIncompatible)
  {
    var more := l.(changes := l.changes + [c]);
    MoreWellFormed(l, c);
    var f, g := FactsOf(bundle, l, env), FactsOf(bundle, more, env);
    ReadOff(bundle, l, env, BuildSpec(bundle, l, env).posture, f);
    ReadOff(bundle, more, env, BuildSpec(bundle, more, env).posture, g);
    FirstFacts(bundle, l, env, c, f, g);
    FirstCompared(c, f, g);
    BlockedStays(bundle, l, env, c);
    CleanExactly(bundle, more, env);
    FirstStatus(f, g);
  }

  /** Without classified changes only checks block, and those go on blocking. */
  lemma BlockedStays(bundle: seq<ChangeSet>, l: Listing, env: set<string>, c: DatabaseChange)
    requires !HasChanges(bundle, l)
    ensures IsBlocked(bundle, l, env) ==> IsBlocked(bundle, l.(changes := l.changes + [c]), env)
  {
    var more := l.(changes := l.changes + [c]);
    assert FullContext(l, env) == FullContext(more, env);
    forall k | CheckPicked(bundle, l, k) ensures CheckPicked(bundle, more, k) {
      PickedKept(bundle, l, c, k);
    }
  }

  lemma FirstStatus(f: Facts, g: Facts)
    requires f.relevant && g.relevant && f.doubted && (f.blocked ==> g.blocked)
    ensures StatusLevel(StatusFor(f)) <= StatusLevel(StatusFor(g)) <==> g.blocked || g.doubted
  {
  }

  /**
   It happens: a bundle under review for its unclassified schema
   change becomes advisory when the change is recorded.
   */
  lemma FirstChangeLowersStatus() returns (bundle: seq<ChangeSet>, l: Listing, env: set<string>, c: DatabaseChange)
    ensures WellFormed(l) && c.id !in ChangeIds(l.changes) && !HasChanges(bundle, l) && TouchCount(bundle) > 0
    ensures BuildSpec(bundle, l, env).posture.status == ReviewRequired
    ensures BuildSpec(bundle, l.(changes := l.changes + [c]), env).posture.status == Advisory
  {
    var full, k;
    bundle, full, env, k := CleanExample();
    c := full.changes[0];
    l := full.(changes := []);
    assert l.changes + [c] == full.changes;
    assert full == l.(changes := l.changes + [c]);
    AdvisoryExactly(bundle, full, env);
    BlockedStays(bundle, l, env, c);
    CleanExactly(bundle, full, env);
    StatusExact(bundle, l, env);
  }

  predicate GuessThenFirst(c: DatabaseChange, f: Facts, g: Facts) {
    && f.relevant && !f.classified && g.relevant && g.classified
    && !f.irreversible && !f.manualOnly && !f.forward && !f.expand
    && (g.irreversible <==> c.reversibility == Irreversible) && (g.manualOnly <==> c.reversibility == ManualOnly)
    && (g.forward <==> c.compatibility == ForwardIncompatible) && (g.expand <==> c.compatibility == ExpandContract)
  }

  lemma FirstFacts(bundle: seq<ChangeSet>, l: Listing, env: set<string>, c: DatabaseChange, f: Facts, g: Facts)
    requires !HasChanges(bundle, l) && TouchCount(bundle) > 0 && c.changeSetId in BundleIds(bundle)
    requires f == FactsOf(bundle, l, env) && g == FactsOf(bundle, l.(changes := l.changes + [c]), env)
    ensures GuessThenFirst(c, f, g)
  {
    OnlyChange(bundle, l, c);
  }

  lemma FirstCompared(c: DatabaseChange, f: Facts, g: Facts)
    requires GuessThenFirst(c, f, g)
    ensures Level(RankFrom(f)) <= Level(RankFrom(g)) <==> c.compatibility == ForwardIncompatible
    ensures SafetyLevel(SafetyFor(f)) <= SafetyLevel(SafetyFor(g)) <==>
            c.reversibility != Reversible || c.compatibility == ForwardIncompatible
  {
  }

  lemma OnlyChange(bundle: seq<ChangeSet>, l: Listing, c: DatabaseChange)
    requires !HasChanges(bundle, l) && c.changeSetId in BundleIds(bundle)
    ensures var more := l.(changes := l.changes + [c]);
            && HasChanges(bundle, more)
            && (forall r :: AnyReversibility(bundle, more, r) <==> c.reversibility == r)
            && (forall r :: AnyCompatibility(bundle, more, r) <==> c.compatibility == r)
  {
    var more := l.(changes := l.changes + [c]);
    forall d ensures ChangePicked(bundle, more, d) <==> d == c {
      assert ChangePicked(bundle, more, d) ==> d == c || ChangePicked(bundle, l, d);
    }
    assert ChangePicked(bundle, more, c);
  }

  // ----- a required check loses its pass -----

  lemma PickedSwap(bundle: seq<ChangeSet>, l: Listing, worse: Listing, i: nat, k1: Check)
    requires i < |l.checks| && worse == l.(checks := l.checks[i := k1])
    requires k1.changeSetId == l.checks[i].changeSetId && k1.changeId == l.checks[i].changeId
    ensures forall k | CheckPicked(bundle, l, k) :: k == l.checks[i] || CheckPicked(bundle, worse, k)
    ensures forall k | CheckPicked(bundle, worse, k) :: k == k1 || CheckPicked(bundle, l, k)
    ensures CheckPicked(bundle, l, l.checks[i]) <==> CheckPicked(bundle, worse, k1)
  {
    forall c ensures ChangePicked(bundle, l, c) <==> ChangePicked(bundle, worse, c) {}
    assert worse.checks[i] == k1;
    forall k | k in l.checks ensures k == l.checks[i] || k in worse.checks {
      var j :| 0 <= j < |l.checks| && l.checks[j] == k;
      assert j == i || worse.checks[j] == k;
    }
    forall k | k in worse.checks ensures k == k1 || k in l.checks {
      var j :| 0 <= j < |worse.checks| && worse.checks[j] == k;
      assert j == i || l.checks[j] == k;
    }
  }

  /** Replacing one check by a version with another status changes neither selection nor coverage. */
  lemma SameSelection(bundle: seq<ChangeSet>, l: Listing, i: nat, status: CheckStatus)
    requires i < |l.checks|
    ensures var worse := l.(checks := l.checks[i := l.checks[i].(status := status)]);
            && (forall k | CheckPicked(bundle, l, k) :: k == l.checks[i] || CheckPicked(bundle, worse, k))
            && (CheckPicked(bundle, l, l.checks[i]) <==> CheckPicked(bundle, worse, worse.checks[i]))
            && (forall c, phase :: HasRequired(SelectionOf(BundleIds(bundle), l).checks, c, phase) <==>
                                   HasRequired(SelectionOf(BundleIds(bundle), worse).checks, c, phase))
  {
    var worse := l.(checks := l.checks[i := l.checks[i].(status := status)]);
    PickedSwap(bundle, l, worse, i, worse.checks[i]);
    SelectionMembers(bundle, l);
    SelectionMembers(bundle, worse);
    SwappedCoverage(SelectionOf(BundleIds(bundle), l).checks, SelectionOf(BundleIds(bundle), worse).checks,
                    l.checks[i], status);
  }

  lemma SwappedCoverage(some: seq<Check>, other: seq<Check>, k0: Check, status: CheckStatus)
    requires forall k | k in some :: k == k0 || k in other
    requires forall k | k in other :: k == k0.(status := status) || k in some
    requires k0 in some <==> k0.(status := status) in other
    ensures forall c, phase :: HasRequired(some, c, phase) <==> HasRequired(other, c, phase)
  {
    var k1 := k0.(status := status);
    forall c, phase ensures HasRequired(some, c, phase) <==> HasRequired(other, c, phase) {
      if HasRequired(some, c, phase) {
        var k :| k in some && Linked(k, c) && k.required && k.phase == phase;
        assert k in other || k1 in other;
      }
      if HasRequired(other, c, phase) {
        var k :| k in other && Linked(k, c) && k.required && k.phase == phase;
        assert k in some || k0 in some;
      }
    }
  }

  /** A required check that has passed and stops doing so never improves the status or the rollback safety. */
  lemma LosingAPassNeverImproves(bundle: seq<ChangeSet>, l: Listing, env: set<string>, i: nat, status: CheckStatus)
    requires WellFormed(l) && i < |l.checks| && l.checks[i].required && l.checks[i].status == CheckPassed
    ensures var worse := l.(checks := l.checks[i := l.checks[i].(status := status)]);
            AtLeast(BuildSpec(bundle, l, env).posture, BuildSpec(bundle, worse, env).posture)
  {
    var worse := l.(checks := l.checks[i := l.checks[i].(status := status)]);
    assert UniqueChecks(worse.checks);
    var f, g := FactsOf(bundle, l, env), FactsOf(bundle, worse, env);
    ReadOff(bundle, l, env, BuildSpec(bundle, l, env).posture, f);
    ReadOff(bundle, worse, env, BuildSpec(bundle, worse, env).posture, g);
    ConditionsWorsen(bundle, l, env, i, status);
    SameExtremes(bundle, l, worse);
    ImpliedIsWorse(f, g);
  }

  lemma ConditionsWorsen(bundle: seq<ChangeSet>, l: Listing, env: set<string>, i: nat, status: CheckStatus)
    requires WellFormed(l) && i < |l.checks| && l.checks[i].required && l.checks[i].status == CheckPassed
    ensures var worse := l.(checks := l.checks[i := l.checks[i].(status := status)]);
            && (IsBlocked(bundle, l, env) ==> IsBlocked(bundle, worse, env))
            && (IsDoubted(bundle, l, env) ==> IsDoubted(bundle, worse, env))
  {
    var worse := l.(checks := l.checks[i := l.checks[i].(status := status)]);
    SameSelection(bundle, l, i, status);
    SameExtremes(bundle, l, worse);
    assert FullContext(worse, env) == FullContext(l, env);
    var some, other := SelectionOf(BundleIds(bundle), l).checks, SelectionOf(BundleIds(bundle), worse).checks;
    WorseCheck(FullContext(l, env), l.checks[i], status);
    SameCoverage(some, other);
    if IsBlocked(bundle, l, env) {
      BlockedTransfers(bundle, l, worse, env, l.checks[i], worse.checks[i]);
    }
    if IsDoubted(bundle, l, env) {
      DoubtedTransfers(bundle, l, worse, env, l.checks[i], worse.checks[i]);
    }
  }

  lemma SameCoverage(some: seq<Check>, other: seq<Check>)
    requires forall c, phase :: HasRequired(some, c, phase) <==> HasRequired(other, c, phase)
    ensures forall c :: ChangeBlocks(some, c) <==> ChangeBlocks(other, c)
    ensures forall c :: ChangeWarns(some, c) <==> ChangeWarns(other, c)
  {
  }

  lemma BlockedTransfers(bundle: seq<ChangeSet>, l: Listing, worse: Listing, env: set<string>, k0: Check, k1: Check)
    requires IsBlocked(bundle, l, env) && FullContext(worse, env) == FullContext(l, env)
    requires forall k | CheckPicked(bundle, l, k) :: k == k0 || CheckPicked(bundle, worse, k)
    requires CheckPicked(bundle, l, k0) ==> CheckPicked(bundle, worse, k1)
    requires CheckBlocks(FullContext(l, env), k0) ==> CheckBlocks(FullContext(l, env), k1)
    requires forall c :: ChangePicked(bundle, l, c) ==> ChangePicked(bundle, worse, c)
    requires var some, other := SelectionOf(BundleIds(bundle), l).checks, SelectionOf(BundleIds(bundle), worse).checks;
             forall c :: ChangeBlocks(some, c) <==> ChangeBlocks(other, c)
    ensures IsBlocked(bundle, worse, env)
  {
    var full := FullContext(l, env);
    if k :| CheckPicked(bundle, l, k) && CheckBlocks(full, k) {
      var next := if k == k0 then k1 else k;
      assert CheckPicked(bundle, worse, next) && CheckBlocks(full, next);
    } else {
      var c :| ChangePicked(bundle, l, c) && ChangeBlocks(SelectionOf(BundleIds(bundle), l).checks, c);
      assert ChangePicked(bundle, worse, c);
    }
  }

  lemma DoubtedTransfers(bundle: seq<ChangeSet>, l: Listing, worse: Listing, env: set<string>, k0: Check, k1: Check)
    requires IsDoubted(bundle, l, env) && FullContext(worse, env) == FullContext(l, env)
    requires forall k | CheckPicked(bundle, l, k) :: k == k0 || CheckPicked(bundle, worse, k)
    requires CheckPicked(bundle, l, k0) ==> CheckPicked(bundle, worse, k1)
    requires CheckWarns(FullContext(l, env), k0) ==> CheckWarns(FullContext(l, env), k1)
    requires forall c :: ChangePicked(bundle, l, c) <==> ChangePicked(bundle, worse, c)
    requires var some, other := SelectionOf(BundleIds(bundle), l).checks, SelectionOf(BundleIds(bundle), worse).checks;
             forall c :: ChangeWarns(some, c) <==> ChangeWarns(other, c)
    ensures IsDoubted(bundle, worse, env)
  {
    var full := FullContext(l, env);
    if k :| CheckPicked(bundle, l, k) && CheckWarns(full, k) {
      var next := if k == k0 then k1 else k;
      assert CheckPicked(bundle, worse, next) && CheckWarns(full, next);
    } else if HasChanges(bundle, l) {
      var c :| ChangePicked(bundle, l, c) && ChangeWarns(SelectionOf(BundleIds(bundle), l).checks, c);
      assert ChangePicked(bundle, worse, c);
    }
  }

  lemma WorseCheck(ctx: Context, k: Check, status: CheckStatus)
    requires k.required && k.status == CheckPassed
    ensures CheckBlocks(ctx, k) ==> CheckBlocks(ctx, k.(status := status))
    ensures CheckWarns(ctx, k) ==> CheckWarns(ctx, k.(status := status))
  {
  }

  lemma SameExtremes(bundle: seq<ChangeSet>, l: Listing, worse: Listing)
    requires l.changes == worse.changes
    ensures forall c :: ChangePicked(bundle, l, c) <==> ChangePicked(bundle, worse, c)
    ensures HasChanges(bundle, l) <==> HasChanges(bundle, worse)
    ensures forall r :: AnyReversibility(bundle, l, r) <==> AnyReversibility(bundle, worse, r)
    ensures forall r :: AnyCompatibility(bundle, l, r) <==> AnyCompatibility(bundle, worse, r)
  {
    forall c ensures ChangePicked(bundle, l, c) <==> ChangePicked(bundle, worse, c) {}
  }
}
