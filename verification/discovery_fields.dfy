/** What a sync leaves in every field of a workload, exactly when it succeeds, and which names match. */
module DiscoveryFields {
  import opened Records
  import opened Discovery
  import opened DiscoveryLaws
  import Text

  // ----- names -----

  predicate Ends(s: string, suffix: string) { |suffix| <= |s| && s[|s| - |suffix|..] == suffix }

  /** A lower-case name without white space or punctuation at its ends, and without one of the four suffixes. */
  predicate Plain(s: string) {
    && s != "" && Text.Lower(s) == s && Text.Trimmed(s)
    && s[0] !in " -_/" && s[|s| - 1] !in " -_/"
    && !Ends(s, "-deployment") && !Ends(s, "-service") && !Ends(s, "-svc") && !Ends(s, "-api")
  }

  function Stripped(s: string, suffix: string): string {
    if Ends(s, "-" + suffix) then s[..|s| - |suffix| - 1] else s
  }

  lemma StripStep(s: string, suffix: string, rest: seq<string>)
    ensures StripSuffixes(s, [suffix] + rest) ==
            StripSuffixes(Stripped(s, suffix), rest)
  {
    assert ([suffix] + rest)[1..] == rest;
  }

  /** What is left after each of four suffixes in turn. */
  lemma StripsInTurn(s: string, x1: string, x2: string, x3: string, x4: string)
    ensures StripSuffixes(s, [x1] + ([x2] + ([x3] + ([x4] + [])))) ==
            Stripped(Stripped(Stripped(Stripped(s, x1), x2), x3), x4)
  {
    var s1 := Stripped(s, x1);
    var s2 := Stripped(s1, x2);
    var s3 := Stripped(s2, x3);
    StripStep(s, x1, [x2] + ([x3] + ([x4] + [])));
    StripStep(s1, x2, [x3] + ([x4] + []));
    StripStep(s2, x3, [x4] + []);
    StripStep(s3, x4, []);
  }

  /** No text ends in two of the suffixes at once: their last letters differ. */
  lemma LastLetters(s: string)
    requires s != ""
    ensures Ends(s, "-deployment") ==> s[|s| - 1] == 't'
    ensures Ends(s, "-service") ==> s[|s| - 1] == 'e'
    ensures Ends(s, "-svc") ==> s[|s| - 1] == 'c'
    ensures Ends(s, "-api") ==> s[|s| - 1] == 'i'
  {
    if Ends(s, "-deployment") { assert s[|s| - 11..][10] == 't'; }
    if Ends(s, "-service") { assert s[|s| - 8..][7] == 'e'; }
    if Ends(s, "-svc") { assert s[|s| - 4..][3] == 'c'; }
    if Ends(s, "-api") { assert s[|s| - 4..][3] == 'i'; }
  }

  lemma StripsOne(base: string, suffix: string, s: string)
    requires Plain(base) && s == base + suffix && suffix in {"", "-deployment", "-service", "-svc", "-api"}
    ensures StripSuffixes(s, SUFFIXES) == base
  {
    LastLetters(s);
    assert s[..|base|] == base && Ends(s, suffix);
    assert "-" + "deployment" == "-deployment" && "-" + "service" == "-service";
    assert "-" + "svc" == "-svc" && "-" + "api" == "-api";
    var s1 := if suffix == "-deployment" then base else s;
    var s2 := if suffix == "-service" then base else s1;
    var s3 := if suffix == "-svc" then base else s2;
    assert Stripped(s, "deployment") == s1;
    assert Stripped(s1, "service") == s2;
    assert Stripped(s2, "svc") == s3;
    assert Stripped(s3, "api") == base;
    StripsInTurn(s, "deployment", "service", "svc", "api");
    assert SUFFIXES == ["deployment"] + (["service"] + (["svc"] + (["api"] + [])));
  }

  /** Names match up to case, outer white space, and one of the four suffixes. */
  lemma TokenExactly(base: string, suffix: string, name: string)
    requires Plain(base) && suffix in {"", "-deployment", "-service", "-svc", "-api"}
    requires Text.Token(name) == base + suffix
    ensures MappingToken(name) == base
  {
    StripsOne(base, suffix, base + suffix);
    assert TrimPunctuation(base) == base;
  }

  lemma {:induction false} FirstIsTaken(entries: seq<CatalogEntry>, fits: CatalogEntry -> bool, n: nat)
    requires n < |entries| && fits(entries[n]) && forall m | 0 <= m < n :: !fits(entries[m])
    ensures FirstOf(entries, fits) == (entries[n].id, entries[n].projectId)
    decreases n
  {
    if n > 0 {
      var rest := entries[1..];
      assert forall m | 0 <= m < n :: rest[m] == entries[m + 1];
      FirstIsTaken(rest, fits, n - 1);
    }
  }

  lemma {:induction false} NothingIsTaken(entries: seq<CatalogEntry>, fits: CatalogEntry -> bool)
    requires forall e | e in entries :: !fits(e)
    ensures FirstOf(entries, fits) == ("", "")
  {
    if entries != [] {
      NothingIsTaken(entries[1..], fits);
    }
  }

  /** The entry has the name, in its slug or in its name. */
  predicate Matches(e: CatalogEntry, name: string) {
    MappingToken(e.slug) == MappingToken(name) || MappingToken(e.name) == MappingToken(name)
  }

  /** The first entry that matches is taken; `n` is its place, or the number of entries if there is none. */
  lemma GuessExactly(entries: seq<CatalogEntry>, name: string, n: nat)
    requires n <= |entries| && (forall m | 0 <= m < n :: !Matches(entries[m], name))
    requires n < |entries| ==> Matches(entries[n], name)
    ensures Guess(entries, name) == if n < |entries| then (entries[n].id, entries[n].projectId) else ("", "")
  {
    var fits := Named(name);
    forall m | 0 <= m < n ensures !fits(entries[m]) { assert !Matches(entries[m], name); }
    if n < |entries| {
      FirstIsTaken(entries, fits, n);
    } else {
      NothingIsTaken(entries, fits);
    }
  }

  // ----- the mapping of a workload -----

  /** The mapping of a stored workload, completed from the catalog where it is empty. */
  predicate MappedFrom(r: Resource, k: ResourceKey, cat: Catalog, t: Resource) {
    var service, environment := Guess(cat.services, k.name), Guess(cat.environments, k.namespace);
    && t.serviceId == (if r.serviceId != "" then r.serviceId else service.0)
    && t.environmentId == (if r.environmentId != "" then r.environmentId else environment.0)
    && t.repositoryId == r.repositoryId
    && t.projectId == (if r.projectId != "" then r.projectId
                       else if t.serviceId != "" && service.1 != "" then service.1
                       else if t.environmentId != "" then environment.1 else "")
    && (t.status == Mapped <==> t.serviceId != "" && t.environmentId != "")
    && (t.status == Candidate <==>
          && (t.serviceId == "" || t.environmentId == "")
          && (r.status == Candidate || r.status == NoStatus || r.status == Missing || r.status == Mapped))
    && (t.status == Mapped || t.status == Candidate || t.status == r.status)
  }

  predicate ReportedBy(w: Workload, now: Time, t: Resource) {
    && t.health == w.health && t.summary == w.summary && t.missingSince == None
    && t.lastSeenAt == Some(now) && t.updatedAt == now
  }

  lemma ObservedExactly(r: Resource, i: Integration, w: Workload, cat: Catalog, now: Time)
    ensures var t := Observed(r, w, cat, now);
            MappedFrom(r, KeyOf(i, w.namespace, w.name), cat, t) && ReportedBy(w, now, t)
  {
  }

  /** Observing a workload a second time maps it no further. */
  lemma MappedAgain(r: Resource, k: ResourceKey, cat: Catalog, t: Resource, u: Resource)
    requires MappedFrom(r, k, cat, t) && MappedFrom(t, k, cat, u)
    ensures MappedFrom(r, k, cat, u)
  {
  }

  /** A resource whose service has an owning team, or that has no service and no repository that would need one. */
  lemma OwnerExactly(cat: Catalog, r: Resource)
    ensures HasOwner(cat, r) <==>
            var service, repository := Text.Trim(r.serviceId), Text.Trim(r.repositoryId);
            if service != "" then service in cat.owners
            else repository != "" ==>
              && r.repositoryId in cat.repositories
              && (Text.Trim(cat.repositories[r.repositoryId]) != "" ==>
                    Text.Trim(cat.repositories[r.repositoryId]) in cat.owners)
  {
  }

  // ----- a whole sync -----

  /** The service that a shown workload ends up with. */
  function ServiceOf(s: Resources, k: ResourceKey, cat: Catalog): string {
    if Current(s, k).serviceId != "" then Current(s, k).serviceId else Guess(cat.services, k.name).0
  }

  predicate Owned(s: Resources, k: ResourceKey, cat: Catalog) {
    OwnerFound(cat, ServiceOf(s, k, cat), Current(s, k).repositoryId)
  }

  /** The workload is as it was, or mapped from what was known of it. */
  predicate KeptOrMapped(s: Resources, t: Resources, k: ResourceKey, cat: Catalog) {
    || ((k in t <==> k in s) && (k in s ==> t[k] == s[k]))
    || (k in t && MappedFrom(Current(s, k), k, cat, t[k]))
  }

  /** One more observation of the workload. */
  lemma ObservedNext(s: Resources, before: Resources, i: Integration, w: Workload, cat: Catalog, now: Time,
                     k: ResourceKey)
    requires k == KeyOf(i, w.namespace, w.name) && KeptOrMapped(s, before, k, cat)
    ensures MappedFrom(Current(s, k), k, cat, Observed(Current(before, k), w, cat, now))
  {
    ObservedExactly(Current(before, k), i, w, cat, now);
    if k in before && MappedFrom(Current(s, k), k, cat, before[k]) {
      MappedAgain(Current(s, k), k, cat, before[k], Observed(Current(before, k), w, cat, now));
    }
  }

  /** What an inventory leaves of a workload, wherever it stops. */
  lemma {:induction false} ObservedMapping(s: Resources, i: Integration, items: Inventory, cat: Catalog, now: Time,
                                           k: ResourceKey)
    ensures KeptOrMapped(s, ObserveAll(s, i, items, cat, now).0, k, cat)
  {
    if items != [] {
      var init, item := items[..|items| - 1], items[|items| - 1];
      assert items == init + [item];
      ObservedMapping(s, i, init, cat, now, k);
      ObserveStep(s, i, init, item, cat, now);
      OneMore(s, ObserveAll(s, i, init, cat, now).0, ObserveAll(s, i, items, cat, now).0, i, item, cat, now, k);
    }
  }

  lemma OneMore(s: Resources, before: Resources, t: Resources, i: Integration, item: Option<Workload>, cat: Catalog,
                now: Time, k: ResourceKey)
    requires KeptOrMapped(s, before, k, cat)
    requires t == before || (item.Some? && var x := KeyOf(i, item.value.namespace, item.value.name);
                             t == before[x := Observed(Current(before, x), item.value, cat, now)])
    ensures KeptOrMapped(s, t, k, cat)
  {
    if t != before && k == KeyOf(i, item.value.namespace, item.value.name) {
      ObservedNext(s, before, i, item.value, cat, now, k);
    }
  }

  lemma OwnedStays(s: Resources, k: ResourceKey, cat: Catalog, t: Resource)
    requires MappedFrom(Current(s, k), k, cat, t)
    ensures HasOwner(cat, t) <==> Owned(s, k, cat)
  {
  }

  /** A sync succeeds exactly if the owning team of every shown workload can be looked up. */
  lemma {:induction false} SyncSucceedsExactly(s: Resources, i: Integration, items: Inventory, cat: Catalog, now: Time)
    ensures Synced(s, i, items, cat, now).1 <==> forall k | k in SeenKeys(i, items) :: Owned(s, k, cat)
  {
    if items == [] {
    } else {
      var init, item := items[..|items| - 1], items[|items| - 1];
      SyncSucceedsExactly(s, i, init, cat, now);
      assert items == init + [item];
      SeenStep(i, init, item);
      if item.Some? {
        LastOwned(s, i, init, item.value, cat, now);
      }
    }
  }

  /** Whether the last workload can be processed does not depend on what was processed before it. */
  lemma LastOwned(s: Resources, i: Integration, init: Inventory, w: Workload, cat: Catalog, now: Time)
    ensures var k := KeyOf(i, w.namespace, w.name);
            var before := ObserveAll(s, i, init, cat, now).0;
            HasOwner(cat, Observed(Current(before, k), w, cat, now)) <==> Owned(s, k, cat)
  {
    var k := KeyOf(i, w.namespace, w.name);
    var before := ObserveAll(s, i, init, cat, now).0;
    var u := Observed(Current(before, k), w, cat, now);
    ObservedMapping(s, i, init, cat, now, k);
    ObservedNext(s, before, i, w, cat, now, k);
    OwnedStays(s, k, cat, u);
  }

  /**
   What a successful sync leaves: a shown workload is stored, mapped from what was known of it and reported as its
   last item says; an unshown one of the integration is missing and otherwise as it was; nothing else is touched.
   */
  lemma SyncedExactly(s: Resources, i: Integration, items: Inventory, cat: Catalog, now: Time, k: ResourceKey)
    requires Synced(s, i, items, cat, now).1
    ensures var t := Synced(s, i, items, cat, now).0;
            if k in SeenKeys(i, items) then
              && k in t && LastFor(i, items, k).Some?
              && MappedFrom(Current(s, k), k, cat, t[k]) && ReportedBy(LastFor(i, items, k).value, now, t[k])
            else
              && (k in t <==> k in s)
              && (k in s ==>
                    if k.organization == i.organization && k.integration == i.id
                       && k.resourceType == "kubernetes_workload"
                    then
                      t[k] == s[k].(status := Missing, health := "missing", summary := t[k].summary,
                                    missingSince := Some(now), updatedAt := now)
                    else t[k] == s[k])
  {
    SeenHasLast(i, items, k);
    ObserveOne(s, i, items, cat, now, k);
    if k in SeenKeys(i, items) {
      ObservedMapping(s, i, items, cat, now, k);
      ShownIsMapped(s, i, items, cat, now, k);
    }
  }

  /** A shown workload is mapped, even if it was stored before. */
  lemma ShownIsMapped(s: Resources, i: Integration, items: Inventory, cat: Catalog, now: Time, k: ResourceKey)
    requires ObserveAll(s, i, items, cat, now).1 && k in SeenKeys(i, items)
    ensures var t := ObserveAll(s, i, items, cat, now).0; k in t && MappedFrom(Current(s, k), k, cat, t[k])
  {
    SeenHasLast(i, items, k);
    ObserveOne(s, i, items, cat, now, k);
    ObservedMapping(s, i, items, cat, now, k);
    var t := ObserveAll(s, i, items, cat, now).0;
    if k in s && t[k] == s[k] {
      SettledIsMapped(t[k], k, cat);
    }
  }

  lemma SettledIsMapped(r: Resource, k: ResourceKey, cat: Catalog)
    requires Settled(r, k, cat)
    ensures MappedFrom(r, k, cat, r)
  {
  }

  function EnvironmentOf(s: Resources, k: ResourceKey, cat: Catalog): string {
    if Current(s, k).environmentId != "" then Current(s, k).environmentId else Guess(cat.environments, k.namespace).0
  }

  /** The item is a workload for which neither the store nor the catalog has both a service and an environment. */
  predicate Lacks(s: Resources, i: Integration, item: Option<Workload>, cat: Catalog) {
    item.Some? && var k := KeyOf(i, item.value.namespace, item.value.name);
                  ServiceOf(s, k, cat) == "" || EnvironmentOf(s, k, cat) == ""
  }

  function Unplaced(s: Resources, i: Integration, items: Inventory, cat: Catalog): set<nat> {
    set n | 0 <= n < |items| && Lacks(s, i, items[n], cat)
  }

  lemma ShownIsPlaced(s: Resources, i: Integration, items: Inventory, cat: Catalog, now: Time, k: ResourceKey)
    requires ObserveAll(s, i, items, cat, now).1 && k in SeenKeys(i, items)
    ensures Incomplete(Current(ObserveAll(s, i, items, cat, now).0, k)) <==>
            ServiceOf(s, k, cat) == "" || EnvironmentOf(s, k, cat) == ""
  {
    ShownIsMapped(s, i, items, cat, now, k);
  }

  /** The answer of a successful sync counts those items. */
  lemma {:induction false} UnmappedExactly(s: Resources, i: Integration, items: Inventory, cat: Catalog, now: Time)
    requires Synced(s, i, items, cat, now).1
    ensures Unmapped(s, i, items, cat, now) == |Unplaced(s, i, items, cat)|
  {
    if items == [] {
      assert Unplaced(s, i, items, cat) == {};
    } else {
      var n := |items| - 1;
      assert items == items[..n] + [items[n]];
      UnmappedExactly(s, i, items[..n], cat, now);
      if items[n].Some? {
        var k := KeyOf(i, items[n].value.namespace, items[n].value.name);
        SeenStep(i, items[..n], items[n]);
        ShownIsPlaced(s, i, items, cat, now, k);
      }
      UnplacedStep(s, i, items, cat, n);
    }
  }

  lemma UnplacedStep(s: Resources, i: Integration, items: Inventory, cat: Catalog, n: nat)
    requires n + 1 == |items|
    ensures |Unplaced(s, i, items, cat)| ==
            |Unplaced(s, i, items[..n], cat)| + if Lacks(s, i, items[n], cat) then 1 else 0
  {
    var before, after := Unplaced(s, i, items[..n], cat), Unplaced(s, i, items, cat);
    forall m ensures m in after <==> m in before || (m == n && Lacks(s, i, items[n], cat)) {
      if 0 <= m < n { assert items[..n][m] == items[m]; }
    }
    assert n !in before;
    assert after == if Lacks(s, i, items[n], cat) then before + {n} else before;
  }
}
