/** What a sync achieves, what no number of syncs changes, and that repeating one changes only timestamps. */
module DiscoveryLaws {
  import opened Records
  import opened Discovery

  /** Non-empty mappings are kept. */
  predicate KeepsMapping(a: Resource, b: Resource) {
    && (a.serviceId != "" ==> b.serviceId == a.serviceId)
    && (a.environmentId != "" ==> b.environmentId == a.environmentId)
    && (a.projectId != "" ==> b.projectId == a.projectId)
    && b.repositoryId == a.repositoryId
  }

  ghost predicate KeepsMappings(s: Resources, t: Resources) {
    forall k | k in s :: k in t && KeepsMapping(s[k], t[k])
  }

  /** The catalog has nothing to add to the mapping or the status of a present workload. */
  predicate Settled(r: Resource, k: ResourceKey, cat: Catalog) {
    var (service, serviceProject) := Guess(cat.services, k.name);
    var (environment, environmentProject) := Guess(cat.environments, k.namespace);
    && (r.serviceId == "" ==> service == "") && (r.environmentId == "" ==> environment == "")
    && (r.projectId == "" ==>
        !(r.serviceId != "" && serviceProject != "") && !(r.environmentId != "" && environmentProject != ""))
    && r.status == ObservedStatus(r.status, r.serviceId, r.environmentId)
    && r.missingSince == None
  }

  lemma ObservedSettles(r: Resource, i: Integration, w: Workload, cat: Catalog, now: Time)
    ensures Settled(Observed(r, w, cat, now), KeyOf(i, w.namespace, w.name), cat)
    ensures KeepsMapping(r, Observed(r, w, cat, now))
  {
  }

  function Refreshed(r: Resource, w: Workload, now: Time): Resource {
    r.(health := w.health, summary := w.summary, lastSeenAt := Some(now), updatedAt := now)
  }

  lemma SettledRefreshes(r: Resource, i: Integration, w: Workload, cat: Catalog, now: Time)
    requires Settled(r, KeyOf(i, w.namespace, w.name), cat)
    ensures Observed(r, w, cat, now) == Refreshed(r, w, now)
  {
  }

  /** The last item of the inventory for a key. */
  function LastFor(i: Integration, items: Inventory, k: ResourceKey): Option<Workload> {
    if items == [] then None
    else
      var item := items[|items| - 1];
      if item.Some? && KeyOf(i, item.value.namespace, item.value.name) == k then item
      else LastFor(i, items[..|items| - 1], k)
  }

  lemma {:induction false} SeenHasLast(i: Integration, items: Inventory, k: ResourceKey)
    ensures k in SeenKeys(i, items) <==> LastFor(i, items, k).Some?
    ensures LastFor(i, items, k).Some? ==> KeyOf(i, LastFor(i, items, k).value.namespace,
                                                 LastFor(i, items, k).value.name) == k
  {
    if items == [] {
    } else {
      SeenHasLast(i, items[..|items| - 1], k);
      assert items == items[..|items| - 1] + [items[|items| - 1]];
      SeenStep(i, items[..|items| - 1], items[|items| - 1]);
    }
  }

  /** Observing keeps every mapping, even if it stops half-way. */
  lemma {:induction false} ObserveKeepsMappings(s: Resources, i: Integration, items: Inventory, cat: Catalog, now: Time)
    ensures KeepsMappings(s, ObserveAll(s, i, items, cat, now).0)
  {
    if items == [] {
    } else {
      var init, item := items[..|items| - 1], items[|items| - 1];
      ObserveKeepsMappings(s, i, init, cat, now);
      var before := ObserveAll(s, i, init, cat, now).0;
      if item.Some? {
        ObservedSettles(Current(before, KeyOf(i, item.value.namespace, item.value.name)), i, item.value, cat, now);
      }
    }
  }

  /** What an inventory that is processed in full leaves for one key. */
  lemma {:induction false} ObserveOne(s: Resources, i: Integration, items: Inventory, cat: Catalog, now: Time,
                                      k: ResourceKey)
    requires ObserveAll(s, i, items, cat, now).1
    ensures var t := ObserveAll(s, i, items, cat, now).0;
            match LastFor(i, items, k)
            case None => (k in t <==> k in s) && (k in s ==> t[k] == s[k])
            case Some(w) => k in t && Settled(t[k], k, cat) && HasOwner(cat, t[k]) && t[k] == Refreshed(t[k], w, now)
  {
    if items == [] {
    } else {
      var init, item := items[..|items| - 1], items[|items| - 1];
      ObserveOne(s, i, init, cat, now, k);
      var before := ObserveAll(s, i, init, cat, now).0;
      if item.Some? && KeyOf(i, item.value.namespace, item.value.name) == k {
        ObservedSettles(Current(before, k), i, item.value, cat, now);
      }
    }
  }

  ghost predicate SettledFor(s: Resources, keys: set<ResourceKey>, cat: Catalog) {
    forall k | k in keys :: k in s && Settled(s[k], k, cat) && HasOwner(cat, s[k])
  }

  /** Over settled workloads an inventory is always processed in full and only refreshes them. */
  lemma {:induction false} ObserveStable(s: Resources, i: Integration, items: Inventory, cat: Catalog, now: Time)
    requires SettledFor(s, SeenKeys(i, items), cat)
    ensures ObserveAll(s, i, items, cat, now).1
    ensures var t := ObserveAll(s, i, items, cat, now).0;
            t.Keys == s.Keys && forall k | k in s ::
              match LastFor(i, items, k)
              case None => t[k] == s[k]
              case Some(w) => t[k] == Refreshed(s[k], w, now)
  {
    if items == [] {
    } else {
      var init, item := items[..|items| - 1], items[|items| - 1];
      assert items == init + [item];
      SeenStep(i, init, item);
      ObserveStable(s, i, init, cat, now);
      var before := ObserveAll(s, i, init, cat, now).0;
      if item.Some? {
        var k := KeyOf(i, item.value.namespace, item.value.name);
        assert k in SeenKeys(i, items);
        SettledRefreshes(before[k], i, item.value, cat, now);
      }
    }
  }

  lemma ObservedIsPresent(r: Resource, w: Workload, cat: Catalog, now: Time)
    ensures Observed(r, w, cat, now).status != Missing
  {
  }

  lemma ObserveStep(s: Resources, i: Integration, init: Inventory, item: Option<Workload>, cat: Catalog, now: Time)
    ensures var before, t := ObserveAll(s, i, init, cat, now).0, ObserveAll(s, i, init + [item], cat, now).0;
            t == before || (item.Some? && var x := KeyOf(i, item.value.namespace, item.value.name);
                            t == before[x := Observed(Current(before, x), item.value, cat, now)])
  {
    assert (init + [item])[..|init|] == init;
  }

  /** Observing never marks a resource missing, and touches only what the inventory shows. */
  lemma {:induction false} ObserveTouches(s: Resources, i: Integration, items: Inventory, cat: Catalog, now: Time,
                                          k: ResourceKey)
    ensures var t := ObserveAll(s, i, items, cat, now).0;
            && (k in s ==> k in t)
            && (k in t ==> (k in s && t[k] == s[k]) || (k in SeenKeys(i, items) && t[k].status != Missing))
  {
    if items == [] {
    } else {
      var init, item := items[..|items| - 1], items[|items| - 1];
      ObserveTouches(s, i, init, cat, now, k);
      assert items == init + [item];
      SeenStep(i, init, item);
      ObserveStep(s, i, init, item, cat, now);
      if item.Some? {
        var before := ObserveAll(s, i, init, cat, now).0;
        ObservedIsPresent(Current(before, KeyOf(i, item.value.namespace, item.value.name)), item.value, cat, now);
      }
    }
  }

  /**
   After a sync a stored workload of the integration is missing exactly if the inventory did not show it. A sync that
   stops half-way marks nothing missing, and has touched only workloads that the inventory showed.
   */
  lemma MissingExactly(s: Resources, i: Integration, items: Inventory, cat: Catalog, now: Time)
    ensures var (t, ok) := Synced(s, i, items, cat, now);
            if ok then
              && (forall k | k in t && Belongs(i, k) :: t[k].status == Missing <==> k !in SeenKeys(i, items))
              && (forall k | k in SeenKeys(i, items) :: k in t)
              && (forall k | k in t && !Belongs(i, k) :: k in s && t[k] == s[k])
            else
              && (forall k | k in s :: k in t)
              && (forall k | k in t :: (k in s && t[k] == s[k]) || (k in SeenKeys(i, items) && t[k].status != Missing))
  {
    if Synced(s, i, items, cat, now).1 {
      MissingWhenDone(s, i, items, cat, now);
    } else {
      forall k ensures var t := ObserveAll(s, i, items, cat, now).0;
                       && (k in s ==> k in t)
                       && (k in t ==> (k in s && t[k] == s[k]) || (k in SeenKeys(i, items) && t[k].status != Missing)) {
        ObserveTouches(s, i, items, cat, now, k);
      }
    }
  }

  lemma MissingWhenDone(s: Resources, i: Integration, items: Inventory, cat: Catalog, now: Time)
    requires Synced(s, i, items, cat, now).1
    ensures var t := Synced(s, i, items, cat, now).0;
            && (forall k | k in t && Belongs(i, k) :: t[k].status == Missing <==> k !in SeenKeys(i, items))
            && (forall k | k in SeenKeys(i, items) :: k in t)
            && (forall k | k in t && !Belongs(i, k) :: k in s && t[k] == s[k])
  {
    var t := Synced(s, i, items, cat, now).0;
    forall k ensures LastFor(i, items, k).Some? <==> k in SeenKeys(i, items) {
      SeenHasLast(i, items, k);
    }
    forall k | k in t || k in SeenKeys(i, items)
      ensures k in t && (Belongs(i, k) ==> (t[k].status == Missing <==> k !in SeenKeys(i, items)))
              && (!Belongs(i, k) ==> k in s && t[k] == s[k])
    {
      SeenHasLast(i, items, k);
      ObserveOne(s, i, items, cat, now, k);
    }
  }

  lemma SyncKeepsMappings(s: Resources, i: Integration, items: Inventory, cat: Catalog, now: Time)
    ensures KeepsMappings(s, Synced(s, i, items, cat, now).0)
  {
    ObserveKeepsMappings(s, i, items, cat, now);
  }

  // ----- many syncs -----

  datatype Call = Call(integration: Integration, items: Inventory, catalog: Catalog, now: Time)

  function SyncedAll(s: Resources, calls: seq<Call>): Resources {
    if calls == [] then s
    else
      var c := calls[|calls| - 1];
      Synced(SyncedAll(s, calls[..|calls| - 1]), c.integration, c.items, c.catalog, c.now).0
  }

  lemma SyncedSnoc(s: Resources, calls: seq<Call>, c: Call)
    ensures SyncedAll(s, calls + [c]) == Synced(SyncedAll(s, calls), c.integration, c.items, c.catalog, c.now).0
  {
    assert (calls + [c])[..|calls|] == calls;
  }

  /** A sequence of calls of the store leaves the resources that the laws of many syncs speak of. */
  method Replay(store: DiscoveryStore, calls: seq<Call>)
    modifies store
    ensures store.resources == SyncedAll(old(store.resources), calls)
            && KeepsMappings(old(store.resources), store.resources)
  {
    ghost var before := store.resources;
    for n := 0 to |calls|
      invariant store.resources == SyncedAll(before, calls[..n])
    {
      var c := calls[n];
      SyncedSnoc(before, calls[..n], c);
      assert calls[..n + 1] == calls[..n] + [c];
      var _ := store.Sync(c.integration, c.items, c.catalog, c.now);
    }
    assert calls[..|calls|] == calls;
    MappingsLast(before, calls);
  }

  /** No number of syncs, of whatever integrations and catalogs, changes a mapping that is set. */
  lemma {:induction false} MappingsLast(s: Resources, calls: seq<Call>)
    ensures KeepsMappings(s, SyncedAll(s, calls))
  {
    if calls == [] {
    } else {
      var c := calls[|calls| - 1];
      MappingsLast(s, calls[..|calls| - 1]);
      SyncKeepsMappings(SyncedAll(s, calls[..|calls| - 1]), c.integration, c.items, c.catalog, c.now);
    }
  }

  /**
   A mapped workload that vanishes for any number of syncs is mapped
   to the same service and environment when it returns.
   */
  lemma ReturningWorkloadIsMapped(s: Resources, calls: seq<Call>, c: Call, k: ResourceKey)
    requires k in s && s[k].serviceId != "" && s[k].environmentId != ""
    requires k in SeenKeys(c.integration, c.items)
    requires Synced(SyncedAll(s, calls), c.integration, c.items, c.catalog, c.now).1
    ensures var t := Synced(SyncedAll(s, calls), c.integration, c.items, c.catalog, c.now).0;
            k in t && t[k].status == Mapped && t[k].serviceId == s[k].serviceId
              && t[k].environmentId == s[k].environmentId
  {
    MappingsLast(s, calls);
    var before := SyncedAll(s, calls);
    SyncKeepsMappings(before, c.integration, c.items, c.catalog, c.now);
    SeenHasLast(c.integration, c.items, k);
    ObserveOne(before, c.integration, c.items, c.catalog, c.now, k);
  }

  /** A resource without the times it carries. */
  function Untimed(r: Resource): Resource {
    r.(lastSeenAt := None, updatedAt := 0, missingSince := if r.missingSince.Some? then Some(0) else None)
  }

  /** Syncing again with the same inventory and catalog succeeds and changes nothing but times. */
  lemma SyncIsIdempotent(s: Resources, i: Integration, items: Inventory, cat: Catalog, now: Time, later: Time)
    requires Synced(s, i, items, cat, now).1
    ensures var t := Synced(s, i, items, cat, now).0;
            var (u, ok) := Synced(t, i, items, cat, later);
            ok && u.Keys == t.Keys && forall k | k in t :: Untimed(u[k]) == Untimed(t[k])
  {
    var t := Synced(s, i, items, cat, now).0;
    forall k | k in SeenKeys(i, items) ensures k in t && Settled(t[k], k, cat) && HasOwner(cat, t[k]) {
      SeenHasLast(i, items, k);
      ObserveOne(s, i, items, cat, now, k);
    }
    ObserveStable(t, i, items, cat, later);
    var u := Synced(t, i, items, cat, later).0;
    forall k | k in t ensures k in u && Untimed(u[k]) == Untimed(t[k]) {
      SeenHasLast(i, items, k);
      ObserveOne(s, i, items, cat, now, k);
    }
  }
}
