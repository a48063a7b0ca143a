/** The Kubernetes inventory reconcile: upsert what was seen, mark the rest missing. */
module Discovery {
  import opened Records
  import Text

  // ----- records -----

  /** stableResourceID is taken to be injective in its parts. */
  datatype ResourceKey = ResourceKey(organization: string, integration: string, resourceType: string,
                                     namespace: string, name: string)

  datatype ResourceStatus = NoStatus | Candidate | Mapped | Missing | OperatorStatus(text: string)

  datatype Resource = Resource(
    projectId: string, serviceId: string, environmentId: string, repositoryId: string,
    status: ResourceStatus, health: string, summary: string,
    missingSince: Option<Time>, lastSeenAt: Option<Time>, updatedAt: Time)

  type Resources = map<ResourceKey, Resource>

  /** One workload of the inventory; `None` stands for an item that does not parse or has no name. */
  datatype Workload = Workload(namespace: string, name: string, health: string, summary: string)
  type Inventory = seq<Option<Workload>>

  datatype CatalogEntry = CatalogEntry(id: string, projectId: string, slug: string, name: string)

  /** `owners` are the services whose owning team can be looked up; `repositories` gives the service of a repository. */
  datatype Catalog = Catalog(services: seq<CatalogEntry>, environments: seq<CatalogEntry>, owners: set<string>,
                             repositories: map<string, string>)

  datatype Integration = Integration(organization: string, id: string)

  const WORKLOAD := "kubernetes_workload"

  function KeyOf(i: Integration, namespace: string, name: string): ResourceKey {
    ResourceKey(i.organization, i.id, WORKLOAD, namespace, name)
  }

  predicate Belongs(i: Integration, k: ResourceKey) {
    k.organization == i.organization && k.integration == i.id && k.resourceType == WORKLOAD
  }

  // ----- guessing a mapping from names -----

  function StripSuffixes(value: string, suffixes: seq<string>): string
    decreases |suffixes|
  {
    if suffixes == [] then value
    else
      var s := "-" + suffixes[0];
      StripSuffixes(if |s| <= |value| && value[|value| - |s|..] == s then value[..|value| - |s|] else value,
                    suffixes[1..])
  }

  function TrimPunctuation(s: string): string {
    if s == "" then s
    else if s[0] in {' ', '-', '_', '/'} then TrimPunctuation(s[1..])
    else if s[|s| - 1] in {' ', '-', '_', '/'} then TrimPunctuation(s[..|s| - 1])
    else s
  }

  const SUFFIXES: seq<string> := ["deployment", "service", "svc", "api"]

  function MappingToken(value: string): string {
    TrimPunctuation(StripSuffixes(Text.Token(value), SUFFIXES))
  }

  /** The id and project of the first entry that fits. */
  function FirstOf(entries: seq<CatalogEntry>, fits: CatalogEntry -> bool): (string, string)
    decreases |entries|
  {
    if entries == [] then ("", "")
    else if fits(entries[0]) then (entries[0].id, entries[0].projectId)
    else FirstOf(entries[1..], fits)
  }

  /** The entry has the name, in its slug or in its name. */
  function Named(name: string): CatalogEntry -> bool {
    (e: CatalogEntry) => MappingToken(name) == MappingToken(e.slug) || MappingToken(name) == MappingToken(e.name)
  }

  function Guess(entries: seq<CatalogEntry>, name: string): (string, string) {
    FirstOf(entries, Named(name))
  }

  // ----- observing one workload -----

  function Or(value: string, fallback: string): string { if value == "" then fallback else value }

  function ObservedStatus(current: ResourceStatus, serviceId: string, environmentId: string): ResourceStatus {
    if serviceId != "" && environmentId != "" then Mapped
    else if current == NoStatus || current == Missing || current == Mapped then Candidate
    else current
  }

  const UNKNOWN := Resource("", "", "", "", NoStatus, "", "", None, None, 0)

  /** buildKubernetesDiscoveredResource: mappings are filled in only where they are empty. */
  function Observed(current: Resource, w: Workload, cat: Catalog, now: Time): Resource {
    var (service, serviceProject) := Guess(cat.services, w.name);
    var (environment, environmentProject) := Guess(cat.environments, w.namespace);
    var serviceId, environmentId := Or(current.serviceId, service), Or(current.environmentId, environment);
    var projectId :=
      if current.projectId != "" then current.projectId
      else if serviceId != "" && serviceProject != "" then serviceProject
      else if environmentId != "" && environmentProject != "" then environmentProject
      else "";
    current.(serviceId := serviceId, environmentId := environmentId, projectId := projectId,
             status := ObservedStatus(current.status, serviceId, environmentId),
             health := w.health, summary := w.summary, missingSince := None, lastSeenAt := Some(now), updatedAt := now)
  }

  /** Whether the owning team of a resource, if it has one, can be looked up. */
  predicate OwnerFound(cat: Catalog, serviceId: string, repositoryId: string) {
    if !Text.IsBlank(serviceId) then Text.Trim(serviceId) in cat.owners
    else if Text.IsBlank(repositoryId) then true
    else repositoryId in cat.repositories
         && (Text.IsBlank(cat.repositories[repositoryId]) || Text.Trim(cat.repositories[repositoryId]) in cat.owners)
  }

  predicate HasOwner(cat: Catalog, r: Resource) { OwnerFound(cat, r.serviceId, r.repositoryId) }

  function Current(s: Resources, k: ResourceKey): Resource { if k in s then s[k] else UNKNOWN }

  // ----- a whole sync -----

  /** The store after observing an inventory, and whether every item could be processed. */
  function ObserveAll(s: Resources, i: Integration, items: Inventory, cat: Catalog, now: Time): (Resources, bool) {
    if items == [] then (s, true)
    else
      var (before, ok) := ObserveAll(s, i, items[..|items| - 1], cat, now);
      var item := items[|items| - 1];
      if !ok || item.None? then (before, ok)
      else
        var k := KeyOf(i, item.value.namespace, item.value.name);
        var r := Observed(Current(before, k), item.value, cat, now);
        if HasOwner(cat, r) then (before[k := r], true) else (before, false)
  }

  function SeenKeys(i: Integration, items: Inventory): set<ResourceKey> {
    set x | x in items && x.Some? :: KeyOf(i, x.value.namespace, x.value.name)
  }

  function Lost(r: Resource, now: Time): Resource {
    r.(status := Missing, health := "missing",
       summary := "kubernetes workload was not present in the latest inventory refresh",
       missingSince := Some(now), updatedAt := now)
  }

  function MarkMissing(s: Resources, i: Integration, seen: set<ResourceKey>, now: Time): Resources {
    map k | k in s :: if Belongs(i, k) && k !in seen then Lost(s[k], now) else s[k]
  }

  /** discoverKubernetesResources: an item that cannot be processed ends the sync before anything is marked missing. */
  function Synced(s: Resources, i: Integration, items: Inventory, cat: Catalog, now: Time): (Resources, bool) {
    var (observed, ok) := ObserveAll(s, i, items, cat, now);
    (if ok then MarkMissing(observed, i, SeenKeys(i, items), now) else observed, ok)
  }

  predicate Incomplete(r: Resource) { r.serviceId == "" || r.environmentId == "" }

  /** How many items were left without a service or an environment when they were observed. */
  function Unmapped(s: Resources, i: Integration, items: Inventory, cat: Catalog, now: Time): nat {
    if items == [] then 0
    else
      var before := Unmapped(s, i, items[..|items| - 1], cat, now);
      var item := items[|items| - 1];
      if item.None? then before
      else
        var k := KeyOf(i, item.value.namespace, item.value.name);
        before + if Incomplete(Current(ObserveAll(s, i, items, cat, now).0, k)) then 1 else 0
  }

  method Lose(current: Resource, now: Time) returns (r: Resource)
    ensures r == Lost(current, now)
  {
    r := current.(status := Missing, health := "missing",
                  summary := "kubernetes workload was not present in the latest inventory refresh");
    r := r.(missingSince := Some(now), updatedAt := now);
  }

  class DiscoveryStore {
    var resources: Resources

    constructor ()
      ensures resources == map[]
    {
      resources := map[];
    }

    method Observe(i: Integration, w: Workload, cat: Catalog, now: Time) returns (ok: bool)
      modifies this
      ensures var k := KeyOf(i, w.namespace, w.name);
              var r := Observed(Current(old(resources), k), w, cat, now);
              ok == HasOwner(cat, r) && resources == if ok then old(resources)[k := r] else old(resources)
    {
      var k := KeyOf(i, w.namespace, w.name);
      var r := UNKNOWN;
      if k in resources {
        r := resources[k];
      }
      r := r.(health := w.health, summary := w.summary, lastSeenAt := Some(now), updatedAt := now,
              missingSince := None);
      var service := Guess(cat.services, w.name);
      var environment := Guess(cat.environments, w.namespace);
      if r.serviceId == "" && service.0 != "" {
        r := r.(serviceId := service.0);
      }
      if r.environmentId == "" && environment.0 != "" {
        r := r.(environmentId := environment.0);
      }
      if r.projectId == "" {
        if r.serviceId != "" && service.1 != "" {
          r := r.(projectId := service.1);
        } else if r.environmentId != "" && environment.1 != "" {
          r := r.(projectId := environment.1);
        }
      }
      if r.serviceId != "" && r.environmentId != "" {
        r := r.(status := Mapped);
      } else if r.status == NoStatus || r.status == Missing || r.status == Mapped {
        r := r.(status := Candidate);
      }
      if !HasOwner(cat, r) {
        return false;
      }
      resources := resources[k := r];
      return true;
    }

    method Sync(i: Integration, items: Inventory, cat: Catalog, now: Time) returns (r: Result<nat>)
      modifies this
      ensures (resources, r.Ok?) == Synced(old(resources), i, items, cat, now)
      ensures r.Ok? ==> r.value == Unmapped(old(resources), i, items, cat, now)
    {
      var seen: set<ResourceKey> := {};
      var unmapped := 0;
      for n := 0 to |items|
        invariant (resources, true) == ObserveAll(old(resources), i, items[..n], cat, now)
        invariant seen == SeenKeys(i, items[..n])
        invariant unmapped == Unmapped(old(resources), i, items[..n], cat, now)
      {
        ghost var before := items[..n];
        assert items[..n + 1][..n] == before && items[..n + 1] == before + [items[n]];
        if items[n].Some? {
          var w := items[n].value;
          var ok := Observe(i, w, cat, now);
          if !ok {
            FailureLasts(old(resources), i, items, n + 1, cat, now);
            return Err(Unavailable);
          }
          var k := KeyOf(i, w.namespace, w.name);
          seen := seen + {k};
          if resources[k].serviceId == "" || resources[k].environmentId == "" {
            unmapped := unmapped + 1;
          }
        }
        SeenStep(i, before, items[n]);
      }
      assert items[..|items|] == items;
      MarkUnseen(i, seen, now);
      return Ok(unmapped);
    }

    /** markMissingDiscoveredResources. */
    method MarkUnseen(i: Integration, seen: set<ResourceKey>, now: Time)
      modifies this
      ensures resources == MarkMissing(old(resources), i, seen, now)
    {
      ghost var before, after := resources, MarkMissing(resources, i, seen, now);
      var rest := resources.Keys;
      while rest != {}
        invariant rest <= before.Keys && resources.Keys == before.Keys
        invariant forall k | k in before :: resources[k] == if k in rest then before[k] else after[k]
        decreases rest
      {
        var k :| k in rest;
        rest := rest - {k};
        if Belongs(i, k) && k !in seen {
          var r := Lose(resources[k], now);
          resources := resources[k := r];
        }
      }
    }
  }

  lemma SeenStep(i: Integration, items: Inventory, item: Option<Workload>)
    ensures SeenKeys(i, items + [item]) ==
            if item.Some? then SeenKeys(i, items) + {KeyOf(i, item.value.namespace, item.value.name)}
            else SeenKeys(i, items)
  {
    assert forall x :: x in items + [item] <==> x in items || x == item;
  }

  /** Once an item has failed, the rest of the inventory is not processed. */
  lemma {:induction false} FailureLasts(s: Resources, i: Integration, items: Inventory, n: nat, cat: Catalog, now: Time)
    requires n <= |items| && !ObserveAll(s, i, items[..n], cat, now).1
    ensures ObserveAll(s, i, items, cat, now) == ObserveAll(s, i, items[..n], cat, now)
    decreases |items|
  {
    if n == |items| {
      assert items[..n] == items;
    } else {
      assert items[..|items| - 1][..n] == items[..n];
      FailureLasts(s, i, items[..|items| - 1], n, cat, now);
    }
  }
}
