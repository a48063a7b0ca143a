/** Which rollback policy governs a rollout: filter by scope, sort by rank, take the head. */
module RollbackPolicies {
  import opened Records
  import opened Ordering
  import Text

  datatype Policy = Policy(
    id: string, createdAt: Time, organization: string, projectId: string, serviceId: string, environmentId: string,
    enabled: bool, priority: int, maxErrorRate: real, maxLatencyMs: real, maxUnhealthyInstances: int,
    maxRestartRate: real,
    maxVerificationFailures: int, onProviderFailure: bool, onCriticalSignals: bool)

  datatype Runtime = Runtime(
    organization: string, projectId: string, serviceId: string, environmentId: string,
    production: bool, criticality: string, customerFacing: bool, risk: RiskLevel)

  /** What the store lists: enabled policies of the organization; an empty organization does not filter. */
  predicate Listed(p: Policy, rt: Runtime) {
    p.enabled && (rt.organization != "" ==> p.organization == rt.organization)
  }

  predicate InScope(p: Policy, rt: Runtime) {
    && (p.projectId != "" ==> p.projectId == rt.projectId)
    && (p.serviceId != "" ==> p.serviceId == rt.serviceId)
    && (p.environmentId != "" ==> p.environmentId == rt.environmentId)
  }

  predicate Applies(p: Policy, rt: Runtime) { Listed(p, rt) && InScope(p, rt) }

  function Specificity(p: Policy): nat {
    (if p.projectId != "" then 1 else 0) + (if p.serviceId != "" then 2 else 0)
      + (if p.environmentId != "" then 2 else 0)
  }

  /** The comparator: more specific, then of higher priority, then newer. */
  predicate Beats(p: Policy, q: Policy) {
    || Specificity(p) > Specificity(q)
    || (Specificity(p) == Specificity(q) && (p.priority > q.priority
                                             || (p.priority == q.priority && p.createdAt > q.createdAt)))
  }

  predicate SameRank(p: Policy, q: Policy) {
    Specificity(p) == Specificity(q) && p.priority == q.priority && p.createdAt == q.createdAt
  }

  /** The circumstances under which the built-in policy reacts to critical signals. */
  predicate Exposed(rt: Runtime) {
    rt.production || Text.EqualFold(rt.criticality, "mission_critical") || rt.customerFacing || rt.risk == High
      || rt.risk == Critical
  }

  function Default(rt: Runtime): Policy {
    var critical := Exposed(rt);
    Policy("rollback_policy_default", 0, rt.organization, rt.projectId, rt.serviceId, rt.environmentId, true, -1,
           if critical then 1.0 else 5.0, if critical then 500.0 else 1000.0,
           if critical then 0 else 1, if critical then 1.0 else 3.0,
           1, true, critical)
  }

  /** `r` is a best applicable policy, or the built-in default if none applies. */
  ghost predicate Effective(r: Policy, stored: seq<Policy>, rt: Runtime) {
    if exists p :: p in stored && Applies(p, rt)
    then r in stored && Applies(r, rt) && forall p | p in stored && Applies(p, rt) :: !Beats(p, r)
    else r == Default(rt)
  }

  lemma BeatsIsStrictWeak()
    ensures StrictWeak(Beats)
    ensures forall p, q :: !Beats(p, q) && !Beats(q, p) <==> SameRank(p, q)
  {
  }

  method BuildDefault(rt: Runtime) returns (p: Policy)
    ensures p == Default(rt)
  {
    var critical := rt.production;
    if Text.EqualFold(rt.criticality, "mission_critical") || rt.customerFacing {
      critical := true;
    }
    if rt.risk == High || rt.risk == Critical {
      critical := true;
    }
    var errorRate, latency, restarts, unhealthy := 5.0, 1000.0, 3.0, 1;
    if rt.production || critical {
      errorRate := 1.0;
      latency := 500.0;
      restarts := 1.0;
      unhealthy := 0;
    }
    p := Policy("rollback_policy_default", 0, rt.organization, rt.projectId, rt.serviceId, rt.environmentId, true, -1,
                errorRate, latency, unhealthy, restarts, 1, true, critical);
  }

  method Resolve(stored: seq<Policy>, rt: Runtime) returns (chosen: Policy)
    ensures Effective(chosen, stored, rt)
  {
    var policies := Select(stored, p => Listed(p, rt));
    var candidates: seq<Policy> := [];
    for i := 0 to |policies|
      invariant forall p :: p in candidates <==> p in policies[..i] && InScope(p, rt)
    {
      var p := policies[i];
      if p.projectId != "" && p.projectId != rt.projectId {
        continue;
      }
      if p.serviceId != "" && p.serviceId != rt.serviceId {
        continue;
      }
      if p.environmentId != "" && p.environmentId != rt.environmentId {
        continue;
      }
      candidates := candidates + [p];
    }
    assert policies[..|policies|] == policies;
    assert forall p :: p in candidates <==> p in stored && Applies(p, rt);
    if |candidates| == 0 {
      chosen := BuildDefault(rt);
      return;
    }
    var sorted := new Policy[|candidates|](i requires 0 <= i < |candidates| => candidates[i]);
    assert sorted[..] == candidates;
    BeatsIsStrictWeak();
    SortSlice(sorted, Beats);
    assert |multiset(sorted[..])| == |multiset(candidates)|;
    chosen := sorted[0];
    assert candidates[0] in candidates;
    assert chosen in multiset(sorted[..]);
    forall p | p in candidates ensures !Beats(p, chosen) {
      assert p in multiset(sorted[..]);
      assert p in sorted[..];
    }
  }

  /** Any listing order gives an equally ranked policy; there is always one. */
  lemma ListingOrderFree(r: Policy, a: seq<Policy>, s: Policy, b: seq<Policy>, rt: Runtime)
    requires multiset(a) == multiset(b) && Effective(r, a, rt) && Effective(s, b, rt)
    ensures SameRank(r, s) && Effective(r, b, rt)
  {
    assert forall p :: p in a <==> p in multiset(a);
    assert forall p :: p in b <==> p in multiset(b);
    BeatsIsStrictWeak();
  }

  /** The result is determined exactly when no other applicable policy ties with it. */
  lemma DeterminedExactly(r: Policy, stored: seq<Policy>, rt: Runtime)
    requires Effective(r, stored, rt)
    ensures (forall s :: Effective(s, stored, rt) ==> s == r) <==>
            (forall q | q in stored && Applies(q, rt) && SameRank(q, r) :: q == r)
  {
    BeatsIsStrictWeak();
    forall q | q in stored && Applies(q, rt) && SameRank(q, r) ensures Effective(q, stored, rt) {
      forall p | p in stored && Applies(p, rt) ensures !Beats(p, q) {
        assert !Beats(p, r);
      }
    }
    forall s | Effective(s, stored, rt) && s != r ensures s in stored && Applies(s, rt) && SameRank(s, r) {
      assert !Beats(s, r) && !Beats(r, s);
    }
  }

  /** A policy that is disabled or out of scope changes nothing; one that applies displaces exactly what it outranks. */
  lemma AddingPolicy(r: Policy, stored: seq<Policy>, p: Policy, rt: Runtime)
    ensures !Applies(p, rt) ==> (Effective(r, stored + [p], rt) <==> Effective(r, stored, rt))
    ensures Applies(p, rt) && r in stored && Effective(r, stored, rt) && Applies(r, rt) ==>
              && (Effective(r, stored + [p], rt) <==> !Beats(p, r))
              && (Effective(p, stored + [p], rt) <==> !Beats(r, p))
  {
    assert forall q :: q in stored + [p] <==> q in stored || q == p;
    if Applies(p, rt) && r in stored && Effective(r, stored, rt) && Applies(r, rt) {
      BeatsIsStrictWeak();
      if !Beats(r, p) {
        forall q | q in stored + [p] && Applies(q, rt) ensures !Beats(q, p) {
          assert q in stored ==> !Beats(q, r);
        }
      }
    }
  }

  /** `p` restricts every scope field that `q` restricts, and one more. */
  predicate Narrower(p: Policy, q: Policy) {
    && (q.projectId != "" ==> p.projectId != "")
    && (q.serviceId != "" ==> p.serviceId != "")
    && (q.environmentId != "" ==> p.environmentId != "")
    && !((p.projectId != "" ==> q.projectId != "") && (p.serviceId != "" ==> q.serviceId != "")
         && (p.environmentId != "" ==> q.environmentId != ""))
  }

  /** An applicable policy is never chosen over a narrower one, whatever their priorities. */
  lemma NarrowerWins(r: Policy, stored: seq<Policy>, p: Policy, rt: Runtime)
    requires p in stored && Applies(p, rt) && Effective(r, stored, rt)
    ensures !Narrower(p, r)
  {
    assert !Beats(p, r);
  }

  /** The default is used exactly when nothing applies, unless an identical record is stored. */
  lemma DefaultExactly(r: Policy, stored: seq<Policy>, rt: Runtime)
    requires Effective(r, stored, rt) && Default(rt) !in stored
    ensures r == Default(rt) <==> forall p | p in stored :: !Applies(p, rt)
  {
    if exists p :: p in stored && Applies(p, rt) {
      assert r in stored;
    }
  }

  function RiskRank(r: RiskLevel): nat {
    match r case Low => 0 case Medium => 1 case High => 2 case Critical => 3
  }

  /** `b` has at least the risk of `a` in every respect that the built-in policy looks at. */
  predicate AsRisky(a: Runtime, b: Runtime) {
    && (a.production ==> b.production) && (a.customerFacing ==> b.customerFacing)
    && RiskRank(a.risk) <= RiskRank(b.risk)
    && (Text.EqualFold(a.criticality, "mission_critical") ==> Text.EqualFold(b.criticality, "mission_critical"))
  }

  /** No limit is looser, and critical signals are not newly ignored. */
  predicate NoLooser(p: Policy, q: Policy) {
    && q.maxErrorRate <= p.maxErrorRate && q.maxLatencyMs <= p.maxLatencyMs && q.maxRestartRate <= p.maxRestartRate
    && q.maxUnhealthyInstances <= p.maxUnhealthyInstances && q.maxVerificationFailures <= p.maxVerificationFailures
    && (p.onCriticalSignals ==> q.onCriticalSignals) && (p.onProviderFailure ==> q.onProviderFailure)
  }

  /**
   Where no stored policy applies, more risk never loosens what governs
   the rollout, and it tightens exactly the unexposed ones.
   */
  lemma RiskTightens(a: Runtime, p: Policy, b: Runtime, q: Policy, stored: seq<Policy>)
    requires AsRisky(a, b) && Effective(p, stored, a) && Effective(q, stored, b)
    requires forall x | x in stored :: !Applies(x, a) && !Applies(x, b)
    ensures NoLooser(p, q)
    ensures q.maxErrorRate < p.maxErrorRate <==> !Exposed(a) && Exposed(b)
  {
    assert p == Default(a) && q == Default(b);
  }

  // ----- rank, scope and built-in limits, field by field -----

  /** How many of service and environment a policy restricts. */
  function Restrictions(p: Policy): nat {
    (if p.serviceId == "" then 0 else 1) + (if p.environmentId == "" then 0 else 1)
  }

  /**
   A policy outranks another one by restricting more of service and environment, then by restricting the project,
   then by priority, then by age.
   */
  lemma BeatsExactly(p: Policy, q: Policy)
    ensures Beats(p, q) <==>
            || Restrictions(p) > Restrictions(q)
            || (Restrictions(p) == Restrictions(q) && p.projectId != "" && q.projectId == "")
            || (Restrictions(p) == Restrictions(q) && (p.projectId == "" <==> q.projectId == "")
                && (p.priority > q.priority || (p.priority == q.priority && p.createdAt > q.createdAt)))
  {
  }

  /** A policy applies if it is enabled and each of its fields is open or that of the rollout. */
  lemma AppliesExactly(p: Policy, rt: Runtime)
    ensures Applies(p, rt) <==>
            && p.enabled && rt.organization in {"", p.organization} && p.projectId in {"", rt.projectId}
            && p.serviceId in {"", rt.serviceId} && p.environmentId in {"", rt.environmentId}
  {
  }

  /** The built-in policy: strict limits for production, critical or customer-facing services and high risk. */
  lemma DefaultLimits(rt: Runtime)
    ensures var p := Default(rt);
            var exposed := rt.production || Text.EqualFold(rt.criticality, "mission_critical") || rt.customerFacing
                           || rt.risk == High || rt.risk == Critical;
            && p.enabled && p.priority == -1 && p.organization == rt.organization && p.projectId == rt.projectId
            && p.serviceId == rt.serviceId && p.environmentId == rt.environmentId
            && p.maxVerificationFailures == 1 && p.onProviderFailure && (p.onCriticalSignals <==> exposed)
            && (exposed ==> p.maxErrorRate == 1.0 && p.maxLatencyMs == 500.0 && p.maxRestartRate == 1.0
                            && p.maxUnhealthyInstances == 0)
            && (!exposed ==> p.maxErrorRate == 5.0 && p.maxLatencyMs == 1000.0 && p.maxRestartRate == 3.0
                             && p.maxUnhealthyInstances == 1)
  {
  }
}
