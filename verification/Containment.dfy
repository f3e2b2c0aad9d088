/** Containment rules: the guard of authority_guard.go, the blast radius of
    grand_governance_service.go, and the tenant filter of the SQL snapshot. */
module Containment {
  import opened Basics
  import opened Authority
  import opened Model

  datatype Identity = Identity(agentID: string, tenant: string, agent: Agent)

  datatype ToolContract = ToolContract(name: string, resource: Resource)

  datatype Snapshot = Snapshot(
    missions: seq<Mission>, projections: seq<Projection>, leases: seq<Lease>,
    expansions: seq<Expansion>, agents: seq<Identity>, contracts: seq<ToolContract>)

  const NO_ACTION := Action("", "", Resource("", ""), "")

  predicate TargetMatches(target: string, values: seq<string>) {
    target != "" && target in values
  }

  predicate ResourceTargetMatches(target: string, r: Resource) {
    && !(r.typ == "" && r.id == "")
    && TargetMatches(target, [r.id, r.typ + ":" + r.id, r.typ + "/" + r.id, r.typ + ":*", r.typ + "/*"])
  }

  predicate TenantAllows(rule: ContainmentRule, tenant: string) {
    rule.tenant == "" || rule.tenant == tenant
  }

  /** Listed by ListActiveContainmentRules. */
  predicate InForce(rule: ContainmentRule, at: Time) {
    rule.active && (rule.expiresAt == 0 || at <= rule.expiresAt)
  }

  predicate MatchesMission(rule: ContainmentRule, m: Mission) {
    && TenantAllows(rule, m.tenant)
    && match rule.target
       case TenantTarget => TargetMatches(rule.targetID, [m.tenant])
       case MissionTarget => TargetMatches(rule.targetID, [m.ref, m.id])
       case AgentTarget => TargetMatches(rule.targetID, [m.agent.instanceID, m.agent.clientID])
       case PrincipalTarget => TargetMatches(rule.targetID, [m.principal.subject, m.principal.tenantSubject])
       case ToolTarget => false
       case ResourceTarget => false
  }

  predicate MatchesEvaluation(rule: ContainmentRule, m: Mission, actor: Actor, action: Action) {
    && TenantAllows(rule, m.tenant)
    && (|| MatchesMission(rule, m)
        || match rule.target
           case AgentTarget =>
             TargetMatches(rule.targetID, [actor.instanceID, actor.clientID, m.agent.instanceID, m.agent.clientID])
           case PrincipalTarget => TargetMatches(rule.targetID, [m.principal.subject, m.principal.tenantSubject])
           case ToolTarget => action.name != "" && TargetMatches(rule.targetID, [action.name])
           case ResourceTarget => ResourceTargetMatches(rule.targetID, action.resource)
           case TenantTarget => false
           case MissionTarget => false)
  }

  /** missionByRef: the first mission of that reference. */
  function MissionByRef(missions: seq<Mission>, ref: string): Option<Mission> {
    if missions == [] then None
    else if missions[0].ref == ref then Some(missions[0])
    else MissionByRef(missions[1..], ref)
  }

  predicate MatchesMissionOf(rule: ContainmentRule, ref: string, missions: seq<Mission>) {
    var m := MissionByRef(missions, ref);
    m.Some? && MatchesMission(rule, m.value)
  }

  predicate MatchesProjection(rule: ContainmentRule, p: Projection, missions: seq<Mission>) {
    && TenantAllows(rule, p.tenant)
    && match rule.target
       case TenantTarget => TargetMatches(rule.targetID, [p.tenant])
       case MissionTarget => TargetMatches(rule.targetID, [p.missionRef])
       case AgentTarget => TargetMatches(rule.targetID, [p.actor.instanceID, p.actor.clientID])
       case _ => MatchesMissionOf(rule, p.missionRef, missions)
  }

  predicate MatchesLease(rule: ContainmentRule, l: Lease, missions: seq<Mission>) {
    && TenantAllows(rule, l.tenant)
    && match rule.target
       case TenantTarget => TargetMatches(rule.targetID, [l.tenant])
       case MissionTarget => TargetMatches(rule.targetID, [l.missionRef])
       case AgentTarget => TargetMatches(rule.targetID, [l.actor.instanceID, l.actor.clientID])
       case _ => MatchesMissionOf(rule, l.missionRef, missions)
  }

  predicate MatchesExpansion(rule: ContainmentRule, e: Expansion, missions: seq<Mission>) {
    && TenantAllows(rule, e.tenant)
    && match rule.target
       case TenantTarget => TargetMatches(rule.targetID, [e.tenant])
       case MissionTarget => TargetMatches(rule.targetID, [e.missionRef])
       case AgentTarget => TargetMatches(rule.targetID, [e.requester.instanceID, e.requester.clientID])
       case ToolTarget => TargetMatches(rule.targetID, [e.action.name])
       case ResourceTarget => ResourceTargetMatches(rule.targetID, e.action.resource)
       case PrincipalTarget => MatchesMissionOf(rule, e.missionRef, missions)
  }

  predicate MatchesIdentity(rule: ContainmentRule, i: Identity) {
    && TenantAllows(rule, i.tenant)
    && match rule.target
       case TenantTarget => TargetMatches(rule.targetID, [i.tenant])
       case AgentTarget => TargetMatches(rule.targetID, [i.agentID, i.agent.instanceID, i.agent.clientID])
       case _ => false
  }

  predicate MatchesContract(rule: ContainmentRule, c: ToolContract) {
    match rule.target
    case ToolTarget => TargetMatches(rule.targetID, [c.name])
    case ResourceTarget => ResourceTargetMatches(rule.targetID, c.resource)
    case _ => false
  }

  function Radius(rule: ContainmentRule, s: Snapshot): Snapshot {
    Snapshot(
      Filter(m => MatchesMission(rule, m), s.missions),
      Filter(p => MatchesProjection(rule, p, s.missions), s.projections),
      Filter(l => MatchesLease(rule, l, s.missions), s.leases),
      Filter(e => MatchesExpansion(rule, e, s.missions), s.expansions),
      Filter(i => MatchesIdentity(rule, i), s.agents),
      Filter(c => MatchesContract(rule, c), s.contracts))
  }

  method Collect<T>(keep: T -> bool, items: seq<T>) returns (kept: seq<T>)
    ensures kept == Filter(keep, items)
  {
    kept := [];
    for i := 0 to |items|
      invariant kept == Filter(keep, items[..i])
    {
      assert items[..i + 1] == items[..i] + [items[i]];
      FilterAppend(keep, items[..i], [items[i]]);
      FilterOne(keep, items[i]);
      if keep(items[i]) {
        kept := kept + [items[i]];
      }
    }
    assert items[..|items|] == items;
  }

  /** ContainmentBlastRadiusContext on a loaded snapshot. */
  method BlastRadius(rule: ContainmentRule, s: Snapshot) returns (radius: Snapshot)
    ensures radius == Radius(rule, s)
  {
    var missions := Collect(m => MatchesMission(rule, m), s.missions);
    var projections := Collect(p => MatchesProjection(rule, p, s.missions), s.projections);
    var leases := Collect(l => MatchesLease(rule, l, s.missions), s.leases);
    var expansions := Collect(e => MatchesExpansion(rule, e, s.missions), s.expansions);
    var agents := Collect(i => MatchesIdentity(rule, i), s.agents);
    var contracts := Collect(c => MatchesContract(rule, c), s.contracts);
    radius := Snapshot(missions, projections, leases, expansions, agents, contracts);
  }

  /** The radius lists exactly the loaded items that the rule matches. */
  lemma RadiusMembers(rule: ContainmentRule, s: Snapshot, m: Mission, p: Projection, l: Lease, e: Expansion)
    ensures m in Radius(rule, s).missions <==> m in s.missions && MatchesMission(rule, m)
    ensures p in Radius(rule, s).projections <==> p in s.projections && MatchesProjection(rule, p, s.missions)
    ensures l in Radius(rule, s).leases <==> l in s.leases && MatchesLease(rule, l, s.missions)
    ensures e in Radius(rule, s).expansions <==> e in s.expansions && MatchesExpansion(rule, e, s.missions)
  {
    FilterMember(m => MatchesMission(rule, m), s.missions, m);
    FilterMember(p => MatchesProjection(rule, p, s.missions), s.projections, p);
    FilterMember(l => MatchesLease(rule, l, s.missions), s.leases, l);
    FilterMember(e => MatchesExpansion(rule, e, s.missions), s.expansions, e);
  }

  // ---------------------------------------------------------------- the tenant filter of the SQL snapshot

  function FilterTenant(rule: ContainmentRule): string {
    if rule.tenant == "" && rule.target == TenantTarget then rule.targetID else rule.tenant
  }

  predicate Loaded(rule: ContainmentRule, tenant: string) {
    FilterTenant(rule) == "" || FilterTenant(rule) == tenant
  }

  /** The rows queryTenantJSON selects; tool contracts are always all loaded. */
  function Prefilter(rule: ContainmentRule, s: Snapshot): Snapshot {
    Snapshot(
      Filter((m: Mission) => Loaded(rule, m.tenant), s.missions),
      Filter((p: Projection) => Loaded(rule, p.tenant), s.projections),
      Filter((l: Lease) => Loaded(rule, l.tenant), s.leases),
      Filter((e: Expansion) => Loaded(rule, e.tenant), s.expansions),
      Filter((i: Identity) => Loaded(rule, i.tenant), s.agents),
      s.contracts)
  }

  /** Dropping rows a filter would drop anyway, then filtering by an equivalent test. */
  lemma {:induction false} FilterTwice<T>(first: T -> bool, then': T -> bool, once: T -> bool, xs: seq<T>)
    requires forall x <- xs :: once(x) <==> first(x) && then'(x)
    ensures Filter(then', Filter(first, xs)) == Filter(once, xs)
  {
    if xs == [] {
    } else {
      FilterTwice(first, then', once, xs[1..]);
      assert xs == [xs[0]] + xs[1..];
      var rest := Filter(first, xs[1..]);
      if first(xs[0]) {
        assert ([xs[0]] + rest)[1..] == rest;
      } else {
        assert [] + rest == rest;
      }
    }
  }

  ghost predicate UniqueRefs(missions: seq<Mission>) {
    forall i, j :: 0 <= i < j < |missions| ==> missions[i].ref != missions[j].ref
  }

  lemma {:induction false} MissionByRefFound(missions: seq<Mission>, m: Mission)
    requires UniqueRefs(missions) && m in missions
    ensures MissionByRef(missions, m.ref) == Some(m)
  {
    if missions[0] != m {
      MissionByRefFound(missions[1..], m);
    }
  }

  lemma {:induction false} MissionByRefMember(missions: seq<Mission>, ref: string)
    ensures MissionByRef(missions, ref).Some? ==>
              MissionByRef(missions, ref).value in missions && MissionByRef(missions, ref).value.ref == ref
    ensures MissionByRef(missions, ref).None? ==> forall m <- missions :: m.ref != ref
  {
    if missions == [] {
    } else {
      MissionByRefMember(missions[1..], ref);
    }
  }

  lemma {:induction false} FilterUnique(keep: Mission -> bool, missions: seq<Mission>)
    requires UniqueRefs(missions)
    ensures UniqueRefs(Filter(keep, missions))
  {
    if missions == [] {
    } else {
      FilterUnique(keep, missions[1..]);
      forall m | m in Filter(keep, missions[1..])
        ensures m.ref != missions[0].ref
      {
        FilterMember(keep, missions[1..], m);
      }
    }
  }

  /** Loaded or not, the mission behind an item decides the same way. */
  lemma MissionOfLoaded(rule: ContainmentRule, ref: string, missions: seq<Mission>)
    requires UniqueRefs(missions)
    requires rule.target != TenantTarget
    ensures var kept := Filter((m: Mission) => Loaded(rule, m.tenant), missions);
            MatchesMissionOf(rule, ref, kept) <==> MatchesMissionOf(rule, ref, missions)
  {
    var keep := (m: Mission) => Loaded(rule, m.tenant);
    var kept := Filter(keep, missions);
    FilterUnique(keep, missions);
    MissionByRefMember(missions, ref);
    MissionByRefMember(kept, ref);
    forall m: Mission
      ensures m in kept <==> m in missions && keep(m)
    {
      FilterMember(keep, missions, m);
    }
    if MissionByRef(kept, ref).Some? {
      MissionByRefFound(missions, MissionByRef(kept, ref).value);
    } else if MissionByRef(missions, ref).Some? {
      assert MissionByRef(missions, ref).value !in kept;
    }
  }

  /** Loading only the rows of the rule's tenant changes no blast radius, for any rule and any
      store, although the mission of a loaded projection may not itself be loaded. */
  lemma PrefilterLosesNothing(rule: ContainmentRule, s: Snapshot)
    requires UniqueRefs(s.missions)
    ensures Radius(rule, Prefilter(rule, s)) == Radius(rule, s)
  {
    var kept := Prefilter(rule, s).missions;
    if rule.target != TenantTarget {
      forall ref: string
        ensures MatchesMissionOf(rule, ref, kept) <==> MatchesMissionOf(rule, ref, s.missions)
      {
        MissionOfLoaded(rule, ref, s.missions);
      }
    }
    FilterTwice((m: Mission) => Loaded(rule, m.tenant), m => MatchesMission(rule, m), m => MatchesMission(rule, m), s.missions);
    FilterTwice((p: Projection) => Loaded(rule, p.tenant), p => MatchesProjection(rule, p, kept),
                p => MatchesProjection(rule, p, s.missions), s.projections);
    FilterTwice((l: Lease) => Loaded(rule, l.tenant), l => MatchesLease(rule, l, kept),
                l => MatchesLease(rule, l, s.missions), s.leases);
    FilterTwice((e: Expansion) => Loaded(rule, e.tenant), e => MatchesExpansion(rule, e, kept),
                e => MatchesExpansion(rule, e, s.missions), s.expansions);
    FilterTwice((i: Identity) => Loaded(rule, i.tenant), i => MatchesIdentity(rule, i), i => MatchesIdentity(rule, i), s.agents);
  }

  // ---------------------------------------------------------------- guard against radius

  /** A stored rule in force that the operation matches. */
  ghost predicate Stops(rules: map<string, ContainmentRule>, rule: ContainmentRule, m: Mission, actor: Actor, action: Action, at: Time) {
    InForce(rule, at) && MatchesEvaluation(rule, m, actor, action) && exists id <- rules :: rules[id] == rule
  }

  /** The guard refuses an operation of this actor and action on this mission. */
  ghost predicate Contained(rules: map<string, ContainmentRule>, m: Mission, actor: Actor, action: Action, at: Time) {
    exists id <- rules :: InForce(rules[id], at) && MatchesEvaluation(rules[id], m, actor, action)
  }

  /** What the guard finds for a projection, whose mission it loads itself. */
  predicate MatchesGuardedProjection(rule: ContainmentRule, m: Mission, p: Projection) {
    MatchesEvaluation(rule, m, p.actor, NO_ACTION) || MatchesProjection(rule, p, [])
  }

  ghost predicate ProjectionContained(rules: map<string, ContainmentRule>, m: Mission, p: Projection, at: Time) {
    exists id <- rules :: InForce(rules[id], at) && MatchesGuardedProjection(rules[id], m, p)
  }

  /** A mission in the radius is refused to every actor and action. */
  lemma MissionInRadius(rule: ContainmentRule, m: Mission, actor: Actor, action: Action)
    requires MatchesMission(rule, m)
    ensures MatchesEvaluation(rule, m, actor, action)
  {
  }

  /** The guard and the radius agree on projections, but for rules that name a mission by its
      identifier instead of its reference: those the guard enforces and the radius omits. */
  lemma ProjectionGuardIsRadius(rule: ContainmentRule, m: Mission, p: Projection, missions: seq<Mission>)
    requires UniqueRefs(missions) && m in missions && p.missionRef == m.ref
    requires p.tenant == m.tenant && p.actor.instanceID == m.agent.instanceID && p.actor.clientID == m.agent.clientID
    ensures MatchesGuardedProjection(rule, m, p) <==>
            || MatchesProjection(rule, p, missions)
            || (rule.target == MissionTarget && TenantAllows(rule, m.tenant) && TargetMatches(rule.targetID, [m.id]))
  {
    MissionByRefFound(missions, m);
  }

  lemma LeaseInRadius(rule: ContainmentRule, m: Mission, l: Lease, missions: seq<Mission>, action: Action)
    requires UniqueRefs(missions) && m in missions && l.missionRef == m.ref && l.tenant == m.tenant
    requires MatchesLease(rule, l, missions)
    ensures MatchesEvaluation(rule, m, l.actor, action)
  {
    MissionByRefFound(missions, m);
  }

  lemma ExpansionInRadius(rule: ContainmentRule, m: Mission, e: Expansion, missions: seq<Mission>)
    requires UniqueRefs(missions) && m in missions && e.missionRef == m.ref && e.tenant == m.tenant
    requires MatchesExpansion(rule, e, missions)
    ensures MatchesEvaluation(rule, m, e.requester, e.action)
  {
    MissionByRefFound(missions, m);
  }

  /** On a lease the guard enforces more than the radius lists: rules that name the mission by its
      identifier, the lease operation as a tool, or the mission as a resource. */
  lemma LeaseGuardIsRadius(rule: ContainmentRule, m: Mission, l: Lease, missions: seq<Mission>)
    requires UniqueRefs(missions) && m in missions && l.missionRef == m.ref
    requires l.tenant == m.tenant && l.actor.instanceID == m.agent.instanceID && l.actor.clientID == m.agent.clientID
    ensures MatchesEvaluation(rule, m, l.actor, Action("lease", "mission_lease", Resource("mission", m.ref), "lease")) <==>
            || MatchesLease(rule, l, missions)
            || (TenantAllows(rule, m.tenant) &&
                  (|| (rule.target == MissionTarget && TargetMatches(rule.targetID, [m.id]))
                   || (rule.target == ToolTarget && rule.targetID == "mission_lease")
                   || (rule.target == ResourceTarget && ResourceTargetMatches(rule.targetID, Resource("mission", m.ref)))))
  {
    MissionByRefFound(missions, m);
  }

  /** On a request for expansion it is only the rules that name the mission by its identifier. */
  lemma ExpansionGuardIsRadius(rule: ContainmentRule, m: Mission, e: Expansion, missions: seq<Mission>)
    requires UniqueRefs(missions) && m in missions && e.missionRef == m.ref
    requires e.tenant == m.tenant && e.requester.instanceID == m.agent.instanceID && e.requester.clientID == m.agent.clientID
    ensures MatchesEvaluation(rule, m, e.requester, e.action) <==>
            || MatchesExpansion(rule, e, missions)
            || (rule.target == MissionTarget && TenantAllows(rule, m.tenant) && TargetMatches(rule.targetID, [m.id]))
  {
    MissionByRefFound(missions, m);
  }

  predicate OfTenant(rule: ContainmentRule, tenant: string) {
    && (rule.tenant != "" ==> tenant == rule.tenant)
    && (rule.tenant == "" && rule.target == TenantTarget && rule.targetID != "" ==> tenant == rule.targetID)
  }

  /** The rows loaded: those of the rule's tenant, or of the tenant a rule of no tenant targets. */
  lemma PrefilterMembers(rule: ContainmentRule, s: Snapshot, m: Mission, p: Projection, l: Lease, e: Expansion, i: Identity)
    ensures m in Prefilter(rule, s).missions <==> m in s.missions && OfTenant(rule, m.tenant)
    ensures p in Prefilter(rule, s).projections <==> p in s.projections && OfTenant(rule, p.tenant)
    ensures l in Prefilter(rule, s).leases <==> l in s.leases && OfTenant(rule, l.tenant)
    ensures e in Prefilter(rule, s).expansions <==> e in s.expansions && OfTenant(rule, e.tenant)
    ensures i in Prefilter(rule, s).agents <==> i in s.agents && OfTenant(rule, i.tenant)
  {
    FilterMember((m: Mission) => Loaded(rule, m.tenant), s.missions, m);
    FilterMember((p: Projection) => Loaded(rule, p.tenant), s.projections, p);
    FilterMember((l: Lease) => Loaded(rule, l.tenant), s.leases, l);
    FilterMember((e: Expansion) => Loaded(rule, e.tenant), s.expansions, e);
    FilterMember((i: Identity) => Loaded(rule, i.tenant), s.agents, i);
  }
}
