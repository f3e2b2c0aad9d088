/** What each operation demands and stores, spelled out in the fields of the records. */
module Fields {
  import opened Basics
  import opened Patterns
  import opened Authority
  import opened Model
  import opened Containment
  import opened Operations

  // ---------------------------------------------------------------- missions and their callers

  predicate ByItsAgent(m: Mission, actor: Actor) {
    && actor.instanceID != "" && actor.instanceID == m.agent.instanceID
    && actor.clientID != "" && actor.clientID == m.agent.clientID
    && (m.agent.thumbprint == "" || actor.thumbprint == m.agent.thumbprint)
  }

  predicate InWindow(m: Mission, now: Time) {
    m.notBefore <= now && (m.expiresAt == 0 || now <= m.expiresAt)
  }

  lemma UsableInFields(m: Mission, actor: Actor, versionSeen: int, now: Time)
    ensures Usable(m, actor, versionSeen, now) <==>
            && m.state == Active && m.notBefore <= now && (m.expiresAt == 0 || now <= m.expiresAt)
            && actor.instanceID != "" && actor.instanceID == m.agent.instanceID
            && actor.clientID != "" && actor.clientID == m.agent.clientID
            && (m.agent.thumbprint == "" || actor.thumbprint == m.agent.thumbprint)
            && (versionSeen <= 0 || m.version <= versionSeen)
    ensures ActorMatches(m, actor) <==> ByItsAgent(m, actor)
    ensures OutsideWindow(m, now) <==> !InWindow(m, now)
  {
  }

  // ---------------------------------------------------------------- containment

  /** The rule is in force and stops this actor's action on this mission. */
  predicate RuleStops(rule: ContainmentRule, m: Mission, actor: Actor, action: Action, at: Time) {
    && rule.active && (rule.expiresAt == 0 || at <= rule.expiresAt)
    && (rule.tenant == "" || rule.tenant == m.tenant) && rule.targetID != ""
    && match rule.target
       case TenantTarget => rule.targetID == m.tenant
       case MissionTarget => rule.targetID == m.ref || rule.targetID == m.id
       case AgentTarget =>
         || rule.targetID == m.agent.instanceID || rule.targetID == m.agent.clientID
         || rule.targetID == actor.instanceID || rule.targetID == actor.clientID
       case PrincipalTarget => rule.targetID == m.principal.subject || rule.targetID == m.principal.tenantSubject
       case ToolTarget => rule.targetID == action.name
       case ResourceTarget => NamesResource(rule.targetID, action.resource)
  }

  predicate NamesResource(target: string, r: Resource) {
    && (r.typ != "" || r.id != "")
    && (|| target == r.id || target == r.typ + ":" + r.id || target == r.typ + "/" + r.id
        || target == r.typ + ":*" || target == r.typ + "/*")
  }

  /** The rule is in force and stops whatever is done with the projection. */
  predicate RuleStopsProjection(rule: ContainmentRule, m: Mission, p: Projection, at: Time) {
    && rule.active && (rule.expiresAt == 0 || at <= rule.expiresAt) && rule.targetID != ""
    && (|| (&& (rule.tenant == "" || rule.tenant == m.tenant)
            && match rule.target
               case TenantTarget => rule.targetID == m.tenant
               case MissionTarget => rule.targetID == m.ref || rule.targetID == m.id
               case AgentTarget =>
                 || rule.targetID == m.agent.instanceID || rule.targetID == m.agent.clientID
                 || rule.targetID == p.actor.instanceID || rule.targetID == p.actor.clientID
               case PrincipalTarget => rule.targetID == m.principal.subject || rule.targetID == m.principal.tenantSubject
               case ToolTarget => false
               case ResourceTarget => false)
        || (&& (rule.tenant == "" || rule.tenant == p.tenant)
            && match rule.target
               case TenantTarget => rule.targetID == p.tenant
               case MissionTarget => rule.targetID == p.missionRef
               case AgentTarget => rule.targetID == p.actor.instanceID || rule.targetID == p.actor.clientID
               case _ => false))
  }

  lemma RuleStopsMeans(rule: ContainmentRule, m: Mission, actor: Actor, action: Action, at: Time)
    ensures RuleStops(rule, m, actor, action, at) <==> InForce(rule, at) && MatchesEvaluation(rule, m, actor, action)
  {
  }

  lemma RuleStopsProjectionMeans(rule: ContainmentRule, m: Mission, p: Projection, at: Time)
    ensures RuleStopsProjection(rule, m, p, at) <==> InForce(rule, at) && MatchesGuardedProjection(rule, m, p)
  {
  }

  /** An operation is contained exactly while a stored, active and unexpired rule names what it
      touches; so an inactive or expired rule stops nothing. */
  lemma ContainedInFields(rules: map<string, ContainmentRule>, m: Mission, actor: Actor, action: Action, at: Time)
    ensures Contained(rules, m, actor, action, at) <==> exists id <- rules :: RuleStops(rules[id], m, actor, action, at)
  {
    forall id | id in rules
      ensures RuleStops(rules[id], m, actor, action, at) <==> InForce(rules[id], at) && MatchesEvaluation(rules[id], m, actor, action)
    {
      RuleStopsMeans(rules[id], m, actor, action, at);
    }
  }

  lemma ProjectionContainedInFields(rules: map<string, ContainmentRule>, m: Mission, p: Projection, at: Time)
    ensures ProjectionContained(rules, m, p, at) <==> exists id <- rules :: RuleStopsProjection(rules[id], m, p, at)
  {
    forall id | id in rules
      ensures RuleStopsProjection(rules[id], m, p, at) <==> InForce(rules[id], at) && MatchesGuardedProjection(rules[id], m, p)
    {
      RuleStopsProjectionMeans(rules[id], m, p, at);
    }
  }

  lemma StopsInFields(rules: map<string, ContainmentRule>, rule: ContainmentRule, m: Mission, actor: Actor, action: Action, at: Time)
    ensures Stops(rules, rule, m, actor, action, at) <==>
            RuleStops(rule, m, actor, action, at) && exists id <- rules :: rules[id] == rule
  {
    RuleStopsMeans(rule, m, actor, action, at);
  }

  /** A stored mission of that reference with that principal, of a tenant the rule reaches. */
  ghost predicate PrincipalOf(rule: ContainmentRule, ref: string, missions: seq<Mission>) {
    exists m <- missions ::
      && m.ref == ref && (rule.tenant == "" || rule.tenant == m.tenant)
      && (rule.targetID == m.principal.subject || rule.targetID == m.principal.tenantSubject)
  }

  lemma MissionOfInFields(rule: ContainmentRule, ref: string, missions: seq<Mission>)
    requires UniqueRefs(missions) && rule.target in {PrincipalTarget, ToolTarget, ResourceTarget}
    ensures MatchesMissionOf(rule, ref, missions) <==> rule.target == PrincipalTarget && rule.targetID != "" && PrincipalOf(rule, ref, missions)
  {
    MissionByRefMember(missions, ref);
    if rule.target == PrincipalTarget && rule.targetID != "" && PrincipalOf(rule, ref, missions) {
      var m :| && m in missions && m.ref == ref && (rule.tenant == "" || rule.tenant == m.tenant)
               && (rule.targetID == m.principal.subject || rule.targetID == m.principal.tenantSubject);
      MissionByRefFound(missions, m);
    }
  }

  /** What the blast radius of a rule lists. */
  lemma RadiusInFields(
    rule: ContainmentRule, m: Mission, p: Projection, l: Lease, e: Expansion, i: Identity, c: ToolContract, missions: seq<Mission>)
    requires UniqueRefs(missions)
    ensures MatchesMission(rule, m) <==>
            && (rule.tenant == "" || rule.tenant == m.tenant) && rule.targetID != ""
            && match rule.target
               case TenantTarget => rule.targetID == m.tenant
               case MissionTarget => rule.targetID == m.ref || rule.targetID == m.id
               case AgentTarget => rule.targetID == m.agent.instanceID || rule.targetID == m.agent.clientID
               case PrincipalTarget => rule.targetID == m.principal.subject || rule.targetID == m.principal.tenantSubject
               case _ => false
    ensures MatchesProjection(rule, p, missions) <==>
            && (rule.tenant == "" || rule.tenant == p.tenant) && rule.targetID != ""
            && match rule.target
               case TenantTarget => rule.targetID == p.tenant
               case MissionTarget => rule.targetID == p.missionRef
               case AgentTarget => rule.targetID == p.actor.instanceID || rule.targetID == p.actor.clientID
               case PrincipalTarget => PrincipalOf(rule, p.missionRef, missions)
               case _ => false
    ensures MatchesLease(rule, l, missions) <==>
            && (rule.tenant == "" || rule.tenant == l.tenant) && rule.targetID != ""
            && match rule.target
               case TenantTarget => rule.targetID == l.tenant
               case MissionTarget => rule.targetID == l.missionRef
               case AgentTarget => rule.targetID == l.actor.instanceID || rule.targetID == l.actor.clientID
               case PrincipalTarget => PrincipalOf(rule, l.missionRef, missions)
               case _ => false
    ensures MatchesExpansion(rule, e, missions) <==>
            && (rule.tenant == "" || rule.tenant == e.tenant) && rule.targetID != ""
            && match rule.target
               case TenantTarget => rule.targetID == e.tenant
               case MissionTarget => rule.targetID == e.missionRef
               case AgentTarget => rule.targetID == e.requester.instanceID || rule.targetID == e.requester.clientID
               case PrincipalTarget => PrincipalOf(rule, e.missionRef, missions)
               case ToolTarget => rule.targetID == e.action.name
               case ResourceTarget => NamesResource(rule.targetID, e.action.resource)
    ensures MatchesIdentity(rule, i) <==>
            && (rule.tenant == "" || rule.tenant == i.tenant) && rule.targetID != ""
            && match rule.target
               case TenantTarget => rule.targetID == i.tenant
               case AgentTarget => rule.targetID == i.agentID || rule.targetID == i.agent.instanceID || rule.targetID == i.agent.clientID
               case _ => false
    ensures MatchesContract(rule, c) <==>
            && rule.targetID != ""
            && match rule.target
               case ToolTarget => rule.targetID == c.name
               case ResourceTarget => NamesResource(rule.targetID, c.resource)
               case _ => false
  {
    if rule.target in {PrincipalTarget, ToolTarget, ResourceTarget} {
      MissionOfInFields(rule, p.missionRef, missions);
      MissionOfInFields(rule, l.missionRef, missions);
      MissionOfInFields(rule, e.missionRef, missions);
    }
  }

  // ---------------------------------------------------------------- creating missions

  /** A proposal is approved exactly once: it must be stored, and it is taken away. */
  lemma ApprovalSucceeds(w: World, proposalID: string, id: string, ref: string, now: Time)
    ensures ApproveProposal(w, proposalID, id, ref, now).Ok? <==> proposalID in w.proposals && ref !in w.missions
    ensures ApproveProposal(w, proposalID, id, ref, now).Ok? ==>
              var p := w.proposals[proposalID];
              var m := ApproveProposal(w, proposalID, id, ref, now).value;
              && m.id == id && m.ref == ref && m.tenant == p.tenant && m.state == Active && m.version == 1
              && m.principal == p.principal && m.agent == p.agent && m.region == p.region && m.conditions == p.conditions
              && m.notBefore == (if p.notBefore == 0 then now else p.notBefore) && m.expiresAt == p.expiresAt
              && m.delegation == p.delegation
              && AfterApprove(w, proposalID, id, ref, now) ==
                 w.(missions := w.missions[ref := m], proposals := w.proposals - {proposalID}, events := w.events + [Event(ref, Activated, 0, 1)])
  {
  }

  lemma ApprovedOnce(w: World, proposalID: string, id: string, ref: string, now: Time, id2: string, ref2: string, later: Time)
    requires ApproveProposal(w, proposalID, id, ref, now).Ok?
    ensures ApproveProposal(AfterApprove(w, proposalID, id, ref, now), proposalID, id2, ref2, later) == Err(NotFound)
  {
  }

  /** Exactly when a delegation succeeds: the parent is active, its own agent asks, nothing contains
      it, delegation is permitted and not too deep, the authority passes the subset test, and the
      child ends no later; and what is stored then. */
  lemma DelegationSucceeds(w: World, ref: string, req: DelegationRequest, id: string, childRef: string, now: Time)
    ensures Delegate(w, ref, req, id, childRef, now).Ok? <==>
            && ref in w.missions && childRef !in w.missions
            && var p := w.missions[ref];
               && p.state == Active
               && req.actor.instanceID != "" && req.actor.instanceID == p.agent.instanceID
               && req.actor.clientID != "" && req.actor.clientID == p.agent.clientID
               && (p.agent.thumbprint == "" || req.actor.thumbprint == p.agent.thumbprint)
               && (forall x <- w.containments ::
                     !RuleStops(w.containments[x], p, req.actor, Action("mission", "delegate", Resource("mission", p.ref), "delegate"), now))
               && p.delegation.permitted && (p.delegation.maxDepth <= 0 || p.delegation.depth < p.delegation.maxDepth)
               && (forall c <- req.authority.grants :: exists g <- p.region.grants ::
                     && (g.typ == "*" || g.typ == "" || g.typ == c.typ) && IdMatches(g.id, c.id)
                     && forall a <- c.actions :: "*" in g.actions || a in g.actions)
               && (forall f <- p.region.forbidden :: "*" in req.authority.forbidden || f in req.authority.forbidden)
               && (p.expiresAt == 0 || req.expiresAt <= p.expiresAt)
    ensures Delegate(w, ref, req, id, childRef, now).Ok? ==>
              var p, c := w.missions[ref], Delegate(w, ref, req, id, childRef, now).value;
              && c.id == id && c.ref == childRef && c.tenant == p.tenant && c.state == Active && c.version == 1
              && c.principal == p.principal && c.agent == req.target && c.region == req.authority
              && c.conditions == p.conditions + req.conditions && c.notBefore == now
              && c.expiresAt == (if req.expiresAt == 0 then p.expiresAt else req.expiresAt)
              && c.delegation.parent == p.ref && c.delegation.depth == p.delegation.depth + 1
              && c.delegation.permitted == req.delegation.permitted && c.delegation.maxDepth == req.delegation.maxDepth
              && AfterDelegate(w, ref, req, id, childRef, now) ==
                 w.(missions := w.missions[childRef := c], events := w.events + [Event(childRef, Delegated, 0, 1)])
  {
    if ref in w.missions {
      var p := w.missions[ref];
      ContainedInFields(w.containments, p, req.actor, MissionAction("delegate", p.ref), now);
      SubsetInFields(p.region, req.authority);
    }
  }

  // ---------------------------------------------------------------- expansions

  /** Without an authority of its own a request is for its action's one resource and operation,
      or where the operation is blank, for its name; and for nothing where any of them is missing. */
  lemma AskedInFields(ask: ExpansionAsk)
    ensures var a := ask.action;
            var operation := if Trim(a.operation) != "" then Trim(a.operation) else Trim(a.name);
            Asked(ask) ==
            if ask.requested.grants != [] then ask.requested
            else if a.resource.typ != "" && a.resource.id != "" && operation != ""
            then Region([Grant(a.resource.typ, a.resource.id, [operation], None)], [])
            else Region([], [])
  {
  }

  lemma RequestSucceeds(w: World, ref: string, ask: ExpansionAsk, id: string, now: Time)
    ensures RequestExpansion(w, ref, ask, id, now).Ok? <==>
            && ref in w.missions && id !in w.expansions && Asked(ask).grants != []
            && var m := w.missions[ref];
               && m.state == Active && ByItsAgent(m, ask.requester) && (ask.versionSeen <= 0 || m.version <= ask.versionSeen)
               && forall x <- w.containments :: !RuleStops(w.containments[x], m, ask.requester, ask.action, now)
    ensures RequestExpansion(w, ref, ask, id, now).Ok? ==>
              var m, e := w.missions[ref], RequestExpansion(w, ref, ask, id, now).value;
              && e.id == id && e.missionRef == m.ref && e.versionSeen == (if ask.versionSeen > 0 then ask.versionSeen else m.version)
              && e.tenant == m.tenant && e.requester == ask.requester && e.action == ask.action && e.risk == ask.risk
              && e.requested == Asked(ask) && e.status == Pending
              && AfterAsk(w, ref, ask, id, now) ==
                 w.(expansions := w.expansions[id := e], events := w.events + [Event(m.ref, Note, m.version, m.version)])
  {
    if ref in w.missions {
      UsableInFields(w.missions[ref], ask.requester, ask.versionSeen, now);
      ContainedInFields(w.containments, w.missions[ref], ask.requester, ask.action, now);
    }
  }

  /** The approval rule governs the request: what it names is open or the request's own. */
  predicate Governs(rule: ApprovalRule, e: Expansion) {
    && (rule.tenant == "" || rule.tenant == e.tenant)
    && (rule.resourceType == "" || rule.resourceType == "*" || rule.resourceType == e.action.resource.typ)
    && (rule.resourceID == "" || rule.resourceID == "*" || rule.resourceID == e.action.resource.id)
    && (rule.operation == "" || rule.operation == "*" || rule.operation == e.action.operation)
    && (rule.riskLevel == "" || rule.riskLevel == e.risk)
  }

  lemma GovernsMeans(rule: ApprovalRule, e: Expansion)
    ensures RuleMatchesExpansion(rule, e) <==> Governs(rule, e)
  {
  }

  /** The first governing rule, in the order of identifiers. */
  ghost predicate FirstGoverning(rules: map<string, ApprovalRule>, e: Expansion, rule: ApprovalRule) {
    && rule.id in rules && rules[rule.id] == rule && Governs(rule, e)
    && forall id <- rules :: Governs(rules[id], e) ==> id == rule.id || Less(rule.id, id)
  }

  lemma FirstMatchInFields(rules: map<string, ApprovalRule>, e: Expansion)
    ensures FirstMatch(rules, e, None) <==> forall id <- rules :: !Governs(rules[id], e)
    ensures forall rule :: FirstMatch(rules, e, Some(rule)) <==> FirstGoverning(rules, e, rule)
  {
    forall id | id in rules
      ensures RuleMatchesExpansion(rules[id], e) <==> Governs(rules[id], e)
    {
      GovernsMeans(rules[id], e);
    }
    forall rule: ApprovalRule
      ensures FirstMatch(rules, e, Some(rule)) <==> FirstGoverning(rules, e, rule)
    {
      forall id | id in rules
        ensures !Less(id, rule.id) <==> id == rule.id || Less(rule.id, id)
      {
        LessTotal(id, rule.id);
      }
    }
  }

  lemma {:induction false} FirstExists(rules: map<string, ApprovalRule>, e: Expansion, among: set<string>, id: string) returns (first: string)
    requires among <= rules.Keys && id in among && Governs(rules[id], e)
    ensures first in among && Governs(rules[first], e) && forall x <- among :: Governs(rules[x], e) ==> x == first || Less(first, x)
    decreases among
  {
    if x :| x in among && x != id && Governs(rules[x], e) && !Less(id, x) {
      LessTotal(id, x);
      first := FirstExists(rules, e, among - {id}, x);
      LessTotal(first, x);
      if first != x {
        LessTransitive(first, x, id);
      }
    } else {
      first := id;
    }
  }

  /** Where a stored rule governs the request, one of them is the first. */
  lemma SomeRuleIsFirst(rules: map<string, ApprovalRule>, e: Expansion, id: string)
    requires (forall x <- rules :: rules[x].id == x) && id in rules && Governs(rules[id], e)
    ensures exists rule :: FirstGoverning(rules, e, rule)
  {
    var first := FirstExists(rules, e, rules.Keys, id);
    assert FirstGoverning(rules, e, rules[first]);
  }

  /** Exactly when a decision succeeds. A direct one does not approve what a rule governs, and no
      approval goes past the version the request saw. */
  lemma DecisionSucceeds(w: World, id: string, approver: Principal, approve: bool, enforce: bool, now: Time)
    requires Keyed(w.missions) && forall x <- w.expansions :: w.expansions[x].id == x
    ensures Decide(w, id, approver, approve, enforce, now).Ok? <==>
            && approver.subject != "" && id in w.expansions
            && var e := w.expansions[id];
               && e.status == Pending && e.missionRef in w.missions
               && (approve && enforce ==> forall x <- w.approvalRules :: !Governs(w.approvalRules[x], e))
               && (approve ==>
                     var m := w.missions[e.missionRef];
                     && m.state == Active && (e.versionSeen <= 0 || e.versionSeen == m.version)
                     && (forall g <- e.requested.grants :: forall a <- g.actions :: "*" !in m.region.forbidden && a !in m.region.forbidden)
                     && forall x <- w.containments :: !RuleStops(w.containments[x], m, e.requester, e.action, now))
  {
    if id in w.expansions && w.expansions[id].missionRef in w.missions {
      var e := w.expansions[id];
      var m := w.missions[e.missionRef];
      FirstMatchInFields(w.approvalRules, e);
      ConflictInFields(m.region, e.requested);
      ContainedInFields(w.containments, m, e.requester, e.action, now);
    }
  }

  /** Exactly when a submission is recorded, and what it then needs. */
  lemma SubmissionSucceeds(w: World, id: string, approver: Principal, rule: Option<ApprovalRule>, now: Time)
    ensures Submission(w, id, approver, rule, now).Ok? <==>
            && approver.subject != "" && id in w.expansions
            && var e := w.expansions[id];
               && e.status == Pending && e.missionRef in w.missions
               && (forall x <- w.containments :: !RuleStops(w.containments[x], w.missions[e.missionRef], e.requester, e.action, now))
               && (rule.Some? ==>
                     && (rule.value.subjects == [] || "*" in rule.value.subjects || approver.subject in rule.value.subjects)
                     && (rule.value.issuers == [] || "*" in rule.value.issuers || approver.issuer in rule.value.issuers))
               && (id in w.approvals ==> forall r <- w.approvals[id] :: r.approver.subject != approver.subject || r.approver.issuer != approver.issuer)
    ensures Submission(w, id, approver, rule, now).Ok? ==>
              Submission(w, id, approver, rule, now).value ==
              (ApprovalRecord(if rule.Some? then rule.value.id else "", approver, now), if rule.Some? then rule.value.required else 1)
  {
    if id in w.expansions && w.expansions[id].missionRef in w.missions {
      var e := w.expansions[id];
      ContainedInFields(w.containments, w.missions[e.missionRef], e.requester, e.action, now);
    }
  }

  /** A saved approval rule governs from then on, and none is ever replaced: of one identifier the
      first stays. */
  lemma RulesStay(w: World, rule: ApprovalRule)
    ensures var w' := Apply(w, AddApprovalRule(rule));
            && w' == w.(approvalRules := w'.approvalRules)
            && (forall id <- w.approvalRules :: id in w'.approvalRules && w'.approvalRules[id] == w.approvalRules[id])
            && rule.id in w'.approvalRules
            && (rule.id !in w.approvalRules ==> w'.approvalRules[rule.id] == rule)
            && w'.approvalRules.Keys == w.approvalRules.Keys + {rule.id}
  {
  }

  // ---------------------------------------------------------------- texts, scopes and times

  lemma CleanInFields(values: seq<string>, v: string)
    ensures v in Clean(values) <==> v != "" && exists x <- values :: Trim(x) == v
  {
  }

  lemma {:induction false} ScopesOfInFields(grants: seq<Grant>, s: string)
    ensures s in ScopesOfGrants(grants) <==>
            exists g <- grants :: exists a <- g.actions :: s == Trim(g.typ) + ":" + Trim(g.id) + ":" + Trim(a)
  {
    if grants == [] {
    } else {
      ScopesOfInFields(grants[1..], s);
      var g := grants[0];
      var own := seq(|g.actions|, i requires 0 <= i < |g.actions| => ScopeFor(Resource(g.typ, g.id), g.actions[i]));
      assert s in own <==> exists a <- g.actions :: s == Trim(g.typ) + ":" + Trim(g.id) + ":" + Trim(a) by {
        if a :| a in g.actions && s == Trim(g.typ) + ":" + Trim(g.id) + ":" + Trim(a) {
          var i :| 0 <= i < |g.actions| && g.actions[i] == a;
          assert own[i] == s;
        }
      }
      assert grants == [g] + grants[1..];
    }
  }

  predicate AllBlank(values: seq<string>) {
    forall x <- values :: Trim(x) == ""
  }

  /** The scopes a projection may pass on: its own, else those it claims, else its one action, else
      access to its mission. */
  lemma AllowedScopesInFields(p: Projection, v: string)
    ensures v in AllowedScopes(p) <==>
            if !AllBlank(p.scopes) then v != "" && exists x <- p.scopes :: Trim(x) == v
            else if !AllBlank(p.claimed) then v != "" && exists x <- p.claimed :: Trim(x) == v
            else if p.resource.Some? && p.operation != ""
            then v == Trim(p.resource.value.typ) + ":" + Trim(p.resource.value.id) + ":" + Trim(p.operation)
            else v == "mission:" + p.missionRef + ":access"
  {
    BlankMeansNone(p.scopes);
    BlankMeansNone(p.claimed);
    CleanInFields(p.scopes, v);
    CleanInFields(p.claimed, v);
  }

  lemma BlankMeansNone(values: seq<string>)
    ensures AllBlank(values) <==> Clean(values) == {}
  {
    if x :| x in values && Trim(x) != "" {
      assert Trim(x) in Clean(values);
    }
  }

  /** The resource of a request: none where both parts are blank, else both trimmed. */
  lemma CleanResourceInFields(r: Option<Resource>)
    ensures CleanResource(r) ==
            if r.Some? && (Trim(r.value.typ) != "" || Trim(r.value.id) != "")
            then Some(Resource(Trim(r.value.typ), Trim(r.value.id))) else None
  {
  }

  /** Ends at the requested time, by default after so many seconds, at most after so many, but no
      later than the bound where that is set. */
  predicate EndsBy(r: Time, now: Time, seconds: nat, bound: Time) {
    r == if bound != 0 && bound < now + seconds then bound else now + seconds
  }

  lemma ExpiryInFields(now: Time, requested: int, missionExpiry: Time)
    ensures EndsBy(BoundedExpiry(now, requested, DEFAULT_PROJECTION_TTL, missionExpiry), now,
                   if requested <= 0 then 300 else requested, missionExpiry)
    ensures EndsBy(BoundedExpiry(now, requested, DEFAULT_LEASE_TTL, missionExpiry), now,
                   if requested <= 0 then 60 else if requested > 300 then 300 else requested, missionExpiry)
  {
  }

  lemma BrokerExpiryInFields(now: Time, requested: int, projectionExpiry: Time, missionExpiry: Time)
    ensures var seconds := if requested <= 0 then 120 else if requested > 300 then 300 else requested;
            var r := BrokerExpiry(now, requested, projectionExpiry, missionExpiry);
            && r <= now + seconds && (projectionExpiry != 0 ==> r <= projectionExpiry) && (missionExpiry != 0 ==> r <= missionExpiry)
            && (r == now + seconds || (projectionExpiry != 0 && r == projectionExpiry) || (missionExpiry != 0 && r == missionExpiry))
  {
  }

  // ---------------------------------------------------------------- projections

  /** A tool binding names a whole action that is in scope, or there is none. */
  predicate BoundInScope(region: Region, tool: string, r: Option<Resource>, operation: string) {
    r.Some? || operation != "" ==>
      && r.Some? && r.value.typ != "" && r.value.id != "" && operation != ""
      && InScope(region, Action("tool_call", tool, r.value, operation))
  }

  lemma BindingMeans(region: Region, tool: string, r: Option<Resource>, operation: string)
    ensures BindingInScope(region, tool, r, operation) <==> BoundInScope(region, tool, r, operation)
  {
  }

  lemma ProjectionSucceeds(w: World, ref: string, req: ProjectionRequest, id: string, jti: string, now: Time)
    ensures CreateProjection(w, ref, req, id, jti, now).Ok? <==>
            && ref in w.missions && id !in w.projections
            && Trim(req.kind) in {"oauth_claims", "mcp_context", "tool_gateway_token"}
            && var m := w.missions[ref];
               var project := Action("projection", req.kind, Resource("mission", m.ref), "project");
               && m.state == Active && InWindow(m, now) && ByItsAgent(m, req.actor) && (req.versionSeen <= 0 || m.version <= req.versionSeen)
               && (forall x <- w.containments :: !RuleStops(w.containments[x], m, req.actor, project, now))
               && BoundInScope(m.region, Trim(req.tool), CleanResource(req.resource), Trim(req.operation))
  {
    if ref in w.missions {
      var m := w.missions[ref];
      UsableInFields(m, req.actor, req.versionSeen, now);
      ContainedInFields(w.containments, m, req.actor, Action("projection", req.kind, Resource("mission", m.ref), "project"), now);
      BindingMeans(m.region, Trim(req.tool), CleanResource(req.resource), Trim(req.operation));
    }
  }

  lemma ProjectionStored(w: World, ref: string, req: ProjectionRequest, id: string, jti: string, now: Time)
    requires CreateProjection(w, ref, req, id, jti, now).Ok?
    ensures var m, p := w.missions[ref], CreateProjection(w, ref, req, id, jti, now).value;
            && p.id == id && p.missionRef == m.ref && p.missionVersion == m.version && p.tenant == m.tenant
            && p.actor == req.actor && p.token == GrantToken(jti, id) && p.records == []
            && !p.revoked && p.revokedAt == 0 && p.issuedAt == now
            && p.scopes == (if !AllBlank(req.scopes) then req.scopes else if !AllBlank(req.claimed) then req.claimed else ScopesOfGrants(m.region.grants))
            && p.claimed == req.claimed
            && p.audience == (if Trim(req.audience) != "" then Trim(req.audience)
                              else if Trim(req.kind) == "oauth_claims" then "oauth"
                              else if Trim(req.kind) == "mcp_context" then "mcp" else "tool-gateway")
            && p.tool == Trim(req.tool) && p.resource == CleanResource(req.resource) && p.operation == Trim(req.operation)
            && (p.resource.Some? || p.operation != "" ==>
                  && p.resource.Some? && p.resource.value.typ != "" && p.resource.value.id != "" && p.operation != ""
                  && InScope(m.region, Action("tool_call", p.tool, p.resource.value, p.operation)))
            && EndsBy(p.expiresAt, now, if req.ttl <= 0 then 300 else req.ttl, m.expiresAt)
            && AfterProject(w, ref, req, id, jti, now) ==
               w.(projections := w.projections[id := p], grants := w.grants + {p.token}, events := w.events + [Event(m.ref, Note, m.version, m.version)])
  {
    BlankMeansNone(req.scopes);
    BlankMeansNone(req.claimed);
    ExpiryInFields(now, req.ttl, w.missions[ref].expiresAt);
  }

  lemma ProjectionVerifies(w: World, token: GrantToken, now: Time)
    ensures ProjectionValid(w, token, now) <==>
            && token in w.grants && token.projectionID in w.projections
            && var p := w.projections[token.projectionID];
               && !p.revoked && p.revokedAt == 0 && now <= p.expiresAt && p.missionRef in w.missions
               && forall x <- w.containments :: !RuleStopsProjection(w.containments[x], w.missions[p.missionRef], p, now)
  {
    if token.projectionID in w.projections && w.projections[token.projectionID].missionRef in w.missions {
      var p := w.projections[token.projectionID];
      ProjectionContainedInFields(w.containments, w.missions[p.missionRef], p, now);
    }
  }

  /** A revocation marks the projection and each record not yet revoked with its time. */
  lemma RevocationStored(w: World, id: string, now: Time)
    requires id in w.projections
    ensures var w', p := RevokeProjection(w, id, now), w.projections[id];
            if p.revoked then w' == w
            else
              && id in w'.projections && |w'.projections[id].records| == |p.records|
              && w'.projections[id] == p.(revoked := true, revokedAt := now, records := w'.projections[id].records)
              && w' == w.(projections := w.projections[id := w'.projections[id]],
                          events := w.events + [Event(p.missionRef, Note, p.missionVersion, p.missionVersion)])
              && forall i :: 0 <= i < |p.records| ==>
                   w'.projections[id].records[i] == if p.records[i].revoked then p.records[i] else p.records[i].(revoked := true, revokedAt := now)
  {
  }

  // ---------------------------------------------------------------- credentials

  predicate FitsOpen(own: string, asked: string) {
    own == "" || Trim(asked) == "" || Trim(asked) == own
  }

  function Filled(own: string, asked: string): string {
    if Trim(asked) == "" then own else Trim(asked)
  }

  function FilledResource(own: Option<Resource>, asked: Option<Resource>): Option<Resource> {
    if CleanResource(asked) == None then own else CleanResource(asked)
  }

  lemma BindingAllowedMeans(req: ExchangeRequest, p: Projection, m: Mission)
    ensures BindingAllowed(RequestedBinding(req, p), p, m) <==>
            && FitsOpen(p.audience, req.audience) && FitsOpen(p.tool, req.tool) && FitsOpen(p.operation, req.operation)
            && (p.resource == None || CleanResource(req.resource) == None || CleanResource(req.resource) == p.resource)
            && BoundInScope(m.region, Filled(p.tool, req.tool), FilledResource(p.resource, req.resource), Filled(p.operation, req.operation))
    ensures RequestedBinding(req, p) ==
            Binding(Filled(p.audience, req.audience), Filled(p.tool, req.tool),
                    FilledResource(p.resource, req.resource), Filled(p.operation, req.operation))
  {
    BindingMeans(m.region, Filled(p.tool, req.tool), FilledResource(p.resource, req.resource), Filled(p.operation, req.operation));
  }

  /** Exactly when an exchange succeeds: an unused nonce, an issued token of a stored projection
      that is neither revoked nor expired, its own actor on a usable mission at its version, no
      containment, scopes within the projection's, and a binding that only fills in what the
      projection leaves open and is in the mission's scope. */
  lemma ExchangeSucceeds(w: World, req: ExchangeRequest, exchangeID: string, jti: string, now: Time)
    ensures Exchange(w, req, exchangeID, jti, now).Ok? <==>
            && Trim(req.nonce) != "" && req.token in w.grants && req.token.projectionID in w.projections
            && var p := w.projections[req.token.projectionID];
               && p.token == req.token && (forall r <- p.records :: r.nonce != Trim(req.nonce)) && p.missionRef in w.missions
               && !p.revoked && p.revokedAt == 0 && now <= p.expiresAt && p.actor == req.actor
               && var m := w.missions[p.missionRef];
                  && m.state == Active && InWindow(m, now) && ByItsAgent(m, req.actor) && (p.missionVersion <= 0 || m.version <= p.missionVersion)
                  && (forall x <- w.containments :: !RuleStopsProjection(w.containments[x], m, p, now))
                  && (forall x <- req.scopes :: Trim(x) == "" || Trim(x) in AllowedScopes(p))
                  && FitsOpen(p.audience, req.audience) && FitsOpen(p.tool, req.tool) && FitsOpen(p.operation, req.operation)
                  && (p.resource == None || CleanResource(req.resource) == None || CleanResource(req.resource) == p.resource)
                  && BoundInScope(m.region, Filled(p.tool, req.tool), FilledResource(p.resource, req.resource), Filled(p.operation, req.operation))
  {
    if req.token.projectionID in w.projections && w.projections[req.token.projectionID].missionRef in w.missions {
      var p := w.projections[req.token.projectionID];
      var m := w.missions[p.missionRef];
      UsableInFields(m, req.actor, p.missionVersion, now);
      ProjectionContainedInFields(w.containments, m, p, now);
      BindingAllowedMeans(req, p, m);
      ScopesFit(req.scopes, AllowedScopes(p));
    }
  }

  lemma ScopesFit(asked: seq<string>, allowed: set<string>)
    ensures Clean(asked) <= allowed <==> forall x <- asked :: Trim(x) == "" || Trim(x) in allowed
  {
    if Clean(asked) <= allowed {
      forall x | x in asked
        ensures Trim(x) == "" || Trim(x) in allowed
      {
        assert Trim(x) == "" || Trim(x) in Clean(asked);
      }
    }
  }

  lemma ExchangeStored(w: World, req: ExchangeRequest, exchangeID: string, jti: string, now: Time)
    requires Exchange(w, req, exchangeID, jti, now).Ok?
    ensures var p, c := w.projections[req.token.projectionID], Exchange(w, req, exchangeID, jti, now).value;
            var m := w.missions[p.missionRef];
            && c.jti == jti && c.exchangeID == exchangeID && c.projectionID == p.id && c.missionRef == m.ref
            && c.missionVersion == m.version && c.actor == req.actor
            && c.scopes == (if AllBlank(req.scopes) then AllowedScopes(p) else Clean(req.scopes))
            && c.audience == Filled(p.audience, req.audience) && c.tool == Filled(p.tool, req.tool)
            && c.resource == FilledResource(p.resource, req.resource) && c.operation == Filled(p.operation, req.operation)
            && c.notBefore == now && c.expiresAt == BrokerExpiry(now, req.ttl, p.expiresAt, m.expiresAt)
            && AfterExchange(w, req, exchangeID, jti, now) ==
               w.(projections := w.projections[p.id := p.(records := p.records + [ExchangeRecord(
                                   exchangeID, jti, Trim(req.nonce), req.actor, c.scopes, c, false, 0, now, c.expiresAt)])],
                  credentials := w.credentials + {c},
                  events := w.events + [Event(p.missionRef, Note, p.missionVersion, p.missionVersion)])
  {
    var p := w.projections[req.token.projectionID];
    BindingAllowedMeans(req, p, w.missions[p.missionRef]);
    BlankMeansNone(req.scopes);
  }

  lemma {:induction false} FindRecordMeans(rs: seq<ExchangeRecord>, exchangeID: string, jti: string, r: ExchangeRecord)
    ensures FindRecord(rs, exchangeID, jti) == Some(r) <==>
            exists i :: && 0 <= i < |rs| && rs[i] == r && r.exchangeID == exchangeID && r.jti == jti
                        && forall k :: 0 <= k < i ==> rs[k].exchangeID != exchangeID || rs[k].jti != jti
  {
    if rs == [] {
    } else {
      FindRecordMeans(rs[1..], exchangeID, jti, r);
      assert forall k :: 0 < k < |rs| ==> rs[k] == rs[1..][k - 1];
      if i :| && 0 <= i < |rs[1..]| && rs[1..][i] == r && r.exchangeID == exchangeID && r.jti == jti
              && forall k :: 0 <= k < i ==> rs[1..][k].exchangeID != exchangeID || rs[1..][k].jti != jti {
        assert rs[i + 1] == r;
      }
      if i :| && 0 < i < |rs| && rs[i] == r && r.exchangeID == exchangeID && r.jti == jti
              && forall k :: 0 <= k < i ==> rs[k].exchangeID != exchangeID || rs[k].jti != jti {
        assert rs[1..][i - 1] == r && forall k :: 0 <= k < i - 1 ==> rs[1..][k] == rs[k + 1];
      }
    }
  }

  /** Exactly when a credential verifies, for a caller who may name the actor, audience, tool,
      operation and resource it expects. */
  lemma CredentialVerifies(w: World, req: VerifyRequest, now: Time)
    ensures CredentialValid(w, req, now) <==>
            && req.token in w.credentials && req.token.projectionID in w.projections
            && var c, p := req.token, w.projections[req.token.projectionID];
               && c.projectionID == p.id && !p.revoked && p.revokedAt == 0 && now <= p.expiresAt && p.actor == c.actor
               && c.notBefore <= now && now < c.expiresAt
               && (exists r: ExchangeRecord :: && FindRecord(p.records, c.exchangeID, c.jti) == Some(r)
                     && r.token == c && r.exchangeID == c.exchangeID && r.jti == c.jti
                     && !r.revoked && r.revokedAt == 0 && now <= r.expiresAt && r.actor == c.actor)
               && (forall s <- c.scopes :: s in AllowedScopes(p))
               && (req.actor == Actor("", "", "") || req.actor == c.actor)
               && (req.audience == "" || req.audience == c.audience) && (req.tool == "" || req.tool == c.tool)
               && (req.operation == "" || req.operation == c.operation) && (req.resource == None || req.resource == c.resource)
               && p.missionRef in w.missions
               && var m := w.missions[p.missionRef];
                  && m.state == Active && InWindow(m, now) && ByItsAgent(m, c.actor) && (c.missionVersion <= 0 || m.version <= c.missionVersion)
                  && forall x <- w.containments :: !RuleStopsProjection(w.containments[x], m, p, now)
  {
    if req.token.projectionID in w.projections && w.projections[req.token.projectionID].missionRef in w.missions {
      var p := w.projections[req.token.projectionID];
      var m := w.missions[p.missionRef];
      UsableInFields(m, req.token.actor, req.token.missionVersion, now);
      ProjectionContainedInFields(w.containments, m, p, now);
      var found := FindRecord(p.records, req.token.exchangeID, req.token.jti);
      if found.Some? {
        FindRecordMeans(p.records, req.token.exchangeID, req.token.jti, found.value);
      }
    }
  }

  // ---------------------------------------------------------------- leases

  lemma LeaseSucceeds(w: World, ref: string, versionSeen: int, actor: Actor, ttl: int, id: string, now: Time)
    ensures CreateLease(w, ref, versionSeen, actor, ttl, id, now).Ok? <==>
            && ref in w.missions && id !in w.leases
            && var m := w.missions[ref];
               var lease := Action("lease", "mission_lease", Resource("mission", m.ref), "lease");
               && m.state == Active && InWindow(m, now) && ByItsAgent(m, actor) && (versionSeen <= 0 || m.version <= versionSeen)
               && forall x <- w.containments :: !RuleStops(w.containments[x], m, actor, lease, now)
    ensures CreateLease(w, ref, versionSeen, actor, ttl, id, now).Ok? ==>
              var m, l := w.missions[ref], CreateLease(w, ref, versionSeen, actor, ttl, id, now).value;
              && l.id == id && l.missionRef == m.ref && l.missionVersion == m.version && l.tenant == m.tenant && l.actor == actor
              && l.createdAt == now && l.refreshedAt == 0
              && EndsBy(l.expiresAt, now, if ttl <= 0 then 60 else if ttl > 300 then 300 else ttl, m.expiresAt)
              && AfterLend(w, ref, versionSeen, actor, ttl, id, now) ==
                 w.(leases := w.leases[id := l], events := w.events + [Event(m.ref, Note, m.version, m.version)])
  {
    if ref in w.missions {
      UsableInFields(w.missions[ref], actor, versionSeen, now);
      ContainedInFields(w.containments, w.missions[ref], actor, LeaseAction(w.missions[ref].ref), now);
      ExpiryInFields(now, ttl, w.missions[ref].expiresAt);
    }
  }

  lemma RefreshSucceeds(w: World, id: string, actor: Actor, ttl: int, now: Time)
    ensures RefreshLease(w, id, actor, ttl, now).Ok? <==>
            && id in w.leases && w.leases[id].missionRef in w.missions
            && var l := w.leases[id];
               var m := w.missions[l.missionRef];
               var lease := Action("lease", "mission_lease", Resource("mission", m.ref), "lease");
               && l.actor == actor && now <= l.expiresAt && l.missionVersion == m.version
               && m.state == Active && InWindow(m, now) && ByItsAgent(m, actor)
               && forall x <- w.containments :: !RuleStops(w.containments[x], m, actor, lease, now)
    ensures RefreshLease(w, id, actor, ttl, now).Ok? ==>
              var l, l' := w.leases[id], RefreshLease(w, id, actor, ttl, now).value;
              var m := w.missions[l.missionRef];
              && l' == l.(refreshedAt := now, expiresAt := l'.expiresAt)
              && EndsBy(l'.expiresAt, now, if ttl <= 0 then 60 else if ttl > 300 then 300 else ttl, m.expiresAt)
              && AfterRefresh(w, id, actor, ttl, now) ==
                 w.(leases := w.leases[l.id := l'], events := w.events + [Event(m.ref, Note, m.version, m.version)])
  {
    if id in w.leases && w.leases[id].missionRef in w.missions {
      var m := w.missions[w.leases[id].missionRef];
      UsableInFields(m, actor, w.leases[id].missionVersion, now);
      ContainedInFields(w.containments, m, actor, LeaseAction(m.ref), now);
      ExpiryInFields(now, ttl, m.expiresAt);
    }
  }

  // ---------------------------------------------------------------- negotiations

  /** Exactly when a negotiation is stored, and its outcome: accepted where the mission permits
      every requested action, else a counter-offer of the permitted ones where there are any. */
  lemma NegotiationSucceeds(
    w: World, taken: set<string>, ref: string, versionSeen: int, actor: Actor, requested: Region, risky: bool, id: string, now: Time)
    ensures Negotiated(w, taken, ref, versionSeen, actor, requested, risky, id, now).Ok? <==>
            && ref in w.missions && id !in taken
            && requested.grants != [] && (forall g <- requested.grants :: g.typ != "" && g.id != "" && g.actions != [])
            && var m := w.missions[ref];
               m.state == Active && InWindow(m, now) && ByItsAgent(m, actor) && (versionSeen <= 0 || m.version <= versionSeen)
    ensures Negotiated(w, taken, ref, versionSeen, actor, requested, risky, id, now).Ok? ==>
              var m, n := w.missions[ref], Negotiated(w, taken, ref, versionSeen, actor, requested, risky, id, now).value;
              && n.id == id && n.missionRef == m.ref && n.version == m.version && n.tenant == m.tenant && n.actor == actor
              && n.requested == requested
              && (n.outcome.status == Accepted <==> forall g <- requested.grants :: forall a <- g.actions :: Permits(m.region, g, a))
              && (n.outcome.status == Counteroffered <==>
                    && (exists g <- requested.grants :: exists a <- g.actions :: Permits(m.region, g, a))
                    && (exists g <- requested.grants :: exists a <- g.actions :: !Permits(m.region, g, a)))
              && (n.outcome.status == RequiresApproval ==> risky) && (n.outcome.status == NegotiationStatus.Denied ==> !risky)
  {
    if ref in w.missions {
      UsableInFields(w.missions[ref], actor, versionSeen, now);
      OfferedSome(w.missions[ref].region, requested);
    }
  }

  lemma OfferedSome(parent: Region, requested: Region)
    ensures Offer(parent, requested).grants != [] <==> exists g <- requested.grants :: exists a <- g.actions :: Permits(parent, g, a)
  {
    var offered := Offer(parent, requested).grants;
    if offered != [] {
      PartsMember(parent, requested.grants, true, offered[0]);
      var g :| g in requested.grants && offered[0] == Part(parent, g, true);
      SplitMembers(parent, g, g.actions);
      assert offered[0].actions[0] in g.actions && Permits(parent, g, offered[0].actions[0]);
    }
    if g :| g in requested.grants && exists a <- g.actions :: Permits(parent, g, a) {
      var a :| a in g.actions && Permits(parent, g, a);
      SplitMembers(parent, g, g.actions);
      assert a in Part(parent, g, true).actions;
      PartsMember(parent, requested.grants, true, Part(parent, g, true));
    }
  }
}
