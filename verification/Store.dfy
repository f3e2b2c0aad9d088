/** MemoryStore: its maps and its event log, updated in place. */
module Store {
  import opened Basics
  import opened Authority
  import opened Model
  import opened Containment
  import opened Operations
  import Policy

  method Insert(keys: seq<string>, key: string) returns (more: seq<string>)
    requires key !in keys && forall i, j :: 0 <= i < j < |keys| ==> Less(keys[i], keys[j])
    ensures forall i, j :: 0 <= i < j < |more| ==> Less(more[i], more[j])
    ensures forall k :: k in more <==> k == key || k in keys
  {
    var at := |keys|;
    while at > 0 && Less(key, keys[at - 1])
      invariant 0 <= at <= |keys|
      invariant forall i :: at <= i < |keys| ==> Less(key, keys[i])
    {
      at := at - 1;
    }
    if at > 0 {
      LessTotal(key, keys[at - 1]);
    }
    forall i | 0 <= i < at
      ensures Less(keys[i], key)
    {
      if i < at - 1 {
        LessTransitive(keys[i], keys[at - 1], key);
      }
    }
    more := keys[..at] + [key] + keys[at..];
    assert keys == keys[..at] + keys[at..];
  }

  /** The keys of a map in order, as every listing of the store is. */
  method SortedKeys<T>(m: map<string, T>) returns (keys: seq<string>)
    ensures forall i, j :: 0 <= i < j < |keys| ==> Less(keys[i], keys[j])
    ensures forall k :: k in keys <==> k in m
  {
    keys := [];
    var rest := m.Keys;
    while rest != {}
      invariant rest <= m.Keys
      invariant forall i, j :: 0 <= i < j < |keys| ==> Less(keys[i], keys[j])
      invariant forall k :: k in keys <==> k in m && k !in rest
      decreases rest
    {
      var key :| key in rest;
      rest := rest - {key};
      keys := Insert(keys, key);
    }
  }

  datatype AuthorityOperation = AuthorityOperation(
    mission: Option<Mission>, projection: Option<Projection>, actor: Actor, action: Action, at: Time)

  /** The mission the guard looks at: the given one, or that of the given projection. */
  function GuardedMission(missions: map<string, Mission>, operation: AuthorityOperation): Result<Option<Mission>> {
    if operation.mission.Some? || operation.projection.None? then Ok(operation.mission)
    else if operation.projection.value.missionRef !in missions then Err(NotFound)
    else Ok(Some(missions[operation.projection.value.missionRef]))
  }

  predicate Hits(rule: ContainmentRule, m: Option<Mission>, operation: AuthorityOperation) {
    || (m.Some? && MatchesEvaluation(rule, m.value, operation.actor, operation.action))
    || (operation.projection.Some? && MatchesProjection(rule, operation.projection.value, []))
  }

  /** The rule in force of least identifier that hits the operation, or none does. */
  ghost predicate FirstHit(
    rules: map<string, ContainmentRule>, m: Option<Mission>, operation: AuthorityOperation, found: Option<ContainmentRule>)
  {
    match found
    case None => forall id <- rules :: InForce(rules[id], operation.at) ==> !Hits(rules[id], m, operation)
    case Some(rule) =>
      exists id <- rules ::
        && rules[id] == rule && InForce(rule, operation.at) && Hits(rule, m, operation)
        && forall x <- rules :: InForce(rules[x], operation.at) && Hits(rules[x], m, operation) ==> !Less(x, id)
  }

  lemma FirstHitFound(
    stored: map<string, ContainmentRule>, rules: seq<ContainmentRule>, ids: seq<string>, i: nat, m: Option<Mission>, operation: AuthorityOperation)
    requires |ids| == |rules| && forall j, k :: 0 <= j < k < |ids| ==> Less(ids[j], ids[k])
    requires forall j :: 0 <= j < |ids| ==> ids[j] in stored && stored[ids[j]] == rules[j] && InForce(rules[j], operation.at)
    requires forall id <- stored :: InForce(stored[id], operation.at) ==> id in ids
    requires i < |rules| && Hits(rules[i], m, operation) && forall k :: 0 <= k < i ==> !Hits(rules[k], m, operation)
    ensures FirstHit(stored, m, operation, Some(rules[i]))
  {
    forall x | x in stored && InForce(stored[x], operation.at) && Hits(stored[x], m, operation)
      ensures !Less(x, ids[i])
    {
      var k :| 0 <= k < |ids| && ids[k] == x;
      LessTotal(ids[i], x);
    }
  }

  class MemoryStore {
    var missions: map<string, Mission>
    var proposals: map<string, Proposal>
    var expansions: map<string, Expansion>
    var projections: map<string, Projection>
    var leases: map<string, Lease>
    var approvalRules: map<string, ApprovalRule>
    var approvals: map<string, seq<ApprovalRecord>>
    var containments: map<string, ContainmentRule>
    var events: seq<Event>
    /** Written and read back only. */
    var negotiations: map<string, NegotiationRecord>
    var evidence: map<string, Policy.EvaluationEvidence>

    constructor ()
      ensures Contents({}, {}) == EMPTY && negotiations == map[] && evidence == map[]
    {
      negotiations, evidence := map[], map[];
      missions, proposals, expansions, projections, leases := map[], map[], map[], map[], map[];
      approvalRules, approvals, containments, events := map[], map[], map[], [];
    }

    /** The store as one value, with the tokens the service has signed. */
    ghost function Contents(grants: set<GrantToken>, credentials: set<Credential>): World
      reads this
    {
      World(missions, proposals, expansions, projections, leases, approvalRules, approvals, containments, grants, credentials, events)
    }

    method AppendEvent(e: Event)
      modifies this`events
      ensures events == old(events) + [e]
    {
      events := events + [e];
    }

    method CommitProposalApproval(proposalID: string, m: Mission, e: Event) returns (r: Result<()>)
      modifies this`missions, this`proposals, this`events
      ensures r == if proposalID !in old(proposals) then Err(NotFound) else if m.ref in old(missions) then Err(Conflict) else Ok(())
      ensures r.Ok? ==> missions == old(missions)[m.ref := m] && proposals == old(proposals) - {proposalID} && events == old(events) + [e]
      ensures r.Err? ==> missions == old(missions) && proposals == old(proposals) && events == old(events)
    {
      if proposalID !in proposals {
        return Err(NotFound);
      }
      if m.ref in missions {
        return Err(Conflict);
      }
      missions := missions[m.ref := m];
      proposals := proposals - {proposalID};
      events := events + [e];
      r := Ok(());
    }

    method SaveMission(m: Mission) returns (r: Result<()>)
      modifies this`missions
      ensures r == if m.ref in old(missions) then Err(Conflict) else Ok(())
      ensures missions == if r.Ok? then old(missions)[m.ref := m] else old(missions)
    {
      if m.ref in missions {
        return Err(Conflict);
      }
      missions := missions[m.ref := m];
      r := Ok(());
    }

    method UpdateMission(m: Mission) returns (r: Result<()>)
      modifies this`missions
      ensures r == if m.ref !in old(missions) then Err(NotFound) else Ok(())
      ensures missions == if r.Ok? then old(missions)[m.ref := m] else old(missions)
    {
      if m.ref !in missions {
        return Err(NotFound);
      }
      missions := missions[m.ref := m];
      r := Ok(());
    }

    method ChildrenOf(parent: string) returns (children: seq<Mission>)
      requires Keyed(missions)
      ensures forall c :: c in children <==> c.ref in missions && missions[c.ref] == c && c.delegation.parent == parent
      ensures forall i, j :: 0 <= i < j < |children| ==> Less(children[i].ref, children[j].ref) && children[i].ref != children[j].ref
    {
      children := [];
      var keys := SortedKeys(missions);
      for i := 0 to |keys|
        invariant forall c :: c in children <==> c.ref in keys[..i] && missions[c.ref] == c && c.delegation.parent == parent
        invariant forall j, k :: 0 <= j < k < |children| ==> Less(children[j].ref, children[k].ref) && children[j].ref != children[k].ref
      {
        if missions[keys[i]].delegation.parent == parent {
          forall j | 0 <= j < |children|
            ensures Less(children[j].ref, keys[i]) && children[j].ref != keys[i]
          {
            assert children[j] in children;
            LessTotal(keys[i], keys[i]);
          }
          children := children + [missions[keys[i]]];
        }
        assert keys[..i + 1] == keys[..i] + [keys[i]];
      }
      assert keys[..|keys|] == keys;
    }

    method SaveExpansionRequest(e: Expansion) returns (r: Result<()>)
      modifies this`expansions
      ensures r == if e.id in old(expansions) then Err(Conflict) else Ok(())
      ensures expansions == if r.Ok? then old(expansions)[e.id := e] else old(expansions)
    {
      if e.id in expansions {
        return Err(Conflict);
      }
      expansions := expansions[e.id := e];
      r := Ok(());
    }

    /** Compare the request's status and the mission's version, then write all three or nothing. */
    method CommitExpansionDecision(c: Commit) returns (r: Result<()>)
      modifies this`missions, this`expansions, this`events
      ensures r == match CommitError(old(missions), old(expansions), c) case Some(error) => Err(error) case None => Ok(())
      ensures r.Err? ==> missions == old(missions) && expansions == old(expansions) && events == old(events)
      ensures r.Ok? ==>
                && missions == (if c.mission.Some? then old(missions)[c.mission.value.ref := c.mission.value] else old(missions))
                && expansions == old(expansions)[c.expansion.id := c.expansion] && events == old(events) + [c.event]
    {
      if c.expansion.id !in expansions {
        return Err(NotFound);
      }
      if expansions[c.expansion.id].status != Pending {
        return Err(Conflict);
      }
      if c.mission.Some? {
        if c.mission.value.ref !in missions {
          return Err(NotFound);
        }
        if missions[c.mission.value.ref].version != c.expectedVersion {
          return Err(Conflict);
        }
        missions := missions[c.mission.value.ref := c.mission.value];
      }
      expansions := expansions[c.expansion.id := c.expansion];
      events := events + [c.event];
      r := Ok(());
    }

    method SaveProjection(p: Projection) returns (r: Result<()>)
      modifies this`projections
      ensures r == if p.id in old(projections) then Err(Conflict) else Ok(())
      ensures projections == if r.Ok? then old(projections)[p.id := p] else old(projections)
    {
      if p.id in projections {
        return Err(Conflict);
      }
      projections := projections[p.id := p];
      r := Ok(());
    }

    method UpdateProjection(p: Projection) returns (r: Result<()>)
      modifies this`projections
      ensures r == if p.id !in old(projections) then Err(NotFound) else Ok(())
      ensures projections == if r.Ok? then old(projections)[p.id := p] else old(projections)
    {
      if p.id !in projections {
        return Err(NotFound);
      }
      projections := projections[p.id := p];
      r := Ok(());
    }

    method SaveMissionLease(l: Lease) returns (r: Result<()>)
      modifies this`leases
      ensures r == if l.id in old(leases) then Err(Conflict) else Ok(())
      ensures leases == if r.Ok? then old(leases)[l.id := l] else old(leases)
    {
      if l.id in leases {
        return Err(Conflict);
      }
      leases := leases[l.id := l];
      r := Ok(());
    }

    method UpdateMissionLease(l: Lease) returns (r: Result<()>)
      modifies this`leases
      ensures r == if l.id !in old(leases) then Err(NotFound) else Ok(())
      ensures leases == if r.Ok? then old(leases)[l.id := l] else old(leases)
    {
      if l.id !in leases {
        return Err(NotFound);
      }
      leases := leases[l.id := l];
      r := Ok(());
    }

    /** One record per approver and request. */
    method SaveApprovalRecord(id: string, record: ApprovalRecord) returns (r: Result<()>)
      modifies this`approvals
      ensures var before := if id in old(approvals) then old(approvals)[id] else [];
              var repeated := exists x <- before :: SameApprover(x.approver, record.approver);
              && r == (if repeated then Err(Conflict) else Ok(()))
              && approvals == if repeated then old(approvals) else old(approvals)[id := before + [record]]
    {
      var records := if id in approvals then approvals[id] else [];
      for i := 0 to |records|
        invariant approvals == old(approvals)
        invariant forall k :: 0 <= k < i ==> !SameApprover(records[k].approver, record.approver)
      {
        if SameApprover(records[i].approver, record.approver) {
          return Err(Conflict);
        }
      }
      approvals := approvals[id := records + [record]];
      r := Ok(());
    }

    /** matchingApprovalRule over the listed rules. */
    method MatchingApprovalRule(e: Expansion) returns (found: Option<ApprovalRule>)
      requires forall id <- approvalRules :: approvalRules[id].id == id
      ensures FirstMatch(approvalRules, e, found)
    {
      var keys := SortedKeys(approvalRules);
      for i := 0 to |keys|
        invariant forall k :: 0 <= k < i ==> !RuleMatchesExpansion(approvalRules[keys[k]], e)
      {
        var rule := approvalRules[keys[i]];
        if RuleMatchesExpansion(rule, e) {
          forall id | id in approvalRules && RuleMatchesExpansion(approvalRules[id], e)
            ensures !Less(id, rule.id)
          {
            var k :| 0 <= k < |keys| && keys[k] == id;
            LessTotal(keys[i], id);
          }
          return Some(rule);
        }
      }
      found := None;
    }

    method SaveAuthorityNegotiation(n: NegotiationRecord) returns (r: Result<()>)
      modifies this`negotiations
      ensures r == if n.id in old(negotiations) then Err(Conflict) else Ok(())
      ensures negotiations == if r.Ok? then old(negotiations)[n.id := n] else old(negotiations)
    {
      if n.id in negotiations {
        return Err(Conflict);
      }
      negotiations := negotiations[n.id := n];
      r := Ok(());
    }

    method SaveEvaluationEvidence(e: Policy.EvaluationEvidence) returns (r: Result<()>)
      modifies this`evidence
      ensures r == if e.id in old(evidence) then Err(Conflict) else Ok(())
      ensures evidence == if r.Ok? then old(evidence)[e.id := e] else old(evidence)
    {
      if e.id in evidence {
        return Err(Conflict);
      }
      evidence := evidence[e.id := e];
      r := Ok(());
    }

    /** The rules in force, in the order of their identifiers. */
    method ListActiveContainmentRules(at: Time) returns (rules: seq<ContainmentRule>, ghost ids: seq<string>)
      ensures forall rule :: rule in rules <==> InForce(rule, at) && exists id <- containments :: containments[id] == rule
      ensures |ids| == |rules| && forall i, j :: 0 <= i < j < |ids| ==> Less(ids[i], ids[j])
      ensures forall i :: 0 <= i < |ids| ==> ids[i] in containments && containments[ids[i]] == rules[i] && InForce(rules[i], at)
      ensures forall id <- containments :: InForce(containments[id], at) ==> id in ids
    {
      rules, ids := [], [];
      var keys := SortedKeys(containments);
      for i := 0 to |keys|
        invariant |ids| == |rules| && forall j, k :: 0 <= j < k < |ids| ==> Less(ids[j], ids[k])
        invariant forall j :: 0 <= j < |ids| ==> ids[j] in keys[..i]
        invariant forall j :: 0 <= j < |ids| ==> ids[j] in containments && containments[ids[j]] == rules[j] && InForce(rules[j], at)
        invariant forall id <- keys[..i] :: InForce(containments[id], at) ==> id in ids
      {
        assert keys[..i + 1] == keys[..i] + [keys[i]];
        if InForce(containments[keys[i]], at) {
          rules := rules + [containments[keys[i]]];
          ids := ids + [keys[i]];
        }
      }
      assert keys[..|keys|] == keys;
    }

    /** ContainmentGuard.Check: the first rule that stops the operation, if any does. */
    method Check(operation: AuthorityOperation) returns (r: Result<Option<ContainmentRule>>)
      ensures match GuardedMission(missions, operation)
              case Err(error) => r == Err(error)
              case Ok(m) => r.Ok? && FirstHit(containments, m, operation, r.value)
      ensures operation.mission.Some? && operation.projection.None? ==>
                && r.Ok?
                && (r.value.Some? <==> Contained(containments, operation.mission.value, operation.actor, operation.action, operation.at))
                && (r.value.Some? ==> Stops(containments, r.value.value, operation.mission.value, operation.actor, operation.action, operation.at))
      ensures operation.mission.None? && operation.projection.Some? && operation.action == NO_ACTION &&
              operation.actor == operation.projection.value.actor ==>
                var p := operation.projection.value;
                if p.missionRef !in missions then r == Err(NotFound)
                else r.Ok? && (r.value.Some? <==> ProjectionContained(containments, missions[p.missionRef], p, operation.at))
    {
      var rules, ids := ListActiveContainmentRules(operation.at);
      var mission := operation.mission;
      if mission.None? && operation.projection.Some? {
        if operation.projection.value.missionRef !in missions {
          return Err(NotFound);
        }
        mission := Some(missions[operation.projection.value.missionRef]);
      }
      for i := 0 to |rules|
        invariant forall k :: 0 <= k < i ==> !Hits(rules[k], mission, operation)
      {
        var rule := rules[i];
        if || (mission.Some? && MatchesEvaluation(rule, mission.value, operation.actor, operation.action))
           || (operation.projection.Some? && MatchesProjection(rule, operation.projection.value, [])) {
          FirstHitFound(containments, rules, ids, i, mission, operation);
          return Ok(Some(rule));
        }
      }
      assert FirstHit(containments, mission, operation, None);
      r := Ok(None);
    }
  }
}
