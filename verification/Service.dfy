/** The service: each method reads and writes the store as the source does, and is proved to do
    what its operation on the store's contents says. */
module Service {
  import opened Basics
  import opened Authority
  import opened Model
  import opened Cascade
  import opened Containment
  import opened Operations
  import opened Store
  import opened Evaluation
  import opened Bundles
  import Policy

  lemma {:induction false} LogsOn(a: Missions, log: seq<Event>, b: Missions, more: seq<Event>, c: Missions)
    requires Logs(a, log, b) && Logs(b, more, c)
    ensures Logs(a, log + more, c)
    decreases log
  {
    if log == [] {
      assert log + more == more;
    } else {
      var e := log[0];
      LogsOn(a[e.ref := Moved(a[e.ref], e.kind.state)], log[1..], b, more, c);
      assert (log + more)[1..] == log[1..] + more;
    }
  }

  lemma OneLog(ms: Missions, ref: string, state: State)
    requires ref in ms && ms[ref].ref == ref && !Terminal(ms[ref].state) && state in {Completed, Revoked}
    ensures Logs(ms, [MovedEvent(ms[ref], state)], ms[ref := Moved(ms[ref], state)])
  {
    assert [MovedEvent(ms[ref], state)][1..] == [];
  }

  lemma DecideKeepsRecords(w: World, id: string, approver: Principal, now: Time)
    ensures AfterDecide(w, id, approver, true, false, now).approvals == w.approvals
  {
  }

  /** The loop starts: the mission has moved, nothing below it has. */
  lemma TopMoved(before: Missions, root: string, state: State)
    requires Keyed(before) && root in before && state in {Completed, Revoked}
    ensures var moved := before[root := Moved(before[root], state)];
            && Keyed(moved) && !Live(moved[root]) && Kill(moved, Below(moved, [])) == moved
            && Logs(before, if Terminal(before[root].state) then [] else [MovedEvent(before[root], state)], moved)
  {
    var moved := before[root := Moved(before[root], state)];
    assert Kill(moved, {}) == moved;
    if Terminal(before[root].state) {
      assert moved == before;
    } else {
      OneLog(before, root, state);
    }
  }

  lemma LiveShrinks(before: Missions, moved: Missions, root: string, dead: set<string>)
    requires root in before && root in moved && moved == before[root := moved[root]] && !Live(moved[root])
    ensures LiveRefs(Kill(moved, dead)) <= LiveRefs(before) - {root}
  {
  }

  /** The loop ends: the subtrees of all live children are what lies below the mission. */
  lemma CascadeAssembled(before: Missions, moved: Missions, root: string, state: State, children: seq<Mission>)
    requires Keyed(before) && Keyed(moved) && root in before && state in {Completed, Revoked}
    requires moved == before[root := Moved(before[root], state)]
    requires forall c :: c in children <==> c.ref in moved && moved[c.ref] == c && c.delegation.parent == root
    ensures Kill(moved, Below(moved, children)) == Cascaded(before, root, state)
  {
    BelowRoot(before, moved, root, children);
    var below := Below(moved, children);
    assert Kill(moved, below).Keys == before.Keys == Cascaded(before, root, state).Keys;
    forall r | r in before
      ensures Kill(moved, below)[r] == Cascaded(before, root, state)[r]
    {
      assert r in below <==> r != root && r in Subtree(before, root);
    }
  }

  class Service {
    const store: MemoryStore
    const policies: BundleStore
    /** The tokens signed under the service's key. */
    var grants: set<GrantToken>
    var credentials: set<Credential>

    constructor (store: MemoryStore, policies: BundleStore)
      ensures this.store == store && this.policies == policies && View() == store.Contents({}, {})
    {
      this.store, this.policies := store, policies;
      grants, credentials := {}, {};
    }

    ghost function View(): World
      reads this, store
    {
      store.Contents(grants, credentials)
    }

    // -------------------------------------------------------------- lifecycle

    method Transition(m: Mission, state: State) returns (updated: Mission, ghost log: seq<Event>)
      requires m.ref in store.missions && store.missions[m.ref] == m
      modifies store`missions, store`events
      ensures View() == Operations.Transition(old(View()), m.ref, state)
      ensures updated == if m.state in {Completed, Revoked, Expired, Rejected} then m else m.(state := state, version := m.version + 1)
      ensures updated == Moved(m, state) && store.missions == old(store.missions)[m.ref := updated]
      ensures log == (if Terminal(m.state) then [] else [MovedEvent(m, state)]) && store.events == old(store.events) + log
    {
      updated, log := m, [];
      if Terminal(m.state) {
        return;
      }
      var before := m.version;
      updated := m.(state := state, version := before + 1);
      var saved := store.UpdateMission(updated);
      store.AppendEvent(Event(m.ref, Became(state), before, updated.version));
      log := [MovedEvent(m, state)];
    }

    /** The mission moves, then each live child in turn, each child's subtree before the next
        child. The children are listed once, before any of them moves. */
    method TransitionCascade(m: Mission, state: State) returns (updated: Mission, ghost log: seq<Event>)
      requires Keyed(store.missions) && m.ref in store.missions && store.missions[m.ref] == m
      requires state in {Completed, Revoked}
      modifies store`missions, store`events
      ensures store.missions == Cascaded(old(store.missions), m.ref, state) && updated == store.missions[m.ref]
      ensures store.events == old(store.events) + log && Logs(old(store.missions), log, store.missions)
      decreases LiveRefs(store.missions) - {m.ref}, 1
    {
      ghost var before := store.missions;
      updated, log := Transition(m, state);
      ghost var moved := store.missions;
      TopMoved(before, m.ref, state);
      var children := store.ChildrenOf(m.ref);
      for i := 0 to |children|
        invariant store.missions == Kill(moved, Below(moved, children[..i]))
        invariant store.events == old(store.events) + log && Logs(before, log, store.missions)
      {
        var child := children[i];
        BelowStep(moved, children, i, m.ref);
        if child.state == Active || child.state == Suspended {
          LiveShrinks(before, moved, m.ref, Below(moved, children[..i]));
          log := RevokeChild(child, m.ref, before, moved, Below(moved, children[..i]), old(store.events), log);
        }
      }
      assert children[..|children|] == children;
      CascadeAssembled(before, moved, m.ref, state, children);
    }

    /** One turn of the loop, for a live child. */
    method RevokeChild(child: Mission, ghost root: string, ghost before: Missions, ghost moved: Missions, ghost dead: set<string>,
      ghost first: seq<Event>, ghost log: seq<Event>)
      returns (ghost longer: seq<Event>)
      requires Keyed(moved) && root in before && root in moved && moved == before[root := moved[root]] && !Live(moved[root])
      requires child.ref in moved && moved[child.ref] == child && Live(child)
      requires child.ref !in dead && dead !! Subtree(moved, child.ref)
      requires store.missions == Kill(moved, dead) && store.events == first + log && Logs(before, log, store.missions)
      modifies store`missions, store`events
      ensures store.missions == Kill(moved, dead + Subtree(moved, child.ref))
      ensures store.events == first + longer && Logs(before, longer, store.missions)
      decreases LiveRefs(store.missions), 0
    {
      ghost var reached := store.missions;
      KillMore(moved, dead, child.ref);
      var gone;
      ghost var more;
      gone, more := TransitionCascade(child, Revoked);
      LogsOn(before, log, reached, more, store.missions);
      longer := log + more;
      assert first + log + more == first + longer;
    }

    method Revoke(ref: string) returns (r: Result<Mission>, ghost log: seq<Event>)
      requires Keyed(store.missions)
      modifies store`missions, store`events
      ensures r == if ref in old(store.missions) then Ok(Moved(old(store.missions)[ref], Revoked)) else Err(NotFound)
      ensures View() == AfterEnd(old(View()), ref, Revoked, log)
      ensures ref in old(store.missions) ==> forall r <- old(store.missions) ::
                if r == ref then
                  store.missions[r] == if old(store.missions)[r].state in {Completed, Revoked, Expired, Rejected} then old(store.missions)[r]
                                       else old(store.missions)[r].(state := Revoked, version := old(store.missions)[r].version + 1)
                else if old(store.missions)[r].state != Active && old(store.missions)[r].state != Suspended then
                  store.missions[r] == old(store.missions)[r]
                else old(store.missions)[r].delegation.parent == ref ==>
                  store.missions[r] == old(store.missions)[r].(state := Revoked, version := old(store.missions)[r].version + 1)
      ensures ref in old(store.missions) ==>
                store.missions == Cascaded(old(store.missions), ref, Revoked) && Logs(old(store.missions), log, store.missions)
    {
      log := [];
      if ref !in store.missions {
        return Err(NotFound), [];
      }
      var m;
      ChildrenRevoked(store.missions, ref, Revoked);
      m, log := TransitionCascade(store.missions[ref], Revoked);
      r := Ok(m);
    }

    method Complete(ref: string) returns (r: Result<Mission>, ghost log: seq<Event>)
      requires Keyed(store.missions)
      modifies store`missions, store`events
      ensures r == if ref in old(store.missions) then Ok(Moved(old(store.missions)[ref], Completed)) else Err(NotFound)
      ensures View() == AfterEnd(old(View()), ref, Completed, log)
      ensures ref in old(store.missions) ==> forall r <- old(store.missions) ::
                if r == ref then
                  store.missions[r] == if old(store.missions)[r].state in {Completed, Revoked, Expired, Rejected} then old(store.missions)[r]
                                       else old(store.missions)[r].(state := Completed, version := old(store.missions)[r].version + 1)
                else if old(store.missions)[r].state != Active && old(store.missions)[r].state != Suspended then
                  store.missions[r] == old(store.missions)[r]
                else old(store.missions)[r].delegation.parent == ref ==>
                  store.missions[r] == old(store.missions)[r].(state := Revoked, version := old(store.missions)[r].version + 1)
      ensures ref in old(store.missions) ==>
                store.missions == Cascaded(old(store.missions), ref, Completed) && Logs(old(store.missions), log, store.missions)
    {
      log := [];
      if ref !in store.missions {
        return Err(NotFound), [];
      }
      var m;
      ChildrenRevoked(store.missions, ref, Completed);
      m, log := TransitionCascade(store.missions[ref], Completed);
      r := Ok(m);
    }

    // -------------------------------------------------------------- creating missions

    method ApproveProposal(proposalID: string, missionID: string, ref: string, now: Time) returns (r: Result<Mission>)
      modifies store
      ensures r == Operations.ApproveProposal(old(View()), proposalID, missionID, ref, now)
      ensures View() == AfterApprove(old(View()), proposalID, missionID, ref, now)
    {
      if proposalID !in store.proposals {
        return Err(NotFound);
      }
      var m := NewMission(store.proposals[proposalID], missionID, ref, now);
      var committed := store.CommitProposalApproval(proposalID, m, Event(ref, Activated, 0, m.version));
      r := match committed case Ok(_) => Ok(m) case Err(error) => Err(error);
    }

    method Delegate(ref: string, req: DelegationRequest, missionID: string, childRef: string, now: Time) returns (r: Result<Mission>)
      modifies store
      ensures r == Operations.Delegate(old(View()), ref, req, missionID, childRef, now)
      ensures View() == AfterDelegate(old(View()), ref, req, missionID, childRef, now)
    {
      if ref !in store.missions {
        return Err(NotFound);
      }
      var parent := store.missions[ref];
      if parent.state != Active {
        return Err(Refused("parent mission is not active"));
      }
      if !ActorMatches(parent, req.actor) {
        return Err(Refused("delegating actor is not authorized"));
      }
      var rule := store.Check(AuthorityOperation(Some(parent), None, req.actor, MissionAction("delegate", parent.ref), now));
      if rule.value.Some? {
        return Err(Refused("contained"));
      }
      if !parent.delegation.permitted {
        return Err(Refused("delegation is not permitted"));
      }
      if parent.delegation.maxDepth > 0 && parent.delegation.depth >= parent.delegation.maxDepth {
        return Err(Refused("delegation depth exceeded"));
      }
      var within := AuthoritySubset(parent.region, req.authority);
      if !within {
        return Err(Refused("not a subset of parent authority"));
      }
      var expiresAt := req.expiresAt;
      if expiresAt == 0 {
        expiresAt := parent.expiresAt;
      }
      if parent.expiresAt != 0 && expiresAt > parent.expiresAt {
        return Err(Refused("child expiry exceeds parent expiry"));
      }
      var delegation := req.delegation.(depth := parent.delegation.depth + 1, parent := parent.ref);
      var child := Mission(missionID, childRef, parent.tenant, Active, 1, parent.principal, req.target, req.authority,
                           parent.conditions + req.conditions, now, expiresAt, delegation);
      var saved := store.SaveMission(child);
      if saved.Err? {
        return Err(saved.error);
      }
      store.AppendEvent(Event(childRef, Delegated, 0, child.version));
      r := Ok(child);
    }

    // -------------------------------------------------------------- expansions

    method CreateExpansionRequest(ref: string, ask: ExpansionAsk, id: string, now: Time) returns (r: Result<Expansion>)
      modifies store`expansions, store`events
      ensures r == RequestExpansion(old(View()), ref, ask, id, now)
      ensures View() == AfterAsk(old(View()), ref, ask, id, now)
    {
      if ref !in store.missions {
        return Err(NotFound);
      }
      var m := store.missions[ref];
      if m.state != Active {
        return Err(Refused("mission is not active"));
      }
      if !ActorMatches(m, ask.requester) {
        return Err(Refused("requester is not authorized"));
      }
      if 0 < ask.versionSeen < m.version {
        return Err(Refused("mission version is stale"));
      }
      var rule := store.Check(AuthorityOperation(Some(m), None, ask.requester, ask.action, now));
      if rule.value.Some? {
        return Err(Refused("contained"));
      }
      var requested := ask.requested;
      if requested.grants == [] {
        requested := AuthorityForAction(ask.action);
      }
      if requested.grants == [] {
        return Err(Refused("requested_authority.resources is required"));
      }
      var e := NewExpansion(m, ask, id);
      var saved := store.SaveExpansionRequest(e);
      if saved.Err? {
        return Err(saved.error);
      }
      store.AppendEvent(NoteOf(m));
      r := Ok(e);
    }

    /** What is to be committed, from the request and the mission as they were read. */
    method PrepareDecision(e: Expansion, m: Mission, approve: bool, approver: Principal, now: Time) returns (r: Result<Commit>)
      ensures r == Prepare(e, m, approve, Contained(store.containments, m, e.requester, e.action, now), approver, now)
    {
      var e' := e.(status := if approve then Approved else ExpansionStatus.Denied, approver := approver, decidedAt := now);
      if !approve {
        return Ok(Commit(None, 0, e', NoteOf(m)));
      }
      if m.state != Active {
        return Err(Refused("mission is not active"));
      }
      if e.versionSeen > 0 && e.versionSeen != m.version {
        return Err(Refused("mission version changed"));
      }
      if ConflictsWithForbidden(m.region, e.requested) {
        return Err(Refused("conflicts with forbidden actions"));
      }
      var stopped := store.Check(AuthorityOperation(Some(m), None, e.requester, e.action, now));
      if stopped.value.Some? {
        return Err(Refused("contained"));
      }
      var region := MergeAuthority(m.region, e.requested);
      var m' := m.(region := region, version := m.version + 1);
      r := Ok(Commit(Some(m'), m.version, e', Event(m.ref, ExpansionApproved, m.version, m'.version)));
    }

    method DecideExpansionRequest(id: string, approver: Principal, approve: bool, enforce: bool, now: Time) returns (r: Result<()>)
      requires forall x <- store.approvalRules :: store.approvalRules[x].id == x
      modifies store
      ensures r.Ok? <==> Decide(old(View()), id, approver, approve, enforce, now).Ok?
      ensures r.Err? ==> r.error == Decide(old(View()), id, approver, approve, enforce, now).error
      ensures View() == AfterDecide(old(View()), id, approver, approve, enforce, now)
    {
      if approver.subject == "" {
        return Err(Refused("approver.subject is required"));
      }
      if id !in store.expansions {
        return Err(NotFound);
      }
      var e := store.expansions[id];
      if e.status != Pending {
        return Err(Refused("expansion request is already decided"));
      }
      if approve && enforce {
        var rule := store.MatchingApprovalRule(e);
        if rule.Some? {
          return Err(Refused("approval rule requires submissions"));
        }
      }
      if e.missionRef !in store.missions {
        return Err(NotFound);
      }
      var prepared := PrepareDecision(e, store.missions[e.missionRef], approve, approver, now);
      if prepared.Err? {
        return Err(prepared.error);
      }
      r := store.CommitExpansionDecision(prepared.value);
    }

    /** The first half of a submission: the checks and the record. */
    method RecordSubmission(id: string, approver: Principal, now: Time)
      returns (r: Result<(ApprovalRecord, int)>, ghost rule: Option<ApprovalRule>)
      requires forall x <- store.approvalRules :: store.approvalRules[x].id == x
      modifies store`approvals
      ensures id in store.expansions ==> FirstMatch(store.approvalRules, store.expansions[id], rule)
      ensures r == Submission(old(View()), id, approver, rule, now)
      ensures View() == if r.Ok? then Recorded(old(View()), id, r.value.0) else old(View())
    {
      rule := None;
      if id !in store.expansions {
        return Err(if approver.subject == "" then Refused("approver.subject is required") else NotFound), None;
      }
      var e := store.expansions[id];
      var matched := store.MatchingApprovalRule(e);
      rule := matched;
      if approver.subject == "" {
        return Err(Refused("approver.subject is required")), rule;
      }
      if e.status != Pending {
        return Err(Refused("expansion request is already decided")), rule;
      }
      if e.missionRef !in store.missions {
        return Err(NotFound), rule;
      }
      var m := store.missions[e.missionRef];
      var stopped := store.Check(AuthorityOperation(Some(m), None, e.requester, e.action, now));
      if stopped.value.Some? {
        return Err(Refused("contained")), rule;
      }
      var required := 1;
      if matched.Some? {
        required := matched.value.required;
        if !ApproverAllowed(matched.value, approver) {
          return Err(Refused("approver is not permitted")), rule;
        }
      }
      var record := ApprovalRecord(if matched.Some? then matched.value.id else "", approver, now);
      var saved := store.SaveApprovalRecord(id, record);
      if saved.Err? {
        return Err(saved.error), rule;
      }
      r := Ok((record, required));
    }

    method SubmitExpansionApproval(id: string, approver: Principal, now: Time) returns (r: Result<(int, int)>, ghost rule: Option<ApprovalRule>)
      requires forall x <- store.approvalRules :: store.approvalRules[x].id == x
      modifies store
      ensures id in old(store.expansions) ==> FirstMatch(old(store.approvalRules), old(store.expansions)[id], rule)
      ensures View() == AfterSubmit(old(View()), id, approver, rule, now)
      ensures r == SubmissionResult(old(View()), id, approver, rule, now)
    {
      ghost var before := View();
      var recorded;
      recorded, rule := RecordSubmission(id, approver, now);
      if recorded.Err? {
        return Err(recorded.error), rule;
      }
      SubmissionEffect(before, id, approver, rule, now);
      var (record, required) := recorded.value;
      var received := |store.approvals[id]|;
      if received < required {
        var e := store.expansions[id];
        store.AppendEvent(Event(e.missionRef, Note, e.versionSeen, e.versionSeen));
        return Ok((required, received)), rule;
      }
      ghost var halfway := View();
      var decided := DecideExpansionRequest(id, approver, true, false, now);
      DecideKeepsRecords(halfway, id, approver, now);
      if decided.Err? {
        return Err(decided.error), rule;
      }
      r := Ok((required, received));
    }

    // -------------------------------------------------------------- evaluation

    /** The last part of it: the mission's conditions decide, and may suspend it. */
    method AssessConditions(m: Mission, ctx: Context) returns (r: Result<Policy.Response>, conditions: seq<Policy.ConditionResult>)
      requires m.ref in store.missions && store.missions[m.ref] == m && m.state == Active
      modifies store`missions, store`events
      ensures ConditionsAssessed(m, ctx, r) && conditions == Policy.Evidence(m.conditions, ctx.verdict)
      ensures View() == if Suspends(m, ctx) then AfterSuspend(old(View()), m.ref) else old(View())
      ensures store.missions.Keys == old(store.missions).Keys && store.missions[m.ref].ref == m.ref
    {
      var outcome, results := Policy.EvaluateConditions(m.conditions, ctx.verdict);
      match outcome {
        case FirstUnsupported(_) => return Err(Refused("unsupported condition expression")), results;
        case FirstFalse(condition) =>
          if ShouldSuspend(m.conditions, condition.id) {
            var updated, log := Transition(m, Suspended);
            return Ok(Answer(Policy.Suspend, updated, ["MISSION_CONDITION_FAILED", condition.id])), results;
          }
          return Ok(Denial(m, "MISSION_CONDITION_FAILED")), results;
        case AllTrue =>
          return Ok(Answer(Policy.Allow, m, ["IN_SCOPE", "MISSION_ACTIVE", "CONDITIONS_TRUE"])), results;
      }
    }

    /** The action's scope, and the conditions of one in scope. */
    method AssessAction(ref: string, req: Policy.EvaluateRequest, ctx: Context, risk: string, expansionID: string, now: Time)
      returns (r: Result<Policy.Response>, conditions: seq<Policy.ConditionResult>)
      requires ref in store.missions && store.missions[ref].ref == ref && store.missions[ref].state == Active
      modifies store`missions, store`expansions, store`events
      ensures ActionAssessed(old(View()), ref, req, ctx, risk, expansionID, now, r)
      ensures var m := old(store.missions)[ref];
              conditions == if InScopeFor(m.region, req.action, ctx) then Policy.Evidence(m.conditions, ctx.verdict) else []
      ensures store.missions.Keys == old(store.missions).Keys && store.missions[ref].ref == ref
      ensures View() == AfterAction(old(View()), ref, req, ctx, risk, expansionID, now)
    {
      conditions := [];
      var m := store.missions[ref];
      if !InScopeFor(m.region, req.action, ctx) {
        if !ctx.risky {
          return Ok(Answer(Policy.RequireExpansion, m, ["ACTION_OUTSIDE_MISSION_SCOPE"])), [];
        }
        var asked := CreateExpansionRequest(ref, RiskAsk(m, req, risk), expansionID, now);
        return if asked.Err? then Err(asked.error) else Ok(RiskAnswer(m, expansionID)), [];
      }
      r, conditions := AssessConditions(m, ctx);
    }

    /** Evaluate up to finalizeEvaluation. */
    method Assess(ref: string, req: Policy.EvaluateRequest, ctx: Context, risk: string, expansionID: string, now: Time)
      returns (r: Result<Policy.Response>, conditions: seq<Policy.ConditionResult>)
      requires Keyed(store.missions)
      modifies store`missions, store`expansions, store`events
      ensures Assessed(old(View()), ref, req, ctx, risk, expansionID, now, r)
      ensures conditions == AssessedConditions(old(View()), ref, req, ctx, now)
      ensures r.Ok? ==> ref in store.missions && store.missions[ref].ref == ref
      ensures View() == AfterAssessment(old(View()), ref, req, ctx, risk, expansionID, now)
    {
      conditions := [];
      if ref !in store.missions {
        return Err(NotFound), [];
      }
      var m := store.missions[ref];
      if OutsideWindow(m, now) {
        var updated, log := Transition(m, Expired);
        return Ok(Denial(updated, "MISSION_EXPIRED")), [];
      }
      if m.state != Active {
        return Ok(Denial(m, "MISSION_NOT_ACTIVE")), [];
      }
      if !ActorMatches(m, req.actor) {
        return Ok(Denial(m, "ACTOR_NOT_AUTHORIZED_FOR_MISSION")), [];
      }
      var rule := store.Check(AuthorityOperation(Some(m), None, req.actor, req.action, now));
      if rule.value.Some? {
        return Ok(ContainmentDenial(m, rule.value.value)), [];
      }
      if 0 < req.versionSeen < m.version {
        return Ok(Answer(Policy.RequireRefresh, m, ["MISSION_VERSION_STALE"])), [];
      }
      r, conditions := AssessAction(ref, req, ctx, risk, expansionID, now);
    }

    /** finalizeEvaluation: the bundle in use has its say, then the answer is kept as evidence and
        the evaluation is logged. */
    method Finalize(
      m: Mission, req: Policy.EvaluateRequest, base: Policy.Response, ctx: Context, conditions: seq<Policy.ConditionResult>, evidenceID: string)
      returns (r: Result<Policy.Response>, ghost finding: Finding)
      requires forall id <- policies.bundles :: policies.bundles[id].id == id
      modifies store`evidence, store`events
      ensures Finalized(policies.bundles, m, req, base, ctx, finding)
      ensures r == (if finding.answer.Ok? && evidenceID in old(store.evidence) then Err(Conflict) else finding.answer)
      ensures store.evidence == if r.Err? then old(store.evidence) else old(store.evidence)[evidenceID :=
                EvidenceOf(evidenceID, m, req, finding.used, r.value, conditions, finding.results)]
      ensures store.events == old(store.events) + if r.Ok? then [NoteOf(m)] else []
    {
      r := Ok(base);
      var results := [];
      var selected := policies.GetActivePolicyBundle(m.tenant);
      var used := if selected.Ok? then Some(selected.value) else None;
      if used.Some? {
        r, results := Policy.ApplyBundle(BundleOf(used.value), m, req, base, ctx.ruleVerdict);
      }
      finding := Finding(used, r, results);
      if r.Err? {
        return;
      }
      var saved := store.SaveEvaluationEvidence(EvidenceOf(evidenceID, m, req, used, r.value, conditions, results));
      if saved.Err? {
        r := Err(saved.error);
        return;
      }
      store.AppendEvent(Event(m.ref, Note, m.version, m.version));
    }

    /** An allowing answer is authorized; what is answered is the assessment, with the say of the
        bundle in use for the mission's tenant; and what is answered is kept as evidence. */
    method Evaluate(
      ref: string, req: Policy.EvaluateRequest, ctx: Context, risk: string, expansionID: string, evidenceID: string, now: Time)
      returns (r: Result<Policy.Response>, ghost base: Result<Policy.Response>, ghost finding: Finding)
      requires Keyed(store.missions) && forall id <- policies.bundles :: policies.bundles[id].id == id
      modifies store`missions, store`expansions, store`evidence, store`events
      ensures r.Ok? && r.value.decision in {Policy.Allow, Policy.AllowWithConstraints} ==> Authorized(old(View()), ref, req, ctx, now)
      ensures Assessed(old(View()), ref, req, ctx, risk, expansionID, now, base)
      ensures base.Err? ==> r == Err(base.error) && store.evidence == old(store.evidence)
      ensures base.Ok? ==>
                && ref in store.missions && Finalized(policies.bundles, store.missions[ref], req, base.value, ctx, finding)
                && r == (if finding.answer.Ok? && evidenceID in old(store.evidence) then Err(Conflict) else finding.answer)
                && store.evidence == if r.Err? then old(store.evidence) else old(store.evidence)[evidenceID :=
                     EvidenceOf(evidenceID, store.missions[ref], req, finding.used, r.value,
                                AssessedConditions(old(View()), ref, req, ctx, now), finding.results)]
      ensures var w := AfterAssessment(old(View()), ref, req, ctx, risk, expansionID, now);
              View() == w.(events := w.events + if r.Ok? && ref in store.missions then [NoteOf(store.missions[ref])] else [])
    {
      finding := Finding(None, Err(NotFound), []);
      var assessed, conditions := Assess(ref, req, ctx, risk, expansionID, now);
      base := assessed;
      if assessed.Err? {
        r := Err(assessed.error);
        return;
      }
      r, finding := Finalize(store.missions[ref], req, assessed.value, ctx, conditions, evidenceID);
      FinalAllowIsAuthorized(old(View()), ref, req, ctx, risk, expansionID, now, base, policies.bundles, store.missions[ref], finding);
    }

    method Resume(ref: string, versionSeen: int, actor: Actor, now: Time) returns (r: Result<Policy.Response>)
      requires Keyed(store.missions)
      modifies store`missions, store`events
      ensures Resumed(old(View()), ref, versionSeen, actor, now, r)
      ensures View() == AfterExpire(old(View()), ref, now)
    {
      if ref !in store.missions {
        return Err(NotFound);
      }
      var m := store.missions[ref];
      if OutsideWindow(m, now) {
        var updated, log := Transition(m, Expired);
        return Ok(Denial(updated, "MISSION_EXPIRED"));
      }
      if m.state != Active {
        return Ok(Denial(m, "MISSION_NOT_ACTIVE"));
      }
      if !ActorMatches(m, actor) {
        return Ok(Denial(m, "ACTOR_NOT_AUTHORIZED_FOR_MISSION"));
      }
      var rule := store.Check(AuthorityOperation(Some(m), None, actor, MissionAction("resume", m.ref), now));
      if rule.value.Some? {
        return Ok(ContainmentDenial(m, rule.value.value));
      }
      if 0 < versionSeen < m.version {
        return Ok(Answer(Policy.RequireRefresh, m, ["MISSION_VERSION_STALE"]));
      }
      r := Ok(Answer(Policy.Allow, m, ["MISSION_ACTIVE", "ACTOR_AUTHORIZED"]));
    }

    // -------------------------------------------------------------- policies and negotiations

    /** The bundle is activated, and the event names no mission. */
    method ActivatePolicyBundle(id: string, now: Time) returns (r: Result<StoredBundle>)
      requires OneActive(policies.bundles)
      modifies policies, store`events
      ensures OneActive(policies.bundles)
      ensures r.Err? ==> r.error == NotFound && id !in old(policies.bundles) && policies.bundles == old(policies.bundles)
      ensures r.Ok? ==>
                && id in old(policies.bundles)
                && policies.bundles == Bundles.Activated(old(policies.bundles), old(policies.bundles)[id].(activatedAt := now))
                && r.value == policies.bundles[id] && InUse(policies.bundles, r.value.tenant, Some(r.value))
      ensures store.events == old(store.events) + if r.Ok? then [Event("", Note, 0, 0)] else []
    {
      r := policies.ActivatePolicyBundle(id, now);
      if r.Ok? {
        store.AppendEvent(Event("", Note, 0, 0));
      }
    }

    method CreateAuthorityNegotiation(
      ref: string, versionSeen: int, actor: Actor, requested: Region, risky: bool, id: string, now: Time) returns (r: Result<NegotiationRecord>)
      modifies store`negotiations, store`events
      ensures r == Negotiated(old(View()), old(store.negotiations).Keys, ref, versionSeen, actor, requested, risky, id, now)
      ensures store.negotiations == if r.Ok? then old(store.negotiations)[id := r.value] else old(store.negotiations)
      ensures View() == old(View()).(events := old(View()).events + if r.Ok? then [NoteOf(old(store.missions)[ref])] else [])
    {
      if ref !in store.missions {
        return Err(NotFound);
      }
      var m := store.missions[ref];
      if !Usable(m, actor, versionSeen, now) {
        return Err(Refused("mission is not usable"));
      }
      if !ValidRequest(requested) {
        return Err(Refused("requested authority is not valid"));
      }
      var outcome := Negotiate(m.region, requested, risky);
      var record := NegotiationRecord(id, m.ref, m.version, m.tenant, actor, requested, outcome);
      var saved := store.SaveAuthorityNegotiation(record);
      if saved.Err? {
        return Err(saved.error);
      }
      store.AppendEvent(NoteOf(m));
      r := Ok(record);
    }

    // -------------------------------------------------------------- projections and credentials

    /** The projection is stored and its token signed. */
    method IssueProjection(m: Mission, p: Projection) returns (r: Result<Projection>)
      modifies this`grants, store`projections, store`events
      ensures r == if p.id in old(store.projections) then Err(Conflict) else Ok(p)
      ensures View() == if r.Ok? then Projected(old(View()), m, p) else old(View())
    {
      var saved := store.SaveProjection(p);
      if saved.Err? {
        return Err(saved.error);
      }
      grants := grants + {p.token};
      store.AppendEvent(NoteOf(m));
      r := Ok(p);
    }

    method CreateProjection(ref: string, req: ProjectionRequest, id: string, jti: string, now: Time) returns (r: Result<Projection>)
      modifies this`grants, store
      ensures r == Operations.CreateProjection(old(View()), ref, req, id, jti, now)
      ensures View() == AfterProject(old(View()), ref, req, id, jti, now)
    {
      if ref !in store.missions {
        return Err(NotFound);
      }
      var m := store.missions[ref];
      if !Usable(m, req.actor, req.versionSeen, now) {
        return Err(Refused("mission is not usable"));
      }
      var project := Action("projection", req.kind, Resource("mission", m.ref), "project");
      var rule := store.Check(AuthorityOperation(Some(m), None, req.actor, project, now));
      if rule.value.Some? {
        return Err(Refused("contained"));
      }
      if Trim(req.kind) !in PROJECTION_TYPES {
        return Err(Refused("unsupported projection type"));
      }
      var p := NewProjection(m, req, id, jti, now);
      if !BindingInScope(m.region, p.tool, p.resource, p.operation) {
        return Err(Refused("projection action is outside mission authority"));
      }
      r := IssueProjection(m, p);
    }

    /** ExchangeProjectionToken up to the signature. */
    method Admit(req: ExchangeRequest, exchangeID: string, jti: string, now: Time) returns (r: Result<Credential>)
      ensures r == Exchange(View(), req, exchangeID, jti, now)
    {
      var nonce := Trim(req.nonce);
      if nonce == "" {
        return Err(Refused("nonce is required"));
      }
      if req.token !in grants {
        return Err(Refused("projection signature mismatch"));
      }
      if req.token.projectionID !in store.projections {
        return Err(NotFound);
      }
      var p := store.projections[req.token.projectionID];
      if p.token != req.token {
        return Err(Refused("projection token does not match broker state"));
      }
      for i := 0 to |p.records|
        invariant forall k :: 0 <= k < i ==> p.records[k].nonce != nonce
      {
        if p.records[i].nonce == nonce {
          return Err(Conflict);
        }
      }
      if p.missionRef !in store.missions {
        return Err(NotFound);
      }
      var m := store.missions[p.missionRef];
      if !Exchangeable(p, m, req.actor, now) {
        return Err(Refused("projection is not exchangeable"));
      }
      var rule := store.Check(AuthorityOperation(None, Some(p), p.actor, NO_ACTION, now));
      if rule.value.Some? {
        return Err(Refused("contained"));
      }
      if !(Clean(req.scopes) <= AllowedScopes(p)) {
        return Err(Refused("requested scopes exceed projection scope"));
      }
      if !BindingAllowed(RequestedBinding(req, p), p, m) {
        return Err(Refused("requested binding is not allowed"));
      }
      r := Ok(NewCredential(p, m, req, exchangeID, jti, now));
    }

    method ExchangeProjectionToken(req: ExchangeRequest, exchangeID: string, jti: string, now: Time) returns (r: Result<Credential>)
      requires forall x <- store.projections :: store.projections[x].id == x
      modifies this`credentials, store
      ensures r == Exchange(old(View()), req, exchangeID, jti, now)
      ensures View() == AfterExchange(old(View()), req, exchangeID, jti, now)
    {
      r := Admit(req, exchangeID, jti, now);
      if r.Err? {
        return;
      }
      var p := store.projections[req.token.projectionID];
      credentials := credentials + {r.value};
      var saved := store.UpdateProjection(p.(records := p.records + [NewRecord(r.value, Trim(req.nonce))]));
      store.AppendEvent(Event(p.missionRef, Note, p.missionVersion, p.missionVersion));
    }

    /** Rewrites the records one by one. */
    method RevokeProjection(id: string, now: Time) returns (r: Result<Projection>)
      requires forall x <- store.projections :: store.projections[x].id == x
      modifies store
      ensures View() == Operations.RevokeProjection(old(View()), id, now)
      ensures r == if id in store.projections then Ok(store.projections[id]) else Err(NotFound)
    {
      if id !in store.projections {
        return Err(NotFound);
      }
      var p := store.projections[id];
      if !p.revoked {
        var records := p.records;
        for i := 0 to |records|
          invariant |records| == |p.records|
          invariant forall k :: 0 <= k < i ==> records[k] == RevokeRecord(p.records[k], now)
          invariant forall k :: i <= k < |records| ==> records[k] == p.records[k]
        {
          if !records[i].revoked {
            records := records[i := records[i].(revoked := true, revokedAt := now)];
          }
        }
        assert records == RevokeRecords(p.records, now);
        p := p.(revoked := true, revokedAt := now, records := records);
        var saved := store.UpdateProjection(p);
        store.AppendEvent(Event(p.missionRef, Note, p.missionVersion, p.missionVersion));
      }
      r := Ok(p);
    }

    method VerifyProjection(token: GrantToken, now: Time) returns (valid: bool)
      ensures valid <==> ProjectionValid(View(), token, now)
    {
      if token !in grants || token.projectionID !in store.projections {
        return false;
      }
      var p := store.projections[token.projectionID];
      if p.revoked || p.revokedAt != 0 {
        return false;
      }
      var rule := store.Check(AuthorityOperation(None, Some(p), p.actor, NO_ACTION, now));
      if rule.Err? || rule.value.Some? {
        return false;
      }
      valid := now <= p.expiresAt;
    }

    method VerifyCredentialAccessToken(req: VerifyRequest, now: Time) returns (valid: bool)
      ensures valid <==> CredentialValid(View(), req, now)
    {
      if req.token !in credentials || req.token.projectionID !in store.projections {
        return false;
      }
      var p := store.projections[req.token.projectionID];
      var record := FindRecord(p.records, req.token.exchangeID, req.token.jti);
      if record.None? || record.value.token != req.token || p.missionRef !in store.missions {
        return false;
      }
      if !CredentialUsable(p, record.value, store.missions[p.missionRef], req, now) {
        return false;
      }
      var rule := store.Check(AuthorityOperation(None, Some(p), p.actor, NO_ACTION, now));
      valid := rule.Ok? && rule.value.None?;
    }

    // -------------------------------------------------------------- leases

    method CreateMissionLease(ref: string, versionSeen: int, actor: Actor, ttl: int, id: string, now: Time) returns (r: Result<Lease>)
      modifies store
      ensures r == CreateLease(old(View()), ref, versionSeen, actor, ttl, id, now)
      ensures View() == AfterLend(old(View()), ref, versionSeen, actor, ttl, id, now)
    {
      if ref !in store.missions {
        return Err(NotFound);
      }
      var m := store.missions[ref];
      if !Usable(m, actor, versionSeen, now) {
        return Err(Refused("mission is not usable"));
      }
      var rule := store.Check(AuthorityOperation(Some(m), None, actor, LeaseAction(m.ref), now));
      if rule.value.Some? {
        return Err(Refused("contained"));
      }
      var l := Lease(id, m.ref, m.version, m.tenant, actor, now, BoundedExpiry(now, ttl, DEFAULT_LEASE_TTL, m.expiresAt), 0);
      var saved := store.SaveMissionLease(l);
      if saved.Err? {
        return Err(saved.error);
      }
      store.AppendEvent(NoteOf(m));
      r := Ok(l);
    }

    method RefreshMissionLease(id: string, actor: Actor, ttl: int, now: Time) returns (r: Result<Lease>)
      requires forall x <- store.leases :: store.leases[x].id == x
      modifies store
      ensures r == RefreshLease(old(View()), id, actor, ttl, now)
      ensures View() == AfterRefresh(old(View()), id, actor, ttl, now)
    {
      if id !in store.leases || store.leases[id].missionRef !in store.missions {
        return Err(NotFound);
      }
      var l := store.leases[id];
      var m := store.missions[l.missionRef];
      if l.actor != actor {
        return Err(Refused("lease actor mismatch"));
      }
      if now > l.expiresAt {
        return Err(Refused("lease expired"));
      }
      if !Usable(m, actor, l.missionVersion, now) {
        return Err(Refused("mission is not usable"));
      }
      var rule := store.Check(AuthorityOperation(Some(m), None, actor, LeaseAction(m.ref), now));
      if rule.value.Some? {
        return Err(Refused("contained"));
      }
      if l.missionVersion != m.version {
        return Err(Refused("mission version changed"));
      }
      l := l.(refreshedAt := now, expiresAt := BoundedExpiry(now, ttl, DEFAULT_LEASE_TTL, m.expiresAt));
      var saved := store.UpdateMissionLease(l);
      store.AppendEvent(NoteOf(m));
      r := Ok(l);
    }
  }
}
