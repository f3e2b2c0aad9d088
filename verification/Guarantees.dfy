/** What callers may rely on, in every state the service can reach. */
module Guarantees {
  import opened Basics
  import opened Authority
  import opened Model
  import opened Containment
  import opened Fields
  import opened Operations
  import opened Replay
  import opened Runs

  // ---------------------------------------------------------------- history

  /** In every reachable state the log alone tells the state and version of every mission, and
      the version is one, plus the approved expansions, plus at most two changes of state. */
  lemma LogTellsAll(ops: seq<Op>, ref: string)
    ensures var w := Run(EMPTY, ops);
            && Replay.Replay(map[], w.events) == Some(Histories(w.missions))
            && (ref in w.missions ==>
                  && w.missions[ref].version == 1 + Count(w.events, ref, false) + Count(w.events, ref, true)
                  && Count(w.events, ref, true) <= 2)
  {
    Start();
    RunKeeps(EMPTY, ops);
    var w := Run(EMPTY, ops);
    if ref in w.missions {
      VersionCounts(w.missions, w.events, ref);
    }
  }

  /** And in its own fields: each change goes one version up, and the last one tells the mission. */
  lemma LogIsGapless(ops: seq<Op>, i: nat)
    requires var log := Run(EMPTY, ops).events; i < |log| && log[i].before != log[i].after
    ensures var ms, log := Run(EMPTY, ops).missions, Run(EMPTY, ops).events;
            && log[i].after == log[i].before + 1 && log[i].before == Changes(log[..i], log[i].ref)
            && ((forall k :: i < k < |log| && log[k].ref == log[i].ref ==> log[k].before == log[k].after) ==>
                  && log[i].ref in ms && ms[log[i].ref].version == log[i].after
                  && ms[log[i].ref].state == if log[i].kind.Became? then log[i].kind.state else Active)
  {
    Start();
    RunKeeps(EMPTY, ops);
    LogInFields(Run(EMPTY, ops).missions, Run(EMPTY, ops).events, i);
  }

  /** A version is one record: the mission read at two moments of a run under one version is
      the same mission. */
  lemma VersionDeterminesMission(w: World, ops: seq<Op>, ref: string)
    requires Inv(w) && ref in w.missions
    ensures var w' := Run(w, ops);
            ref in w'.missions && (w'.missions[ref].version == w.missions[ref].version ==> w'.missions[ref] == w.missions[ref])
  {
    RunKeeps(w, ops);
    assert Evolved(w.missions[ref], Run(w, ops).missions[ref]);
  }

  // ---------------------------------------------------------------- credentials

  /** A credential that verifies was issued at the mission's present version, to its agent, within
      its window, and any tool action it is bound to is in the mission's present authority. */
  lemma ValidCredentialIsCurrent(w: World, req: VerifyRequest, now: Time)
    requires Inv(w) && CredentialValid(w, req, now)
    ensures var c := req.token;
            && c.missionRef in w.missions
            && var m := w.missions[c.missionRef];
               && c.missionVersion == m.version && m.state == Active
               && c.actor.instanceID != "" && c.actor.instanceID == m.agent.instanceID
               && c.actor.clientID != "" && c.actor.clientID == m.agent.clientID
               && (m.agent.thumbprint == "" || c.actor.thumbprint == m.agent.thumbprint)
               && m.notBefore <= now && (m.expiresAt == 0 || now <= m.expiresAt) && c.notBefore <= now < c.expiresAt
               && (c.resource.Some? || c.operation != "" ==>
                     && c.resource.Some? && c.resource.value.typ != "" && c.resource.value.id != "" && c.operation != ""
                     && InScope(m.region, Action("tool_call", c.tool, c.resource.value, c.operation)))
    ensures var p := w.projections[req.token.projectionID];
            && !p.revoked && p.revokedAt == 0 && now <= p.expiresAt && req.token.scopes <= AllowedScopes(p)
            && exists r <- p.records :: r.token == req.token && !r.revoked && now <= r.expiresAt
  {
    var p := w.projections[req.token.projectionID];
    var found := FindRecord(p.records, req.token.exchangeID, req.token.jti).value;
    FindRecordMeans(p.records, req.token.exchangeID, req.token.jti, found);
    assert found in p.records;
    assert CredentialOk(w.missions, w.projections, req.token);
  }

  lemma {:induction false} FoundLast(rs: seq<ExchangeRecord>, r: ExchangeRecord)
    requires forall x <- rs :: x.exchangeID != r.exchangeID || x.jti != r.jti
    ensures FindRecord(rs + [r], r.exchangeID, r.jti) == Some(r)
  {
    if rs == [] {
    } else {
      assert (rs + [r])[1..] == rs[1..] + [r];
      FoundLast(rs[1..], r);
    }
  }

  lemma SameGuard(rules: map<string, ContainmentRule>, m: Mission, p: Projection, p': Projection, now: Time)
    requires p' == p.(records := p'.records)
    ensures ProjectionContained(rules, m, p', now) <==> ProjectionContained(rules, m, p, now)
  {
    forall rule: ContainmentRule
      ensures MatchesGuardedProjection(rule, m, p') <==> MatchesGuardedProjection(rule, m, p)
    {
    }
  }

  lemma CredentialUsableWhenIssued(p: Projection, p': Projection, m: Mission, req: ExchangeRequest, exchangeID: string, jti: string, now: Time)
    requires p' == p.(records := p'.records) && Exchangeable(p, m, req.actor, now) && Clean(req.scopes) <= AllowedScopes(p)
    ensures var c := NewCredential(p, m, req, exchangeID, jti, now);
            CredentialUsable(p', NewRecord(c, Trim(req.nonce)), m, VerifyRequest(c, NO_ACTOR, "", "", None, ""), now) <==> now < c.expiresAt
  {
    assert AllowedScopes(p') == AllowedScopes(p);
  }

  /** A credential with fresh identifiers verifies where it was just issued, unless the earliest
      end it was given is already reached. */
  lemma IssuedCredentialVerifies(w: World, req: ExchangeRequest, exchangeID: string, jti: string, now: Time)
    requires Inv(w) && req.token.projectionID in w.projections
    requires forall r <- w.projections[req.token.projectionID].records :: r.exchangeID != exchangeID || r.jti != jti
    ensures var issued := Exchange(w, req, exchangeID, jti, now);
            issued.Ok? ==>
              (CredentialValid(AfterExchange(w, req, exchangeID, jti, now), VerifyRequest(issued.value, NO_ACTOR, "", "", None, ""), now)
               <==> now < issued.value.expiresAt)
  {
    if Exchange(w, req, exchangeID, jti, now).Ok? {
      var p := w.projections[req.token.projectionID];
      var c := Exchange(w, req, exchangeID, jti, now).value;
      assert ProjectionOk(w.missions, req.token.projectionID, p);
      var record := NewRecord(c, Trim(req.nonce));
      var p' := p.(records := p.records + [record]);
      FoundLast(p.records, record);
      SameGuard(w.containments, w.missions[p.missionRef], p, p', now);
      CredentialUsableWhenIssued(p, p', w.missions[p.missionRef], req, exchangeID, jti, now);
    }
  }

  /** A projection verifies where it was just created: what did not stop its creation does not
      stop it then. */
  lemma CreatedProjectionVerifies(w: World, ref: string, req: ProjectionRequest, id: string, jti: string, now: Time)
    requires Inv(w) && CreateProjection(w, ref, req, id, jti, now).Ok?
    ensures ProjectionValid(AfterProject(w, ref, req, id, jti, now), GrantToken(jti, id), now)
  {
    var m, p := w.missions[ref], CreateProjection(w, ref, req, id, jti, now).value;
    var project := Action("projection", req.kind, Resource("mission", m.ref), "project");
    forall x | x in w.containments && MatchesGuardedProjection(w.containments[x], m, p)
      ensures MatchesEvaluation(w.containments[x], m, req.actor, project)
    {
    }
    assert !ProjectionContained(w.containments, m, p, now);
  }

  /** Once a projection is revoked, for the rest of every run it neither verifies nor exchanges,
      and no credential drawn from it verifies. */
  lemma RevocationIsFinal(w: World, ops: seq<Op>, id: string, now: Time)
    requires Inv(w) && id in w.projections && w.projections[id].revoked
    ensures var w' := Run(w, ops);
            && (forall token: GrantToken :: token.projectionID == id ==> !ProjectionValid(w', token, now))
            && (forall req: ExchangeRequest, x, jti :: req.token.projectionID == id ==> Exchange(w', req, x, jti, now).Err?)
            && (forall req: VerifyRequest :: req.token.projectionID == id ==> !CredentialValid(w', req, now))
  {
    RunKeeps(w, ops);
    assert ProjectionEvolved(w.projections[id], Run(w, ops).projections[id]);
  }

  /** Version v of the mission is over: it has moved on, or it is no longer active. */
  ghost predicate Over(w: World, ref: string, v: int) {
    ref in w.missions && (w.missions[ref].version > v || w.missions[ref].state != Active)
  }

  /** What is over stays over. */
  lemma OverForever(w: World, ops: seq<Op>, ref: string, v: int)
    requires Inv(w) && Over(w, ref, v)
    ensures Over(Run(w, ops), ref, v)
    ensures w.missions[ref].state != Active ==> Run(w, ops).missions[ref].state != Active
  {
    RunKeeps(w, ops);
    assert Evolved(w.missions[ref], Run(w, ops).missions[ref]);
  }

  /** Issued for this mission at version v or before. */
  ghost predicate ProjectionUpTo(w: World, id: string, ref: string, v: int) {
    id in w.projections && w.projections[id].missionRef == ref && w.projections[id].missionVersion <= v
  }

  ghost predicate LeaseUpTo(w: World, id: string, ref: string, v: int) {
    id in w.leases && w.leases[id].missionRef == ref && w.leases[id].missionVersion <= v
  }

  lemma OverExchangesNothing(w: World, req: ExchangeRequest, exchangeID: string, jti: string, now: Time, ref: string, v: int)
    requires Inv(w) && Over(w, ref, v) && ProjectionUpTo(w, req.token.projectionID, ref, v)
    ensures Exchange(w, req, exchangeID, jti, now).Err?
  {
    assert ProjectionOk(w.missions, req.token.projectionID, w.projections[req.token.projectionID]);
  }

  lemma OverRefreshesNothing(w: World, id: string, actor: Actor, ttl: int, now: Time, ref: string, v: int)
    requires Inv(w) && Over(w, ref, v) && LeaseUpTo(w, id, ref, v)
    ensures RefreshLease(w, id, actor, ttl, now).Err?
  {
    assert LeaseOk(w.missions, id, w.leases[id]);
  }

  /** Once a version is over, nothing the rest of any run brings makes a credential, projection
      or lease of that version work again. */
  lemma InvalidForever(w: World, ops: seq<Op>, ref: string, v: int)
    requires Inv(w) && Over(w, ref, v)
    ensures var w' := Run(w, ops);
            && (forall req: VerifyRequest, now ::
                  req.token.missionRef == ref && req.token.missionVersion <= v ==> !CredentialValid(w', req, now))
            && (forall req: ExchangeRequest, x, jti, now ::
                  ProjectionUpTo(w', req.token.projectionID, ref, v) ==> Exchange(w', req, x, jti, now).Err?)
            && (forall id, actor, ttl, now :: LeaseUpTo(w', id, ref, v) ==> RefreshLease(w', id, actor, ttl, now).Err?)
  {
    var w' := Run(w, ops);
    RunKeeps(w, ops);
    OverForever(w, ops, ref, v);
    forall req: VerifyRequest, now | req.token.missionRef == ref && req.token.missionVersion <= v
      ensures !CredentialValid(w', req, now)
    {
      if CredentialValid(w', req, now) {
        ValidCredentialIsCurrent(w', req, now);
      }
    }
    forall req: ExchangeRequest, x, jti, now | ProjectionUpTo(w', req.token.projectionID, ref, v)
      ensures Exchange(w', req, x, jti, now).Err?
    {
      OverExchangesNothing(w', req, x, jti, now, ref, v);
    }
    forall id, actor, ttl, now | LeaseUpTo(w', id, ref, v)
      ensures RefreshLease(w', id, actor, ttl, now).Err?
    {
      OverRefreshesNothing(w', id, actor, ttl, now, ref, v);
    }
  }

  /** In every reachable state a projection's exchanges used distinct nonces, stay within its
      scopes and within every expiry, and are all revoked once it is; and it stays revoked. */
  lemma ExchangesBounded(ops: seq<Op>, more: seq<Op>, id: string)
    requires id in Run(EMPTY, ops).projections
    ensures var w := Run(EMPTY, ops);
            var p := w.projections[id];
            && DistinctNonces(p.records) && p.missionRef in w.missions
            && (w.missions[p.missionRef].expiresAt != 0 ==> p.expiresAt <= w.missions[p.missionRef].expiresAt)
            && (forall r <- p.records :: Bounded(r, p, w.missions[p.missionRef].expiresAt))
            && (p.revoked ==>
                  && id in Run(w, more).projections && Run(w, more).projections[id].revoked
                  && forall r <- Run(w, more).projections[id].records :: r.revoked)
  {
    Start();
    RunKeeps(EMPTY, ops);
    var w := Run(EMPTY, ops);
    RunKeeps(w, more);
    var w' := Run(w, more);
    assert ProjectionOk(w.missions, id, w.projections[id]);
    assert ProjectionEvolved(w.projections[id], w'.projections[id]);
    assert ProjectionOk(w'.missions, id, w'.projections[id]);
  }

  /** In every reachable state a lease ends at most 300 seconds after it was created or last
      refreshed, and no later than its mission. */
  lemma LeasesBounded(ops: seq<Op>, id: string)
    requires id in Run(EMPTY, ops).leases
    ensures var w := Run(EMPTY, ops);
            var l := w.leases[id];
            && l.expiresAt <= (if l.refreshedAt != 0 then l.refreshedAt else l.createdAt) + MAX_LEASE_TTL
            && l.missionRef in w.missions
            && (w.missions[l.missionRef].expiresAt != 0 ==> l.expiresAt <= w.missions[l.missionRef].expiresAt)
  {
    Start();
    RunKeeps(EMPTY, ops);
    assert LeaseOk(Run(EMPTY, ops).missions, id, Run(EMPTY, ops).leases[id]);
  }

  // ---------------------------------------------------------------- approvals

  /** From w to w' the pending request becomes approved. */
  ghost predicate TurnsApproved(w: World, w': World, id: string) {
    && id in w.expansions && w.expansions[id].status == Pending
    && id in w'.expansions && w'.expansions[id].status == Approved
  }

  /** The operation approves the request. */
  ghost predicate Approves(w: World, op: Op, id: string) {
    TurnsApproved(w, Apply(w, op), id)
  }

  /** There are as many records for the request as the rule asks. */
  ghost predicate Quorum(w: World, id: string, rule: ApprovalRule) {
    id in w.approvals && |w.approvals[id]| >= rule.required
  }

  lemma FirstMatchUnique(rules: map<string, ApprovalRule>, e: Expansion, a: Option<ApprovalRule>, b: Option<ApprovalRule>)
    requires FirstMatch(rules, e, a) && FirstMatch(rules, e, b)
    ensures a == b
  {
    if a.Some? && b.Some? {
      LessTotal(a.value.id, b.value.id);
    }
  }

  lemma DirectNeedsNoRule(w: World, x: string, approver: Principal, approve: bool, now: Time, id: string)
    requires Keyed(w.missions) && forall y <- w.expansions :: w.expansions[y].id == y
    requires TurnsApproved(w, AfterDecide(w, x, approver, approve, true, now), id)
    ensures var e := w.expansions[id];
            forall r <- w.approvalRules ::
              var rule := w.approvalRules[r];
              !(&& (rule.tenant == "" || rule.tenant == e.tenant)
                && (rule.resourceType == "" || rule.resourceType == "*" || rule.resourceType == e.action.resource.typ)
                && (rule.resourceID == "" || rule.resourceID == "*" || rule.resourceID == e.action.resource.id)
                && (rule.operation == "" || rule.operation == "*" || rule.operation == e.action.operation)
                && (rule.riskLevel == "" || rule.riskLevel == e.risk))
  {
    FirstMatchInFields(w.approvalRules, w.expansions[id]);
    if Decide(w, x, approver, approve, true, now).Ok? {
      DecisionEffect(w, x, approver, approve, true, now);
    }
  }

  lemma OnlyDecisionsDecide(w: World, op: Op, id: string)
    requires id in w.expansions && !op.DecideExpansion? && !op.SubmitApproval?
    ensures id in Apply(w, op).expansions && Apply(w, op).expansions[id] == w.expansions[id]
  {
  }

  lemma SubmissionQuorum(w: World, x: string, approver: Principal, found: Option<ApprovalRule>, now: Time, id: string, rule: ApprovalRule)
    requires Keyed(w.missions) && forall y <- w.expansions :: w.expansions[y].id == y
    requires TurnsApproved(w, AfterSubmit(w, x, approver, found, now), id)
    requires FirstGoverning(w.approvalRules, w.expansions[id], rule)
    ensures Quorum(AfterSubmit(w, x, approver, found, now), id, rule)
  {
    if Submission(w, x, approver, found, now).Ok? {
      SubmissionEffect(w, x, approver, found, now);
      var w1 := Recorded(w, x, Submission(w, x, approver, found, now).value.0);
      if Decide(w1, x, approver, true, false, now).Ok? {
        DecisionEffect(w1, x, approver, true, false, now);
      }
    }
    FirstMatchInFields(w.approvalRules, w.expansions[id]);
    FirstMatchUnique(w.approvalRules, w.expansions[id], found, Some(rule));
  }

  lemma EnoughRecords(w: World, op: Op, id: string, rule: ApprovalRule)
    requires Keyed(w.missions) && forall x <- w.expansions :: w.expansions[x].id == x
    requires id in w.expansions && FirstGoverning(w.approvalRules, w.expansions[id], rule)
    ensures Approves(w, op, id) ==> Quorum(Apply(w, op), id, rule)
  {
    if Approves(w, op, id) {
      match op
      case DecideExpansion(x, approver, approve, now) => DirectNeedsNoRule(w, x, approver, approve, now, id);
      case SubmitApproval(x, approver, found, now) => SubmissionQuorum(w, x, approver, found, now, id, rule);
      case _ => OnlyDecisionsDecide(w, op, id);
    }
  }

  /** Whenever a step turns a request approved, there are at least as many records for it, of
      approvers that differ in subject or issuer, as the first governing approval rule asks. */
  lemma QuorumReached(w: World, op: Op, id: string, rule: ApprovalRule)
    requires Inv(w) && id in w.expansions && FirstGoverning(w.approvalRules, w.expansions[id], rule)
    ensures Approves(w, op, id) ==>
              && Quorum(Apply(w, op), id, rule)
              && var rs := Apply(w, op).approvals[id];
                 forall i, j :: 0 <= i < j < |rs| ==>
                   rs[i].approver.subject != rs[j].approver.subject || rs[i].approver.issuer != rs[j].approver.issuer
  {
    KeyedExpansions(w);
    EnoughRecords(w, op, id, rule);
    StepKeeps(w, op);
    assert ApprovalsOk(Apply(w, op).approvals);
  }

  /** So no step approves a request that a stored rule governs without the records some rule asks. */
  lemma GovernedNeedsQuorum(w: World, op: Op, id: string, governing: string)
    requires Inv(w) && id in w.expansions && governing in w.approvalRules && Governs(w.approvalRules[governing], w.expansions[id])
    ensures Approves(w, op, id) ==>
              exists rule :: FirstGoverning(w.approvalRules, w.expansions[id], rule) && Quorum(Apply(w, op), id, rule)
  {
    SomeRuleIsFirst(w.approvalRules, w.expansions[id], governing);
    var rule :| FirstGoverning(w.approvalRules, w.expansions[id], rule);
    QuorumReached(w, op, id, rule);
  }

  // ---------------------------------------------------------------- containment

  /** A snapshot of the store: each mission once, under its own reference. */
  ghost predicate SnapshotOf(w: World, missions: seq<Mission>) {
    UniqueRefs(missions) && forall m :: m in missions <==> m.ref in w.missions && w.missions[m.ref] == m
  }

  /** Every mission in the radius of a rule in force is stopped by the guard for any actor and
      any action; so nothing is delegated from it and no expansion of it is requested. */
  lemma RadiusBlocksMission(w: World, id: string, ref: string, actor: Actor, action: Action, now: Time)
    requires Inv(w) && id in w.containments && InForce(w.containments[id], now)
    requires ref in w.missions && MatchesMission(w.containments[id], w.missions[ref])
    ensures Contained(w.containments, w.missions[ref], actor, action, now)
    ensures forall req, missionID, child :: Delegate(w, ref, req, missionID, child, now).Err?
    ensures forall ask, x :: RequestExpansion(w, ref, ask, x, now).Err?
  {
    forall a: Actor, x: Action
      ensures Contained(w.containments, w.missions[ref], a, x, now)
    {
      MissionInRadius(w.containments[id], w.missions[ref], a, x);
    }
  }

  /** Every projection in the radius is refused: it neither verifies nor exchanges, and no
      credential drawn from it verifies. */
  lemma RadiusBlocksProjection(w: World, missions: seq<Mission>, id: string, pid: string, now: Time)
    requires Inv(w) && SnapshotOf(w, missions) && id in w.containments && InForce(w.containments[id], now)
    requires pid in w.projections && MatchesProjection(w.containments[id], w.projections[pid], missions)
    ensures forall token: GrantToken :: token.projectionID == pid ==> !ProjectionValid(w, token, now)
    ensures forall req: ExchangeRequest, x, jti :: req.token.projectionID == pid ==> Exchange(w, req, x, jti, now).Err?
    ensures forall req: VerifyRequest :: req.token.projectionID == pid ==> !CredentialValid(w, req, now)
  {
    var p := w.projections[pid];
    assert ProjectionOk(w.missions, pid, p);
    var m := w.missions[p.missionRef];
    ProjectionGuardIsRadius(w.containments[id], m, p, missions);
    assert ProjectionContained(w.containments, m, p, now);
  }

  /** The converse: a projection the guard stops is in the radius of a rule in force, or such a
      rule names its mission by identifier. */
  lemma BlockedProjectionInRadius(w: World, missions: seq<Mission>, pid: string, now: Time)
    requires Inv(w) && SnapshotOf(w, missions) && pid in w.projections
    requires ProjectionContained(w.containments, w.missions[w.projections[pid].missionRef], w.projections[pid], now)
    ensures var p := w.projections[pid];
            exists id <- w.containments :: InForce(w.containments[id], now) &&
              (|| MatchesProjection(w.containments[id], p, missions)
               || (w.containments[id].target == MissionTarget && w.containments[id].targetID == w.missions[p.missionRef].id))
  {
    var p := w.projections[pid];
    assert ProjectionOk(w.missions, pid, p);
    var m := w.missions[p.missionRef];
    var id :| id in w.containments && InForce(w.containments[id], now) && MatchesGuardedProjection(w.containments[id], m, p);
    ProjectionGuardIsRadius(w.containments[id], m, p, missions);
  }

  lemma RadiusBlocksLease(w: World, missions: seq<Mission>, id: string, lid: string, actor: Actor, ttl: int, now: Time)
    requires Inv(w) && SnapshotOf(w, missions) && id in w.containments && InForce(w.containments[id], now)
    requires lid in w.leases && MatchesLease(w.containments[id], w.leases[lid], missions)
    ensures RefreshLease(w, lid, actor, ttl, now).Err?
  {
    var l := w.leases[lid];
    assert LeaseOk(w.missions, lid, l);
    var m := w.missions[l.missionRef];
    LeaseInRadius(w.containments[id], m, l, missions, LeaseAction(m.ref));
  }

  lemma RadiusBlocksApproval(w: World, missions: seq<Mission>, id: string, eid: string, now: Time)
    requires Inv(w) && SnapshotOf(w, missions) && id in w.containments && InForce(w.containments[id], now)
    requires eid in w.expansions && MatchesExpansion(w.containments[id], w.expansions[eid], missions)
    ensures forall approver, enforce :: Decide(w, eid, approver, true, enforce, now).Err?
    ensures forall approver, rule :: Submission(w, eid, approver, rule, now).Err?
  {
    var e := w.expansions[eid];
    assert ExpansionOk(w.missions, eid, e);
    ExpansionInRadius(w.containments[id], w.missions[e.missionRef], e, missions);
  }

  /** The converse for leases: what the guard stops is in the radius of a rule in force, or such a
      rule names the mission's identifier, the lease operation or the mission as a resource. */
  lemma BlockedLeaseInRadius(w: World, missions: seq<Mission>, lid: string, now: Time)
    requires Inv(w) && SnapshotOf(w, missions) && lid in w.leases
    requires var l := w.leases[lid]; Contained(w.containments, w.missions[l.missionRef], l.actor, LeaseAction(l.missionRef), now)
    ensures var l := w.leases[lid];
            exists id <- w.containments :: InForce(w.containments[id], now) &&
              (|| MatchesLease(w.containments[id], l, missions)
               || (w.containments[id].target == MissionTarget && w.containments[id].targetID == w.missions[l.missionRef].id)
               || (w.containments[id].target == ToolTarget && w.containments[id].targetID == "mission_lease")
               || (w.containments[id].target == ResourceTarget
                   && ResourceTargetMatches(w.containments[id].targetID, Resource("mission", l.missionRef))))
  {
    var l := w.leases[lid];
    assert LeaseOk(w.missions, lid, l);
    var m := w.missions[l.missionRef];
    var id :| id in w.containments && InForce(w.containments[id], now)
              && MatchesEvaluation(w.containments[id], m, l.actor, LeaseAction(m.ref));
    LeaseGuardIsRadius(w.containments[id], m, l, missions);
  }

  lemma BlockedExpansionInRadius(w: World, missions: seq<Mission>, eid: string, now: Time)
    requires Inv(w) && SnapshotOf(w, missions) && eid in w.expansions
    requires var e := w.expansions[eid]; Contained(w.containments, w.missions[e.missionRef], e.requester, e.action, now)
    ensures var e := w.expansions[eid];
            exists id <- w.containments :: InForce(w.containments[id], now) &&
              (|| MatchesExpansion(w.containments[id], e, missions)
               || (w.containments[id].target == MissionTarget && w.containments[id].targetID == w.missions[e.missionRef].id))
  {
    var e := w.expansions[eid];
    assert ExpansionOk(w.missions, eid, e);
    var m := w.missions[e.missionRef];
    var id :| id in w.containments && InForce(w.containments[id], now)
              && MatchesEvaluation(w.containments[id], m, e.requester, e.action);
    ExpansionGuardIsRadius(w.containments[id], m, e, missions);
  }
}
