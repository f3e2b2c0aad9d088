/** Evaluate and Resume as functions of the store's contents, and what an allowing answer means. */
module Evaluation {
  import opened Basics
  import opened Authority
  import opened Model
  import opened Containment
  import opened Operations
  import opened Runs
  import opened Bundles
  import opened Fields
  import opened Patterns
  import Policy

  /** The condition's own policy for failing: the first condition of that identifier decides. */
  predicate ShouldSuspend(conditions: seq<Condition>, id: string) {
    if conditions == [] then false
    else if conditions[0].id == id then conditions[0].onFailure in {"suspend", "suspend_and_notify", "halt_and_escalate"}
    else ShouldSuspend(conditions[1..], id)
  }

  function RiskAsk(m: Mission, req: Policy.EvaluateRequest, risk: string): ExpansionAsk {
    ExpansionAsk(if req.versionSeen > 0 then req.versionSeen else m.version, req.actor, req.action, risk, AuthorityForAction(req.action))
  }

  // ---------------------------------------------------------------- answers

  function Answer(decision: Policy.Decision, m: Mission, reasons: seq<string>): Policy.Response {
    Policy.Response(decision, m.version, reasons, map[], None)
  }

  function Denial(m: Mission, reason: string): Policy.Response {
    Answer(Policy.Deny, m, [reason])
  }

  function ContainmentDenial(m: Mission, rule: ContainmentRule): Policy.Response {
    Denial(m, "CONTAINMENT_ACTIVE").(constraints := map["containment_rule_id" := rule.id])
  }

  function RiskAnswer(m: Mission, expansionID: string): Policy.Response {
    Answer(Policy.RequireApproval, m, ["ACTION_OUTSIDE_MISSION_SCOPE", "APPROVAL_REQUIRED"])
      .(constraints := map["expansion_request_id" := expansionID], escalation := Some("mission_expansion"))
  }

  /** The mission's own conditions, of a request in scope. */
  predicate ConditionsAssessed(m: Mission, ctx: Context, r: Result<Policy.Response>) {
    match Policy.Check(m.conditions, ctx.verdict)
    case FirstUnsupported(_) => r == Err(Refused("unsupported condition expression"))
    case FirstFalse(c) =>
      r == Ok(if ShouldSuspend(m.conditions, c.id) then Answer(Policy.Suspend, Moved(m, Suspended), ["MISSION_CONDITION_FAILED", c.id])
              else Denial(m, "MISSION_CONDITION_FAILED"))
    case AllTrue => r == Ok(Answer(Policy.Allow, m, ["IN_SCOPE", "MISSION_ACTIVE", "CONDITIONS_TRUE"]))
  }

  predicate Suspends(m: Mission, ctx: Context) {
    var checked := Policy.Check(m.conditions, ctx.verdict);
    checked.FirstFalse? && ShouldSuspend(m.conditions, checked.condition.id)
  }

  /** The action of a caller who may evaluate: outside the scope a risky one asks for expansion. */
  ghost predicate ActionAssessed(
    w: World, ref: string, req: Policy.EvaluateRequest, ctx: Context, risk: string, expansionID: string, now: Time,
    r: Result<Policy.Response>)
    requires ref in w.missions
  {
    var m := w.missions[ref];
    if InScopeFor(m.region, req.action, ctx) then ConditionsAssessed(m, ctx, r)
    else if !ctx.risky then r == Ok(Answer(Policy.RequireExpansion, m, ["ACTION_OUTSIDE_MISSION_SCOPE"]))
    else match RequestExpansion(w, ref, RiskAsk(m, req, risk), expansionID, now)
      case Err(error) => r == Err(error)
      case Ok(_) => r == Ok(RiskAnswer(m, expansionID))
  }

  ghost function AfterAction(
    w: World, ref: string, req: Policy.EvaluateRequest, ctx: Context, risk: string, expansionID: string, now: Time): World
    requires ref in w.missions
  {
    var m := w.missions[ref];
    if InScopeFor(m.region, req.action, ctx) then (if Suspends(m, ctx) then AfterSuspend(w, ref) else w)
    else if ctx.risky then AfterAsk(w, ref, RiskAsk(m, req, risk), expansionID, now)
    else w
  }

  /** What Evaluate answers before the policy bundle has its say. */
  ghost predicate Assessed(
    w: World, ref: string, req: Policy.EvaluateRequest, ctx: Context, risk: string, expansionID: string, now: Time,
    r: Result<Policy.Response>)
  {
    if ref !in w.missions then r == Err(NotFound)
    else
      var m := w.missions[ref];
      if OutsideWindow(m, now) then r == Ok(Denial(Moved(m, Expired), "MISSION_EXPIRED"))
      else if m.state != Active then r == Ok(Denial(m, "MISSION_NOT_ACTIVE"))
      else if !ActorMatches(m, req.actor) then r == Ok(Denial(m, "ACTOR_NOT_AUTHORIZED_FOR_MISSION"))
      else if Contained(w.containments, m, req.actor, req.action, now) then
        exists rule :: Stops(w.containments, rule, m, req.actor, req.action, now) && r == Ok(ContainmentDenial(m, rule))
      else if 0 < req.versionSeen < m.version then r == Ok(Answer(Policy.RequireRefresh, m, ["MISSION_VERSION_STALE"]))
      else ActionAssessed(w, ref, req, ctx, risk, expansionID, now, r)
  }

  /** What it does to the store meanwhile. */
  ghost function AfterAssessment(
    w: World, ref: string, req: Policy.EvaluateRequest, ctx: Context, risk: string, expansionID: string, now: Time): World
  {
    if ref !in w.missions then w
    else
      var m := w.missions[ref];
      if OutsideWindow(m, now) then AfterExpire(w, ref, now)
      else if !Usable(m, req.actor, req.versionSeen, now) || Contained(w.containments, m, req.actor, req.action, now) then w
      else AfterAction(w, ref, req, ctx, risk, expansionID, now)
  }

  /** The condition results an evaluation records: those of a request that got as far. */
  ghost function AssessedConditions(
    w: World, ref: string, req: Policy.EvaluateRequest, ctx: Context, now: Time): seq<Policy.ConditionResult>
  {
    if && ref in w.missions && Usable(w.missions[ref], req.actor, req.versionSeen, now)
       && !Contained(w.containments, w.missions[ref], req.actor, req.action, now)
       && InScopeFor(w.missions[ref].region, req.action, ctx)
    then Policy.Evidence(w.missions[ref].conditions, ctx.verdict)
    else []
  }

  // ---------------------------------------------------------------- policy and evidence

  const DEFAULT_POLICY_VERSION := "mission-policy/v1"

  function BundleOf(b: StoredBundle): Policy.Bundle {
    Policy.Bundle(b.id, b.version, b.rules)
  }

  /** What the policies found: the bundle in use, the answer it leaves, the results of its rules. */
  datatype Finding = Finding(used: Option<StoredBundle>, answer: Result<Policy.Response>, results: seq<Policy.RuleResult>)

  /** activePolicyEvaluation: the bundle in use for the mission's tenant, if there is one, has its
      say on the answer. */
  ghost predicate Finalized(bs: StoredBundles, m: Mission, req: Policy.EvaluateRequest, base: Policy.Response, ctx: Context, f: Finding) {
    && InUse(bs, m.tenant, f.used)
    && if f.used.None? || !Policy.MayRestrict(base.decision) then f.answer == Ok(base) && f.results == []
       else exists sorted ::
              && IsSorting(Policy.RuleLess, f.used.value.rules, sorted)
              && Policy.FirstApplicable(BundleOf(f.used.value), sorted, m, req, base, ctx.ruleVerdict, f.answer, f.results)
  }

  /** The evidence of an answer. */
  function EvidenceOf(
    id: string, m: Mission, req: Policy.EvaluateRequest, used: Option<StoredBundle>, answer: Policy.Response,
    conditions: seq<Policy.ConditionResult>, results: seq<Policy.RuleResult>): Policy.EvaluationEvidence
  {
    Policy.EvaluationEvidence(
      id, m.ref, answer.version, m.tenant,
      if used.None? || used.value.version == "" then DEFAULT_POLICY_VERSION else used.value.version,
      if used.None? then "" else used.value.id,
      req.actor, req.action, answer.decision, answer.reasons, conditions, results)
  }

  /** The evidence is of this mission, caller and action, and says what was answered and why. */
  lemma EvidenceInFields(
    id: string, m: Mission, req: Policy.EvaluateRequest, used: Option<StoredBundle>, answer: Policy.Response,
    conditions: seq<Policy.ConditionResult>, results: seq<Policy.RuleResult>)
    ensures var e := EvidenceOf(id, m, req, used, answer, conditions, results);
            && e.id == id && e.missionRef == m.ref && e.version == answer.version && e.tenant == m.tenant
            && e.actor == req.actor && e.action == req.action && e.decision == answer.decision && e.reasons == answer.reasons
            && e.conditions == conditions && e.rules == results
            && (used.Some? ==> e.bundleID == used.value.id && (used.value.version != "" ==> e.policyVersion == used.value.version))
            && (used.None? ==> e.bundleID == "" && e.policyVersion == "mission-policy/v1")
  {
  }

  /** What Resume answers. */
  ghost predicate Resumed(w: World, ref: string, versionSeen: int, actor: Actor, now: Time, r: Result<Policy.Response>) {
    if ref !in w.missions then r == Err(NotFound)
    else
      var m := w.missions[ref];
      var resume := MissionAction("resume", m.ref);
      if OutsideWindow(m, now) then r == Ok(Denial(Moved(m, Expired), "MISSION_EXPIRED"))
      else if m.state != Active then r == Ok(Denial(m, "MISSION_NOT_ACTIVE"))
      else if !ActorMatches(m, actor) then r == Ok(Denial(m, "ACTOR_NOT_AUTHORIZED_FOR_MISSION"))
      else if Contained(w.containments, m, actor, resume, now) then
        exists rule :: Stops(w.containments, rule, m, actor, resume, now) && r == Ok(ContainmentDenial(m, rule))
      else if 0 < versionSeen < m.version then r == Ok(Answer(Policy.RequireRefresh, m, ["MISSION_VERSION_STALE"]))
      else r == Ok(Answer(Policy.Allow, m, ["MISSION_ACTIVE", "ACTOR_AUTHORIZED"]))
  }

  // ---------------------------------------------------------------- what they mean

  /** All that an allowing answer promises about the mission it was given for, in the fields. */
  ghost predicate Authorized(w: World, ref: string, req: Policy.EvaluateRequest, ctx: Context, now: Time) {
    && ref in w.missions
    && var m, a := w.missions[ref], req.action;
       && m.state == Active && m.notBefore <= now && (m.expiresAt == 0 || now <= m.expiresAt)
       && req.actor.instanceID != "" && req.actor.instanceID == m.agent.instanceID
       && req.actor.clientID != "" && req.actor.clientID == m.agent.clientID
       && (m.agent.thumbprint == "" || req.actor.thumbprint == m.agent.thumbprint)
       && (req.versionSeen <= 0 || m.version <= req.versionSeen)
       && (forall id <- w.containments :: !RuleStops(w.containments[id], m, req.actor, a, now))
       && "*" !in m.region.forbidden && a.operation !in m.region.forbidden && a.name !in m.region.forbidden
       && (exists g <- m.region.grants ::
             && (g.typ == "*" || g.typ == "" || g.typ == a.resource.typ) && IdMatches(g.id, a.resource.id)
             && ("*" in g.actions || a.operation in g.actions)
             && (g.constraints.Some? ==> forall key <- g.constraints.value :: ctx.meets(key, g.constraints.value[key])))
       && forall c <- m.conditions :: ctx.verdict(c.expression) == Holds
  }

  /** Before any bundle, the answer allows exactly when the action is authorized. */
  lemma AllowedIffAuthorized(
    w: World, ref: string, req: Policy.EvaluateRequest, ctx: Context, risk: string, expansionID: string, now: Time,
    r: Result<Policy.Response>)
    requires Assessed(w, ref, req, ctx, risk, expansionID, now, r)
    ensures r.Ok? && r.value.decision in {Policy.Allow, Policy.AllowWithConstraints} <==> Authorized(w, ref, req, ctx, now)
  {
    if ref in w.missions {
      var m := w.missions[ref];
      Policy.AllTrueMeansAll(m.conditions, ctx.verdict);
      UsableInFields(m, req.actor, req.versionSeen, now);
      ContainedInFields(w.containments, m, req.actor, req.action, now);
      ScopeForInFields(m.region, req.action, ctx);
    }
  }

  /** The bundle in use never makes the answer more permissive, and decisions it may not restrict
      it leaves alone. */
  lemma FinalizedStricter(bs: StoredBundles, m: Mission, req: Policy.EvaluateRequest, base: Policy.Response, ctx: Context, f: Finding)
    requires Finalized(bs, m, req, base, ctx, f)
    ensures f.answer.Ok? ==> Policy.Strictness(base.decision) <= Policy.Strictness(f.answer.value.decision)
    ensures !Policy.MayRestrict(base.decision) ==> f.answer == Ok(base)
  {
    if f.used.Some? && Policy.MayRestrict(base.decision) {
      var sorted :| && IsSorting(Policy.RuleLess, f.used.value.rules, sorted)
                    && Policy.FirstApplicable(BundleOf(f.used.value), sorted, m, req, base, ctx.ruleVerdict, f.answer, f.results);
      Policy.NeverMorePermissive(BundleOf(f.used.value), sorted, m, req, base, ctx.ruleVerdict, f.answer, f.results);
    }
  }

  /** Whatever bundles are stored, under the one in use for the mission's tenant a final allowing
      answer is given only where the action is authorized. */
  lemma FinalAllowIsAuthorized(
    w: World, ref: string, req: Policy.EvaluateRequest, ctx: Context, risk: string, expansionID: string, now: Time,
    base: Result<Policy.Response>, bs: StoredBundles, m: Mission, f: Finding)
    requires Assessed(w, ref, req, ctx, risk, expansionID, now, base) && base.Ok?
    requires Finalized(bs, m, req, base.value, ctx, f)
    ensures f.answer.Ok? && f.answer.value.decision in {Policy.Allow, Policy.AllowWithConstraints} ==> Authorized(w, ref, req, ctx, now)
  {
    FinalizedStricter(bs, m, req, base.value, ctx, f);
    AllowedIffAuthorized(w, ref, req, ctx, risk, expansionID, now, base);
  }

  /** Where rule keys are distinct, the stored bundles decide the finding: neither the order in
      which the map yields bundles nor that in which a bundle lists rules makes a difference. */
  lemma FindingUnique(bs: StoredBundles, m: Mission, req: Policy.EvaluateRequest, base: Policy.Response, ctx: Context, f: Finding, g: Finding)
    requires Finalized(bs, m, req, base, ctx, f) && Finalized(bs, m, req, base, ctx, g)
    requires forall id <- bs :: Policy.DistinctKeys(bs[id].rules)
    ensures f == g
  {
    InUseUnique(bs, m.tenant, f.used, g.used);
    if f.used.Some? && Policy.MayRestrict(base.decision) {
      var b := BundleOf(f.used.value);
      var s1 :| IsSorting(Policy.RuleLess, b.rules, s1)
                && Policy.FirstApplicable(b, s1, m, req, base, ctx.ruleVerdict, f.answer, f.results);
      var s2 :| IsSorting(Policy.RuleLess, b.rules, s2)
                && Policy.FirstApplicable(b, s2, m, req, base, ctx.ruleVerdict, g.answer, g.results);
      Policy.OrderIrrelevant(b, b, m, req, base, ctx.ruleVerdict, s1, f.answer, f.results, s2, g.answer, g.results);
    }
  }

  /** Resumption is allowed exactly to the bound actor of an active mission in its window, at a
      version that is not stale, where no rule in force matches; a stale version alone must be
      refreshed. */
  lemma ResumedInFields(w: World, ref: string, versionSeen: int, actor: Actor, now: Time, r: Result<Policy.Response>)
    requires Resumed(w, ref, versionSeen, actor, now, r)
    ensures r.Ok? <==> ref in w.missions
    ensures r.Ok? ==>
              var m := w.missions[ref];
              var resume := Action("mission", "resume", Resource("mission", m.ref), "resume");
              var free :=
                && m.state == Active && InWindow(m, now) && ByItsAgent(m, actor)
                && forall id <- w.containments :: !RuleStops(w.containments[id], m, actor, resume, now);
              && (r.value.decision == Policy.Allow <==> free && (versionSeen <= 0 || m.version <= versionSeen))
              && (r.value.decision == Policy.RequireRefresh <==> free && 0 < versionSeen < m.version)
              && (r.value.decision == Policy.Deny <==> !free)
  {
    if ref in w.missions {
      var m := w.missions[ref];
      UsableInFields(m, actor, versionSeen, now);
      ContainedInFields(w.containments, m, actor, MissionAction("resume", m.ref), now);
    }
  }

  /** What must hold before the action itself is looked at. */
  ghost predicate Heard(w: World, ref: string, req: Policy.EvaluateRequest, now: Time) {
    && ref in w.missions
    && var m := w.missions[ref];
       && m.state == Active && InWindow(m, now) && ByItsAgent(m, req.actor)
       && forall id <- w.containments :: !RuleStops(w.containments[id], m, req.actor, req.action, now)
  }

  /** The first condition that does not hold. */
  ghost predicate FirstUnmet(conditions: seq<Condition>, verdict: string -> Verdict, i: nat) {
    i < |conditions| && verdict(conditions[i].expression) != Holds && forall k :: 0 <= k < i ==> verdict(conditions[k].expression) == Holds
  }

  lemma {:induction false} CheckInFields(conditions: seq<Condition>, verdict: string -> Verdict, i: nat)
    requires FirstUnmet(conditions, verdict, i)
    ensures Policy.Check(conditions, verdict) ==
            if verdict(conditions[i].expression) == Fails then Policy.FirstFalse(conditions[i]) else Policy.FirstUnsupported(conditions[i])
  {
    if i == 0 {
    } else {
      assert forall k :: 0 <= k < |conditions[1..]| ==> conditions[1..][k] == conditions[k + 1];
      CheckInFields(conditions[1..], verdict, i - 1);
    }
  }

  /** The first condition of that identifier asks for suspension. */
  ghost predicate AsksSuspension(conditions: seq<Condition>, id: string) {
    exists i :: && 0 <= i < |conditions| && conditions[i].id == id
                && (conditions[i].onFailure == "suspend" || conditions[i].onFailure == "suspend_and_notify" || conditions[i].onFailure == "halt_and_escalate")
                && forall k :: 0 <= k < i ==> conditions[k].id != id
  }

  lemma {:induction false} SuspensionInFields(conditions: seq<Condition>, id: string)
    ensures ShouldSuspend(conditions, id) <==> AsksSuspension(conditions, id)
  {
    if conditions == [] {
    } else if conditions[0].id != id {
      SuspensionInFields(conditions[1..], id);
      if AsksSuspension(conditions[1..], id) {
        var i :| && 0 <= i < |conditions[1..]| && conditions[1..][i].id == id
                 && (conditions[1..][i].onFailure == "suspend" || conditions[1..][i].onFailure == "suspend_and_notify"
                     || conditions[1..][i].onFailure == "halt_and_escalate")
                 && forall k :: 0 <= k < i ==> conditions[1..][k].id != id;
        assert conditions[i + 1].id == id && forall k :: 0 < k < i + 1 ==> conditions[k] == conditions[1..][k - 1];
      }
      if AsksSuspension(conditions, id) {
        var i :| && 0 <= i < |conditions| && conditions[i].id == id
                 && (conditions[i].onFailure == "suspend" || conditions[i].onFailure == "suspend_and_notify"
                     || conditions[i].onFailure == "halt_and_escalate")
                 && forall k :: 0 <= k < i ==> conditions[k].id != id;
        assert conditions[1..][i - 1].id == id && forall k :: 0 <= k < i - 1 ==> conditions[1..][k] == conditions[k + 1];
      }
    }
  }

  /** Which answer is given when, before any bundle: the caller not heard is denied, a stale one
      must refresh, an action outside the scope needs expansion, or if risky approval. */
  lemma CallerAnswers(
    w: World, ref: string, req: Policy.EvaluateRequest, ctx: Context, risk: string, expansionID: string, now: Time,
    r: Result<Policy.Response>)
    requires Assessed(w, ref, req, ctx, risk, expansionID, now, r) && ref in w.missions
    ensures var m := w.missions[ref];
            var stale, scoped := 0 < req.versionSeen < m.version, InScopeFor(m.region, req.action, ctx);
            if !Heard(w, ref, req, now) then r.Ok? && r.value.decision == Policy.Deny
            else if stale then r.Ok? && r.value.decision == Policy.RequireRefresh
            else if scoped then ConditionsAssessed(m, ctx, r)
            else if ctx.risky then r.Ok? ==> r.value.decision == Policy.RequireApproval
            else r.Ok? && r.value.decision == Policy.RequireExpansion
  {
    var m := w.missions[ref];
    UsableInFields(m, req.actor, req.versionSeen, now);
    ContainedInFields(w.containments, m, req.actor, req.action, now);
  }

  /** And in scope the first condition that does not hold denies, suspends, or cannot be told. */
  lemma ConditionAnswers(m: Mission, ctx: Context, r: Result<Policy.Response>, i: nat)
    requires ConditionsAssessed(m, ctx, r) && FirstUnmet(m.conditions, ctx.verdict, i)
    ensures if ctx.verdict(m.conditions[i].expression) != Fails then r.Err?
            else r.Ok? && r.value.decision == if AsksSuspension(m.conditions, m.conditions[i].id) then Policy.Suspend else Policy.Deny
  {
    CheckInFields(m.conditions, ctx.verdict, i);
    SuspensionInFields(m.conditions, m.conditions[i].id);
  }

  /** Where approval is required, the action's own authority has been asked for. */
  lemma ApprovalIsAsked(
    w: World, ref: string, req: Policy.EvaluateRequest, ctx: Context, risk: string, expansionID: string, now: Time,
    r: Result<Policy.Response>)
    requires ref in w.missions && ActionAssessed(w, ref, req, ctx, risk, expansionID, now, r)
    requires r.Ok? && r.value.decision == Policy.RequireApproval
    ensures var seen := if req.versionSeen > 0 then req.versionSeen else w.missions[ref].version;
            var ask := ExpansionAsk(seen, req.actor, req.action, risk, AuthorityForAction(req.action));
            && ctx.risky && !InScopeFor(w.missions[ref].region, req.action, ctx)
            && RequestExpansion(w, ref, ask, expansionID, now).Ok?
            && AfterAction(w, ref, req, ctx, risk, expansionID, now) == AfterAsk(w, ref, ask, expansionID, now)
  {
  }

  /** The mission's conditions are recorded for a request that is heard, current and in scope, and for
      no other. */
  lemma ConditionsRecorded(w: World, ref: string, req: Policy.EvaluateRequest, ctx: Context, now: Time)
    ensures AssessedConditions(w, ref, req, ctx, now) ==
            if && Heard(w, ref, req, now) && (req.versionSeen <= 0 || w.missions[ref].version <= req.versionSeen)
               && var m, a := w.missions[ref], req.action;
                  && "*" !in m.region.forbidden && a.operation !in m.region.forbidden && a.name !in m.region.forbidden
                  && exists g <- m.region.grants ::
                       && (g.typ == "*" || g.typ == "" || g.typ == a.resource.typ) && IdMatches(g.id, a.resource.id)
                       && ("*" in g.actions || a.operation in g.actions)
                       && (g.constraints.Some? ==> forall key <- g.constraints.value :: ctx.meets(key, g.constraints.value[key]))
            then Policy.Evidence(w.missions[ref].conditions, ctx.verdict)
            else []
  {
    if ref in w.missions {
      var m := w.missions[ref];
      UsableInFields(m, req.actor, req.versionSeen, now);
      ContainedInFields(w.containments, m, req.actor, req.action, now);
      ScopeForInFields(m.region, req.action, ctx);
    }
  }

  lemma AskKeepsMissions(w: World, ref: string, ask: ExpansionAsk, id: string, now: Time)
    ensures AfterAsk(w, ref, ask, id, now).missions == w.missions
  {
  }

  lemma ActionStore(
    w: World, ref: string, req: Policy.EvaluateRequest, ctx: Context, risk: string, expansionID: string, now: Time)
    requires ref in w.missions && w.missions[ref].state == Active
    ensures var m := w.missions[ref];
            AfterAction(w, ref, req, ctx, risk, expansionID, now).missions ==
            if InScopeFor(m.region, req.action, ctx) && Suspends(m, ctx)
            then w.missions[ref := m.(state := Suspended, version := m.version + 1)] else w.missions
  {
    AskKeepsMissions(w, ref, RiskAsk(w.missions[ref], req, risk), expansionID, now);
  }

  /** An active mission is suspended exactly by the answer that says so, expires exactly outside its
      window, and else stays; and so does every other mission. */
  lemma AnswersMatchStore(
    w: World, ref: string, req: Policy.EvaluateRequest, ctx: Context, risk: string, expansionID: string, now: Time,
    r: Result<Policy.Response>)
    requires Assessed(w, ref, req, ctx, risk, expansionID, now, r) && ref in w.missions && w.missions[ref].state == Active
    ensures var m := w.missions[ref];
            AfterAssessment(w, ref, req, ctx, risk, expansionID, now).missions ==
            if r.Ok? && r.value.decision == Policy.Suspend then w.missions[ref := m.(state := Suspended, version := m.version + 1)]
            else if !InWindow(m, now) then w.missions[ref := m.(state := Expired, version := m.version + 1)]
            else w.missions
  {
    var m := w.missions[ref];
    UsableInFields(m, req.actor, req.versionSeen, now);
    ActionStore(w, ref, req, ctx, risk, expansionID, now);
    if OutsideWindow(m, now) {
      assert AfterAssessment(w, ref, req, ctx, risk, expansionID, now).missions == w.missions[ref := Moved(m, Expired)];
    } else if !Usable(m, req.actor, req.versionSeen, now) || Contained(w.containments, m, req.actor, req.action, now) {
      assert AfterAssessment(w, ref, req, ctx, risk, expansionID, now) == w;
    } else {
      assert AfterAssessment(w, ref, req, ctx, risk, expansionID, now) == AfterAction(w, ref, req, ctx, risk, expansionID, now);
    }
  }

  /** Every mission in the radius of a rule in force is denied evaluation
      and resumption, whoever asks and for whatever action. */
  lemma RadiusBlocksEvaluation(
    w: World, id: string, ref: string, req: Policy.EvaluateRequest, ctx: Context, risk: string, expansionID: string, now: Time,
    r: Result<Policy.Response>)
    requires id in w.containments && InForce(w.containments[id], now)
    requires ref in w.missions && MatchesMission(w.containments[id], w.missions[ref])
    requires Assessed(w, ref, req, ctx, risk, expansionID, now, r)
    ensures r.Ok? && r.value.decision == Policy.Deny
    ensures forall seen, actor, resumed :: Resumed(w, ref, seen, actor, now, resumed) ==> resumed.Ok? && resumed.value.decision == Policy.Deny
  {
    forall a: Actor, x: Action
      ensures Contained(w.containments, w.missions[ref], a, x, now)
    {
      MissionInRadius(w.containments[id], w.missions[ref], a, x);
    }
  }

  // ---------------------------------------------------------------- what they do to the store

  lemma ExpireIsRun(w: World, ref: string, now: Time)
    ensures AfterExpire(w, ref, now) == Run(w, [Expire(ref, now)])
  {
    RunOne(w, Expire(ref, now));
  }

  lemma SuspendIsRun(w: World, ref: string)
    ensures AfterSuspend(w, ref) == Run(w, [SuspendMission(ref)])
  {
    RunOne(w, SuspendMission(ref));
  }

  lemma AskIsRun(w: World, ref: string, ask: ExpansionAsk, id: string, now: Time)
    ensures AfterAsk(w, ref, ask, id, now) == Run(w, [AskExpansion(ref, ask, id, now)])
  {
    RunOne(w, AskExpansion(ref, ask, id, now));
  }

  /** Evaluations are among the operations a run is made of: whatever one does to the store is
      at most one of them. */
  lemma EvaluationIsRun(w: World, ref: string, req: Policy.EvaluateRequest, ctx: Context, risk: string, expansionID: string, now: Time)
    ensures var w' := AfterAssessment(w, ref, req, ctx, risk, expansionID, now);
            w' == w || exists op :: w' == Run(w, [op]) && (op.Expire? || op.AskExpansion? || op.SuspendMission?)
  {
    if ref in w.missions {
      ExpireIsRun(w, ref, now);
      AskIsRun(w, ref, RiskAsk(w.missions[ref], req, risk), expansionID, now);
      SuspendIsRun(w, ref);
    }
  }

  lemma ResumptionExpires(w: World, ref: string, now: Time)
    requires ref in w.missions && Live(w.missions[ref])
    ensures var ms := AfterExpire(w, ref, now).missions;
            ref in ms && (ms[ref].state == Expired <==> OutsideWindow(w.missions[ref], now))
  {
    var m := w.missions[ref];
    assert AfterExpire(w, ref, now).missions == if OutsideWindow(m, now) then w.missions[ref := Moved(m, Expired)] else w.missions;
  }

  lemma ActionNeverExpires(
    w: World, ref: string, req: Policy.EvaluateRequest, ctx: Context, risk: string, expansionID: string, now: Time)
    requires ref in w.missions && Live(w.missions[ref])
    ensures var ms := AfterAction(w, ref, req, ctx, risk, expansionID, now).missions; ref in ms && ms[ref].state != Expired
  {
    var m := w.missions[ref];
    AskKeepsMissions(w, ref, RiskAsk(m, req, risk), expansionID, now);
    var ms := AfterAction(w, ref, req, ctx, risk, expansionID, now).missions;
    assert ms == w.missions || ms == w.missions[ref := Moved(m, Suspended)];
  }

  lemma EvaluationExpires(
    w: World, ref: string, req: Policy.EvaluateRequest, ctx: Context, risk: string, expansionID: string, now: Time)
    requires ref in w.missions && Live(w.missions[ref])
    ensures var ms := AfterAssessment(w, ref, req, ctx, risk, expansionID, now).missions;
            ref in ms && (ms[ref].state == Expired <==> OutsideWindow(w.missions[ref], now))
  {
    ResumptionExpires(w, ref, now);
    ActionNeverExpires(w, ref, req, ctx, risk, expansionID, now);
  }

  /** The window test takes the time before a mission's start for the time after its end: an
      evaluation or a resumption expires a live mission if and only if the mission has not started
      yet, or its end, where one is set, has passed. */
  lemma WindowDecidesExpiry(
    w: World, ref: string, req: Policy.EvaluateRequest, ctx: Context, risk: string, expansionID: string, now: Time)
    requires ref in w.missions && Live(w.missions[ref])
    ensures var m := w.missions[ref];
            var evaluated := AfterAssessment(w, ref, req, ctx, risk, expansionID, now).missions;
            var resumed := AfterExpire(w, ref, now).missions;
            && ref in evaluated && ref in resumed
            && (evaluated[ref].state == Expired <==> now < m.notBefore || (m.expiresAt != 0 && m.expiresAt < now))
            && (resumed[ref].state == Expired <==> now < m.notBefore || (m.expiresAt != 0 && m.expiresAt < now))
  {
    EvaluationExpires(w, ref, req, ctx, risk, expansionID, now);
    ResumptionExpires(w, ref, now);
  }

  /** And that is final: no run ever changes an expired mission. */
  lemma ExpiryIsFinal(
    w: World, ref: string, req: Policy.EvaluateRequest, ctx: Context, risk: string, expansionID: string, now: Time, ops: seq<Op>)
    requires Inv(w) && ref in w.missions && Live(w.missions[ref])
    requires now < w.missions[ref].notBefore || (w.missions[ref].expiresAt != 0 && w.missions[ref].expiresAt < now)
    ensures var evaluated := Run(AfterAssessment(w, ref, req, ctx, risk, expansionID, now), ops).missions;
            var resumed := Run(AfterExpire(w, ref, now), ops).missions;
            && ref in evaluated && evaluated[ref] == Moved(w.missions[ref], Expired)
            && ref in resumed && resumed[ref] == Moved(w.missions[ref], Expired)
  {
    var w1 := AfterExpire(w, ref, now);
    ExpireKeeps(w, ref, now);
    RunKeeps(w1, ops);
    assert Evolved(w1.missions[ref], Run(w1, ops).missions[ref]);
  }
}
