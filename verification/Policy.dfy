/** The first-applicable policy engine of policy.go. */
module Policy {
  import opened Basics
  import opened Patterns
  import opened Authority
  import opened Model

  datatype Decision =
    | Allow | AllowWithConstraints | RequireExpansion | RequireApproval | Deny | RequireRefresh | Suspend

  datatype Effect = EffectAllow | EffectAllowWithConstraints | EffectRequireExpansion | EffectRequireApproval
                  | EffectDeny | Unsupported(name: string)

  datatype Match = Match(
    actionTypes: seq<string>, operations: seq<string>, resourceTypes: seq<string>, resourceIDs: seq<string>,
    clientIDs: seq<string>, subjects: seq<string>, baseDecisions: seq<Decision>)

  datatype Rule = Rule(
    id: string, priority: int, disabled: bool, effect: Effect, match': Match, conditions: seq<Condition>,
    reasons: seq<string>, constraints: Constraints)

  datatype Bundle = Bundle(id: string, version: string, rules: seq<Rule>)

  datatype Response = Response(
    decision: Decision, version: int, reasons: seq<string>, constraints: Constraints, escalation: Option<string>)

  datatype ConditionResult = ConditionResult(id: string, result: bool, unsupported: bool)

  datatype RuleResult = RuleResult(
    id: string, effect: Effect, matched: bool, applied: bool, reasons: seq<string>, conditions: seq<ConditionResult>)

  datatype EvaluateRequest = EvaluateRequest(versionSeen: int, actor: Actor, action: Action)

  // ---------------------------------------------------------------- conditions

  /** evaluateConditionsWithEvidence: how many conditions were looked at, and how it ended. */
  datatype Checked = AllTrue | FirstFalse(condition: Condition) | FirstUnsupported(condition: Condition)

  function ResultOf(c: Condition, verdict: string -> Verdict): ConditionResult {
    ConditionResult(c.id, verdict(c.expression) == Holds, verdict(c.expression) == Verdict.Unsupported)
  }

  function Check(conditions: seq<Condition>, verdict: string -> Verdict): Checked {
    if conditions == [] then AllTrue
    else match verdict(conditions[0].expression)
      case Holds => Check(conditions[1..], verdict)
      case Fails => FirstFalse(conditions[0])
      case Unsupported => FirstUnsupported(conditions[0])
  }

  function Evidence(conditions: seq<Condition>, verdict: string -> Verdict): seq<ConditionResult> {
    if conditions == [] then []
    else [ResultOf(conditions[0], verdict)]
         + if verdict(conditions[0].expression) == Holds then Evidence(conditions[1..], verdict) else []
  }

  method EvaluateConditions(conditions: seq<Condition>, verdict: string -> Verdict)
    returns (outcome: Checked, results: seq<ConditionResult>)
    ensures outcome == Check(conditions, verdict) && results == Evidence(conditions, verdict)
  {
    results := [];
    for i := 0 to |conditions|
      invariant results + Evidence(conditions[i..], verdict) == Evidence(conditions, verdict)
      invariant Check(conditions[i..], verdict) == Check(conditions, verdict)
    {
      assert conditions[i..][1..] == conditions[i + 1..];
      ghost var before, rest := results, Evidence(conditions[i + 1..], verdict);
      results := results + [ResultOf(conditions[i], verdict)];
      assert before + ([ResultOf(conditions[i], verdict)] + rest) == results + rest;
      match verdict(conditions[i].expression) {
        case Unsupported => return FirstUnsupported(conditions[i]), results;
        case Fails => return FirstFalse(conditions[i]), results;
        case Holds =>
      }
    }
    assert conditions[|conditions|..] == [];
    outcome := AllTrue;
  }

  lemma {:induction false} AllTrueMeansAll(conditions: seq<Condition>, verdict: string -> Verdict)
    ensures Check(conditions, verdict) == AllTrue <==> forall c <- conditions :: verdict(c.expression) == Holds
  {
    if conditions == [] {
    } else {
      AllTrueMeansAll(conditions[1..], verdict);
      assert conditions == [conditions[0]] + conditions[1..];
    }
  }

  /** A list of conditions holds only where all of its beginning does. */
  lemma {:induction false} CheckPrefix(first: seq<Condition>, more: seq<Condition>, verdict: string -> Verdict)
    ensures Check(first + more, verdict) == if Check(first, verdict) == AllTrue then Check(more, verdict) else Check(first, verdict)
  {
    if first == [] {
      assert first + more == more;
    } else {
      assert (first + more)[1..] == first[1..] + more;
      CheckPrefix(first[1..], more, verdict);
    }
  }

  // ---------------------------------------------------------------- order

  predicate RuleLess(a: Rule, b: Rule) {
    a.priority < b.priority || (a.priority == b.priority && Less(a.id, b.id))
  }

  lemma RuleOrder()
    ensures StrictWeak(RuleLess)
  {
    forall a, b: Rule
      ensures RuleLess(a, b) ==> !RuleLess(b, a)
    {
      LessTotal(a.id, b.id);
    }
    forall a, b, c: Rule
      ensures !RuleLess(b, a) && !RuleLess(c, b) ==> !RuleLess(c, a)
    {
      LessTotal(a.id, b.id);
      LessTotal(b.id, c.id);
      LessTotal(a.id, c.id);
      if Less(a.id, b.id) && Less(b.id, c.id) {
        LessTransitive(a.id, b.id, c.id);
      }
    }
  }

  // ---------------------------------------------------------------- one rule

  predicate MayRestrict(base: Decision) {
    base in {Allow, AllowWithConstraints, RequireExpansion, RequireApproval}
  }

  predicate CanApply(effect: Effect, base: Decision) {
    match effect
    case EffectDeny => true
    case EffectRequireApproval => true
    case Unsupported(_) => false
    case _ => base == Allow || base == AllowWithConstraints
  }

  predicate RuleMatches(m: Match, mission: Mission, req: EvaluateRequest, base: Decision) {
    && (m.baseDecisions != [] ==> base in m.baseDecisions)
    && (m.actionTypes != [] ==> Contains(m.actionTypes, req.action.kind))
    && (m.operations != [] ==> Contains(m.operations, req.action.operation) || Contains(m.operations, req.action.name))
    && (m.resourceTypes != [] ==> Contains(m.resourceTypes, req.action.resource.typ))
    && (m.resourceIDs != [] ==> exists p <- m.resourceIDs :: IdMatches(p, req.action.resource.id))
    && (m.clientIDs != [] ==> Contains(m.clientIDs, req.actor.clientID) || Contains(m.clientIDs, mission.agent.clientID))
    && (m.subjects != [] ==> Contains(m.subjects, mission.principal.subject))
  }

  function Decided(effect: Effect, base: Decision): Decision {
    match effect
    case EffectAllow => base
    case EffectAllowWithConstraints => AllowWithConstraints
    case EffectRequireExpansion => RequireExpansion
    case EffectRequireApproval => RequireApproval
    case EffectDeny => Deny
    case Unsupported(_) => base
  }

  function Reasons(rule: Rule): seq<string> {
    if rule.reasons != [] then rule.reasons else ["POLICY_RULE_APPLIED", rule.id]
  }

  /** applyPolicyRuleDecision. */
  function Applied(bundle: Bundle, rule: Rule, base: Response): Response {
    var decision := Decided(rule.effect, base.decision);
    Response(
      decision, base.version, base.reasons + Reasons(rule),
      base.constraints + rule.constraints +
      map["policy_bundle_id" := bundle.id, "policy_version" := bundle.version, "policy_rule_id" := rule.id],
      if decision == RequireApproval && base.escalation.None? then Some("policy_approval") else base.escalation)
  }

  /** How one rule fared against the request. */
  datatype Fate = Skipped | Failed | Erred | Idle | Applies

  function FateOf(rule: Rule, mission: Mission, req: EvaluateRequest, base: Decision, verdict: string -> Verdict): Fate {
    if rule.disabled || !RuleMatches(rule.match', mission, req, base) then Skipped
    else match Check(rule.conditions, verdict)
      case FirstUnsupported(_) => Erred
      case FirstFalse(_) => Failed
      case AllTrue => if CanApply(rule.effect, base) then Applies else Idle
  }

  function Record(rule: Rule, fate: Fate, verdict: string -> Verdict): RuleResult {
    RuleResult(
      rule.id, rule.effect, fate == Idle || fate == Applies, fate == Applies,
      if fate == Idle || fate == Applies then Reasons(rule) else [],
      if fate == Skipped then [] else Evidence(rule.conditions, verdict))
  }

  // ---------------------------------------------------------------- the bundle

  /** How many of the sorted rules are looked at: up to the first that applies or errs. */
  function Reach(rules: seq<Rule>, mission: Mission, req: EvaluateRequest, base: Decision, verdict: string -> Verdict): (n: nat)
    ensures n <= |rules|
    ensures forall i :: 0 <= i < n - 1 ==> FateOf(rules[i], mission, req, base, verdict) !in {Applies, Erred}
    ensures n < |rules| ==> n > 0 && FateOf(rules[n - 1], mission, req, base, verdict) in {Applies, Erred}
  {
    if rules == [] then 0
    else if FateOf(rules[0], mission, req, base, verdict) in {Applies, Erred} then 1
    else 1 + Reach(rules[1..], mission, req, base, verdict)
  }

  /** The fate of the last rule looked at, which is the fate of the whole bundle. */
  function Ending(rules: seq<Rule>, mission: Mission, req: EvaluateRequest, base: Decision, verdict: string -> Verdict): Fate {
    var n := Reach(rules, mission, req, base, verdict);
    if n == 0 then Skipped else FateOf(rules[n - 1], mission, req, base, verdict)
  }

  function Records(rules: seq<Rule>, mission: Mission, req: EvaluateRequest, base: Decision, verdict: string -> Verdict): seq<RuleResult> {
    seq(|rules|, i requires 0 <= i < |rules| => Record(rules[i], FateOf(rules[i], mission, req, base, verdict), verdict))
  }

  /** What first-applicable combination of a sorted list answers and records. */
  ghost predicate FirstApplicable(
    bundle: Bundle, sorted: seq<Rule>, mission: Mission, req: EvaluateRequest, base: Response,
    verdict: string -> Verdict, r: Result<Response>, results: seq<RuleResult>)
  {
    var n := Reach(sorted, mission, req, base.decision, verdict);
    var ending := Ending(sorted, mission, req, base.decision, verdict);
    && results == Records(sorted[..n], mission, req, base.decision, verdict)
    && (ending == Erred <==> r.Err?)
    && (r.Err? ==> r.error == Refused("unsupported condition expression"))
    && (r.Ok? ==> r.value == if ending == Applies then Applied(bundle, sorted[n - 1], base) else base)
  }

  /** One turn of the scan: what happens to a rule and what is recorded of it. */
  method EvaluateRule(rule: Rule, mission: Mission, req: EvaluateRequest, base: Decision, verdict: string -> Verdict)
    returns (fate: Fate, result: RuleResult)
    ensures fate == FateOf(rule, mission, req, base, verdict) && result == Record(rule, fate, verdict)
  {
    if rule.disabled || !RuleMatches(rule.match', mission, req, base) {
      return Skipped, RuleResult(rule.id, rule.effect, false, false, [], []);
    }
    var outcome, evidence := EvaluateConditions(rule.conditions, verdict);
    match outcome {
      case FirstUnsupported(_) => return Erred, RuleResult(rule.id, rule.effect, false, false, [], evidence);
      case FirstFalse(_) => return Failed, RuleResult(rule.id, rule.effect, false, false, [], evidence);
      case AllTrue =>
    }
    var applies := CanApply(rule.effect, base);
    return if applies then Applies else Idle, RuleResult(rule.id, rule.effect, true, applies, Reasons(rule), evidence);
  }

  lemma RecordsNext(rules: seq<Rule>, i: nat, mission: Mission, req: EvaluateRequest, base: Decision, verdict: string -> Verdict)
    requires i < |rules|
    ensures Records(rules[..i + 1], mission, req, base, verdict) ==
            Records(rules[..i], mission, req, base, verdict) + [Record(rules[i], FateOf(rules[i], mission, req, base, verdict), verdict)]
  {
  }

  lemma {:induction false} ReachAt(rules: seq<Rule>, i: nat, mission: Mission, req: EvaluateRequest, base: Decision, verdict: string -> Verdict)
    requires i < |rules|
    requires forall k :: 0 <= k < i ==> FateOf(rules[k], mission, req, base, verdict) !in {Applies, Erred}
    ensures FateOf(rules[i], mission, req, base, verdict) in {Applies, Erred} ==> Reach(rules, mission, req, base, verdict) == i + 1
  {
    var n := Reach(rules, mission, req, base, verdict);
    if n > i + 1 {
      assert FateOf(rules[i], mission, req, base, verdict) !in {Applies, Erred};
    }
  }

  lemma ReachAll(rules: seq<Rule>, mission: Mission, req: EvaluateRequest, base: Decision, verdict: string -> Verdict)
    requires forall k :: 0 <= k < |rules| ==> FateOf(rules[k], mission, req, base, verdict) !in {Applies, Erred}
    ensures Reach(rules, mission, req, base, verdict) == |rules|
  {
  }

  method ApplyBundle(bundle: Bundle, mission: Mission, req: EvaluateRequest, base: Response, verdict: string -> Verdict)
    returns (r: Result<Response>, results: seq<RuleResult>)
    ensures !MayRestrict(base.decision) ==> r == Ok(base) && results == []
    ensures MayRestrict(base.decision) ==>
              exists sorted :: IsSorting(RuleLess, bundle.rules, sorted)
                            && FirstApplicable(bundle, sorted, mission, req, base, verdict, r, results)
  {
    if !MayRestrict(base.decision) {
      return Ok(base), [];
    }
    RuleOrder();
    var sorted := Sort(bundle.rules, RuleLess);
    results := [];
    for i := 0 to |sorted|
      invariant results == Records(sorted[..i], mission, req, base.decision, verdict)
      invariant forall k :: 0 <= k < i ==> FateOf(sorted[k], mission, req, base.decision, verdict) !in {Applies, Erred}
    {
      var fate, result := EvaluateRule(sorted[i], mission, req, base.decision, verdict);
      results := results + [result];
      RecordsNext(sorted, i, mission, req, base.decision, verdict);
      if fate == Erred || fate == Applies {
        ReachAt(sorted, i, mission, req, base.decision, verdict);
        r := if fate == Erred then Err(Refused("unsupported condition expression")) else Ok(Applied(bundle, sorted[i], base));
        assert FirstApplicable(bundle, sorted, mission, req, base, verdict, r, results);
        return;
      }
    }
    ReachAll(sorted, mission, req, base.decision, verdict);
    assert sorted[..|sorted|] == sorted;
    r := Ok(base);
    assert FirstApplicable(bundle, sorted, mission, req, base, verdict, r, results);
  }

  // ---------------------------------------------------------------- in the fields

  /** One result for each condition up to the first that does not hold. */
  lemma {:induction false} EvidenceMeans(conditions: seq<Condition>, verdict: string -> Verdict)
    ensures var e := Evidence(conditions, verdict);
            && |e| <= |conditions|
            && (forall i :: 0 <= i < |e| ==>
                  && e[i].id == conditions[i].id
                  && (e[i].result <==> verdict(conditions[i].expression) == Holds)
                  && (e[i].unsupported <==> verdict(conditions[i].expression) == Verdict.Unsupported)
                  && (i < |e| - 1 ==> verdict(conditions[i].expression) == Holds))
            && (|e| < |conditions| ==> |e| > 0 && verdict(conditions[|e| - 1].expression) != Holds)
  {
    if conditions == [] {
    } else {
      EvidenceMeans(conditions[1..], verdict);
    }
  }

  /** What is recorded of a rule. */
  lemma RecordInFields(rule: Rule, mission: Mission, req: EvaluateRequest, base: Decision, verdict: string -> Verdict)
    ensures var r := Record(rule, FateOf(rule, mission, req, base, verdict), verdict);
            var looked := !rule.disabled && RuleMatches(rule.match', mission, req, base);
            && r.id == rule.id && r.effect == rule.effect
            && (r.matched <==> looked && forall c <- rule.conditions :: verdict(c.expression) == Holds)
            && (r.applied ==> r.matched)
            && r.reasons == (if !r.matched then [] else if rule.reasons == [] then ["POLICY_RULE_APPLIED", rule.id] else rule.reasons)
            && r.conditions == (if looked then Evidence(rule.conditions, verdict) else [])
  {
    AllTrueMeansAll(rule.conditions, verdict);
  }

  predicate OpenOr(values: seq<string>, want: string) {
    values == [] || "*" in values || want in values
  }

  /** What a rule names is open or the request's own; operations may be named by action name, and
      clients by the actor or by the mission's agent. */
  lemma RuleMatchesInFields(m: Match, mission: Mission, req: EvaluateRequest, base: Decision)
    ensures RuleMatches(m, mission, req, base) <==>
            && (m.baseDecisions == [] || base in m.baseDecisions)
            && OpenOr(m.actionTypes, req.action.kind)
            && (OpenOr(m.operations, req.action.operation) || OpenOr(m.operations, req.action.name))
            && OpenOr(m.resourceTypes, req.action.resource.typ)
            && (m.resourceIDs == [] || exists p <- m.resourceIDs :: IdMatches(p, req.action.resource.id))
            && (OpenOr(m.clientIDs, req.actor.clientID) || OpenOr(m.clientIDs, mission.agent.clientID))
            && OpenOr(m.subjects, mission.principal.subject)
  {
  }

  /** The rule is enabled, matches, all its conditions hold, and its effect is none that would
      loosen the decision or leave it as it is. */
  ghost predicate Applicable(rule: Rule, mission: Mission, req: EvaluateRequest, base: Decision, verdict: string -> Verdict) {
    && !rule.disabled && RuleMatches(rule.match', mission, req, base)
    && (forall c <- rule.conditions :: verdict(c.expression) == Holds)
    && (|| rule.effect == EffectDeny || rule.effect == EffectRequireApproval
        || ((rule.effect == EffectAllow || rule.effect == EffectAllowWithConstraints || rule.effect == EffectRequireExpansion)
            && (base == Allow || base == AllowWithConstraints)))
  }

  lemma ApplicableMeans(rule: Rule, mission: Mission, req: EvaluateRequest, base: Decision, verdict: string -> Verdict)
    ensures Applicable(rule, mission, req, base, verdict) <==> FateOf(rule, mission, req, base, verdict) == Applies
  {
    AllTrueMeansAll(rule.conditions, verdict);
  }

  /** Sorted rules stand by priority, the smaller first, and under one priority by identifier. */
  lemma SortedByPriority(rules: seq<Rule>, sorted: seq<Rule>, i: nat, j: nat)
    requires IsSorting(RuleLess, rules, sorted) && i < j < |sorted|
    ensures sorted[i].priority < sorted[j].priority || (sorted[i].priority == sorted[j].priority && !Less(sorted[j].id, sorted[i].id))
  {
    assert !RuleLess(sorted[j], sorted[i]);
  }

  /** What the applied rule makes of the answer: each effect its decision, and the rest added. */
  lemma AppliedInFields(bundle: Bundle, rule: Rule, base: Response)
    ensures var r := Applied(bundle, rule, base);
            && r.decision == (match rule.effect
                              case EffectAllowWithConstraints => AllowWithConstraints
                              case EffectRequireExpansion => RequireExpansion
                              case EffectRequireApproval => RequireApproval
                              case EffectDeny => Deny
                              case _ => base.decision)
            && r.version == base.version
            && r.reasons == base.reasons + (if rule.reasons == [] then ["POLICY_RULE_APPLIED", rule.id] else rule.reasons)
            && r.constraints.Keys == base.constraints.Keys + rule.constraints.Keys + {"policy_bundle_id", "policy_version", "policy_rule_id"}
            && (forall key <- r.constraints :: r.constraints[key] ==
                  if key == "policy_bundle_id" then bundle.id else if key == "policy_version" then bundle.version
                  else if key == "policy_rule_id" then rule.id
                  else if key in rule.constraints then rule.constraints[key] else base.constraints[key])
            && r.escalation == (if base.escalation.Some? then base.escalation
                                else if r.decision == RequireApproval then Some("policy_approval")
                                else None)
  {
  }

  /** The first applicable rule decides, and where there is none the answer stands. */
  lemma FirstApplicableDecides(
    bundle: Bundle, sorted: seq<Rule>, mission: Mission, req: EvaluateRequest, base: Response,
    verdict: string -> Verdict, r: Result<Response>, results: seq<RuleResult>)
    requires FirstApplicable(bundle, sorted, mission, req, base, verdict, r, results) && r.Ok?
    ensures forall i: nat :: i < |sorted| && Applicable(sorted[i], mission, req, base.decision, verdict) ==>
              || r.value == Applied(bundle, sorted[i], base)
              || exists k :: 0 <= k < i && Applicable(sorted[k], mission, req, base.decision, verdict)
    ensures (forall i :: 0 <= i < |sorted| ==> !Applicable(sorted[i], mission, req, base.decision, verdict)) ==> r.value == base
  {
    forall i | 0 <= i < |sorted|
      ensures Applicable(sorted[i], mission, req, base.decision, verdict) <==> FateOf(sorted[i], mission, req, base.decision, verdict) == Applies
    {
      ApplicableMeans(sorted[i], mission, req, base.decision, verdict);
    }
    var n := Reach(sorted, mission, req, base.decision, verdict);
    assert n > 0 ==> n - 1 < |sorted|;
  }

  // ---------------------------------------------------------------- what it guarantees

  function Strictness(d: Decision): nat {
    match d
    case Allow => 0
    case AllowWithConstraints => 1
    case RequireExpansion => 2
    case RequireApproval => 3
    case _ => 4
  }

  /** No bundle makes a decision more permissive, and a decision outside the four is left alone. */
  lemma NeverMorePermissive(
    bundle: Bundle, sorted: seq<Rule>, mission: Mission, req: EvaluateRequest, base: Response,
    verdict: string -> Verdict, r: Result<Response>, results: seq<RuleResult>)
    requires MayRestrict(base.decision)
    requires FirstApplicable(bundle, sorted, mission, req, base, verdict, r, results)
    ensures r.Ok? ==> Strictness(base.decision) <= Strictness(r.value.decision) && (MayRestrict(r.value.decision) || r.value.decision == Deny)
  {
  }

  /** The recorded results: one for each sorted rule up to and including the applied one, or
      for all of them; only the last can be applied, and every earlier rule was disabled,
      unmatched, failed a condition or could not apply. */
  lemma RecordedUpToApplied(
    bundle: Bundle, sorted: seq<Rule>, mission: Mission, req: EvaluateRequest, base: Response,
    verdict: string -> Verdict, r: Result<Response>, results: seq<RuleResult>)
    requires FirstApplicable(bundle, sorted, mission, req, base, verdict, r, results)
    ensures |results| <= |sorted|
    ensures forall i :: 0 <= i < |results| ==>
              && results[i].id == sorted[i].id
              && (results[i].applied <==> FateOf(sorted[i], mission, req, base.decision, verdict) == Applies)
    ensures forall i :: 0 <= i < |results| - 1 ==>
              && !results[i].applied
              && (|| sorted[i].disabled
                  || !RuleMatches(sorted[i].match', mission, req, base.decision)
                  || Check(sorted[i].conditions, verdict).FirstFalse?
                  || !CanApply(sorted[i].effect, base.decision))
    ensures |results| < |sorted| ==> r.Err? || results[|results| - 1].applied
    ensures r.Ok? && (forall i :: 0 <= i < |results| ==> !results[i].applied) ==> |results| == |sorted| && r.value == base
  {
    var n := Reach(sorted, mission, req, base.decision, verdict);
    assert |results| == n;
    forall i | 0 <= i < n
      ensures results[i] == Record(sorted[i], FateOf(sorted[i], mission, req, base.decision, verdict), verdict)
    {
      assert sorted[..n][i] == sorted[i];
    }
  }

  /** appliedPolicyRuleIDs: what a decision artifact names. */
  function AppliedRuleIDs(results: seq<RuleResult>): seq<string> {
    if results == [] then []
    else (if results[0].applied then [results[0].id] else []) + AppliedRuleIDs(results[1..])
  }

  lemma {:induction false} NoneApplied(results: seq<RuleResult>)
    requires forall i :: 0 <= i < |results| ==> !results[i].applied
    ensures AppliedRuleIDs(results) == []
  {
    if results == [] {
    } else {
      NoneApplied(results[1..]);
    }
  }

  lemma {:induction false} LastApplied(results: seq<RuleResult>)
    requires results != [] && forall i :: 0 <= i < |results| - 1 ==> !results[i].applied
    ensures var last := results[|results| - 1]; AppliedRuleIDs(results) == if last.applied then [last.id] else []
  {
    if |results| == 1 {
      assert AppliedRuleIDs(results[1..]) == [];
    } else {
      LastApplied(results[1..]);
    }
  }

  /** A decision names the one rule that was applied, and none where none was. */
  lemma AppliedRuleNamed(
    bundle: Bundle, sorted: seq<Rule>, mission: Mission, req: EvaluateRequest, base: Response,
    verdict: string -> Verdict, r: Result<Response>, results: seq<RuleResult>)
    requires FirstApplicable(bundle, sorted, mission, req, base, verdict, r, results)
    ensures AppliedRuleIDs(results) ==
            if Ending(sorted, mission, req, base.decision, verdict) == Applies
            then [sorted[Reach(sorted, mission, req, base.decision, verdict) - 1].id] else []
  {
    var n := Reach(sorted, mission, req, base.decision, verdict);
    assert |results| == n;
    forall i | 0 <= i < n
      ensures results[i].id == sorted[i].id && (results[i].applied <==> FateOf(sorted[i], mission, req, base.decision, verdict) == Applies)
    {
      assert sorted[..n][i] == sorted[i];
    }
    if n == 0 {
    } else {
      LastApplied(results);
    }
  }

  // ---------------------------------------------------------------- evidence

  /** The evaluation record, without its signature, hashes and time. */
  datatype EvaluationEvidence = EvaluationEvidence(
    id: string, missionRef: string, version: int, tenant: string, policyVersion: string, bundleID: string,
    actor: Actor, action: Action, decision: Decision, reasons: seq<string>,
    conditions: seq<ConditionResult>, rules: seq<RuleResult>)

  ghost predicate DistinctKeys(rules: seq<Rule>) {
    forall a, b :: a in rules && b in rules && a != b ==> a.priority != b.priority || a.id != b.id
  }

  lemma SortedAlike(b1: Bundle, b2: Bundle, s1: seq<Rule>, s2: seq<Rule>)
    requires multiset(b1.rules) == multiset(b2.rules) && DistinctKeys(b1.rules)
    requires IsSorting(RuleLess, b1.rules, s1) && IsSorting(RuleLess, b2.rules, s2)
    ensures s1 == s2
  {
    RuleOrder();
    forall x, y | x in s1 && y in s1 && x != y
      ensures RuleLess(x, y) || RuleLess(y, x)
    {
      assert x in multiset(s1) && y in multiset(s1);
      assert x in b1.rules && y in b1.rules;
      LessTotal(x.id, y.id);
    }
    SortingUnique(RuleLess, s1, s2);
  }

  lemma SameFinding(
    b1: Bundle, b2: Bundle, sorted: seq<Rule>, mission: Mission, req: EvaluateRequest, base: Response, verdict: string -> Verdict,
    r1: Result<Response>, results1: seq<RuleResult>, r2: Result<Response>, results2: seq<RuleResult>)
    requires b2 == b1.(rules := b2.rules)
    requires FirstApplicable(b1, sorted, mission, req, base, verdict, r1, results1)
    requires FirstApplicable(b2, sorted, mission, req, base, verdict, r2, results2)
    ensures r1 == r2 && results1 == results2
  {
  }

  /** Where no two rules share priority and identifier, the order in which a bundle lists its
      rules makes no difference to the answer or to the record. */
  lemma OrderIrrelevant(
    b1: Bundle, b2: Bundle, mission: Mission, req: EvaluateRequest, base: Response, verdict: string -> Verdict,
    s1: seq<Rule>, r1: Result<Response>, results1: seq<RuleResult>,
    s2: seq<Rule>, r2: Result<Response>, results2: seq<RuleResult>)
    requires b2 == b1.(rules := b2.rules) && multiset(b1.rules) == multiset(b2.rules) && DistinctKeys(b1.rules)
    requires IsSorting(RuleLess, b1.rules, s1) && FirstApplicable(b1, s1, mission, req, base, verdict, r1, results1)
    requires IsSorting(RuleLess, b2.rules, s2) && FirstApplicable(b2, s2, mission, req, base, verdict, r2, results2)
    ensures r1 == r2 && results1 == results2
  {
    SortedAlike(b1, b2, s1, s2);
    SameFinding(b1, b2, s1, mission, req, base, verdict, r1, results1, r2, results2);
  }
}
