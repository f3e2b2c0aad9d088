/** Delegated missions never exceed the missions they come from. */
module Attenuation {
  import opened Basics
  import opened Patterns
  import opened Authority
  import opened Model
  import opened Cascade
  import opened Operations
  import opened Runs
  import Policy

  /** The child must not what the parent must not, keeps the parent's conditions first, and ends
      no later; with `scope`, it may do nothing the parent may not. */
  ghost predicate Attenuated(child: Mission, parent: Mission, scope: bool) {
    && (scope ==> ScopeWithin(parent.region, child.region))
    && (forall a: Action :: Forbids(parent.region, a) ==> Forbids(child.region, a))
    && parent.conditions <= child.conditions
    && (parent.expiresAt != 0 ==> 0 < child.expiresAt <= parent.expiresAt)
  }

  /** The same as a caller can check it. */
  predicate Inherits(child: Mission, parent: Mission, scope: bool) {
    && (scope ==> Attenuable(parent.region, child.region))
    && KeepsProhibitions(parent.region, child.region)
    && parent.conditions <= child.conditions
    && (parent.expiresAt != 0 ==> 0 < child.expiresAt <= parent.expiresAt)
  }

  /** No glob of the region stands against a glob of the other. */
  predicate AllComparable(parent: Region, child: Region) {
    forall g <- child.grants :: Comparable(parent, g)
  }

  /** One link of the delegation tree: the parent was allowed to delegate, one level down. */
  predicate DelegatedFrom(child: Mission, parent: Mission) {
    && child.tenant == parent.tenant && child.principal == parent.principal
    && child.delegation.depth == parent.delegation.depth + 1 && parent.delegation.permitted
    && (parent.delegation.maxDepth > 0 ==> child.delegation.depth <= parent.delegation.maxDepth)
  }

  ghost predicate AllAttenuated(ms: Missions, scope: bool) {
    forall r <- ms :: ms[r].delegation.parent != "" ==>
      && ms[r].delegation.parent in ms
      && Attenuated(ms[r], ms[ms[r].delegation.parent], scope) && DelegatedFrom(ms[r], ms[ms[r].delegation.parent])
  }

  ghost predicate Rooted(w: World, scope: bool) {
    AllAttenuated(w.missions, scope) && forall id <- w.proposals :: w.proposals[id].delegation.parent == ""
  }

  /** The check is enough, and needed but for globs against globs. */
  lemma InheritsExact(child: Mission, parent: Mission, scope: bool)
    ensures Inherits(child, parent, scope) ==> Attenuated(child, parent, scope)
    ensures !scope || AllComparable(parent.region, child.region) ==>
              (Attenuated(child, parent, scope) <==> Inherits(child, parent, scope))
  {
    ProhibitionsExact(parent.region, child.region);
    AttenuableExact(parent.region, child.region);
  }

  // ---------------------------------------------------------------- one delegation

  /** What Delegate stores lies one level below the delegating mission, keeps its prohibitions
      and conditions and ends no later; and its scope lies within if it passes the sharper check,
      and only if it does but for globs against globs. */
  lemma DelegationAttenuates(w: World, ref: string, req: DelegationRequest, id: string, childRef: string, now: Time)
    requires Delegate(w, ref, req, id, childRef, now).Ok?
    ensures var child, parent := Delegate(w, ref, req, id, childRef, now).value, w.missions[ref];
            && DelegatedFrom(child, parent) && Attenuated(child, parent, false)
            && (Attenuable(parent.region, req.authority) ==> Attenuated(child, parent, true))
            && (AllComparable(parent.region, req.authority) ==>
                  (Attenuated(child, parent, true) <==> Attenuable(parent.region, req.authority)))
  {
    var parent := w.missions[ref];
    ProhibitionsExact(parent.region, req.authority);
    SubsetAttenuates(parent.region, req.authority);
  }

  // ---------------------------------------------------------------- one approved expansion

  /** The parent allows every action of every request that the merge takes up. */
  predicate Fits(parent: Region, requested: Region) {
    forall g <- requested.grants :: WellFormed(g) ==> forall a <- g.actions :: Allows(parent, g, a)
  }

  /** What a merge adds, as a region of its own. */
  function Added(base: Region, requested: Region): Region {
    Region(Filter(WellFormed, requested.grants), base.forbidden)
  }

  lemma AddedGrants(base: Region, requested: Region)
    ensures forall g :: g in Added(base, requested).grants <==> g in requested.grants && WellFormed(g)
    ensures forall a: Action :: InScope(Merge(base, requested), a) <==> InScope(base, a) || InScope(Added(base, requested), a)
  {
    forall g: Grant
      ensures g in Added(base, requested).grants <==> g in requested.grants && WellFormed(g)
    {
      FilterMember(WellFormed, requested.grants, g);
    }
    forall a: Action
      ensures InScope(Merge(base, requested), a) <==> InScope(base, a) || InScope(Added(base, requested), a)
    {
      MergeExact(base, requested, a);
    }
  }

  /** Approving an expansion keeps a delegated mission within its parent if the parent allows
      every action the merge takes up, a check the service does not make, and only if so but for
      globs against globs. */
  lemma ExpansionWithinParent(m: Mission, parent: Mission, requested: Region)
    requires Attenuated(m, parent, true) && !ConflictsWithForbidden(m.region, requested)
    ensures var merged := m.(region := Merge(m.region, requested));
            && (Fits(parent.region, requested) ==> Attenuated(merged, parent, true))
            && (AllComparable(parent.region, Added(m.region, requested)) ==>
                  (Attenuated(merged, parent, true) <==> Fits(parent.region, requested)))
  {
    var added := Added(m.region, requested);
    AddedGrants(m.region, requested);
    ProhibitionsExact(parent.region, added);
    ProhibitionsExact(parent.region, m.region);
    AttenuableExact(parent.region, added);
  }

  /** Nothing else about a mission depends on what is merged. */
  lemma ExpansionKeepsTerms(m: Mission, parent: Mission, requested: Region)
    requires Attenuated(m, parent, false)
    ensures Attenuated(m.(region := Merge(m.region, requested)), parent, false)
  {
  }

  /** A witness: parent and child may read one repository, and the child is granted writing. */
  lemma ExpansionMayEscape(m: Mission, parent: Mission)
    requires m.region == parent.region == Region([Grant("repository", "acme/api", ["read"], None)], [])
    ensures var requested := Region([Grant("repository", "acme/api", ["write"], None)], []);
            && !ConflictsWithForbidden(m.region, requested)
            && !Attenuated(m.(region := Merge(m.region, requested)), parent, true)
  {
    var requested := Region([Grant("repository", "acme/api", ["write"], None)], []);
    var write := Action("", "write", Resource("repository", "acme/api"), "write");
    assert requested.grants[0] in requested.grants && "write" in requested.grants[0].actions;
    ApprovedActionsInScope(m.region, requested, requested.grants[0], "write");
    assert !InScope(parent.region, write);
  }

  lemma ExpansionWidens(m: Mission, child: Mission, requested: Region, scope: bool)
    requires Attenuated(child, m, scope)
    ensures Attenuated(child, m.(region := Merge(m.region, requested)), scope)
  {
    AddedGrants(m.region, requested);
  }

  // ---------------------------------------------------------------- one approved proposal

  lemma NewMissionKeeps(ms: Missions, ms': Missions, m: Mission, scope: bool)
    requires AllAttenuated(ms, scope) && m.ref !in ms && ms' == ms[m.ref := m]
    requires var parent := m.delegation.parent;
             parent != "" ==> parent in ms && Attenuated(m, ms[parent], scope) && DelegatedFrom(m, ms[parent])
    ensures AllAttenuated(ms', scope)
  {
    forall r | r in ms' && ms'[r].delegation.parent != ""
      ensures var parent := ms'[r].delegation.parent;
              parent in ms' && Attenuated(ms'[r], ms'[parent], scope) && DelegatedFrom(ms'[r], ms'[parent])
    {
      if r != m.ref {
        assert ms[r].delegation.parent in ms;
      }
    }
  }

  /** An approved proposal may name any parent and depth: CreateProposal copies them unchecked.
      It leaves the delegation tree in order if it names no parent, or passes the checks of a
      delegation from the one it names, and only if so but, for scope, where globs stand against
      globs. */
  lemma ProposalParentUnchecked(w: World, proposalID: string, missionID: string, ref: string, now: Time, scope: bool)
    requires AllAttenuated(w.missions, scope) && ref != "" && ApproveProposal(w, proposalID, missionID, ref, now).Ok?
    ensures var m := NewMission(w.proposals[proposalID], missionID, ref, now);
            var parent := m.delegation.parent;
            var after := AfterApprove(w, proposalID, missionID, ref, now).missions;
            var placed := parent == "" || (parent in w.missions && DelegatedFrom(m, w.missions[parent]) && Inherits(m, w.missions[parent], scope));
            && (placed ==> AllAttenuated(after, scope))
            && ((scope && parent in w.missions ==> AllComparable(w.missions[parent].region, m.region)) ==>
                  (AllAttenuated(after, scope) <==> placed))
  {
    var m := NewMission(w.proposals[proposalID], missionID, ref, now);
    var parent := m.delegation.parent;
    var after := AfterApprove(w, proposalID, missionID, ref, now).missions;
    assert after == w.missions[ref := m];
    if parent in w.missions {
      InheritsExact(m, w.missions[parent], scope);
    }
    if parent == "" || (parent in w.missions && DelegatedFrom(m, w.missions[parent]) && Attenuated(m, w.missions[parent], scope)) {
      NewMissionKeeps(w.missions, after, m, scope);
    } else {
      assert ref in after && after[ref] == m;
    }
  }

  /** A witness: any proposal that names a parent, approved in the empty store, hangs from a
      mission that does not exist, or from itself. */
  lemma OrphanBreaksTree(p: Proposal, missionID: string, ref: string, now: Time, scope: bool)
    requires p.delegation.parent != ""
    ensures !AllAttenuated(Run(EMPTY, [Propose(p), Approve(p.id, missionID, ref, now)]).missions, scope)
  {
    var approve := Approve(p.id, missionID, ref, now);
    var w1 := Apply(EMPTY, Propose(p));
    var w2 := Apply(w1, approve);
    assert [Propose(p), approve][1..] == [approve];
    RunOne(w1, approve);
    assert ref in w2.missions && w2.missions[ref] == NewMission(p, missionID, ref, now);
  }

  // ---------------------------------------------------------------- runs

  /** The approval of this request leaves no delegated mission wider than its parent. */
  predicate ApprovalFits(w: World, id: string) {
    id in w.expansions && w.expansions[id].missionRef in w.missions ==>
      var e := w.expansions[id];
      var parent := w.missions[e.missionRef].delegation.parent;
      parent == "" || (parent in w.missions && Fits(w.missions[parent].region, e.requested))
  }

  /** Proposals name no parent and references are not empty; with `scope`, also delegations and
      approved expansions of delegated missions pass the check against the parent. */
  predicate Careful(w: World, op: Op, scope: bool) {
    match op
    case Propose(p) => p.delegation.parent == ""
    case Approve(_, _, ref, _) => ref != ""
    case DelegateTo(ref, req, _, child, _) =>
      child != "" && (scope && ref in w.missions ==> Attenuable(w.missions[ref].region, req.authority))
    case DecideExpansion(id, _, approve, _) => scope && approve ==> ApprovalFits(w, id)
    case SubmitApproval(id, _, _, _) => scope ==> ApprovalFits(w, id)
    case _ => true
  }

  ghost predicate SameTerms(m: Mission, m': Mission) {
    m' == m.(state := m'.state, version := m'.version)
  }

  /** No mission comes, goes, or changes what it grants. */
  ghost predicate SameGrants(ms: Missions, ms': Missions) {
    (forall r <- ms' :: r in ms) && forall r <- ms :: r in ms' && SameTerms(ms[r], ms'[r])
  }

  lemma SameGrantsKeeps(ms: Missions, ms': Missions, scope: bool)
    requires AllAttenuated(ms, scope) && SameGrants(ms, ms')
    ensures AllAttenuated(ms', scope)
  {
    forall r | r in ms' && ms'[r].delegation.parent != ""
      ensures var parent := ms'[r].delegation.parent;
              parent in ms' && Attenuated(ms'[r], ms'[parent], scope) && DelegatedFrom(ms'[r], ms'[parent])
    {
      assert SameTerms(ms[r], ms'[r]);
      var parent := ms[r].delegation.parent;
      assert parent in ms && Attenuated(ms[r], ms[parent], scope) && SameTerms(ms[parent], ms'[parent]);
    }
  }

  lemma ExpandedKeeps(ms: Missions, ms': Missions, ref: string, requested: Region, scope: bool)
    requires AllAttenuated(ms, scope) && ref in ms && !ConflictsWithForbidden(ms[ref].region, requested)
    requires var parent := ms[ref].delegation.parent;
             scope && parent != "" ==> parent in ms && Fits(ms[parent].region, requested)
    requires ms' == ms[ref := ms[ref].(region := Merge(ms[ref].region, requested), version := ms[ref].version + 1)]
    ensures AllAttenuated(ms', scope)
  {
    var m := ms[ref];
    var merged := m.(region := Merge(m.region, requested));
    forall r | r in ms' && ms'[r].delegation.parent != ""
      ensures var parent := ms'[r].delegation.parent;
              parent in ms' && Attenuated(ms'[r], ms'[parent], scope) && DelegatedFrom(ms'[r], ms'[parent])
    {
      var parent := ms[r].delegation.parent;
      assert parent in ms && Attenuated(ms[r], ms[parent], scope);
      if r == ref && parent != ref {
        if scope {
          ExpansionWithinParent(m, ms[parent], requested);
        } else {
          ExpansionKeepsTerms(m, ms[parent], requested);
        }
        assert Attenuated(merged, ms[parent], scope);
      } else if r != ref && parent == ref {
        ExpansionWidens(m, ms[r], requested, scope);
        assert Attenuated(ms[r], merged, scope);
      }
    }
  }

  lemma DecidedAttenuated(w: World, w': World, id: string, approver: Principal, approve: bool, now: Time, scope: bool)
    requires Rooted(w, scope) && (scope && approve ==> ApprovalFits(w, id)) && DecidedTo(w, w', id, approver, approve, now)
    ensures Rooted(w', scope)
  {
    if approve {
      ExpandedKeeps(w.missions, w'.missions, w.expansions[id].missionRef, w.expansions[id].requested, scope);
    }
  }

  lemma DecideAttenuated(w: World, id: string, approver: Principal, approve: bool, enforce: bool, now: Time, scope: bool)
    requires Keyed(w.missions) && Rooted(w, scope) && (scope && approve ==> ApprovalFits(w, id))
    requires forall x <- w.expansions :: w.expansions[x].id == x
    ensures Rooted(AfterDecide(w, id, approver, approve, enforce, now), scope)
  {
    if Decide(w, id, approver, approve, enforce, now).Ok? {
      DecisionEffect(w, id, approver, approve, enforce, now);
      DecidedAttenuated(w, Decide(w, id, approver, approve, enforce, now).value, id, approver, approve, now, scope);
    }
  }

  lemma SubmitAttenuated(w: World, id: string, approver: Principal, rule: Option<ApprovalRule>, now: Time, scope: bool)
    requires Keyed(w.missions) && Rooted(w, scope) && (scope ==> ApprovalFits(w, id))
    requires forall x <- w.expansions :: w.expansions[x].id == x
    ensures var w' := AfterSubmit(w, id, approver, rule, now); Rooted(w', scope)
  {
    var s := Submission(w, id, approver, rule, now);
    if s.Ok? {
      SubmissionEffect(w, id, approver, rule, now);
      var w1 := Recorded(w, id, s.value.0);
      assert scope ==> ApprovalFits(w1, id);
      DecideAttenuated(w1, id, approver, true, false, now, scope);
    }
  }

  lemma ApproveAttenuated(w: World, proposalID: string, missionID: string, ref: string, now: Time, scope: bool)
    requires Rooted(w, scope)
    ensures Rooted(AfterApprove(w, proposalID, missionID, ref, now), scope)
  {
    if ApproveProposal(w, proposalID, missionID, ref, now).Ok? {
      var m := NewMission(w.proposals[proposalID], missionID, ref, now);
      NewMissionKeeps(w.missions, AfterApprove(w, proposalID, missionID, ref, now).missions, m, scope);
    }
  }

  lemma DelegateAttenuated(w: World, ref: string, req: DelegationRequest, missionID: string, childRef: string, now: Time, scope: bool)
    requires Keyed(w.missions) && Rooted(w, scope)
    requires scope && ref in w.missions ==> Attenuable(w.missions[ref].region, req.authority)
    ensures Rooted(AfterDelegate(w, ref, req, missionID, childRef, now), scope)
  {
    if Delegate(w, ref, req, missionID, childRef, now).Ok? {
      DelegationAttenuates(w, ref, req, missionID, childRef, now);
      var m := Delegate(w, ref, req, missionID, childRef, now).value;
      NewMissionKeeps(w.missions, AfterDelegate(w, ref, req, missionID, childRef, now).missions, m, scope);
    }
  }

  lemma CascadeKeepsGrants(ms: Missions, ref: string, state: State)
    ensures SameGrants(ms, Cascaded(ms, ref, state))
  {
    forall r | r in ms
      ensures r in Cascaded(ms, ref, state) && SameTerms(ms[r], Cascaded(ms, ref, state)[r])
    {
    }
  }

  lemma EndAttenuated(w: World, ref: string, state: State, log: seq<Event>, scope: bool)
    requires Rooted(w, scope)
    ensures Rooted(AfterEnd(w, ref, state, log), scope)
  {
    CascadeKeepsGrants(w.missions, ref, state);
    SameGrantsKeeps(w.missions, Cascaded(w.missions, ref, state), scope);
  }

  lemma MoveAttenuated(w: World, ref: string, state: State, scope: bool)
    requires Rooted(w, scope) && ref in w.missions
    ensures Rooted(Transition(w, ref, state), scope)
  {
    var moved := w.missions[ref := Moved(w.missions[ref], state)];
    SameGrantsKeeps(w.missions, moved, scope);
    assert AllAttenuated(moved, scope);
  }

  lemma WindowAttenuated(w: World, ref: string, now: Time, scope: bool)
    requires Rooted(w, scope)
    ensures Rooted(AfterExpire(w, ref, now), scope) && Rooted(AfterSuspend(w, ref), scope)
  {
    if ref in w.missions {
      MoveAttenuated(w, ref, Expired, scope);
      MoveAttenuated(w, ref, Suspended, scope);
    }
  }

  lemma RequestsKeepMissions(w: World, op: Op)
    requires op.AskExpansion? || op.Project? || op.ExchangeToken?
    ensures Apply(w, op).missions == w.missions && Apply(w, op).proposals == w.proposals
  {
  }

  lemma OthersKeepMissions(w: World, op: Op)
    requires op.RevokeToken? || op.Lend? || op.Refresh? || op.AddApprovalRule? || op.PutContainment? || op.Remark?
    ensures Apply(w, op).missions == w.missions && Apply(w, op).proposals == w.proposals
  {
  }

  lemma ArtifactsKeepMissions(w: World, op: Op)
    requires op.AskExpansion? || op.Project? || op.ExchangeToken? || op.RevokeToken? || op.Lend? || op.Refresh?
             || op.AddApprovalRule? || op.PutContainment? || op.Remark?
    ensures Apply(w, op).missions == w.missions && Apply(w, op).proposals == w.proposals
  {
    match op
    case AskExpansion(_, _, _, _) => RequestsKeepMissions(w, op);
    case Project(_, _, _, _, _) => RequestsKeepMissions(w, op);
    case ExchangeToken(_, _, _, _) => RequestsKeepMissions(w, op);
    case _ => OthersKeepMissions(w, op);
  }

  lemma ArtifactsAttenuated(w: World, op: Op, scope: bool)
    requires Rooted(w, scope)
    requires op.AskExpansion? || op.Project? || op.ExchangeToken? || op.RevokeToken? || op.Lend? || op.Refresh?
             || op.AddApprovalRule? || op.PutContainment? || op.Remark?
    ensures Rooted(Apply(w, op), scope)
  {
    ArtifactsKeepMissions(w, op);
    var w' := Apply(w, op);
    assert AllAttenuated(w'.missions, scope);
  }

  lemma MovesAttenuated(w: World, op: Op, scope: bool)
    requires Rooted(w, scope) && Careful(w, op, scope)
    requires op.Propose? || op.End? || op.Expire? || op.SuspendMission?
    ensures Rooted(Apply(w, op), scope)
  {
    match op
    case End(ref, state, log) => EndAttenuated(w, ref, state, log, scope);
    case Expire(ref, now) => WindowAttenuated(w, ref, now, scope);
    case SuspendMission(ref) => WindowAttenuated(w, ref, 0, scope);
    case Propose(_) =>
  }

  lemma StepAttenuated(w: World, op: Op, scope: bool)
    requires Keyed(w.missions) && (forall x <- w.expansions :: w.expansions[x].id == x)
    requires Rooted(w, scope) && Careful(w, op, scope)
    ensures Rooted(Apply(w, op), scope)
  {
    match op
    case Approve(pid, mid, ref, now) => ApproveAttenuated(w, pid, mid, ref, now, scope);
    case DelegateTo(ref, req, mid, child, now) => DelegateAttenuated(w, ref, req, mid, child, now, scope);
    case DecideExpansion(id, approver, approve, now) => DecideAttenuated(w, id, approver, approve, true, now, scope);
    case SubmitApproval(id, approver, rule, now) => SubmitAttenuated(w, id, approver, rule, now, scope);
    case Propose(_) => MovesAttenuated(w, op, scope);
    case End(_, _, _) => MovesAttenuated(w, op, scope);
    case Expire(_, _) => MovesAttenuated(w, op, scope);
    case SuspendMission(_) => MovesAttenuated(w, op, scope);
    case _ => ArtifactsAttenuated(w, op, scope);
  }

  ghost predicate CarefulRun(w: World, ops: seq<Op>, scope: bool)
    decreases ops
  {
    ops == [] || (Careful(w, ops[0], scope) && CarefulRun(Apply(w, ops[0]), ops[1..], scope))
  }

  lemma {:induction false} RunAttenuated(w: World, ops: seq<Op>, scope: bool)
    requires Inv(w) && Rooted(w, scope) && CarefulRun(w, ops, scope)
    ensures Rooted(Run(w, ops), scope)
    decreases ops
  {
    if ops == [] {
    } else {
      KeyedExpansions(w);
      StepAttenuated(w, ops[0], scope);
      StepKeeps(w, ops[0]);
      RunAttenuated(Apply(w, ops[0]), ops[1..], scope);
    }
  }

  // ---------------------------------------------------------------- chains

  /** a lies n parent links above r. */
  ghost predicate Above(ms: Missions, a: string, n: nat, r: string) {
    if n == 0 then a == r
    else r in ms && ms[r].delegation.parent != "" && Above(ms, a, n - 1, ms[r].delegation.parent)
  }

  lemma {:induction false} ChainAttenuated(ms: Missions, a: string, n: nat, r: string, scope: bool)
    requires AllAttenuated(ms, scope) && r in ms && Above(ms, a, n, r)
    ensures a in ms && Attenuated(ms[r], ms[a], scope)
    ensures ms[r].delegation.depth == ms[a].delegation.depth + n
    ensures ms[r].tenant == ms[a].tenant && ms[r].principal == ms[a].principal
  {
    if n == 0 {
    } else {
      ChainAttenuated(ms, a, n - 1, ms[r].delegation.parent, scope);
    }
  }

  /** In every run whose proposals name no parent, whatever is delegated and approved, the parent
      links form a forest: no mission is its own ancestor. */
  lemma NoCycles(ops: seq<Op>, n: nat, r: string)
    requires CarefulRun(EMPTY, ops, false)
    requires r in Run(EMPTY, ops).missions && Above(Run(EMPTY, ops).missions, r, n, r)
    ensures n == 0
  {
    Start();
    RunAttenuated(EMPTY, ops, false);
    ChainAttenuated(Run(EMPTY, ops).missions, r, n, r, false);
  }

  /** In every state of every such run a delegated mission serves its ancestors' tenant and
      principal, lies as deep below each as there are links, keeps its prohibitions, and where its
      conditions hold and its time has not run out, neither do theirs fail nor has theirs. Where
      delegations and approvals pass the check on scope, its scope lies in theirs too. */
  lemma AncestorsBound(ops: seq<Op>, a: string, n: nat, r: string, verdict: string -> Verdict, now: Time, scope: bool)
    requires CarefulRun(EMPTY, ops, scope)
    requires var ms := Run(EMPTY, ops).missions; r in ms && Above(ms, a, n, r)
    ensures var ms := Run(EMPTY, ops).missions;
            && a in ms && Attenuated(ms[r], ms[a], scope)
            && ms[r].delegation.depth == ms[a].delegation.depth + n
            && ms[r].tenant == ms[a].tenant && ms[r].principal == ms[a].principal
            && (Policy.Check(ms[r].conditions, verdict) == Policy.AllTrue ==> Policy.Check(ms[a].conditions, verdict) == Policy.AllTrue)
            && ((ms[r].expiresAt == 0 || now <= ms[r].expiresAt) ==> (ms[a].expiresAt == 0 || now <= ms[a].expiresAt))
  {
    Start();
    RunAttenuated(EMPTY, ops, scope);
    var ms := Run(EMPTY, ops).missions;
    ChainAttenuated(ms, a, n, r, scope);
    var shared := ms[a].conditions;
    assert ms[r].conditions == shared + ms[r].conditions[|shared|..];
    Policy.CheckPrefix(shared, ms[r].conditions[|shared|..], verdict);
  }
}
