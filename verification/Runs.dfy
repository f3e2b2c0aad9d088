/** What holds in every state the service can reach. */
module Runs {
  import opened Basics
  import opened Authority
  import opened Model
  import opened Cascade
  import opened Operations
  import opened Replay

  // ---------------------------------------------------------------- the invariant

  /** An artifact issued for a mission names its tenant, its agent and a version it has had. */
  ghost predicate IssuedFor(ms: map<string, Mission>, ref: string, version: int, tenant: string, actor: Actor) {
    && ref in ms && 1 <= version <= ms[ref].version && tenant == ms[ref].tenant
    && actor.instanceID == ms[ref].agent.instanceID && actor.clientID == ms[ref].agent.clientID
  }

  ghost predicate DistinctNonces(rs: seq<ExchangeRecord>) {
    forall i, j :: 0 <= i < j < |rs| ==> rs[i].nonce != rs[j].nonce
  }

  /** One exchange record within its projection and its mission. */
  predicate Bounded(r: ExchangeRecord, p: Projection, missionExpiry: Time) {
    && r.scopes <= AllowedScopes(p)
    && r.expiresAt <= r.issuedAt + MAX_CREDENTIAL_TTL
    && (p.expiresAt != 0 ==> r.expiresAt <= p.expiresAt)
    && (missionExpiry != 0 ==> r.expiresAt <= missionExpiry)
    && (p.revoked ==> r.revoked)
  }

  ghost predicate ProjectionOk(ms: map<string, Mission>, id: string, p: Projection) {
    && p.id == id && IssuedFor(ms, p.missionRef, p.missionVersion, p.tenant, p.actor)
    && (ms[p.missionRef].expiresAt != 0 ==> p.expiresAt <= ms[p.missionRef].expiresAt)
    && DistinctNonces(p.records) && forall r <- p.records :: Bounded(r, p, ms[p.missionRef].expiresAt)
  }

  /** A lease ends at most 300 seconds after it was created or last refreshed, and no later than
      its mission. */
  ghost predicate LeaseOk(ms: map<string, Mission>, id: string, l: Lease) {
    && l.id == id && IssuedFor(ms, l.missionRef, l.missionVersion, l.tenant, l.actor)
    && l.expiresAt <= (if l.refreshedAt != 0 then l.refreshedAt else l.createdAt) + MAX_LEASE_TTL
    && (ms[l.missionRef].expiresAt != 0 ==> l.expiresAt <= ms[l.missionRef].expiresAt)
  }

  ghost predicate ExpansionOk(ms: map<string, Mission>, id: string, e: Expansion) {
    && e.id == id && e.missionRef in ms && e.tenant == ms[e.missionRef].tenant && e.versionSeen >= 1
    && e.requester.instanceID == ms[e.missionRef].agent.instanceID && e.requester.clientID == ms[e.missionRef].agent.clientID
  }

  /** While the mission keeps the version a credential was issued at, it allows the action the
      credential is bound to. */
  ghost predicate CredentialOk(ms: map<string, Mission>, ps: map<string, Projection>, c: Credential) {
    && c.projectionID in ps && ps[c.projectionID].missionRef == c.missionRef
    && c.missionRef in ms && 1 <= c.missionVersion <= ms[c.missionRef].version
    && (c.missionVersion == ms[c.missionRef].version ==>
          BindingInScope(ms[c.missionRef].region, c.tool, c.resource, c.operation))
  }

  ghost predicate DistinctApprovers(rs: seq<ApprovalRecord>) {
    forall i, j :: 0 <= i < j < |rs| ==> !SameApprover(rs[i].approver, rs[j].approver)
  }

  type Missions = map<string, Mission>
  type Projections = map<string, Projection>
  type Leases = map<string, Lease>
  type Expansions = map<string, Expansion>
  type Approvals = map<string, seq<ApprovalRecord>>

  ghost predicate ProjectionsOk(ms: Missions, ps: Projections) {
    forall id <- ps :: ProjectionOk(ms, id, ps[id])
  }

  ghost predicate LeasesOk(ms: Missions, ls: Leases) {
    forall id <- ls :: LeaseOk(ms, id, ls[id])
  }

  ghost predicate ExpansionsOk(ms: Missions, es: Expansions) {
    forall id <- es :: ExpansionOk(ms, id, es[id])
  }

  ghost predicate CredentialsOk(ms: Missions, ps: Projections, cs: set<Credential>) {
    forall c <- cs :: CredentialOk(ms, ps, c)
  }

  ghost predicate ApprovalsOk(rs: Approvals) {
    forall id <- rs :: DistinctApprovers(rs[id])
  }

  ghost predicate RulesOk(rules: map<string, ApprovalRule>) {
    forall id <- rules :: rules[id].id == id
  }

  ghost predicate Inv(w: World) {
    && Keyed(w.missions) && Faithful(w.missions, w.events)
    && ProjectionsOk(w.missions, w.projections) && LeasesOk(w.missions, w.leases)
    && ExpansionsOk(w.missions, w.expansions) && CredentialsOk(w.missions, w.projections, w.credentials)
    && ApprovalsOk(w.approvals) && RulesOk(w.approvalRules)
  }

  lemma KeyedExpansions(w: World)
    requires Inv(w)
    ensures forall x <- w.expansions :: w.expansions[x].id == x
  {
    assert forall x <- w.expansions :: ExpansionOk(w.missions, x, w.expansions[x]);
  }

  // ---------------------------------------------------------------- what a step may change

  ghost predicate ProjectionEvolved(p: Projection, p': Projection) {
    && p' == p.(revoked := p'.revoked, revokedAt := p'.revokedAt, records := p'.records)
    && (p.revoked ==> p'.revoked)
  }

  /** A request is decided at most once, and nothing but its decision is ever written. */
  ghost predicate ExpansionEvolved(e: Expansion, e': Expansion) {
    && e' == e.(status := e'.status, approver := e'.approver, decidedAt := e'.decidedAt)
    && (e.status != Pending || e'.status == e.status ==> e' == e)
  }

  ghost predicate LeaseEvolved(l: Lease, l': Lease) {
    l' == l.(expiresAt := l'.expiresAt, refreshedAt := l'.refreshedAt)
  }

  ghost predicate ProjectionsEvolve(ps: Projections, ps': Projections) {
    forall id <- ps :: id in ps' && ProjectionEvolved(ps[id], ps'[id])
  }

  ghost predicate ExpansionsEvolve(es: Expansions, es': Expansions) {
    forall id <- es :: id in es' && ExpansionEvolved(es[id], es'[id])
  }

  ghost predicate LeasesEvolve(ls: Leases, ls': Leases) {
    forall id <- ls :: id in ls' && LeaseEvolved(ls[id], ls'[id])
  }

  ghost predicate ApprovalsEvolve(rs: Approvals, rs': Approvals) {
    forall id <- rs :: id in rs' && rs[id] <= rs'[id]
  }

  ghost predicate WorldEvolves(w: World, w': World) {
    && Evolves(w.missions, w'.missions)
    && ProjectionsEvolve(w.projections, w'.projections) && ExpansionsEvolve(w.expansions, w'.expansions)
    && LeasesEvolve(w.leases, w'.leases) && ApprovalsEvolve(w.approvals, w'.approvals)
    && w.credentials <= w'.credentials && w.grants <= w'.grants && w.events <= w'.events
  }

  lemma WorldEvolvesTransitive(a: World, b: World, c: World)
    requires WorldEvolves(a, b) && WorldEvolves(b, c)
    ensures WorldEvolves(a, c)
  {
    EvolvesTransitive(a.missions, b.missions, c.missions);
    assert ProjectionsEvolve(a.projections, c.projections);
    assert ExpansionsEvolve(a.expansions, c.expansions);
    assert LeasesEvolve(a.leases, c.leases);
    assert ApprovalsEvolve(a.approvals, c.approvals);
  }

  // ---------------------------------------------------------------- steps that change missions

  /** However missions evolve, what was issued for them stays in order. */
  lemma ArtifactsKept(w: World, ms: Missions)
    requires Inv(w) && Evolves(w.missions, ms)
    ensures ProjectionsOk(ms, w.projections) && LeasesOk(ms, w.leases) && ExpansionsOk(ms, w.expansions)
    ensures CredentialsOk(ms, w.projections, w.credentials)
  {
    forall id | id in w.projections
      ensures ProjectionOk(ms, id, w.projections[id])
    {
      var ref := w.projections[id].missionRef;
      assert ProjectionOk(w.missions, id, w.projections[id]) && Evolved(w.missions[ref], ms[ref]);
    }
    forall id | id in w.leases
      ensures LeaseOk(ms, id, w.leases[id])
    {
      var ref := w.leases[id].missionRef;
      assert LeaseOk(w.missions, id, w.leases[id]) && Evolved(w.missions[ref], ms[ref]);
    }
    forall id | id in w.expansions
      ensures ExpansionOk(ms, id, w.expansions[id])
    {
      var ref := w.expansions[id].missionRef;
      assert ExpansionOk(w.missions, id, w.expansions[id]) && Evolved(w.missions[ref], ms[ref]);
    }
    forall c | c in w.credentials
      ensures CredentialOk(ms, w.projections, c)
    {
      assert CredentialOk(w.missions, w.projections, c) && Evolved(w.missions[c.missionRef], ms[c.missionRef]);
    }
  }

  /** A step that changes missions only, and logs what it did. */
  lemma MissionStep(w: World, ms: Missions, log: seq<Event>)
    requires Inv(w) && Keyed(ms) && Evolves(w.missions, ms) && Faithful(ms, w.events + log)
    ensures var w' := w.(missions := ms, events := w.events + log); Inv(w') && WorldEvolves(w, w')
  {
    ArtifactsKept(w, ms);
    Unchanged(w);
  }

  lemma Unchanged(w: World)
    ensures WorldEvolves(w, w)
  {
  }

  lemma CreatedKeeps(w: World, m: Mission, kind: EventKind)
    requires Inv(w) && m.ref !in w.missions && m.state == Active && m.version == 1 && kind in {Activated, Delegated}
    ensures Inv(Created(w, m, kind)) && WorldEvolves(w, Created(w, m, kind))
  {
    var ms := w.missions[m.ref := m];
    var e := Event(m.ref, kind, 0, 1);
    assert Follow(Histories(w.missions), e) == Some(Histories(ms)) by {
      assert Histories(ms) == Histories(w.missions)[m.ref := Trail(Active, 1)];
    }
    OneMore(w.missions, w.events, e, ms);
    MissionStep(w, ms, [e]);
  }

  lemma TransitionKeeps(w: World, ref: string, state: State)
    requires Inv(w) && ref in w.missions
    requires state == Expired || (state == Suspended && w.missions[ref].state == Active)
    ensures Inv(Transition(w, ref, state)) && WorldEvolves(w, Transition(w, ref, state))
  {
    var m := w.missions[ref];
    if !Terminal(m.state) {
      var ms := w.missions[ref := Moved(m, state)];
      assert Histories(ms) == Histories(w.missions)[ref := Trail(state, m.version + 1)];
      OneMore(w.missions, w.events, MovedEvent(m, state), ms);
      MissionStep(w, ms, [MovedEvent(m, state)]);
    }
  }

  lemma EndKeeps(w: World, ref: string, state: State, log: seq<Event>)
    requires Inv(w)
    ensures Inv(AfterEnd(w, ref, state, log)) && WorldEvolves(w, AfterEnd(w, ref, state, log))
  {
    if AfterEnd(w, ref, state, log) != w {
      var ms := Cascaded(w.missions, ref, state);
      CascadedEvolves(w.missions, ref, state);
      CascadeLogFollows(w.missions, log, ms);
      ReplayOn(map[], w.events, log);
      MissionStep(w, ms, log);
    }
  }

  // ---------------------------------------------------------------- steps that change nothing but artifacts

  lemma NoteKeeps(w: World, e: Event)
    requires Inv(w) && e.before == e.after
    ensures Inv(w.(events := w.events + [e])) && WorldEvolves(w, w.(events := w.events + [e]))
  {
    OneMore(w.missions, w.events, e, w.missions);
    MissionStep(w, w.missions, [e]);
  }

  lemma ThenNote(w: World, w1: World, e: Event)
    requires Inv(w1) && WorldEvolves(w, w1) && e.before == e.after
    ensures var w' := w1.(events := w1.events + [e]); Inv(w') && WorldEvolves(w, w')
  {
    NoteKeeps(w1, e);
    WorldEvolvesTransitive(w, w1, w1.(events := w1.events + [e]));
  }

  lemma PutProjection(w: World, p: Projection, gs: set<GrantToken>, cs: set<Credential>, e: Event)
    requires Inv(w) && ProjectionOk(w.missions, p.id, p) && e.before == e.after
    requires p.id in w.projections ==> ProjectionEvolved(w.projections[p.id], p)
    requires forall c <- cs :: c.projectionID == p.id && CredentialOk(w.missions, map[p.id := p], c)
    ensures var w' := w.(projections := w.projections[p.id := p], grants := w.grants + gs,
                         credentials := w.credentials + cs, events := w.events + [e]);
            Inv(w') && WorldEvolves(w, w')
  {
    var ps := w.projections[p.id := p];
    CredentialsWith(w.missions, w.projections, p, w.credentials, cs);
    assert ProjectionsOk(w.missions, ps) && ProjectionsEvolve(w.projections, ps);
    Unchanged(w);
    ThenNote(w, w.(projections := ps, grants := w.grants + gs, credentials := w.credentials + cs), e);
  }

  lemma CredentialsWith(ms: Missions, ps: Projections, p: Projection, cs: set<Credential>, more: set<Credential>)
    requires CredentialsOk(ms, ps, cs) && (p.id in ps ==> ProjectionEvolved(ps[p.id], p))
    requires forall c <- more :: c.projectionID == p.id && CredentialOk(ms, map[p.id := p], c)
    ensures CredentialsOk(ms, ps[p.id := p], cs + more)
  {
    forall c | c in cs + more
      ensures CredentialOk(ms, ps[p.id := p], c)
    {
      if c in cs {
        assert CredentialOk(ms, ps, c);
      }
    }
  }

  lemma PutExpansion(w: World, e: Expansion)
    requires Inv(w) && ExpansionOk(w.missions, e.id, e)
    requires e.id in w.expansions ==> ExpansionEvolved(w.expansions[e.id], e)
    ensures var w' := w.(expansions := w.expansions[e.id := e]); Inv(w') && WorldEvolves(w, w')
  {
    Unchanged(w);
    var es := w.expansions[e.id := e];
    assert ExpansionsEvolve(w.expansions, es) && ExpansionsOk(w.missions, es);
  }

  lemma PutRecord(w: World, id: string, r: ApprovalRecord)
    requires Inv(w) && forall x <- RecordsFor(w, id) :: !SameApprover(x.approver, r.approver)
    ensures Inv(Recorded(w, id, r)) && WorldEvolves(w, Recorded(w, id, r))
  {
    Unchanged(w);
    assert id in w.approvals ==> DistinctApprovers(w.approvals[id]);
    assert ApprovalsEvolve(w.approvals, Recorded(w, id, r).approvals);
  }

  lemma ProjectKeeps(w: World, ref: string, req: ProjectionRequest, id: string, jti: string, now: Time)
    requires Inv(w)
    ensures Inv(AfterProject(w, ref, req, id, jti, now)) && WorldEvolves(w, AfterProject(w, ref, req, id, jti, now))
  {
    Unchanged(w);
    var r := CreateProjection(w, ref, req, id, jti, now);
    if r.Ok? {
      assert ProjectionOk(w.missions, id, r.value);
      PutProjection(w, r.value, {r.value.token}, {}, NoteOf(w.missions[ref]));
    }
  }

  lemma LeaseKeeps(w: World, l: Lease)
    requires Inv(w) && LeaseOk(w.missions, l.id, l)
    requires l.id in w.leases ==> LeaseEvolved(w.leases[l.id], l)
    ensures var w' := Leased(w, w.missions[l.missionRef], l); Inv(w') && WorldEvolves(w, w')
  {
    var w1 := w.(leases := w.leases[l.id := l]);
    assert Inv(w1) && WorldEvolves(w, w1);
    ThenNote(w, w1, NoteOf(w.missions[l.missionRef]));
  }

  lemma AskKeeps(w: World, ref: string, ask: ExpansionAsk, id: string, now: Time)
    requires Inv(w)
    ensures Inv(AfterAsk(w, ref, ask, id, now)) && WorldEvolves(w, AfterAsk(w, ref, ask, id, now))
  {
    Unchanged(w);
    var r := RequestExpansion(w, ref, ask, id, now);
    if r.Ok? {
      PutExpansion(w, r.value);
      ThenNote(w, w.(expansions := w.expansions[id := r.value]), NoteOf(w.missions[ref]));
    }
  }

  lemma ExchangedOk(p: Projection, m: Mission, req: ExchangeRequest, exchangeID: string, jti: string, now: Time)
    requires Clean(req.scopes) <= AllowedScopes(p) && !p.revoked
    ensures Bounded(NewRecord(NewCredential(p, m, req, exchangeID, jti, now), Trim(req.nonce)), p, m.expiresAt)
  {
  }

  lemma WithRecords(ms: Missions, p: Projection, p': Projection)
    requires ProjectionOk(ms, p.id, p) && p' == p.(revoked := p'.revoked, revokedAt := p'.revokedAt, records := p'.records)
    requires DistinctNonces(p'.records) && forall i :: 0 <= i < |p'.records| ==> Bounded(p'.records[i], p', ms[p.missionRef].expiresAt)
    ensures ProjectionOk(ms, p.id, p')
  {
  }

  /** What bounds a record does not depend on the other records. */
  lemma BoundedAlike(r: ExchangeRecord, r': ExchangeRecord, p: Projection, p': Projection, expiry: Time)
    requires Bounded(r, p, expiry) && r' == r.(revoked := r'.revoked, revokedAt := r'.revokedAt)
    requires p' == p.(revoked := p'.revoked, revokedAt := p'.revokedAt, records := p'.records)
    requires p'.revoked ==> r'.revoked
    ensures Bounded(r', p', expiry)
  {
  }

  lemma RecordAdded(ms: Missions, p: Projection, r: ExchangeRecord)
    requires ProjectionOk(ms, p.id, p) && Bounded(r, p, ms[p.missionRef].expiresAt) && !NonceUsed(p, r.nonce)
    ensures ProjectionOk(ms, p.id, p.(records := p.records + [r]))
  {
    var p' := p.(records := p.records + [r]);
    var expiry := ms[p.missionRef].expiresAt;
    forall i | 0 <= i < |p'.records|
      ensures Bounded(p'.records[i], p', expiry)
    {
      assert i < |p.records| ==> Bounded(p.records[i], p, expiry);
      BoundedAlike(p'.records[i], p'.records[i], p, p', expiry);
    }
    WithRecords(ms, p, p');
  }

  lemma ExchangedKeeps(w: World, p: Projection, c: Credential, nonce: string)
    requires Inv(w) && p.id in w.projections && w.projections[p.id] == p && p.missionRef in w.missions
    requires Bounded(NewRecord(c, nonce), p, w.missions[p.missionRef].expiresAt) && !NonceUsed(p, nonce)
    requires c.projectionID == p.id && CredentialOk(w.missions, map[p.id := p], c)
    ensures Inv(Exchanged(w, p, c, nonce)) && WorldEvolves(w, Exchanged(w, p, c, nonce))
  {
    assert ProjectionOk(w.missions, p.id, p);
    var record := NewRecord(c, nonce);
    RecordAdded(w.missions, p, record);
    PutProjection(w, p.(records := p.records + [record]), {}, {c}, Event(p.missionRef, Note, p.missionVersion, p.missionVersion));
    assert w.grants + {} == w.grants;
  }

  lemma ExchangeKeeps(w: World, req: ExchangeRequest, exchangeID: string, jti: string, now: Time)
    requires Inv(w)
    ensures var w' := AfterExchange(w, req, exchangeID, jti, now); Inv(w') && WorldEvolves(w, w')
  {
    Unchanged(w);
    var r := Exchange(w, req, exchangeID, jti, now);
    if r.Ok? {
      var p := w.projections[req.token.projectionID];
      assert ProjectionOk(w.missions, req.token.projectionID, p);
      ExchangedOk(p, w.missions[p.missionRef], req, exchangeID, jti, now);
      ExchangedKeeps(w, p, r.value, Trim(req.nonce));
    }
  }

  lemma RevokeKeeps(w: World, id: string, now: Time)
    requires Inv(w)
    ensures Inv(RevokeProjection(w, id, now)) && WorldEvolves(w, RevokeProjection(w, id, now))
  {
    Unchanged(w);
    if id in w.projections && !w.projections[id].revoked {
      var p := w.projections[id];
      assert ProjectionOk(w.missions, id, p);
      var p' := RevokedProjection(p, now);
      forall i | 0 <= i < |p'.records|
        ensures Bounded(p'.records[i], p', w.missions[p.missionRef].expiresAt)
      {
        assert Bounded(p.records[i], p, w.missions[p.missionRef].expiresAt);
        BoundedAlike(p.records[i], p'.records[i], p, p', w.missions[p.missionRef].expiresAt);
      }
      WithRecords(w.missions, p, p');
      PutProjection(w, p', {}, {}, Event(p.missionRef, Note, p.missionVersion, p.missionVersion));
      assert w.grants + {} == w.grants && w.credentials + {} == w.credentials;
    }
  }

  // ---------------------------------------------------------------- decisions

  /** A decision as the store commits it: on the request as it is and, where it approves, on
      the mission as it is. */
  ghost predicate SoundCommit(w: World, c: Commit) {
    && c.expansion.id in w.expansions && c.expansion.status != Pending
    && ExpansionEvolved(w.expansions[c.expansion.id], c.expansion)
    && match c.mission
       case None => c.event.before == c.event.after
       case Some(m') =>
         && m'.ref in w.missions
         && var m := w.missions[m'.ref];
            && m.state == Active && m' == m.(region := m'.region, version := m.version + 1)
            && c.event == Event(m.ref, ExpansionApproved, m.version, m.version + 1)
  }

  lemma ExpandKeeps(w: World, m': Mission, e: Event)
    requires Inv(w) && m'.ref in w.missions
    requires var m := w.missions[m'.ref];
             && m.state == Active && m' == m.(region := m'.region, version := m.version + 1)
             && e == Event(m.ref, ExpansionApproved, m.version, m.version + 1)
    ensures var w' := w.(missions := w.missions[m'.ref := m'], events := w.events + [e]); Inv(w') && WorldEvolves(w, w')
  {
    var ms := w.missions[m'.ref := m'];
    assert Histories(ms) == Histories(w.missions)[m'.ref := Trail(Active, m'.version)];
    OneMore(w.missions, w.events, e, ms);
    MissionStep(w, ms, [e]);
  }

  lemma CommitKeeps(w: World, c: Commit)
    requires Inv(w) && SoundCommit(w, c) && CommitDecision(w, c).Ok?
    ensures Inv(CommitDecision(w, c).value) && WorldEvolves(w, CommitDecision(w, c).value)
  {
    var w1 := w.(expansions := w.expansions[c.expansion.id := c.expansion]);
    assert ExpansionOk(w.missions, c.expansion.id, w.expansions[c.expansion.id]);
    PutExpansion(w, c.expansion);
    match c.mission {
      case None => ThenNote(w, w1, c.event);
      case Some(m') =>
        ExpandKeeps(w1, m', c.event);
        WorldEvolvesTransitive(w, w1, w1.(missions := w.missions[m'.ref := m'], events := w1.events + [c.event]));
    }
  }

  lemma PreparedIsSound(w: World, e: Expansion, approve: bool, contained: bool, approver: Principal, now: Time)
    requires Inv(w) && e.id in w.expansions && w.expansions[e.id] == e && e.status == Pending && e.missionRef in w.missions
    requires Prepare(e, w.missions[e.missionRef], approve, contained, approver, now).Ok?
    ensures SoundCommit(w, Prepare(e, w.missions[e.missionRef], approve, contained, approver, now).value)
  {
  }

  lemma DecideKeeps(w: World, id: string, approver: Principal, approve: bool, enforce: bool, now: Time)
    requires Inv(w)
    ensures var w' := AfterDecide(w, id, approver, approve, enforce, now); Inv(w') && WorldEvolves(w, w')
  {
    Unchanged(w);
    if Decide(w, id, approver, approve, enforce, now).Ok? {
      var e := w.expansions[id];
      assert ExpansionOk(w.missions, id, e);
      var m := w.missions[e.missionRef];
      var contained := Containment.Contained(w.containments, m, e.requester, e.action, now);
      PreparedIsSound(w, e, approve, contained, approver, now);
      CommitKeeps(w, Prepare(e, m, approve, contained, approver, now).value);
    }
  }

  lemma SubmittedKeeps(w: World, w1: World, id: string, approver: Principal, now: Time)
    requires Inv(w1) && WorldEvolves(w, w1)
    ensures forall e: Event :: e.before == e.after ==>
              Inv(w1.(events := w1.events + [e])) && WorldEvolves(w, w1.(events := w1.events + [e]))
    ensures var w' := AfterDecide(w1, id, approver, true, false, now); Inv(w') && WorldEvolves(w, w')
  {
    forall e: Event | e.before == e.after
      ensures Inv(w1.(events := w1.events + [e])) && WorldEvolves(w, w1.(events := w1.events + [e]))
    {
      ThenNote(w, w1, e);
    }
    DecideKeeps(w1, id, approver, true, false, now);
    WorldEvolvesTransitive(w, w1, AfterDecide(w1, id, approver, true, false, now));
  }

  lemma SubmitKeeps(w: World, id: string, approver: Principal, rule: Option<ApprovalRule>, now: Time)
    requires Inv(w)
    ensures var w' := AfterSubmit(w, id, approver, rule, now); Inv(w') && WorldEvolves(w, w')
  {
    Unchanged(w);
    var s := Submission(w, id, approver, rule, now);
    if s.Ok? && AfterSubmit(w, id, approver, rule, now) != w {
      SubmissionEffect(w, id, approver, rule, now);
      PutRecord(w, id, s.value.0);
      SubmittedKeeps(w, Recorded(w, id, s.value.0), id, approver, now);
    }
  }

  // ---------------------------------------------------------------- every step, every run

  lemma ApproveKeeps(w: World, proposalID: string, missionID: string, ref: string, now: Time)
    requires Inv(w)
    ensures var w' := AfterApprove(w, proposalID, missionID, ref, now); Inv(w') && WorldEvolves(w, w')
  {
    Unchanged(w);
    if ApproveProposal(w, proposalID, missionID, ref, now).Ok? {
      CreatedKeeps(w.(proposals := w.proposals - {proposalID}), NewMission(w.proposals[proposalID], missionID, ref, now), Activated);
    }
  }

  lemma DelegateKeeps(w: World, ref: string, req: DelegationRequest, missionID: string, childRef: string, now: Time)
    requires Inv(w)
    ensures var w' := AfterDelegate(w, ref, req, missionID, childRef, now); Inv(w') && WorldEvolves(w, w')
  {
    Unchanged(w);
    var r := Delegate(w, ref, req, missionID, childRef, now);
    if r.Ok? {
      CreatedKeeps(w, r.value, Delegated);
    }
  }

  lemma LendKeeps(w: World, ref: string, versionSeen: int, actor: Actor, ttl: int, id: string, now: Time)
    requires Inv(w)
    ensures var w' := AfterLend(w, ref, versionSeen, actor, ttl, id, now); Inv(w') && WorldEvolves(w, w')
  {
    Unchanged(w);
    var r := CreateLease(w, ref, versionSeen, actor, ttl, id, now);
    if r.Ok? {
      LeaseKeeps(w, r.value);
    }
  }

  lemma RefreshKeeps(w: World, id: string, actor: Actor, ttl: int, now: Time)
    requires Inv(w)
    ensures var w' := AfterRefresh(w, id, actor, ttl, now); Inv(w') && WorldEvolves(w, w')
  {
    Unchanged(w);
    var r := RefreshLease(w, id, actor, ttl, now);
    if r.Ok? {
      assert LeaseOk(w.missions, id, w.leases[id]);
      LeaseKeeps(w, r.value);
    }
  }

  lemma ExpireKeeps(w: World, ref: string, now: Time)
    requires Inv(w)
    ensures Inv(AfterExpire(w, ref, now)) && WorldEvolves(w, AfterExpire(w, ref, now))
  {
    Unchanged(w);
    if ref in w.missions {
      TransitionKeeps(w, ref, Expired);
    }
  }

  lemma SuspendKeeps(w: World, ref: string)
    requires Inv(w)
    ensures Inv(AfterSuspend(w, ref)) && WorldEvolves(w, AfterSuspend(w, ref))
  {
    Unchanged(w);
    if ref in w.missions && w.missions[ref].state == Active {
      TransitionKeeps(w, ref, Suspended);
    }
  }

  /** Proposals, approval rules and containment rules bear on nothing else. */
  lemma SettingsKeep(w: World, w': World)
    requires Inv(w) && RulesOk(w'.approvalRules)
    requires w' == w.(proposals := w'.proposals, approvalRules := w'.approvalRules, containments := w'.containments)
    ensures Inv(w') && WorldEvolves(w, w')
  {
    Unchanged(w);
  }

  lemma ApprovalRuleKeeps(w: World, rule: ApprovalRule)
    requires Inv(w)
    ensures var w' := w.(approvalRules := w.approvalRules[rule.id := rule]); Inv(w') && WorldEvolves(w, w')
  {
    var rules := w.approvalRules[rule.id := rule];
    assert RulesOk(rules);
    SettingsKeep(w, w.(approvalRules := rules));
  }

  lemma ConfigurationKeeps(w: World, op: Op)
    requires Inv(w) && (op.Propose? || op.AddApprovalRule? || op.PutContainment?)
    ensures Inv(Apply(w, op)) && WorldEvolves(w, Apply(w, op))
  {
    Unchanged(w);
    match op
    case Propose(p) => SettingsKeep(w, w.(proposals := w.proposals[p.id := p]));
    case AddApprovalRule(rule) => ApprovalRuleKeeps(w, rule);
    case PutContainment(rule) => SettingsKeep(w, w.(containments := w.containments[rule.id := rule]));
  }

  lemma LifecycleKeeps(w: World, op: Op)
    requires Inv(w)
    requires op.Propose? || op.Approve? || op.DelegateTo? || op.End? || op.Expire? || op.SuspendMission?
             || op.AddApprovalRule? || op.PutContainment? || op.Remark?
    ensures Inv(Apply(w, op)) && WorldEvolves(w, Apply(w, op))
  {
    match op
    case Approve(pid, mid, ref, now) => ApproveKeeps(w, pid, mid, ref, now);
    case DelegateTo(ref, req, mid, child, now) => DelegateKeeps(w, ref, req, mid, child, now);
    case End(ref, state, log) => EndKeeps(w, ref, state, log);
    case Expire(ref, now) => ExpireKeeps(w, ref, now);
    case SuspendMission(ref) => SuspendKeeps(w, ref);
    case Remark(ref, version) => NoteKeeps(w, Event(ref, Note, version, version));
    case _ => ConfigurationKeeps(w, op);
  }

  lemma RequestsKeep(w: World, op: Op)
    requires Inv(w) && (op.AskExpansion? || op.DecideExpansion? || op.SubmitApproval?)
    ensures Inv(Apply(w, op)) && WorldEvolves(w, Apply(w, op))
  {
    match op
    case AskExpansion(ref, ask, id, now) => AskKeeps(w, ref, ask, id, now);
    case DecideExpansion(id, approver, approve, now) => DecideKeeps(w, id, approver, approve, true, now);
    case SubmitApproval(id, approver, rule, now) => SubmitKeeps(w, id, approver, rule, now);
  }

  lemma TokensKeep(w: World, op: Op)
    requires Inv(w) && (op.Project? || op.ExchangeToken? || op.RevokeToken?)
    ensures Inv(Apply(w, op)) && WorldEvolves(w, Apply(w, op))
  {
    match op
    case Project(ref, req, id, jti, now) => ProjectKeeps(w, ref, req, id, jti, now);
    case ExchangeToken(req, exchangeID, jti, now) => ExchangeKeeps(w, req, exchangeID, jti, now);
    case RevokeToken(id, now) => RevokeKeeps(w, id, now);
  }

  lemma LeasesKeep(w: World, op: Op)
    requires Inv(w) && (op.Lend? || op.Refresh?)
    ensures Inv(Apply(w, op)) && WorldEvolves(w, Apply(w, op))
  {
    match op
    case Lend(ref, seen, actor, ttl, id, now) => LendKeeps(w, ref, seen, actor, ttl, id, now);
    case Refresh(id, actor, ttl, now) => RefreshKeeps(w, id, actor, ttl, now);
  }

  lemma StepKeeps(w: World, op: Op)
    requires Inv(w)
    ensures Inv(Apply(w, op)) && WorldEvolves(w, Apply(w, op))
  {
    match op
    case AskExpansion(_, _, _, _) => RequestsKeep(w, op);
    case DecideExpansion(_, _, _, _) => RequestsKeep(w, op);
    case SubmitApproval(_, _, _, _) => RequestsKeep(w, op);
    case Project(_, _, _, _, _) => TokensKeep(w, op);
    case ExchangeToken(_, _, _, _) => TokensKeep(w, op);
    case RevokeToken(_, _) => TokensKeep(w, op);
    case Lend(_, _, _, _, _, _) => LeasesKeep(w, op);
    case Refresh(_, _, _, _) => LeasesKeep(w, op);
    case _ => LifecycleKeeps(w, op);
  }

  ghost function Run(w: World, ops: seq<Op>): World
    decreases ops
  {
    if ops == [] then w else Run(Apply(w, ops[0]), ops[1..])
  }

  lemma RunOne(w: World, op: Op)
    ensures Run(w, [op]) == Apply(w, op)
  {
    assert [op][1..] == [];
  }

  /** Whatever the service is asked, in whatever order, the invariant holds throughout and the
      store only ever evolves. */
  lemma {:induction false} RunKeeps(w: World, ops: seq<Op>)
    requires Inv(w)
    ensures Inv(Run(w, ops)) && WorldEvolves(w, Run(w, ops))
    decreases ops
  {
    if ops == [] {
    } else {
      StepKeeps(w, ops[0]);
      RunKeeps(Apply(w, ops[0]), ops[1..]);
      WorldEvolvesTransitive(w, Apply(w, ops[0]), Run(w, ops));
    }
  }

  lemma Start()
    ensures Inv(EMPTY)
  {
  }
}
