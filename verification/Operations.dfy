/** What each service call answers and stores, as functions of the store's contents. An
    operation that the service refuses leaves the world as it was. */
module Operations {
  import opened Basics
  import opened Authority
  import opened Model
  import opened Cascade
  import opened Containment

  // ---------------------------------------------------------------- creating missions

  function NewMission(p: Proposal, id: string, ref: string, now: Time): Mission {
    Mission(id, ref, p.tenant, Active, 1, p.principal, p.agent, p.region, p.conditions,
            if p.notBefore == 0 then now else p.notBefore, p.expiresAt, p.delegation)
  }

  function ApproveProposal(w: World, proposalID: string, id: string, ref: string, now: Time): Result<Mission> {
    if proposalID !in w.proposals then Err(NotFound)
    else if ref in w.missions then Err(Conflict)
    else Ok(NewMission(w.proposals[proposalID], id, ref, now))
  }

  datatype DelegationRequest = DelegationRequest(
    actor: Actor, target: Agent, authority: Region, conditions: seq<Condition>, expiresAt: Time, delegation: Delegation)

  function MissionAction(name: string, ref: string): Action {
    Action("mission", name, Resource("mission", ref), name)
  }

  function ChildExpiry(parent: Mission, requested: Time): Time {
    if requested == 0 then parent.expiresAt else requested
  }

  function Child(parent: Mission, req: DelegationRequest, id: string, ref: string, now: Time): Mission {
    Mission(id, ref, parent.tenant, Active, 1, parent.principal, req.target, req.authority,
            parent.conditions + req.conditions, now, ChildExpiry(parent, req.expiresAt),
            req.delegation.(depth := parent.delegation.depth + 1, parent := parent.ref))
  }

  ghost function Delegate(w: World, ref: string, req: DelegationRequest, id: string, childRef: string, now: Time): Result<Mission> {
    if ref !in w.missions then Err(NotFound)
    else
      var parent := w.missions[ref];
      if parent.state != Active then Err(Refused("parent mission is not active"))
      else if !ActorMatches(parent, req.actor) then Err(Refused("delegating actor is not authorized"))
      else if Contained(w.containments, parent, req.actor, MissionAction("delegate", parent.ref), now) then Err(Refused("contained"))
      else if !parent.delegation.permitted then Err(Refused("delegation is not permitted"))
      else if 0 < parent.delegation.maxDepth <= parent.delegation.depth then Err(Refused("delegation depth exceeded"))
      else if !Subset(parent.region, req.authority) then Err(Refused("not a subset of parent authority"))
      else if 0 < parent.expiresAt < ChildExpiry(parent, req.expiresAt) then Err(Refused("child expiry exceeds parent expiry"))
      else if childRef in w.missions then Err(Conflict)
      else Ok(Child(parent, req, id, childRef, now))
  }

  function Created(w: World, m: Mission, kind: EventKind): World {
    w.(missions := w.missions[m.ref := m], events := w.events + [Event(m.ref, kind, 0, m.version)])
  }

  // ---------------------------------------------------------------- transitions

  function Transition(w: World, ref: string, state: State): World
    requires ref in w.missions
  {
    var m := w.missions[ref];
    if Terminal(m.state) then w
    else w.(missions := w.missions[ref := Moved(m, state)], events := w.events + [MovedEvent(m, state)])
  }

  // ---------------------------------------------------------------- expansions

  datatype ExpansionAsk = ExpansionAsk(versionSeen: int, requester: Actor, action: Action, risk: string, requested: Region)

  function AuthorityForAction(a: Action): Region {
    var operation := if Trim(a.operation) == "" then Trim(a.name) else Trim(a.operation);
    if a.resource.typ == "" || a.resource.id == "" || operation == "" then Region([], [])
    else Region([Grant(a.resource.typ, a.resource.id, [operation], None)], [])
  }

  function Asked(ask: ExpansionAsk): Region {
    if ask.requested.grants == [] then AuthorityForAction(ask.action) else ask.requested
  }

  const NOBODY := Principal("", "", "")

  function NewExpansion(m: Mission, ask: ExpansionAsk, id: string): Expansion {
    Expansion(id, m.ref, if ask.versionSeen > 0 then ask.versionSeen else m.version, m.tenant, ask.requester,
              ask.action, ask.risk, Asked(ask), Pending, NOBODY, 0)
  }

  /** createExpansionRequestForMission on the stored mission. */
  ghost function RequestExpansion(w: World, ref: string, ask: ExpansionAsk, id: string, now: Time): Result<Expansion> {
    if ref !in w.missions then Err(NotFound)
    else
      var m := w.missions[ref];
      if m.state != Active then Err(Refused("mission is not active"))
      else if !ActorMatches(m, ask.requester) then Err(Refused("requester is not authorized"))
      else if 0 < ask.versionSeen < m.version then Err(Refused("mission version is stale"))
      else if Contained(w.containments, m, ask.requester, ask.action, now) then Err(Refused("contained"))
      else if Asked(ask).grants == [] then Err(Refused("requested_authority.resources is required"))
      else if id in w.expansions then Err(Conflict)
      else Ok(NewExpansion(m, ask, id))
  }

  function NoteOf(m: Mission): Event {
    Event(m.ref, Note, m.version, m.version)
  }

  function Requested(w: World, m: Mission, e: Expansion): World {
    w.(expansions := w.expansions[e.id := e], events := w.events + [NoteOf(m)])
  }

  /** ExpansionDecisionCommit: a mission to store only when the request is approved. */
  datatype Commit = Commit(mission: Option<Mission>, expectedVersion: int, expansion: Expansion, event: Event)

  function LoadExpansion(w: World, id: string): Result<Expansion> {
    if id !in w.expansions then Err(NotFound)
    else if w.expansions[id].status != Pending then Err(Refused("expansion request is already decided"))
    else Ok(w.expansions[id])
  }

  /** The decision computed from one reading of the request and of its mission. */
  function Prepare(e: Expansion, m: Mission, approve: bool, contained: bool, approver: Principal, now: Time): Result<Commit> {
    if !approve then
      Ok(Commit(None, 0, e.(status := ExpansionStatus.Denied, approver := approver, decidedAt := now), NoteOf(m)))
    else if m.state != Active then Err(Refused("mission is not active"))
    else if e.versionSeen > 0 && e.versionSeen != m.version then Err(Refused("mission version changed"))
    else if ConflictsWithForbidden(m.region, e.requested) then Err(Refused("conflicts with forbidden actions"))
    else if contained then Err(Refused("contained"))
    else
      Ok(Commit(Some(m.(region := Merge(m.region, e.requested), version := m.version + 1)), m.version,
                e.(status := Approved, approver := approver, decidedAt := now),
                Event(m.ref, ExpansionApproved, m.version, m.version + 1)))
  }

  /** Why CommitExpansionDecision would refuse: the request's status or the mission's version is
      no longer what the commit expects. */
  function CommitError(ms: Missions, es: map<string, Expansion>, c: Commit): Option<Error> {
    if c.expansion.id !in es then Some(NotFound)
    else if es[c.expansion.id].status != Pending then Some(Conflict)
    else if c.mission.Some? && c.mission.value.ref !in ms then Some(NotFound)
    else if c.mission.Some? && ms[c.mission.value.ref].version != c.expectedVersion then Some(Conflict)
    else None
  }

  function Committed(w: World, c: Commit): World {
    w.(missions := if c.mission.Some? then w.missions[c.mission.value.ref := c.mission.value] else w.missions,
       expansions := w.expansions[c.expansion.id := c.expansion],
       events := w.events + [c.event])
  }

  /** CommitExpansionDecision: compare, then set. */
  function CommitDecision(w: World, c: Commit): Result<World> {
    match CommitError(w.missions, w.expansions, c)
    case Some(error) => Err(error)
    case None => Ok(Committed(w, c))
  }

  predicate Wild(filter: string, value: string) {
    filter == "" || filter == "*" || filter == value
  }

  predicate RuleMatchesExpansion(rule: ApprovalRule, e: Expansion) {
    && (rule.tenant != "" ==> rule.tenant == e.tenant)
    && Wild(rule.resourceType, e.action.resource.typ) && Wild(rule.resourceID, e.action.resource.id)
    && Wild(rule.operation, e.action.operation) && (rule.riskLevel != "" ==> rule.riskLevel == e.risk)
  }

  /** matchingApprovalRule: the matching rule of least identifier. */
  ghost predicate FirstMatch(rules: map<string, ApprovalRule>, e: Expansion, found: Option<ApprovalRule>) {
    match found
    case None => forall id <- rules :: !RuleMatchesExpansion(rules[id], e)
    case Some(rule) =>
      && rule.id in rules && rules[rule.id] == rule && RuleMatchesExpansion(rule, e)
      && forall id <- rules :: RuleMatchesExpansion(rules[id], e) ==> !Less(id, rule.id)
  }

  /** decideExpansionRequest. */
  ghost function Decide(w: World, id: string, approver: Principal, approve: bool, enforce: bool, now: Time): Result<World> {
    if approver.subject == "" then Err(Refused("approver.subject is required"))
    else match LoadExpansion(w, id)
      case Err(error) => Err(error)
      case Ok(e) =>
        if approve && enforce && !FirstMatch(w.approvalRules, e, None) then Err(Refused("approval rule requires submissions"))
        else if e.missionRef !in w.missions then Err(NotFound)
        else
          var m := w.missions[e.missionRef];
          match Prepare(e, m, approve, Contained(w.containments, m, e.requester, e.action, now), approver, now)
          case Err(error) => Err(error)
          case Ok(c) => CommitDecision(w, c)
  }

  predicate SameApprover(a: Principal, b: Principal) {
    a.subject == b.subject && a.issuer == b.issuer
  }

  predicate ApproverAllowed(rule: ApprovalRule, approver: Principal) {
    && (rule.subjects != [] ==> Contains(rule.subjects, approver.subject))
    && (rule.issuers != [] ==> Contains(rule.issuers, approver.issuer))
  }

  function RecordsFor(w: World, id: string): seq<ApprovalRecord> {
    if id in w.approvals then w.approvals[id] else []
  }

  /** SubmitExpansionApproval up to its record: the record and the approvals it needs. */
  ghost function Submission(w: World, id: string, approver: Principal, rule: Option<ApprovalRule>, now: Time): Result<(ApprovalRecord, int)> {
    if approver.subject == "" then Err(Refused("approver.subject is required"))
    else match LoadExpansion(w, id)
      case Err(error) => Err(error)
      case Ok(e) =>
        if e.missionRef !in w.missions then Err(NotFound)
        else if Contained(w.containments, w.missions[e.missionRef], e.requester, e.action, now) then Err(Refused("contained"))
        else if rule.Some? && !ApproverAllowed(rule.value, approver) then Err(Refused("approver is not permitted"))
        else if exists r <- RecordsFor(w, id) :: SameApprover(r.approver, approver) then Err(Conflict)
        else Ok((ApprovalRecord(if rule.Some? then rule.value.id else "", approver, now),
                 if rule.Some? then rule.value.required else 1))
  }

  function Recorded(w: World, id: string, record: ApprovalRecord): World {
    w.(approvals := w.approvals[id := RecordsFor(w, id) + [record]])
  }

  /** The whole submission: too few records leave the request pending, enough decide it; the
      record stays when the decision fails. */
  ghost function Submit(w: World, id: string, approver: Principal, rule: Option<ApprovalRule>, now: Time): World {
    match Submission(w, id, approver, rule, now)
    case Err(_) => w
    case Ok((record, required)) =>
      var w1 := Recorded(w, id, record);
      if |RecordsFor(w1, id)| < required then
        var e := w.expansions[id];
        w1.(events := w1.events + [Event(e.missionRef, Note, e.versionSeen, e.versionSeen)])
      else match Decide(w1, id, approver, true, false, now)
        case Err(_) => w1
        case Ok(w2) => w2
  }

  /** What the approver is told: the approvals required and received. */
  ghost function SubmissionResult(w: World, id: string, approver: Principal, rule: Option<ApprovalRule>, now: Time): Result<(int, int)> {
    match Submission(w, id, approver, rule, now)
    case Err(error) => Err(error)
    case Ok((record, required)) =>
      var w1 := Recorded(w, id, record);
      var received := |RecordsFor(w1, id)|;
      if received < required then Ok((required, received))
      else match Decide(w1, id, approver, true, false, now)
        case Err(error) => Err(error)
        case Ok(_) => Ok((required, received))
  }

  // ---------------------------------------------------------------- negotiations

  datatype NegotiationRecord = NegotiationRecord(
    id: string, missionRef: string, version: int, tenant: string, actor: Actor, requested: Region, outcome: Negotiation)

  /** CreateAuthorityNegotiation: it does not consult the guard. */
  function Negotiated(
    w: World, taken: set<string>, ref: string, versionSeen: int, actor: Actor, requested: Region, risky: bool, id: string, now: Time)
    : Result<NegotiationRecord>
  {
    if ref !in w.missions then Err(NotFound)
    else
      var m := w.missions[ref];
      if !Usable(m, actor, versionSeen, now) then Err(Refused("mission is not usable"))
      else if !ValidRequest(requested) then Err(Refused("requested authority is not valid"))
      else if id in taken then Err(Conflict)
      else Ok(NegotiationRecord(id, m.ref, m.version, m.tenant, actor, requested, Outcome(m.region, requested, risky)))
  }

  // ---------------------------------------------------------------- projections and credentials

  const DEFAULT_PROJECTION_TTL := 300
  const DEFAULT_CREDENTIAL_TTL := 120
  const DEFAULT_LEASE_TTL := 60
  const MAX_CREDENTIAL_TTL := 300
  const MAX_LEASE_TTL := 300

  function Earlier(a: Time, bound: Time): Time {
    if bound != 0 && bound < a then bound else a
  }

  function BoundedExpiry(now: Time, requested: int, default: nat, missionExpiry: Time): Time {
    var seconds := if requested <= 0 then default else requested;
    var seconds := if default == DEFAULT_LEASE_TTL && seconds > MAX_LEASE_TTL then MAX_LEASE_TTL else seconds;
    Earlier(now + seconds, missionExpiry)
  }

  function BrokerExpiry(now: Time, requested: int, projectionExpiry: Time, missionExpiry: Time): Time {
    var seconds := if requested <= 0 then DEFAULT_CREDENTIAL_TTL else requested;
    var seconds := if seconds > MAX_CREDENTIAL_TTL then MAX_CREDENTIAL_TTL else seconds;
    Earlier(Earlier(now + seconds, projectionExpiry), missionExpiry)
  }

  /** A credential ends at the earliest of its own time, bounded to 300 seconds, the projection's
      end and the mission's end. */
  lemma BrokerExpiryIsEarliest(now: Time, requested: int, projectionExpiry: Time, missionExpiry: Time)
    ensures var r := BrokerExpiry(now, requested, projectionExpiry, missionExpiry);
            && r <= now + MAX_CREDENTIAL_TTL && (0 < requested ==> r <= now + requested)
            && (projectionExpiry != 0 ==> r <= projectionExpiry) && (missionExpiry != 0 ==> r <= missionExpiry)
            && (|| r == projectionExpiry || r == missionExpiry || r == now + requested || r == now + MAX_CREDENTIAL_TTL
                || (requested <= 0 && r == now + DEFAULT_CREDENTIAL_TTL))
  {
  }

  /** cleanSortedStrings: trimmed, without blanks and repetitions. */
  function Clean(values: seq<string>): set<string> {
    set v <- values | Trim(v) != "" :: Trim(v)
  }

  function CleanResource(r: Option<Resource>): Option<Resource> {
    if r.None? || (Trim(r.value.typ) == "" && Trim(r.value.id) == "") then None
    else Some(Resource(Trim(r.value.typ), Trim(r.value.id)))
  }

  function ScopeFor(r: Resource, operation: string): string {
    Trim(r.typ) + ":" + Trim(r.id) + ":" + Trim(operation)
  }

  function ScopesOf(region: Region): seq<string> {
    ScopesOfGrants(region.grants)
  }

  function ScopesOfGrants(grants: seq<Grant>): seq<string> {
    if grants == [] then []
    else
      var g := grants[0];
      seq(|g.actions|, i requires 0 <= i < |g.actions| => ScopeFor(Resource(g.typ, g.id), g.actions[i]))
      + ScopesOfGrants(grants[1..])
  }

  datatype ProjectionRequest = ProjectionRequest(
    versionSeen: int, actor: Actor, kind: string, ttl: int, scopes: seq<string>, claimed: seq<string>,
    audience: string, tool: string, resource: Option<Resource>, operation: string)

  const PROJECTION_TYPES := {"oauth_claims", "mcp_context", "tool_gateway_token"}

  function DefaultAudience(audience: string, kind: string): string {
    if Trim(audience) != "" then Trim(audience)
    else if kind == "oauth_claims" then "oauth"
    else if kind == "mcp_context" then "mcp"
    else "tool-gateway"
  }

  /** A tool binding is absent or complete and within the region. */
  predicate BindingInScope(region: Region, tool: string, r: Option<Resource>, operation: string) {
    || (r.None? && operation == "")
    || (&& r.Some? && r.value.typ != "" && r.value.id != "" && operation != ""
        && InScope(region, Action("tool_call", tool, r.value, operation)))
  }

  function NewProjection(m: Mission, req: ProjectionRequest, id: string, jti: string, now: Time): Projection {
    var asked := if Clean(req.scopes) != {} then req.scopes
                 else if Clean(req.claimed) != {} then req.claimed
                 else ScopesOf(m.region);
    Projection(id, m.ref, m.version, m.tenant, req.actor, asked, req.claimed,
               DefaultAudience(req.audience, Trim(req.kind)), Trim(req.tool), CleanResource(req.resource),
               Trim(req.operation), GrantToken(jti, id), false, 0, now,
               BoundedExpiry(now, req.ttl, DEFAULT_PROJECTION_TTL, m.expiresAt), [])
  }

  ghost function CreateProjection(w: World, ref: string, req: ProjectionRequest, id: string, jti: string, now: Time): Result<Projection> {
    if ref !in w.missions then Err(NotFound)
    else
      var m := w.missions[ref];
      var p := NewProjection(m, req, id, jti, now);
      if !Usable(m, req.actor, req.versionSeen, now) then Err(Refused("mission is not usable"))
      else if Contained(w.containments, m, req.actor, Action("projection", req.kind, Resource("mission", m.ref), "project"), now) then
        Err(Refused("contained"))
      else if Trim(req.kind) !in PROJECTION_TYPES then Err(Refused("unsupported projection type"))
      else if !BindingInScope(m.region, p.tool, p.resource, p.operation) then Err(Refused("projection action is outside mission authority"))
      else if id in w.projections then Err(Conflict)
      else Ok(p)
  }

  function Projected(w: World, m: Mission, p: Projection): World {
    w.(projections := w.projections[p.id := p], grants := w.grants + {p.token}, events := w.events + [NoteOf(m)])
  }

  /** projectionAllowedScopes. */
  function AllowedScopes(p: Projection): set<string> {
    if Clean(p.scopes) != {} then Clean(p.scopes)
    else if Clean(p.claimed) != {} then Clean(p.claimed)
    else if p.resource.Some? && p.operation != "" then {ScopeFor(p.resource.value, p.operation)}
    else {"mission:" + p.missionRef + ":access"}
  }

  datatype ExchangeRequest = ExchangeRequest(
    token: GrantToken, actor: Actor, nonce: string, scopes: seq<string>, audience: string, tool: string,
    resource: Option<Resource>, operation: string, ttl: int)

  predicate NonceUsed(p: Projection, nonce: string) {
    exists r <- p.records :: r.nonce == nonce
  }

  /** validateProjectionForBroker returns nil. */
  predicate Exchangeable(p: Projection, m: Mission, actor: Actor, now: Time) {
    !p.revoked && p.revokedAt == 0 && now <= p.expiresAt && Usable(m, actor, p.missionVersion, now) && p.actor == actor
  }

  datatype Binding = Binding(audience: string, tool: string, resource: Option<Resource>, operation: string)

  function Or(value: string, default: string): string {
    if Trim(value) == "" then default else Trim(value)
  }

  function RequestedBinding(req: ExchangeRequest, p: Projection): Binding {
    var resource := CleanResource(req.resource);
    Binding(Or(req.audience, p.audience), Or(req.tool, p.tool),
            if resource.None? then p.resource else resource, Or(req.operation, p.operation))
  }

  /** The request may only fill in what the projection leaves open. */
  predicate BindingAllowed(b: Binding, p: Projection, m: Mission) {
    && (p.audience != "" ==> b.audience == p.audience)
    && (p.tool != "" ==> b.tool == p.tool)
    && (p.resource.Some? ==> b.resource == p.resource)
    && (p.operation != "" ==> b.operation == p.operation)
    && BindingInScope(m.region, b.tool, b.resource, b.operation)
  }

  function NewCredential(p: Projection, m: Mission, req: ExchangeRequest, exchangeID: string, jti: string, now: Time): Credential {
    var b := RequestedBinding(req, p);
    Credential(jti, exchangeID, p.id, m.ref, m.version, req.actor,
               if Clean(req.scopes) == {} then AllowedScopes(p) else Clean(req.scopes),
               b.audience, b.tool, b.resource, b.operation, now,
               BrokerExpiry(now, req.ttl, p.expiresAt, m.expiresAt))
  }

  function NewRecord(c: Credential, nonce: string): ExchangeRecord {
    ExchangeRecord(c.exchangeID, c.jti, nonce, c.actor, c.scopes, c, false, 0, c.notBefore, c.expiresAt)
  }

  /** ExchangeProjectionToken: a signed grant token is one the service issued. */
  ghost function Exchange(w: World, req: ExchangeRequest, exchangeID: string, jti: string, now: Time): Result<Credential> {
    if Trim(req.nonce) == "" then Err(Refused("nonce is required"))
    else if req.token !in w.grants then Err(Refused("projection signature mismatch"))
    else if req.token.projectionID !in w.projections then Err(NotFound)
    else
      var p := w.projections[req.token.projectionID];
      if p.token != req.token then Err(Refused("projection token does not match broker state"))
      else if NonceUsed(p, Trim(req.nonce)) then Err(Conflict)
      else if p.missionRef !in w.missions then Err(NotFound)
      else
        var m := w.missions[p.missionRef];
        if !Exchangeable(p, m, req.actor, now) then Err(Refused("projection is not exchangeable"))
        else if ProjectionContained(w.containments, m, p, now) then Err(Refused("contained"))
        else if !(Clean(req.scopes) <= AllowedScopes(p)) then Err(Refused("requested scopes exceed projection scope"))
        else if !BindingAllowed(RequestedBinding(req, p), p, m) then Err(Refused("requested binding is not allowed"))
        else Ok(NewCredential(p, m, req, exchangeID, jti, now))
  }

  function Exchanged(w: World, p: Projection, c: Credential, nonce: string): World {
    w.(projections := w.projections[p.id := p.(records := p.records + [NewRecord(c, nonce)])],
       credentials := w.credentials + {c},
       events := w.events + [Event(p.missionRef, Note, p.missionVersion, p.missionVersion)])
  }

  function RevokeRecord(r: ExchangeRecord, now: Time): ExchangeRecord {
    if r.revoked then r else r.(revoked := true, revokedAt := now)
  }

  function RevokeRecords(rs: seq<ExchangeRecord>, now: Time): seq<ExchangeRecord> {
    seq(|rs|, i requires 0 <= i < |rs| => RevokeRecord(rs[i], now))
  }

  function RevokedProjection(p: Projection, now: Time): Projection {
    p.(revoked := true, revokedAt := now, records := RevokeRecords(p.records, now))
  }

  function RevokeProjection(w: World, id: string, now: Time): World {
    if id !in w.projections || w.projections[id].revoked then w
    else
      var p := w.projections[id];
      w.(projections := w.projections[id := RevokedProjection(p, now)],
         events := w.events + [Event(p.missionRef, Note, p.missionVersion, p.missionVersion)])
  }

  /** VerifyProjection: it looks neither at the mission's version nor at its state. */
  ghost predicate ProjectionValid(w: World, token: GrantToken, now: Time) {
    && token in w.grants && token.projectionID in w.projections
    && var p := w.projections[token.projectionID];
       && !p.revoked && p.revokedAt == 0 && p.missionRef in w.missions
       && !ProjectionContained(w.containments, w.missions[p.missionRef], p, now)
       && now <= p.expiresAt
  }

  datatype VerifyRequest = VerifyRequest(
    token: Credential, actor: Actor, audience: string, tool: string, resource: Option<Resource>, operation: string)

  const NO_ACTOR := Actor("", "", "")

  function FindRecord(rs: seq<ExchangeRecord>, exchangeID: string, jti: string): Option<ExchangeRecord> {
    if rs == [] then None
    else if rs[0].exchangeID == exchangeID && rs[0].jti == jti then Some(rs[0])
    else FindRecord(rs[1..], exchangeID, jti)
  }

  /** validateCredentialAccessToken returns nil. */
  predicate CredentialUsable(p: Projection, r: ExchangeRecord, m: Mission, req: VerifyRequest, now: Time) {
    var c := req.token;
    && c.projectionID == p.id && c.exchangeID == r.exchangeID && c.jti == r.jti
    && !r.revoked && r.revokedAt == 0 && !p.revoked && p.revokedAt == 0
    && c.notBefore <= now < c.expiresAt && now <= r.expiresAt && now <= p.expiresAt
    && Usable(m, c.actor, c.missionVersion, now)
    && p.actor == c.actor && r.actor == c.actor
    && (req.actor != NO_ACTOR ==> req.actor == c.actor)
    && (req.audience != "" ==> req.audience == c.audience) && (req.tool != "" ==> req.tool == c.tool)
    && (req.operation != "" ==> req.operation == c.operation) && (req.resource.Some? ==> req.resource == c.resource)
    && c.scopes <= AllowedScopes(p)
  }

  /** VerifyCredentialAccessToken: a signature holds exactly for the tokens the service signed. */
  ghost predicate CredentialValid(w: World, req: VerifyRequest, now: Time) {
    && req.token in w.credentials && req.token.projectionID in w.projections
    && var p := w.projections[req.token.projectionID];
       var r := FindRecord(p.records, req.token.exchangeID, req.token.jti);
       && r.Some? && r.value.token == req.token && p.missionRef in w.missions
       && CredentialUsable(p, r.value, w.missions[p.missionRef], req, now)
       && !ProjectionContained(w.containments, w.missions[p.missionRef], p, now)
  }

  // ---------------------------------------------------------------- leases

  function LeaseAction(ref: string): Action {
    Action("lease", "mission_lease", Resource("mission", ref), "lease")
  }

  ghost function CreateLease(w: World, ref: string, versionSeen: int, actor: Actor, ttl: int, id: string, now: Time): Result<Lease> {
    if ref !in w.missions then Err(NotFound)
    else
      var m := w.missions[ref];
      if !Usable(m, actor, versionSeen, now) then Err(Refused("mission is not usable"))
      else if Contained(w.containments, m, actor, LeaseAction(m.ref), now) then Err(Refused("contained"))
      else if id in w.leases then Err(Conflict)
      else Ok(Lease(id, m.ref, m.version, m.tenant, actor, now, BoundedExpiry(now, ttl, DEFAULT_LEASE_TTL, m.expiresAt), 0))
  }

  ghost function RefreshLease(w: World, id: string, actor: Actor, ttl: int, now: Time): Result<Lease> {
    if id !in w.leases then Err(NotFound)
    else if w.leases[id].missionRef !in w.missions then Err(NotFound)
    else
      var l := w.leases[id];
      var m := w.missions[l.missionRef];
      if l.actor != actor then Err(Refused("lease actor mismatch"))
      else if l.expiresAt < now then Err(Refused("lease expired"))
      else if !Usable(m, actor, l.missionVersion, now) then Err(Refused("mission is not usable"))
      else if Contained(w.containments, m, actor, LeaseAction(m.ref), now) then Err(Refused("contained"))
      else if l.missionVersion != m.version then Err(Refused("mission version changed"))
      else Ok(l.(refreshedAt := now, expiresAt := BoundedExpiry(now, ttl, DEFAULT_LEASE_TTL, m.expiresAt)))
  }

  function Leased(w: World, m: Mission, l: Lease): World {
    w.(leases := w.leases[l.id := l], events := w.events + [NoteOf(m)])
  }

  // ---------------------------------------------------------------- all of them

  datatype Op =
    | Propose(proposal: Proposal)
    | Approve(proposalID: string, missionID: string, ref: string, now: Time)
    | DelegateTo(ref: string, delegation: DelegationRequest, missionID: string, childRef: string, now: Time)
    | End(ref: string, state: State, log: seq<Event>)
    | Expire(ref: string, now: Time)
    | SuspendMission(ref: string)
    | AskExpansion(ref: string, ask: ExpansionAsk, id: string, now: Time)
    | DecideExpansion(id: string, approver: Principal, approve: bool, now: Time)
    | SubmitApproval(id: string, approver: Principal, rule: Option<ApprovalRule>, now: Time)
    | Project(ref: string, request: ProjectionRequest, id: string, jti: string, now: Time)
    | ExchangeToken(exchange: ExchangeRequest, exchangeID: string, jti: string, now: Time)
    | RevokeToken(id: string, now: Time)
    | Lend(ref: string, versionSeen: int, actor: Actor, ttl: int, id: string, now: Time)
    | Refresh(id: string, actor: Actor, ttl: int, now: Time)
    | AddApprovalRule(approvalRule: ApprovalRule)
    | PutContainment(containment: ContainmentRule)
    | Remark(ref: string, version: int)

  /** The log of a cascade: it leads from the missions before it to those after it. Which of
      two siblings comes first is left to the log. */
  ghost predicate Logs(before: map<string, Mission>, log: seq<Event>, after: map<string, Mission>) {
    if log == [] then before == after
    else
      var e := log[0];
      && e.ref in before && e.kind.Became? && e.kind.state in {Completed, Revoked} && !Terminal(before[e.ref].state)
      && e == MovedEvent(before[e.ref], e.kind.state)
      && Logs(before[e.ref := Moved(before[e.ref], e.kind.state)], log[1..], after)
  }

  ghost function AfterApprove(w: World, proposalID: string, missionID: string, ref: string, now: Time): World {
    match ApproveProposal(w, proposalID, missionID, ref, now)
    case Err(_) => w
    case Ok(m) => Created(w.(proposals := w.proposals - {proposalID}), m, Activated)
  }

  ghost function AfterDelegate(w: World, ref: string, req: DelegationRequest, missionID: string, childRef: string, now: Time): World {
    match Delegate(w, ref, req, missionID, childRef, now)
    case Err(_) => w
    case Ok(m) => Created(w, m, Delegated)
  }

  ghost function AfterEnd(w: World, ref: string, state: State, log: seq<Event>): World {
    if ref in w.missions && state in {Completed, Revoked} && Logs(w.missions, log, Cascaded(w.missions, ref, state))
    then w.(missions := Cascaded(w.missions, ref, state), events := w.events + log)
    else w
  }

  function AfterExpire(w: World, ref: string, now: Time): World {
    if ref in w.missions && OutsideWindow(w.missions[ref], now) then Transition(w, ref, Expired) else w
  }

  function AfterSuspend(w: World, ref: string): World {
    if ref in w.missions && w.missions[ref].state == Active then Transition(w, ref, Suspended) else w
  }

  ghost function AfterAsk(w: World, ref: string, ask: ExpansionAsk, id: string, now: Time): World {
    match RequestExpansion(w, ref, ask, id, now)
    case Err(_) => w
    case Ok(e) => Requested(w, w.missions[ref], e)
  }

  ghost function AfterDecide(w: World, id: string, approver: Principal, approve: bool, enforce: bool, now: Time): World {
    match Decide(w, id, approver, approve, enforce, now)
    case Err(_) => w
    case Ok(w') => w'
  }

  ghost function AfterSubmit(w: World, id: string, approver: Principal, rule: Option<ApprovalRule>, now: Time): World {
    if id in w.expansions && !FirstMatch(w.approvalRules, w.expansions[id], rule) then w
    else Submit(w, id, approver, rule, now)
  }

  ghost function AfterProject(w: World, ref: string, req: ProjectionRequest, id: string, jti: string, now: Time): World {
    match CreateProjection(w, ref, req, id, jti, now)
    case Err(_) => w
    case Ok(p) => Projected(w, w.missions[ref], p)
  }

  ghost function AfterExchange(w: World, req: ExchangeRequest, exchangeID: string, jti: string, now: Time): World {
    match Exchange(w, req, exchangeID, jti, now)
    case Err(_) => w
    case Ok(c) => Exchanged(w, w.projections[req.token.projectionID], c, Trim(req.nonce))
  }

  ghost function AfterLend(w: World, ref: string, versionSeen: int, actor: Actor, ttl: int, id: string, now: Time): World {
    match CreateLease(w, ref, versionSeen, actor, ttl, id, now)
    case Err(_) => w
    case Ok(l) => Leased(w, w.missions[ref], l)
  }

  ghost function AfterRefresh(w: World, id: string, actor: Actor, ttl: int, now: Time): World {
    match RefreshLease(w, id, actor, ttl, now)
    case Err(_) => w
    case Ok(l) => Leased(w, w.missions[w.leases[id].missionRef], l)
  }

  ghost function Apply(w: World, op: Op): World {
    match op
    case Propose(p) => if p.id in w.proposals then w else w.(proposals := w.proposals[p.id := p])
    case Approve(pid, mid, ref, now) => AfterApprove(w, pid, mid, ref, now)
    case DelegateTo(ref, req, mid, child, now) => AfterDelegate(w, ref, req, mid, child, now)
    case End(ref, state, log) => AfterEnd(w, ref, state, log)
    case Expire(ref, now) => AfterExpire(w, ref, now)
    case SuspendMission(ref) => AfterSuspend(w, ref)
    case AskExpansion(ref, ask, id, now) => AfterAsk(w, ref, ask, id, now)
    case DecideExpansion(id, approver, approve, now) => AfterDecide(w, id, approver, approve, true, now)
    case SubmitApproval(id, approver, rule, now) => AfterSubmit(w, id, approver, rule, now)
    case Project(ref, req, id, jti, now) => AfterProject(w, ref, req, id, jti, now)
    case ExchangeToken(req, exchangeID, jti, now) => AfterExchange(w, req, exchangeID, jti, now)
    case RevokeToken(id, now) => RevokeProjection(w, id, now)
    case Lend(ref, seen, actor, ttl, id, now) => AfterLend(w, ref, seen, actor, ttl, id, now)
    case Refresh(id, actor, ttl, now) => AfterRefresh(w, id, actor, ttl, now)
    case AddApprovalRule(rule) =>
      if rule.id in w.approvalRules then w else w.(approvalRules := w.approvalRules[rule.id := rule])
    case PutContainment(rule) => w.(containments := w.containments[rule.id := rule])
    case Remark(ref, version) => w.(events := w.events + [Event(ref, Note, version, version)])
  }

  // ---------------------------------------------------------------- what a decision comes to

  /** From w to w' a pending request is decided: an approval merges it into the authority now
      stored, on an active mission, at the next version; a denial only decides. */
  ghost predicate DecidedTo(w: World, w': World, id: string, approver: Principal, approve: bool, now: Time) {
    && id in w.expansions && w.expansions[id].status == Pending && w.expansions[id].missionRef in w.missions
    && var e := w.expansions[id];
       var m := w.missions[e.missionRef];
       && w' == w.(missions := w'.missions, expansions := w'.expansions,
                   events := w.events + [if approve then Event(m.ref, ExpansionApproved, m.version, m.version + 1)
                                         else Event(m.ref, Note, m.version, m.version)])
       && w'.expansions == w.expansions[id := e.(
            status := if approve then Approved else ExpansionStatus.Denied, approver := approver, decidedAt := now)]
       && if approve
          then && m.state == Active && !ConflictsWithForbidden(m.region, e.requested)
               && w'.missions == w.missions[e.missionRef := m.(region := Merge(m.region, e.requested), version := m.version + 1)]
          else w'.missions == w.missions
  }

  lemma DecisionEffect(w: World, id: string, approver: Principal, approve: bool, enforce: bool, now: Time)
    requires Keyed(w.missions) && forall x <- w.expansions :: w.expansions[x].id == x
    requires Decide(w, id, approver, approve, enforce, now).Ok?
    ensures DecidedTo(w, Decide(w, id, approver, approve, enforce, now).value, id, approver, approve, now)
    ensures enforce && approve ==> FirstMatch(w.approvalRules, w.expansions[id], None)
  {
  }

  /** A submission is refused, or recorded; a recorded one waits, or is decided on. */
  lemma SubmissionEffect(w: World, id: string, approver: Principal, rule: Option<ApprovalRule>, now: Time)
    requires Submission(w, id, approver, rule, now).Ok?
    ensures id in w.expansions && forall r <- RecordsFor(w, id) :: !SameApprover(r.approver, approver)
    ensures var (record, required) := Submission(w, id, approver, rule, now).value;
            var w1 := Recorded(w, id, record);
            var e := w.expansions[id];
            && record.approver == approver && (rule.Some? ==> required == rule.value.required)
            && Submit(w, id, approver, rule, now) ==
               if |w1.approvals[id]| < required
               then w1.(events := w1.events + [Event(e.missionRef, Note, e.versionSeen, e.versionSeen)])
               else AfterDecide(w1, id, approver, true, false, now)
  {
  }

  /** The record joins the request's records, and the approver is told what is required and how many
      there are. */
  lemma SubmissionStored(w: World, id: string, approver: Principal, rule: Option<ApprovalRule>, now: Time)
    requires Submission(w, id, approver, rule, now).Ok?
    ensures var (record, required) := Submission(w, id, approver, rule, now).value;
            var records := (if id in w.approvals then w.approvals[id] else []) + [record];
            && required == (if rule.Some? then rule.value.required else 1)
            && Recorded(w, id, record) == w.(approvals := w.approvals[id := records])
            && var decided := Decide(Recorded(w, id, record), id, approver, true, false, now);
               match SubmissionResult(w, id, approver, rule, now)
               case Ok(answer) => answer == (required, |records|) && (|records| < required || decided.Ok?)
               case Err(error) => |records| >= required && decided == Err(error)
  {
  }
}
