/** The records of types.go, governance.go, advanced_governance.go and grand_governance.go, and
    the contents of the store as one value. */
module Model {
  import opened Basics
  import opened Authority

  datatype State = Draft | PendingApproval | Active | Suspended | Completed | Revoked | Expired | Rejected

  datatype Principal = Principal(subject: string, issuer: string, tenantSubject: string)

  datatype Agent = Agent(clientID: string, instanceID: string, thumbprint: string)

  datatype Actor = Actor(instanceID: string, clientID: string, thumbprint: string)

  datatype Condition = Condition(id: string, expression: string, onFailure: string)

  datatype Delegation = Delegation(permitted: bool, maxDepth: int, depth: int, cascade: bool, parent: string)

  datatype Mission = Mission(
    id: string, ref: string, tenant: string, state: State, version: int, principal: Principal, agent: Agent,
    region: Region, conditions: seq<Condition>, notBefore: Time, expiresAt: Time, delegation: Delegation)

  datatype Proposal = Proposal(
    id: string, tenant: string, principal: Principal, agent: Agent, region: Region,
    conditions: seq<Condition>, notBefore: Time, expiresAt: Time, delegation: Delegation)

  datatype ExpansionStatus = Pending | Approved | Denied

  datatype Expansion = Expansion(
    id: string, missionRef: string, versionSeen: int, tenant: string, requester: Actor, action: Action,
    risk: string, requested: Region, status: ExpansionStatus, approver: Principal, decidedAt: Time)

  /** The signed payload of a credential access token, which stands for the token. */
  datatype Credential = Credential(
    jti: string, exchangeID: string, projectionID: string, missionRef: string, missionVersion: int,
    actor: Actor, scopes: set<string>, audience: string, tool: string, resource: Option<Resource>,
    operation: string, notBefore: Time, expiresAt: Time)

  datatype ExchangeRecord = ExchangeRecord(
    exchangeID: string, jti: string, nonce: string, actor: Actor, scopes: set<string>, token: Credential,
    revoked: bool, revokedAt: Time, issuedAt: Time, expiresAt: Time)

  /** The signed payload of a projection token, as far as the broker reads it. */
  datatype GrantToken = GrantToken(jti: string, projectionID: string)

  datatype Projection = Projection(
    id: string, missionRef: string, missionVersion: int, tenant: string, actor: Actor,
    scopes: seq<string>, claimed: seq<string>, audience: string, tool: string, resource: Option<Resource>,
    operation: string, token: GrantToken, revoked: bool, revokedAt: Time, issuedAt: Time, expiresAt: Time,
    records: seq<ExchangeRecord>)

  datatype Lease = Lease(
    id: string, missionRef: string, missionVersion: int, tenant: string, actor: Actor, createdAt: Time,
    expiresAt: Time, refreshedAt: Time)

  datatype ApprovalRule = ApprovalRule(
    id: string, tenant: string, resourceType: string, resourceID: string, operation: string,
    riskLevel: string, required: int, subjects: seq<string>, issuers: seq<string>)

  datatype ApprovalRecord = ApprovalRecord(ruleID: string, approver: Principal, at: Time)

  datatype Target = AgentTarget | PrincipalTarget | ToolTarget | ResourceTarget | MissionTarget | TenantTarget

  datatype ContainmentRule = ContainmentRule(
    id: string, tenant: string, target: Target, targetID: string, active: bool, expiresAt: Time)

  /** `Became` is "mission." followed by the new state; `Note` is every event that changes no version. */
  datatype EventKind = Activated | Delegated | Became(state: State) | ExpansionApproved | Note

  datatype Event = Event(ref: string, kind: EventKind, before: int, after: int)

  /** MemoryStore's maps and event log, with the tokens signed so far. */
  datatype World = World(
    missions: map<string, Mission>,
    proposals: map<string, Proposal>,
    expansions: map<string, Expansion>,
    projections: map<string, Projection>,
    leases: map<string, Lease>,
    approvalRules: map<string, ApprovalRule>,
    approvals: map<string, seq<ApprovalRecord>>,
    containments: map<string, ContainmentRule>,
    grants: set<GrantToken>,
    credentials: set<Credential>,
    events: seq<Event>)

  const EMPTY := World(map[], map[], map[], map[], map[], map[], map[], map[], {}, {}, [])

  // ---------------------------------------------------------------- predicates of service.go

  predicate Terminal(state: State) {
    state in {Completed, Revoked, Expired, Rejected}
  }

  predicate Live(m: Mission) {
    m.state == Active || m.state == Suspended
  }

  predicate ActorMatches(m: Mission, actor: Actor) {
    && actor.instanceID != "" && actor.clientID != ""
    && m.agent.instanceID == actor.instanceID && m.agent.clientID == actor.clientID
    && (m.agent.thumbprint != "" ==> m.agent.thumbprint == actor.thumbprint)
  }

  /** expired: also true before the mission's start. */
  predicate OutsideWindow(m: Mission, now: Time) {
    now < m.notBefore || (m.expiresAt != 0 && m.expiresAt < now)
  }

  /** ensureMissionUsableForActor returns nil. */
  predicate Usable(m: Mission, actor: Actor, versionSeen: int, now: Time) {
    && !OutsideWindow(m, now) && m.state == Active && ActorMatches(m, actor)
    && !(0 < versionSeen < m.version)
  }

  // ---------------------------------------------------------------- how missions change

  /** The mission transition stores. */
  function Moved(m: Mission, state: State): Mission {
    if Terminal(m.state) then m else m.(state := state, version := m.version + 1)
  }

  function MovedEvent(m: Mission, state: State): Event {
    Event(m.ref, Became(state), m.version, m.version + 1)
  }

  /** What one mission can become: the version decides the record, only Active leads to
      Active, a terminal mission is final, and only state, version and region ever change. */
  ghost predicate Evolved(m: Mission, m': Mission) {
    && m.version <= m'.version
    && (m.version == m'.version ==> m == m')
    && (m.state != Active ==> m'.state != Active && m'.region == m.region)
    && (Terminal(m.state) ==> m' == m)
    && m' == m.(state := m'.state, version := m'.version, region := m'.region)
  }

  ghost predicate Evolves(ms: map<string, Mission>, ms': map<string, Mission>) {
    forall r <- ms :: r in ms' && Evolved(ms[r], ms'[r])
  }

  lemma EvolvesTransitive(a: map<string, Mission>, b: map<string, Mission>, c: map<string, Mission>)
    requires Evolves(a, b) && Evolves(b, c)
    ensures Evolves(a, c)
  {
    forall r | r in a
      ensures r in c && Evolved(a[r], c[r])
    {
      assert r in b && Evolved(a[r], b[r]) && Evolved(b[r], c[r]);
    }
  }

  predicate Keyed(ms: map<string, Mission>) {
    forall r <- ms :: ms[r].ref == r && ms[r].version >= 1
  }
}
