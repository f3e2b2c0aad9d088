/** Decisions on expansion requests made concurrently. decideExpansionRequest reads the request,
    then the mission, and commits with compare-and-set; here any number of such calls advance
    in any order, with every other operation of the service between their steps. */
module Interleaving {
  import opened Basics
  import opened Authority
  import opened Model
  import opened Operations
  import opened Runs

  /** A call in flight: it has read the request, or prepared its commit from what it read. */
  datatype Call =
    | Loaded(expansion: Expansion, approve: bool, approver: Principal)
    | Prepared(expansion: Expansion, mission: Mission, commit: Commit)

  datatype System = System(w: World, calls: map<nat, Call>)

  /** One step. Whether the guard stops a call is its own reading of the rules, so the model
      lets it go either way. */
  datatype Move =
    | Serve(op: Op)
    | Load(call: nat, id: string, approve: bool, approver: Principal)
    | Read(call: nat, contained: bool, now: Time)
    | Finish(call: nat)

  function LoadCall(s: System, call: nat, id: string, approve: bool, approver: Principal): System {
    match LoadExpansion(s.w, id)
    case Err(_) => s
    case Ok(e) => if call in s.calls then s else s.(calls := s.calls[call := Loaded(e, approve, approver)])
  }

  function ReadCall(s: System, call: nat, contained: bool, now: Time): System {
    if call !in s.calls || !s.calls[call].Loaded? then s
    else
      var Loaded(e, approve, approver) := s.calls[call];
      if e.missionRef !in s.w.missions then s.(calls := s.calls - {call})
      else
        var m := s.w.missions[e.missionRef];
        match Prepare(e, m, approve, contained, approver, now)
        case Err(_) => s.(calls := s.calls - {call})
        case Ok(c) => s.(calls := s.calls[call := Prepared(e, m, c)])
  }

  predicate Succeeds(s: System, call: nat) {
    call in s.calls && s.calls[call].Prepared? && CommitDecision(s.w, s.calls[call].commit).Ok?
  }

  function FinishCall(s: System, call: nat): System {
    if Succeeds(s, call) then System(CommitDecision(s.w, s.calls[call].commit).value, s.calls - {call})
    else if call in s.calls && s.calls[call].Prepared? then s.(calls := s.calls - {call})
    else s
  }

  ghost function Next(s: System, move: Move): System {
    match move
    case Serve(op) => s.(w := Apply(s.w, op))
    case Load(call, id, approve, approver) => LoadCall(s, call, id, approve, approver)
    case Read(call, contained, now) => ReadCall(s, call, contained, now)
    case Finish(call) => FinishCall(s, call)
  }

  // ---------------------------------------------------------------- what calls may rely on

  ghost predicate SeenExpansion(w: World, e: Expansion) {
    e.status == Pending && e.id in w.expansions && ExpansionEvolved(e, w.expansions[e.id])
  }

  /** What was read may be out of date, but only the way requests and missions evolve. */
  ghost predicate CallOk(w: World, c: Call) {
    && SeenExpansion(w, c.expansion)
    && (c.Prepared? ==>
          && c.mission.ref == c.expansion.missionRef && c.mission.ref in w.missions
          && Evolved(c.mission, w.missions[c.mission.ref])
          && exists approve, contained, approver, now :: Prepare(c.expansion, c.mission, approve, contained, approver, now) == Ok(c.commit))
  }

  ghost predicate SystemInv(s: System) {
    Inv(s.w) && forall call <- s.calls :: CallOk(s.w, s.calls[call])
  }

  lemma CallsSurvive(w: World, w': World, c: Call)
    requires CallOk(w, c) && WorldEvolves(w, w')
    ensures CallOk(w', c)
  {
    assert ExpansionEvolved(w.expansions[c.expansion.id], w'.expansions[c.expansion.id]);
    if c.Prepared? {
      assert Evolved(w.missions[c.mission.ref], w'.missions[c.mission.ref]);
    }
  }

  /** The commit's comparisons are enough: where they succeed, what the call read is what is
      stored, so its commit is the decision on the present request and mission. */
  lemma SuccessIsCurrent(w: World, c: Call)
    requires Inv(w) && CallOk(w, c) && c.Prepared? && CommitDecision(w, c.commit).Ok?
    ensures w.expansions[c.expansion.id] == c.expansion
    ensures c.commit.mission.Some? ==> w.missions[c.mission.ref] == c.mission
    ensures SoundCommit(w, c.commit)
  {
  }

  lemma LoadKeeps(s: System, call: nat, id: string, approve: bool, approver: Principal)
    requires SystemInv(s)
    ensures SystemInv(LoadCall(s, call, id, approve, approver)) && LoadCall(s, call, id, approve, approver).w == s.w
  {
    if LoadExpansion(s.w, id).Ok? {
      assert ExpansionOk(s.w.missions, id, s.w.expansions[id]);
    }
  }

  lemma ReadKeeps(s: System, call: nat, contained: bool, now: Time)
    requires SystemInv(s)
    ensures SystemInv(ReadCall(s, call, contained, now)) && ReadCall(s, call, contained, now).w == s.w
  {
    if call in s.calls && s.calls[call].Loaded? && s.calls[call].expansion.missionRef in s.w.missions {
      var c := s.calls[call];
      var m := s.w.missions[c.expansion.missionRef];
      var r := Prepare(c.expansion, m, c.approve, contained, c.approver, now);
      assert CallOk(s.w, c);
      if r.Ok? {
        assert CallOk(s.w, Prepared(c.expansion, m, r.value));
      }
    }
  }

  lemma FinishKeeps(s: System, call: nat)
    requires SystemInv(s)
    ensures SystemInv(FinishCall(s, call)) && WorldEvolves(s.w, FinishCall(s, call).w)
  {
    Unchanged(s.w);
    if Succeeds(s, call) {
      SuccessIsCurrent(s.w, s.calls[call]);
      CommitKeeps(s.w, s.calls[call].commit);
      forall other | other in s.calls
        ensures CallOk(FinishCall(s, call).w, s.calls[other])
      {
        CallsSurvive(s.w, FinishCall(s, call).w, s.calls[other]);
      }
    }
  }

  lemma NextKeeps(s: System, move: Move)
    requires SystemInv(s)
    ensures SystemInv(Next(s, move)) && WorldEvolves(s.w, Next(s, move).w)
  {
    Unchanged(s.w);
    match move
    case Serve(op) =>
      StepKeeps(s.w, op);
      forall call | call in s.calls
        ensures CallOk(Apply(s.w, op), s.calls[call])
      {
        CallsSurvive(s.w, Apply(s.w, op), s.calls[call]);
      }
    case Load(call, id, approve, approver) => LoadKeeps(s, call, id, approve, approver);
    case Read(call, contained, now) => ReadKeeps(s, call, contained, now);
    case Finish(call) => FinishKeeps(s, call);
  }

  // ---------------------------------------------------------------- runs

  ghost function Advance(s: System, moves: seq<Move>): System
    decreases moves
  {
    if moves == [] then s else Advance(Next(s, moves[0]), moves[1..])
  }

  /** Concurrent decisions break nothing that holds of atomic ones. */
  lemma {:induction false} AdvanceKeeps(s: System, moves: seq<Move>)
    requires SystemInv(s)
    ensures SystemInv(Advance(s, moves)) && WorldEvolves(s.w, Advance(s, moves).w)
    decreases moves
  {
    if moves == [] {
      Unchanged(s.w);
    } else {
      NextKeeps(s, moves[0]);
      AdvanceKeeps(Next(s, moves[0]), moves[1..]);
      WorldEvolvesTransitive(s.w, Next(s, moves[0]).w, Advance(s, moves).w);
    }
  }

  /** From w to w' a pending request of an active mission is approved: the request joins the
      authority stored in w, one version up, and nothing else is written. */
  ghost predicate MergedIntoPresent(w: World, w': World, e: Expansion) {
    && e.id in w.expansions && w.expansions[e.id] == e && e.status == Pending && e.missionRef in w.missions
    && var m := w.missions[e.missionRef];
       && m.state == Active && (e.versionSeen <= 0 || e.versionSeen == m.version)
       && (forall g <- e.requested.grants :: forall a <- g.actions :: "*" !in m.region.forbidden && a !in m.region.forbidden)
       && w'.missions == w.missions[m.ref := m.(region := Merge(m.region, e.requested), version := m.version + 1)]
       && e.id in w'.expansions && w'.expansions[e.id].status == Approved
       && w' == w.(missions := w'.missions, expansions := w.expansions[e.id := w'.expansions[e.id]],
                   events := w.events + [Event(m.ref, ExpansionApproved, m.version, m.version + 1)])
  }

  lemma PreparedFrom(w: World, c: Call)
    requires CallOk(w, c) && c.Prepared? && c.commit.mission.Some?
    ensures c.mission.state == Active && !ConflictsWithForbidden(c.mission.region, c.expansion.requested)
    ensures c.expansion.versionSeen <= 0 || c.expansion.versionSeen == c.mission.version
    ensures c.commit.mission.value == c.mission.(region := Merge(c.mission.region, c.expansion.requested), version := c.mission.version + 1)
    ensures c.commit.expansion.id == c.expansion.id && c.commit.expansion.status == Approved
    ensures c.commit.event == Event(c.mission.ref, ExpansionApproved, c.mission.version, c.mission.version + 1)
  {
  }

  lemma MergesIntoPresent(s: System, call: nat)
    requires SystemInv(s) && Succeeds(s, call) && s.calls[call].commit.mission.Some?
    ensures MergedIntoPresent(s.w, FinishCall(s, call).w, s.calls[call].expansion)
  {
    SuccessIsCurrent(s.w, s.calls[call]);
    PreparedFrom(s.w, s.calls[call]);
    ConflictInFields(s.calls[call].mission.region, s.calls[call].expansion.requested);
  }

  /** However calls and operations interleave, an approval that succeeds found its request still
      pending and its mission active, and merges into the authority now stored: one version up,
      nothing lost, and nothing else written. */
  lemma ApprovalMergesIntoPresent(moves: seq<Move>, call: nat)
    requires var s := Advance(System(EMPTY, map[]), moves);
             Succeeds(s, call) && s.calls[call].commit.mission.Some?
    ensures var s := Advance(System(EMPTY, map[]), moves);
            MergedIntoPresent(s.w, FinishCall(s, call).w, s.calls[call].expansion)
  {
    Start();
    AdvanceKeeps(System(EMPTY, map[]), moves);
    MergesIntoPresent(Advance(System(EMPTY, map[]), moves), call);
  }

  predicate IsDecided(w: World, id: string) {
    id in w.expansions && w.expansions[id].status != Pending
  }

  /** How often a step of this run decides the request. */
  ghost function Decisions(s: System, moves: seq<Move>, id: string): nat
    decreases moves
  {
    if moves == [] then 0
    else
      var s' := Next(s, moves[0]);
      (if !IsDecided(s.w, id) && IsDecided(s'.w, id) then 1 else 0) + Decisions(s', moves[1..], id)
  }

  /** A successful commit decides, so this bounds the commits that succeed. */
  lemma SuccessDecides(s: System, call: nat)
    requires SystemInv(s) && Succeeds(s, call)
    ensures var id := s.calls[call].expansion.id; !IsDecided(s.w, id) && IsDecided(FinishCall(s, call).w, id)
  {
    SuccessIsCurrent(s.w, s.calls[call]);
  }

  lemma {:induction false} DecidedOnce(s: System, moves: seq<Move>, id: string)
    requires SystemInv(s)
    ensures Decisions(s, moves, id) <= 1
    ensures IsDecided(s.w, id) ==> Decisions(s, moves, id) == 0
    ensures IsDecided(s.w, id) ==> id in Advance(s, moves).w.expansions && Advance(s, moves).w.expansions[id] == s.w.expansions[id]
    decreases moves
  {
    if moves == [] {
    } else {
      NextKeeps(s, moves[0]);
      var s' := Next(s, moves[0]);
      DecidedOnce(s', moves[1..], id);
      if IsDecided(s.w, id) {
        assert ExpansionEvolved(s.w.expansions[id], s'.w.expansions[id]);
      }
    }
  }
}
