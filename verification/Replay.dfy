/** The event log as the history of every mission. */
module Replay {
  import opened Basics
  import opened Model
  import opened Cascade
  import opened Operations

  datatype Trail = Trail(state: State, version: int)

  type Trails = map<string, Trail>

  /** Replays one event. An event whose versions are equal tells nothing; any other must carry
      on exactly where the mission's history stands, or the log has a gap. */
  function Follow(t: Trails, e: Event): Option<Trails> {
    if e.before == e.after then Some(t)
    else match e.kind
      case Activated => Begin(t, e)
      case Delegated => Begin(t, e)
      case Became(state) =>
        if Continues(t, e) && !Terminal(t[e.ref].state) && Reachable(t[e.ref].state, state)
        then Some(t[e.ref := Trail(state, e.after)]) else None
      case ExpansionApproved =>
        if Continues(t, e) && t[e.ref].state == Active then Some(t[e.ref := Trail(Active, e.after)]) else None
      case Note => None
  }

  function Begin(t: Trails, e: Event): Option<Trails> {
    if e.ref !in t && e.before == 0 && e.after == 1 then Some(t[e.ref := Trail(Active, 1)]) else None
  }

  predicate Continues(t: Trails, e: Event) {
    e.ref in t && t[e.ref].version == e.before && e.after == e.before + 1
  }

  /** The state changes there are: suspension of an active mission, and an end. */
  predicate Reachable(from: State, to: State) {
    to in {Completed, Revoked, Expired} || (to == Suspended && from == Active)
  }

  function Replay(t: Trails, log: seq<Event>): Option<Trails>
    decreases log
  {
    if log == [] then Some(t)
    else match Follow(t, log[0])
      case None => None
      case Some(t') => Replay(t', log[1..])
  }

  ghost function Histories(ms: map<string, Mission>): Trails {
    map r <- ms :: Trail(ms[r].state, ms[r].version)
  }

  /** The log tells the state and version of every mission, without a gap. */
  ghost predicate Faithful(ms: map<string, Mission>, log: seq<Event>) {
    Replay(map[], log) == Some(Histories(ms))
  }

  lemma {:induction false} ReplayOn(t: Trails, log: seq<Event>, more: seq<Event>)
    requires Replay(t, log).Some?
    ensures Replay(t, log + more) == Replay(Replay(t, log).value, more)
    decreases log
  {
    if log == [] {
      assert log + more == more;
    } else {
      assert (log + more)[1..] == log[1..] + more;
      ReplayOn(Follow(t, log[0]).value, log[1..], more);
    }
  }

  lemma OneMore(ms: map<string, Mission>, log: seq<Event>, e: Event, ms': map<string, Mission>)
    requires Faithful(ms, log) && Follow(Histories(ms), e) == Some(Histories(ms'))
    ensures Faithful(ms', log + [e])
  {
    ReplayOn(map[], log, [e]);
    assert Replay(Histories(ms), [e]) == Replay(Histories(ms'), [e][1..]);
  }

  /** The log of a cascade leads the histories along with the missions. */
  lemma {:induction false} CascadeLogFollows(before: map<string, Mission>, log: seq<Event>, after: map<string, Mission>)
    requires Keyed(before) && Logs(before, log, after)
    ensures Replay(Histories(before), log) == Some(Histories(after))
  {
    if log == [] {
    } else {
      var e := log[0];
      var next := before[e.ref := Moved(before[e.ref], e.kind.state)];
      assert Histories(next) == Histories(before)[e.ref := Trail(e.kind.state, e.after)];
      CascadeLogFollows(next, log[1..], after);
    }
  }

  // ---------------------------------------------------------------- counting

  predicate Counts(e: Event, ref: string, moves: bool) {
    e.before != e.after && e.ref == ref && (if moves then e.kind.Became? else e.kind.ExpansionApproved?)
  }

  function Count(log: seq<Event>, ref: string, moves: bool): nat {
    if log == [] then 0 else (if Counts(log[0], ref, moves) then 1 else 0) + Count(log[1..], ref, moves)
  }

  function Rank(state: State): nat {
    if Terminal(state) then 2 else if state == Suspended then 1 else 0
  }

  lemma {:induction false} CountsAlong(t: Trails, log: seq<Event>, ref: string)
    requires Replay(t, log).Some?
    ensures var t' := Replay(t, log).value;
            && (ref in t ==> ref in t')
            && (ref in t' ==>
                  var version, rank := if ref in t then t[ref].version else 1, if ref in t then Rank(t[ref].state) else 0;
                  && t'[ref].version == version + Count(log, ref, false) + Count(log, ref, true)
                  && rank + Count(log, ref, true) <= Rank(t'[ref].state))
            && (ref !in t' ==> Count(log, ref, false) == Count(log, ref, true) == 0)
    decreases log
  {
    if log == [] {
    } else {
      CountsAlong(Follow(t, log[0]).value, log[1..], ref);
    }
  }

  /** A mission's version counts its approved expansions and its changes of state, of which
      there are never more than two. */
  lemma VersionCounts(ms: map<string, Mission>, log: seq<Event>, ref: string)
    requires Faithful(ms, log) && ref in ms
    ensures ms[ref].version == 1 + Count(log, ref, false) + Count(log, ref, true)
    ensures Count(log, ref, true) <= 2
  {
    CountsAlong(map[], log, ref);
  }

  lemma {:induction false} CascadeApprovesNothing(before: map<string, Mission>, log: seq<Event>, after: map<string, Mission>, ref: string)
    requires Logs(before, log, after)
    ensures Count(log, ref, false) == 0
    decreases log
  {
    if log == [] {
    } else {
      var e := log[0];
      CascadeApprovesNothing(before[e.ref := Moved(before[e.ref], e.kind.state)], log[1..], after, ref);
    }
  }

  /** The log of a cascade has exactly one event for every mission that changes, and none for
      any other. */
  lemma CascadeLogOnce(ms: map<string, Mission>, root: string, state: State, log: seq<Event>, ref: string)
    requires Keyed(ms) && ref in ms && Logs(ms, log, Cascaded(ms, root, state))
    ensures Count(log, ref, true) == if Cascaded(ms, root, state)[ref] == ms[ref] then 0 else 1
  {
    CascadeLogFollows(ms, log, Cascaded(ms, root, state));
    CountsAlong(Histories(ms), log, ref);
    CascadeApprovesNothing(ms, log, Cascaded(ms, root, state), ref);
  }

  // ---------------------------------------------------------------- in the fields

  /** How many events of the log change the mission's version. */
  function Changes(log: seq<Event>, ref: string): nat {
    if log == [] then 0 else (if log[0].ref == ref && log[0].before != log[0].after then 1 else 0) + Changes(log[1..], ref)
  }

  function VersionIn(t: Trails, ref: string): int {
    if ref in t then t[ref].version else 0
  }

  lemma {:induction false} ChangesFollow(t: Trails, log: seq<Event>, i: nat)
    requires Replay(t, log).Some? && i < |log| && log[i].before != log[i].after
    ensures log[i].after == log[i].before + 1 && log[i].before == VersionIn(t, log[i].ref) + Changes(log[..i], log[i].ref)
    decreases log
  {
    if i == 0 {
    } else {
      assert log[..i][1..] == log[1..][..i - 1] && log[i] == log[1..][i - 1];
      ChangesFollow(Follow(t, log[0]).value, log[1..], i - 1);
    }
  }

  lemma {:induction false} UntouchedTrail(t: Trails, log: seq<Event>, ref: string)
    requires Replay(t, log).Some? && ref in t && forall k :: 0 <= k < |log| && log[k].ref == ref ==> log[k].before == log[k].after
    ensures ref in Replay(t, log).value && Replay(t, log).value[ref] == t[ref]
    decreases log
  {
    if log == [] {
    } else {
      assert forall k :: 0 <= k < |log[1..]| ==> log[1..][k] == log[k + 1];
      UntouchedTrail(Follow(t, log[0]).value, log[1..], ref);
    }
  }

  lemma {:induction false} LastChangeTells(t: Trails, log: seq<Event>, i: nat)
    requires Replay(t, log).Some? && i < |log| && log[i].before != log[i].after
    requires forall k :: i < k < |log| && log[k].ref == log[i].ref ==> log[k].before == log[k].after
    ensures var t' := Replay(t, log).value;
            log[i].ref in t' && t'[log[i].ref] == Trail(if log[i].kind.Became? then log[i].kind.state else Active, log[i].after)
    decreases log
  {
    assert forall k :: 0 <= k < |log[1..]| ==> log[1..][k] == log[k + 1];
    if i == 0 {
      UntouchedTrail(Follow(t, log[0]).value, log[1..], log[0].ref);
    } else {
      LastChangeTells(Follow(t, log[0]).value, log[1..], i - 1);
    }
  }

  /** The log in its own fields: each change of a mission goes one version up from where the changes
      before it have led, from nothing; and the last one tells the mission's version and state. */
  lemma LogInFields(ms: map<string, Mission>, log: seq<Event>, i: nat)
    requires Faithful(ms, log) && i < |log| && log[i].before != log[i].after
    ensures log[i].after == log[i].before + 1 && log[i].before == Changes(log[..i], log[i].ref)
    ensures (forall k :: i < k < |log| && log[k].ref == log[i].ref ==> log[k].before == log[k].after) ==>
              && log[i].ref in ms && ms[log[i].ref].version == log[i].after
              && ms[log[i].ref].state == if log[i].kind.Became? then log[i].kind.state else Active
  {
    ChangesFollow(map[], log, i);
    if forall k :: i < k < |log| && log[k].ref == log[i].ref ==> log[k].before == log[k].after {
      LastChangeTells(map[], log, i);
    }
  }
}
