/** What revoking or completing a mission does to its descendants, as a set of missions. */
module Cascade {
  import opened Basics
  import opened Model

  type Missions = map<string, Mission>

  /** x lies n parent links below top, and every mission on the way down to x is live. */
  ghost predicate Under(ms: Missions, top: string, n: nat, x: string) {
    if n == 0 then x == top
    else x in ms && Live(ms[x]) && Under(ms, top, n - 1, ms[x].delegation.parent)
  }

  /** top and all missions reachable from it through live missions. */
  ghost function Subtree(ms: Missions, top: string): set<string> {
    set x <- ms | exists n: nat :: Under(ms, top, n, x)
  }

  ghost function Kill(ms: Missions, dead: set<string>): Missions {
    map r <- ms :: if r in dead then Moved(ms[r], Revoked) else ms[r]
  }

  /** The missions after root moves to `state` and everything live below it is revoked. */
  ghost function Cascaded(ms: Missions, root: string, state: State): Missions {
    map r <- ms ::
      if r == root then Moved(ms[r], state)
      else if r in Subtree(ms, root) then Moved(ms[r], Revoked)
      else ms[r]
  }

  ghost function LiveRefs(ms: Missions): set<string> {
    set r <- ms | Live(ms[r])
  }

  /** Two subtrees hanging from one dead mission are apart: parent links are unique. */
  lemma {:induction false} SiblingsApart(ms: Missions, dead: string, c: string, n: nat, d: string, k: nat, x: string)
    requires c in ms && d in ms && ms[c].delegation.parent == dead == ms[d].delegation.parent
    requires dead in ms ==> !Live(ms[dead])
    requires Live(ms[c]) && Live(ms[d])
    requires Under(ms, c, n, x) && Under(ms, d, k, x)
    ensures c == d
  {
    if n == 0 || k == 0 {
    } else {
      SiblingsApart(ms, dead, c, n - 1, d, k - 1, ms[x].delegation.parent);
    }
  }

  lemma OnlyTopHangsFromDead(ms: Missions, dead: string, top: string, n: nat, x: string)
    requires Under(ms, top, n, x) && x in ms && ms[x].delegation.parent == dead
    requires top in ms && Live(ms[top]) && (dead in ms ==> !Live(ms[dead]))
    ensures x == top
  {
  }

  lemma {:induction false} UnderStable(ms: Missions, dead: set<string>, top: string, n: nat, x: string)
    requires dead !! Subtree(ms, top)
    ensures Under(Kill(ms, dead), top, n, x) <==> Under(ms, top, n, x)
  {
    if n == 0 || x !in ms {
    } else {
      UnderStable(ms, dead, top, n - 1, ms[x].delegation.parent);
      if Under(ms, top, n, x) {
        assert x in Subtree(ms, top);
      }
    }
  }

  /** Revoking missions outside a subtree does not change the subtree. */
  lemma SubtreeStable(ms: Missions, dead: set<string>, top: string)
    requires dead !! Subtree(ms, top)
    ensures Subtree(Kill(ms, dead), top) == Subtree(ms, top)
  {
    forall n: nat, x | x in ms
      ensures Under(Kill(ms, dead), top, n, x) <==> Under(ms, top, n, x)
    {
      UnderStable(ms, dead, top, n, x);
    }
  }

  /** The subtree of a mission that no longer lives: itself, and its live children's subtrees. */
  lemma {:induction false} UnderChild(ms: Missions, ms': Missions, root: string, n: nat, x: string) returns (child: string, k: nat)
    requires root in ms && root in ms' && ms' == ms[root := ms'[root]] && !Live(ms'[root])
    requires ms'[root].delegation == ms[root].delegation
    requires x != root && Under(ms, root, n, x)
    ensures child in ms' && Live(ms'[child]) && ms'[child].delegation.parent == root
    ensures Under(ms', child, k, x)
  {
    var parent := ms[x].delegation.parent;
    if parent == root {
      child, k := x, 0;
    } else {
      child, k := UnderChild(ms, ms', root, n - 1, parent);
      k := k + 1;
    }
  }

  lemma {:induction false} ChildUnder(ms: Missions, ms': Missions, root: string, child: string, k: nat, x: string)
    requires root in ms && root in ms' && ms' == ms[root := ms'[root]] && !Live(ms'[root])
    requires child in ms' && Live(ms'[child]) && ms'[child].delegation.parent == root
    requires Under(ms', child, k, x)
    ensures x != root && Under(ms, root, k + 1, x)
  {
    if k == 0 {
    } else {
      ChildUnder(ms, ms', root, child, k - 1, ms'[x].delegation.parent);
    }
  }

  /** The subtrees of all live children. */
  ghost function Below(ms: Missions, children: seq<Mission>): set<string> {
    set x <- ms | exists c <- children :: Live(c) && x in Subtree(ms, c.ref)
  }

  lemma BelowRoot(ms: Missions, ms': Missions, root: string, children: seq<Mission>)
    requires Keyed(ms) && Keyed(ms')
    requires root in ms && root in ms' && ms' == ms[root := ms'[root]] && !Live(ms'[root])
    requires ms'[root].delegation == ms[root].delegation
    requires forall c :: c in children <==> c.ref in ms' && ms'[c.ref] == c && c.delegation.parent == root
    ensures Below(ms', children) == Subtree(ms, root) - {root}
  {
    forall x | x in ms'
      ensures x in Below(ms', children) <==> x in Subtree(ms, root) - {root}
    {
      if x in Below(ms', children) {
        var c :| c in children && Live(c) && x in Subtree(ms', c.ref);
        var k: nat :| Under(ms', c.ref, k, x);
        ChildUnder(ms, ms', root, c.ref, k, x);
      }
      if x in Subtree(ms, root) - {root} {
        var n: nat :| Under(ms, root, n, x);
        var child, k := UnderChild(ms, ms', root, n, x);
        assert ms'[child] in children && x in Subtree(ms', ms'[child].ref);
      }
    }
  }

  /** One more child: its subtree joins the dead and was untouched before. */
  lemma BelowStep(ms: Missions, children: seq<Mission>, i: nat, root: string)
    requires Keyed(ms) && i < |children|
    requires root in ms ==> !Live(ms[root])
    requires forall c <- children :: c.ref in ms && ms[c.ref] == c && c.delegation.parent == root
    requires forall j, k :: 0 <= j < k < |children| ==> children[j].ref != children[k].ref
    ensures forall k :: i <= k < |children| ==> children[k].ref !in Below(ms, children[..i])
    ensures Live(children[i]) ==>
              && Below(ms, children[..i]) !! Subtree(ms, children[i].ref)
              && Below(ms, children[..i + 1]) == Below(ms, children[..i]) + Subtree(ms, children[i].ref)
    ensures !Live(children[i]) ==> Below(ms, children[..i + 1]) == Below(ms, children[..i])
  {
    forall k, x | i <= k < |children| && x in Below(ms, children[..i]) &&
                  (x == children[k].ref || (Live(children[k]) && x in Subtree(ms, children[k].ref)))
      ensures false
    {
      var c :| c in children[..i] && Live(c) && x in Subtree(ms, c.ref);
      var n: nat :| Under(ms, c.ref, n, x);
      if x == children[k].ref {
        OnlyTopHangsFromDead(ms, root, c.ref, n, x);
      } else {
        var m: nat :| Under(ms, children[k].ref, m, x);
        SiblingsApart(ms, root, c.ref, n, children[k].ref, m, x);
      }
    }
    assert children[..i + 1] == children[..i] + [children[i]];
  }

  lemma KillMore(ms: Missions, dead: set<string>, top: string)
    requires Keyed(ms) && top in ms && Live(ms[top]) && dead !! Subtree(ms, top)
    ensures Cascaded(Kill(ms, dead), top, Revoked) == Kill(ms, dead + Subtree(ms, top))
  {
    SubtreeStable(ms, dead, top);
    assert Under(ms, top, 0, top);
  }

  /** Every cascaded mission is a legal successor of what was there. */
  lemma CascadedEvolves(ms: Missions, root: string, state: State)
    requires Terminal(state)
    ensures Evolves(ms, Cascaded(ms, root, state))
    ensures Keyed(ms) ==> Keyed(Cascaded(ms, root, state))
  {
  }

  lemma {:induction false} ChainUnder(ms: Missions, root: string, path: seq<string>)
    requires path != [] && path[|path| - 1] == root
    requires forall i :: 0 <= i < |path| - 1 ==>
               && path[i] in ms && (ms[path[i]].state == Active || ms[path[i]].state == Suspended)
               && ms[path[i]].delegation.parent == path[i + 1]
    ensures Under(ms, root, |path| - 1, path[0])
  {
    if |path| == 1 {
    } else {
      assert forall i :: 0 <= i < |path[1..]| ==> path[1..][i] == path[i + 1];
      ChainUnder(ms, root, path[1..]);
    }
  }

  lemma {:induction false} UnderChain(ms: Missions, root: string, n: nat, r: string) returns (path: seq<string>)
    requires Under(ms, root, n, r)
    ensures |path| == n + 1 && path[0] == r && path[n] == root
    ensures forall i :: 0 <= i < n ==>
              && path[i] in ms && (ms[path[i]].state == Active || ms[path[i]].state == Suspended)
              && ms[path[i]].delegation.parent == path[i + 1]
  {
    if n == 0 {
      path := [r];
    } else {
      var rest := UnderChain(ms, root, n - 1, ms[r].delegation.parent);
      path := [r] + rest;
    }
  }

  /** Exactly these missions change: the root, unless it has ended, and every other mission from
      which parent links lead to the root through active and suspended missions only, itself
      included; each by exactly one version. */
  lemma CascadeExact(ms: Missions, root: string, state: State, r: string)
    requires Keyed(ms) && root in ms && r in ms && state in {Completed, Revoked}
    ensures var m' := Cascaded(ms, root, state)[r];
            if r == root then
              m' == if ms[r].state in {Completed, Revoked, Expired, Rejected} then ms[r] else ms[r].(state := state, version := ms[r].version + 1)
            else if exists path: seq<string> ::
              && |path| > 1 && path[0] == r && path[|path| - 1] == root
              && forall i :: 0 <= i < |path| - 1 ==>
                   && path[i] in ms && (ms[path[i]].state == Active || ms[path[i]].state == Suspended)
                   && ms[path[i]].delegation.parent == path[i + 1]
            then m' == ms[r].(state := Revoked, version := ms[r].version + 1)
            else m' == ms[r]
  {
    if r != root {
      if n: nat :| Under(ms, root, n, r) {
        var path := UnderChain(ms, root, n, r);
        assert |path| > 1 && path[0] == r && path[|path| - 1] == root;
      }
      if path: seq<string> :|
        && |path| > 1 && path[0] == r && path[|path| - 1] == root
        && forall i :: 0 <= i < |path| - 1 ==>
             && path[i] in ms && (ms[path[i]].state == Active || ms[path[i]].state == Suspended)
             && ms[path[i]].delegation.parent == path[i + 1]
      {
        ChainUnder(ms, root, path);
        assert path[0] == r && r in Subtree(ms, root);
      }
    }
  }

  /** In particular every live child of the root is revoked, and what is neither live nor the root
      stays as it is. */
  lemma ChildrenRevoked(ms: Missions, root: string, state: State)
    requires Keyed(ms) && root in ms && state in {Completed, Revoked}
    ensures forall r <- ms :: r != root && ms[r].delegation.parent == root && (ms[r].state == Active || ms[r].state == Suspended) ==>
              Cascaded(ms, root, state)[r] == ms[r].(state := Revoked, version := ms[r].version + 1)
    ensures forall r <- ms :: r != root && ms[r].state != Active && ms[r].state != Suspended ==> Cascaded(ms, root, state)[r] == ms[r]
  {
    forall r | r in ms && r != root && ms[r].delegation.parent == root && (ms[r].state == Active || ms[r].state == Suspended)
      ensures Cascaded(ms, root, state)[r] == ms[r].(state := Revoked, version := ms[r].version + 1)
    {
      ChainUnder(ms, root, [r, root]);
      assert r in Subtree(ms, root);
    }
  }
}
