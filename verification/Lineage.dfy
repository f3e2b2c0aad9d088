/** The missions of one lineage: governance_read.go's relatedMissionClosure. */
module Lineage {
  import opened Basics
  import opened Model
  import opened Containment

  ghost predicate Stored(missions: seq<Mission>, ref: string) {
    exists m <- missions :: m.ref == ref
  }

  /** One stored mission is the parent of the other. */
  ghost predicate Linked(missions: seq<Mission>, a: string, b: string) {
    && Stored(missions, a) && Stored(missions, b)
    && exists m <- missions :: (m.ref == a && m.delegation.parent == b) || (m.ref == b && m.delegation.parent == a)
  }

  /** A walk of n links, in either direction, from a to b. */
  ghost predicate Walk(missions: seq<Mission>, a: string, n: nat, b: string) {
    if n == 0 then a == b && Stored(missions, a)
    else exists m <- missions :: Walk(missions, a, n - 1, m.ref) && Linked(missions, m.ref, b)
  }

  ghost predicate Connected(missions: seq<Mission>, a: string, b: string) {
    exists n: nat :: Walk(missions, a, n, b)
  }

  lemma ConnectedStep(missions: seq<Mission>, a: string, m: Mission, b: string)
    requires m in missions && Connected(missions, a, m.ref) && Linked(missions, m.ref, b)
    ensures Connected(missions, a, b)
  {
    var n: nat :| Walk(missions, a, n, m.ref);
    assert Walk(missions, a, n + 1, b);
  }

  /** A set of references closed under links holds everything connected to its members. */
  lemma {:induction false} ClosedHoldsWalks(missions: seq<Mission>, refs: set<string>, a: string, n: nat, b: string)
    requires a in refs
    requires forall x, y :: x in refs && Linked(missions, x, y) ==> y in refs
    requires Walk(missions, a, n, b)
    ensures b in refs
  {
    if n == 0 {
    } else {
      var m :| m in missions && Walk(missions, a, n - 1, m.ref) && Linked(missions, m.ref, b);
      ClosedHoldsWalks(missions, refs, a, n - 1, m.ref);
    }
  }

  /** What the loops keep: stored missions under their own names, all connected to the target. */
  ghost predicate Partial(missions: seq<Mission>, ref: string, related: map<string, Mission>) {
    && ref in related
    && forall r <- related :: related[r].ref == r && related[r] in missions && Connected(missions, ref, r)
  }

  /** The turn of the inner loop for this mission would add nothing. */
  ghost predicate Settled(missions: seq<Mission>, related: map<string, Mission>, m: Mission) {
    && (m.ref in related && Stored(missions, m.delegation.parent) ==> m.delegation.parent in related)
    && (m.delegation.parent in related ==> m.ref in related)
  }

  ghost predicate AllSettled(missions: seq<Mission>, related: map<string, Mission>, n: nat)
    requires n <= |missions|
  {
    n == 0 || (Settled(missions, related, missions[n - 1]) && AllSettled(missions, related, n - 1))
  }

  lemma {:induction false} SettledAt(missions: seq<Mission>, related: map<string, Mission>, n: nat, k: nat)
    requires k < n <= |missions| && AllSettled(missions, related, n)
    ensures Settled(missions, related, missions[k])
  {
    if k < n - 1 {
      SettledAt(missions, related, n - 1, k);
    }
  }

  /** The body of the inner loop. */
  method Visit(missions: seq<Mission>, ref: string, related: map<string, Mission>, m: Mission)
    returns (related': map<string, Mission>, changed: bool)
    requires (forall x <- missions :: x.ref != "") && m in missions && Partial(missions, ref, related)
    ensures Partial(missions, ref, related') && related.Keys <= related'.Keys
    ensures if changed then related.Keys != related'.Keys else related' == related && Settled(missions, related, m)
  {
    related', changed := related, false;
    if m.ref in related {
      if m.delegation.parent != "" {
        MissionByRefMember(missions, m.delegation.parent);
        var parent := MissionByRef(missions, m.delegation.parent);
        if parent.Some? && parent.value.ref !in related {
          assert Linked(missions, m.ref, parent.value.ref);
          ConnectedStep(missions, ref, m, parent.value.ref);
          related', changed := related[parent.value.ref := parent.value], true;
        }
      }
    } else if m.delegation.parent in related {
      assert Linked(missions, m.delegation.parent, m.ref);
      ConnectedStep(missions, ref, related[m.delegation.parent], m.ref);
      related', changed := related[m.ref := m], true;
    }
  }

  /** One pass of the inner loop over all missions. */
  method Pass(missions: seq<Mission>, ref: string, start: map<string, Mission>)
    returns (related: map<string, Mission>, changed: bool)
    requires (forall x <- missions :: x.ref != "") && Partial(missions, ref, start)
    ensures Partial(missions, ref, related) && start.Keys <= related.Keys
    ensures if changed then start.Keys != related.Keys else AllSettled(missions, related, |missions|)
  {
    related, changed := start, false;
    for i := 0 to |missions|
      invariant Partial(missions, ref, related) && start.Keys <= related.Keys
      invariant changed ==> start.Keys != related.Keys
      invariant !changed ==> related == start && AllSettled(missions, related, i)
    {
      var added;
      related, added := Visit(missions, ref, related, missions[i]);
      changed := changed || added;
    }
  }

  /** Where no turn adds anything, everything connected has been added. */
  lemma Fixpoint(missions: seq<Mission>, ref: string, related: map<string, Mission>)
    requires ref in related && AllSettled(missions, related, |missions|)
    ensures forall x :: Connected(missions, ref, x) ==> x in related
  {
    forall k | 0 <= k < |missions|
      ensures Settled(missions, related, missions[k])
    {
      SettledAt(missions, related, |missions|, k);
    }
    forall x, y | x in related && Linked(missions, x, y)
      ensures y in related
    {
    }
    forall x | Connected(missions, ref, x)
      ensures x in related
    {
      var n: nat :| Walk(missions, ref, n, x);
      ClosedHoldsWalks(missions, related.Keys, ref, n, x);
    }
  }

  method RelatedMissionClosure(missions: seq<Mission>, ref: string) returns (r: Option<map<string, Mission>>)
    requires forall m <- missions :: m.ref != ""
    ensures r.None? <==> !Stored(missions, ref)
    ensures r.Some? ==> forall x :: x in r.value <==> Connected(missions, ref, x)
    ensures r.Some? ==> forall x <- r.value :: r.value[x] in missions && r.value[x].ref == x
  {
    MissionByRefMember(missions, ref);
    var target := MissionByRef(missions, ref);
    if target.None? {
      return None;
    }
    var related := map[ref := target.value];
    assert Walk(missions, ref, 0, ref);
    var changed := true;
    while changed
      invariant Partial(missions, ref, related)
      invariant !changed ==> AllSettled(missions, related, |missions|)
      decreases (set m <- missions :: m.ref) - related.Keys, changed
    {
      related, changed := Pass(missions, ref, related);
    }
    Fixpoint(missions, ref, related);
    r := Some(related);
  }

  /** The component once more, without walks: what lies in every set that holds the target and,
      with a stored mission, its stored parent and its stored children. */
  lemma ConnectedIsLeast(missions: seq<Mission>, ref: string, x: string)
    requires Stored(missions, ref)
    ensures Connected(missions, ref, x) <==>
            forall refs: set<string> ::
              && ref in refs
              && (forall m <- missions :: m.ref in refs && (exists p <- missions :: p.ref == m.delegation.parent) ==> m.delegation.parent in refs)
              && (forall m <- missions :: m.delegation.parent in refs && (exists p <- missions :: p.ref == m.delegation.parent) ==> m.ref in refs)
              ==> x in refs
  {
    if Connected(missions, ref, x) {
      forall refs: set<string> |
        && ref in refs
        && (forall m <- missions :: m.ref in refs && (exists p <- missions :: p.ref == m.delegation.parent) ==> m.delegation.parent in refs)
        && (forall m <- missions :: m.delegation.parent in refs && (exists p <- missions :: p.ref == m.delegation.parent) ==> m.ref in refs)
        ensures x in refs
      {
        forall a, b | a in refs && Linked(missions, a, b)
          ensures b in refs
        {
        }
        var n: nat :| Walk(missions, ref, n, x);
        ClosedHoldsWalks(missions, refs, ref, n, x);
      }
    }
    var all := set m <- missions | Connected(missions, ref, m.ref) :: m.ref;
    forall m | m in missions && (exists p <- missions :: p.ref == m.delegation.parent)
      ensures m.ref in all <==> m.delegation.parent in all
    {
      var p :| p in missions && p.ref == m.delegation.parent;
      assert Linked(missions, m.ref, p.ref) && Linked(missions, p.ref, m.ref);
      if m.ref in all {
        ConnectedStep(missions, ref, m, p.ref);
      }
      if p.ref in all {
        ConnectedStep(missions, ref, p, m.ref);
      }
    }
    assert Walk(missions, ref, 0, ref);
    assert ref in all;
  }
}
