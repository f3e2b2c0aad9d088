/** Authority regions: what evaluator.go, mergeAuthority and authorityIntersection compute. */
module Authority {
  import opened Basics
  import opened Patterns

  type Constraints = map<string, string>

  datatype Grant = Grant(typ: string, id: string, actions: seq<string>, constraints: Option<Constraints>)

  datatype Region = Region(grants: seq<Grant>, forbidden: seq<string>)

  datatype Resource = Resource(typ: string, id: string)

  datatype Action = Action(kind: string, name: string, resource: Resource, operation: string)

  datatype Verdict = Holds | Fails | Unsupported

  /** What one request's context answers: the value of a mission's condition expression and of
      a policy rule's (which reads more than the request's own context), whether a constrained
      key has its expected value, and whether the request is risky. */
  datatype Context = Context(
    verdict: string -> Verdict, ruleVerdict: string -> Verdict, meets: (string, string) -> bool, risky: bool)

  // ---------------------------------------------------------------- scope

  predicate Contains(values: seq<string>, want: string) {
    "*" in values || want in values
  }

  predicate TypeMatches(typ: string, other: string) {
    typ == "*" || typ == "" || typ == other
  }

  predicate Covers(g: Grant, resource: Resource, operation: string) {
    TypeMatches(g.typ, resource.typ) && IdMatches(g.id, resource.id) && Contains(g.actions, operation)
  }

  predicate Satisfied(constraints: Option<Constraints>, ctx: Context) {
    constraints.Some? ==> forall key <- constraints.value :: ctx.meets(key, constraints.value[key])
  }

  predicate Forbids(region: Region, action: Action) {
    Contains(region.forbidden, action.operation) || Contains(region.forbidden, action.name)
  }

  predicate Granted(grants: seq<Grant>, action: Action) {
    exists g <- grants :: Covers(g, action.resource, action.operation)
  }

  predicate GrantedFor(grants: seq<Grant>, action: Action, ctx: Context) {
    exists g <- grants :: Covers(g, action.resource, action.operation) && Satisfied(g.constraints, ctx)
  }

  /** actionInScope: constraints do not count. */
  predicate InScope(region: Region, action: Action) {
    !Forbids(region, action) && Granted(region.grants, action)
  }

  /** actionInScopeForContext: the covering grant's constraints must hold. */
  predicate InScopeFor(region: Region, action: Action, ctx: Context) {
    !Forbids(region, action) && GrantedFor(region.grants, action, ctx)
  }

  /** In the fields: nothing is forbidden by operation or by name, and some grant has the type,
      the identifier and the operation. */
  lemma ScopeInFields(region: Region, a: Action)
    ensures InScope(region, a) <==>
            && "*" !in region.forbidden && a.operation !in region.forbidden && a.name !in region.forbidden
            && exists g <- region.grants ::
                 && (g.typ == "*" || g.typ == "" || g.typ == a.resource.typ) && IdMatches(g.id, a.resource.id)
                 && ("*" in g.actions || a.operation in g.actions)
  {
  }

  /** With a context, the same grant's constraints must all be met. */
  lemma ScopeForInFields(region: Region, a: Action, ctx: Context)
    ensures InScopeFor(region, a, ctx) <==>
            && "*" !in region.forbidden && a.operation !in region.forbidden && a.name !in region.forbidden
            && exists g <- region.grants ::
                 && (g.typ == "*" || g.typ == "" || g.typ == a.resource.typ) && IdMatches(g.id, a.resource.id)
                 && ("*" in g.actions || a.operation in g.actions)
                 && (g.constraints.Some? ==> forall key <- g.constraints.value :: ctx.meets(key, g.constraints.value[key]))
  {
  }

  // ---------------------------------------------------------------- subset

  predicate GrantWithin(parent: Grant, child: Grant) {
    && TypeMatches(parent.typ, child.typ) && IdMatches(parent.id, child.id)
    && forall a <- child.actions :: Contains(parent.actions, a)
  }

  predicate Subset(parent: Region, child: Region) {
    && (forall c <- child.grants :: exists p <- parent.grants :: GrantWithin(p, c))
    && (forall f <- parent.forbidden :: Contains(child.forbidden, f))
  }

  lemma SubsetInFields(parent: Region, child: Region)
    ensures Subset(parent, child) <==>
            && (forall c <- child.grants :: exists p <- parent.grants ::
                  && (p.typ == "*" || p.typ == "" || p.typ == c.typ) && IdMatches(p.id, c.id)
                  && forall a <- c.actions :: "*" in p.actions || a in p.actions)
            && (forall f <- parent.forbidden :: "*" in child.forbidden || f in child.forbidden)
  {
    forall p, c: Grant
      ensures GrantWithin(p, c) <==>
              && (p.typ == "*" || p.typ == "" || p.typ == c.typ) && IdMatches(p.id, c.id)
              && forall a <- c.actions :: "*" in p.actions || a in p.actions
    {
    }
    if Subset(parent, child) {
      forall c | c in child.grants
        ensures exists p <- parent.grants ::
                  && (p.typ == "*" || p.typ == "" || p.typ == c.typ) && IdMatches(p.id, c.id)
                  && forall a <- c.actions :: "*" in p.actions || a in p.actions
      {
        var p :| p in parent.grants && GrantWithin(p, c);
      }
    }
  }

  method AuthoritySubset(parent: Region, child: Region) returns (within: bool)
    ensures within <==> Subset(parent, child)
    ensures within <==>
            && (forall c <- child.grants :: exists p <- parent.grants ::
                  && (p.typ == "*" || p.typ == "" || p.typ == c.typ) && IdMatches(p.id, c.id)
                  && forall a <- c.actions :: "*" in p.actions || a in p.actions)
            && (forall f <- parent.forbidden :: "*" in child.forbidden || f in child.forbidden)
  {
    for i := 0 to |child.grants|
      invariant forall c <- child.grants[..i] :: exists p <- parent.grants :: GrantWithin(p, c)
    {
      var found := false;
      for j := 0 to |parent.grants|
        invariant !found
        invariant forall p <- parent.grants[..j] :: !GrantWithin(p, child.grants[i])
      {
        if GrantWithin(parent.grants[j], child.grants[i]) {
          assert parent.grants[j] in parent.grants;
          found := true;
          break;
        }
      }
      assert child.grants[..i + 1] == child.grants[..i] + [child.grants[i]];
      assert parent.grants[..|parent.grants|] == parent.grants;
      if !found {
        assert child.grants[i] in child.grants && !Subset(parent, child);
        SubsetInFields(parent, child);
        return false;
      }
    }
    for i := 0 to |parent.forbidden|
      invariant forall f <- parent.forbidden[..i] :: Contains(child.forbidden, f)
    {
      if !Contains(child.forbidden, parent.forbidden[i]) {
        assert !Subset(parent, child);
        SubsetInFields(parent, child);
        return false;
      }
    }
    assert child.grants[..|child.grants|] == child.grants;
    assert parent.forbidden[..|parent.forbidden|] == parent.forbidden;
    assert Subset(parent, child);
    SubsetInFields(parent, child);
    return true;
  }

  // ---------------------------------------------------------------- attenuation

  /** Some grant holds all that this one grants for the named action. */
  predicate Allows(region: Region, g: Grant, a: string) {
    exists p <- region.grants :: TypeMatches(p.typ, g.typ) && PatternWithin(p.id, g.id) && Contains(p.actions, a)
  }

  /** Grant by grant, and but for what the child forbids itself, the parent allows what the
      child grants. A caller can check it. */
  predicate Attenuable(parent: Region, child: Region) {
    forall c <- child.grants :: forall a <- c.actions :: Contains(child.forbidden, a) || Allows(parent, c, a)
  }

  predicate KeepsProhibitions(parent: Region, child: Region) {
    forall f <- parent.forbidden :: Contains(child.forbidden, f)
  }

  ghost predicate ScopeWithin(parent: Region, child: Region) {
    forall a: Action :: InScope(child, a) ==> InScope(parent, a)
  }

  /** Of this grant the check is exact: it is no glob, or no glob of the parent matches its text
      without holding it. */
  predicate Comparable(parent: Region, c: Grant) {
    || !Glob(c.id)
    || forall p <- parent.grants :: TypeMatches(p.typ, c.typ) && IdMatches(p.id, c.id) ==> Containing(p.id) || PatternWithin(p.id, c.id)
  }

  lemma ProhibitionsExact(parent: Region, child: Region)
    ensures KeepsProhibitions(parent, child) <==> forall a: Action :: Forbids(parent, a) ==> Forbids(child, a)
  {
    if forall a: Action :: Forbids(parent, a) ==> Forbids(child, a) {
      forall f | f in parent.forbidden
        ensures Contains(child.forbidden, f)
      {
        assert Forbids(parent, Action("", f, Resource("", ""), f));
      }
    }
  }

  lemma AllowsCovers(region: Region, g: Grant, a: string, r: Resource, operation: string)
    requires Allows(region, g, a) && Covers(g, r, operation) && (a == operation || a == "*")
    ensures exists p <- region.grants :: Covers(p, r, operation)
  {
    var p :| p in region.grants && TypeMatches(p.typ, g.typ) && PatternWithin(p.id, g.id) && Contains(p.actions, a);
    WithinContains(Trim(p.id), Trim(g.id), Trim(r.id));
    assert Covers(p, r, operation);
  }

  /** The check is enough, for all regions. */
  lemma AttenuableEnough(parent: Region, child: Region)
    requires Attenuable(parent, child) && KeepsProhibitions(parent, child)
    ensures ScopeWithin(parent, child)
  {
    forall a: Action | InScope(child, a)
      ensures InScope(parent, a)
    {
      ProhibitionsExact(parent, child);
      var c :| c in child.grants && Covers(c, a.resource, a.operation);
      var named := if a.operation in c.actions then a.operation else "*";
      assert !Contains(child.forbidden, named);
      AllowsCovers(parent, c, named, a.resource, a.operation);
    }
  }

  function Longest(texts: seq<string>): (n: nat)
    ensures forall t <- texts :: |t| <= n
  {
    if texts == [] then 0
    else
      var rest := Longest(texts[1..]);
      if |texts[0]| > rest then |texts[0]| else rest
  }

  /** The length of the longest text in a list of grants. */
  function LongestOf(grants: seq<Grant>): (n: nat)
    ensures forall g <- grants :: |g.typ| <= n && |g.id| <= n && forall a <- g.actions :: |a| <= n
  {
    if grants == [] then 0
    else Longest([grants[0].typ, grants[0].id]) + Longest(grants[0].actions) + LongestOf(grants[1..])
  }

  /** An action the child's grant covers by the named action, and of the parent's grants only
      those that hold the child's. */
  function Probe(c: Grant, a: string, n: nat): Action {
    var operation := if a == "*" then Xs(n) else a;
    Action("", operation, Resource(if c.typ == "*" || c.typ == "" then Xs(n) else c.typ, Witness(c.id, n)), operation)
  }

  lemma ProbeCovered(c: Grant, a: string, n: nat)
    requires a in c.actions && n > 0
    ensures Covers(c, Probe(c, a, n).resource, Probe(c, a, n).operation)
  {
    WitnessMatches(c.id, n);
  }

  lemma ProbeDecides(parent: Region, c: Grant, a: string, n: nat)
    requires Comparable(parent, c) && LongestOf(parent.grants) < n
    ensures Granted(parent.grants, Probe(c, a, n)) ==> Allows(parent, c, a)
  {
    var probe := Probe(c, a, n);
    if Granted(parent.grants, probe) {
      var p :| p in parent.grants && Covers(p, probe.resource, probe.operation);
      WitnessMatches(c.id, n);
      TrimEnds(p.id);
      assert |Xs(n)| == n;
      assert TypeMatches(p.typ, c.typ);
      if !PatternWithin(p.id, c.id) {
        WitnessDecides(p.id, c.id, n);
      }
    }
  }

  /** And it is needed: where the scope stays within the parent's, the parent allows every named
      action of every grant that can be compared. */
  lemma AttenuableNeeded(parent: Region, child: Region, c: Grant, a: string)
    requires ScopeWithin(parent, child) && Comparable(parent, c)
    requires c in child.grants && a in c.actions && !Contains(child.forbidden, a)
    ensures Allows(parent, c, a)
  {
    var n := LongestOf(parent.grants) + Longest(child.forbidden) + 1;
    var probe := Probe(c, a, n);
    ProbeCovered(c, a, n);
    assert |Xs(n)| == n;
    assert InScope(child, probe);
    ProbeDecides(parent, c, a, n);
  }

  /** A region keeps within another, in scope and in prohibitions, if it passes the check, and
      only if it does but for globs against globs. */
  lemma AttenuableExact(parent: Region, child: Region)
    ensures Attenuable(parent, child) && KeepsProhibitions(parent, child) ==>
              ScopeWithin(parent, child) && forall a: Action :: Forbids(parent, a) ==> Forbids(child, a)
    ensures (forall c <- child.grants :: Comparable(parent, c)) ==>
              (&& ScopeWithin(parent, child) && (forall a: Action :: Forbids(parent, a) ==> Forbids(child, a))
               <==> Attenuable(parent, child) && KeepsProhibitions(parent, child))
  {
    ProhibitionsExact(parent, child);
    if Attenuable(parent, child) && KeepsProhibitions(parent, child) {
      AttenuableEnough(parent, child);
    }
    if ScopeWithin(parent, child) {
      forall c, a | c in child.grants && Comparable(parent, c) && a in c.actions && !Contains(child.forbidden, a)
        ensures Allows(parent, c, a)
      {
        AttenuableNeeded(parent, child, c, a);
      }
    }
  }

  /** A delegated region that passed the subset test allows no action its parent does not, if it
      passes the sharper check, and only if it does but for globs against globs. */
  lemma SubsetAttenuates(parent: Region, child: Region)
    requires Subset(parent, child)
    ensures Attenuable(parent, child) ==> ScopeWithin(parent, child)
    ensures (forall c <- child.grants :: Comparable(parent, c)) ==> (ScopeWithin(parent, child) <==> Attenuable(parent, child))
  {
    ProhibitionsExact(parent, child);
    AttenuableExact(parent, child);
  }

  /** Where each child grant lies within a parent grant whose pattern holds its textual matches,
      or names one resource, the subset test is that check. */
  lemma SubsetIsAttenuable(parent: Region, child: Region)
    requires forall c <- child.grants :: exists p <- parent.grants :: GrantWithin(p, c) && (Containing(p.id) || Literal(c.id))
    ensures Attenuable(parent, child)
  {
    forall c, a | c in child.grants && a in c.actions
      ensures Allows(parent, c, a)
    {
      var p :| p in parent.grants && GrantWithin(p, c) && (Containing(p.id) || Literal(c.id));
      TextualTestExact(p.id, c.id);
    }
  }

  /** Where it does not, the subset test lets authority escape: below any plain path, a child that asks for the
      two-star pattern passes against a parent that grants only the one-star pattern. */
  lemma GlobSubsetEscapes(path: string, typ: string, operation: string)
    requires path != "" && Plain(path) && !IsSpace(path[0])
    ensures var parent := Region([Grant(typ, path + "/*", [operation], None)], []);
            var child := Region([Grant(typ, path + "/**", [operation], None)], []);
            var deep := Action("", operation, Resource(typ, path + "/a/b"), operation);
            Subset(parent, child) && InScope(child, deep) && !InScope(parent, deep)
  {
    WideningMatches(path);
    var p := Grant(typ, path + "/*", [operation], None);
    var c := Grant(typ, path + "/**", [operation], None);
    assert GrantWithin(p, c) && p in [p];
    assert Covers(c, Resource(typ, path + "/a/b"), operation) && c in [c];
  }

  // ---------------------------------------------------------------- merge

  predicate WellFormed(g: Grant) {
    g.typ != "" && g.id != "" && g.actions != []
  }

  predicate SameResource(g: Grant, h: Grant) {
    g.typ == h.typ && g.id == h.id
  }

  function MergeActions(have: seq<string>, more: seq<string>): seq<string>
    decreases more
  {
    if more == [] then have
    else MergeActions(if Contains(have, more[0]) then have else have + [more[0]], more[1..])
  }

  function Absorb(g: Grant, requested: Grant): Grant {
    g.(actions := MergeActions(g.actions, requested.actions),
       constraints := if g.constraints.None? then requested.constraints else g.constraints)
  }

  /** One requested grant joins the first grant of its own type and id, or follows them all. */
  function MergeOne(grants: seq<Grant>, requested: Grant): seq<Grant> {
    if grants == [] then [requested]
    else if SameResource(grants[0], requested) then [Absorb(grants[0], requested)] + grants[1..]
    else [grants[0]] + MergeOne(grants[1..], requested)
  }

  function MergeAll(grants: seq<Grant>, requested: seq<Grant>): seq<Grant>
    decreases requested
  {
    if requested == [] then grants
    else MergeAll(if WellFormed(requested[0]) then MergeOne(grants, requested[0]) else grants, requested[1..])
  }

  function Merge(region: Region, requested: Region): Region {
    Region(MergeAll(region.grants, requested.grants), region.forbidden)
  }

  lemma {:induction false} MergeOneAt(grants: seq<Grant>, requested: Grant, i: nat)
    requires i <= |grants|
    requires forall k :: 0 <= k < i ==> !SameResource(grants[k], requested)
    ensures i == |grants| ==> MergeOne(grants, requested) == grants + [requested]
    ensures i < |grants| && SameResource(grants[i], requested) ==>
              MergeOne(grants, requested) == grants[i := Absorb(grants[i], requested)]
  {
    if i == 0 {
    } else {
      MergeOneAt(grants[1..], requested, i - 1);
    }
  }

  lemma {:induction false} MergeActionsStep(have: seq<string>, more: seq<string>, n: nat)
    requires n < |more|
    ensures var before := MergeActions(have, more[..n]);
            MergeActions(have, more[..n + 1]) == if Contains(before, more[n]) then before else before + [more[n]]
    decreases n
  {
    if n > 0 {
      var have' := if Contains(have, more[0]) then have else have + [more[0]];
      assert more[..n + 1][1..] == more[1..][..n] && more[..n][1..] == more[1..][..n - 1];
      MergeActionsStep(have', more[1..], n - 1);
    } else {
      assert more[..1][1..] == [];
    }
  }

  lemma {:induction false} MergeAllStep(grants: seq<Grant>, requested: seq<Grant>, n: nat)
    requires n < |requested|
    ensures var before := MergeAll(grants, requested[..n]);
            MergeAll(grants, requested[..n + 1]) ==
            if WellFormed(requested[n]) then MergeOne(before, requested[n]) else before
    decreases n
  {
    if n > 0 {
      var grants' := if WellFormed(requested[0]) then MergeOne(grants, requested[0]) else grants;
      assert requested[..n + 1][1..] == requested[1..][..n] && requested[..n][1..] == requested[1..][..n - 1];
      MergeAllStep(grants', requested[1..], n - 1);
    } else {
      assert requested[..1][1..] == [];
    }
  }

  method MergeAuthority(region: Region, requested: Region) returns (merged: Region)
    ensures merged == Merge(region, requested)
  {
    var grants := region.grants;
    for n := 0 to |requested.grants|
      invariant grants == MergeAll(region.grants, requested.grants[..n])
    {
      var grant := requested.grants[n];
      MergeAllStep(region.grants, requested.grants, n);
      if !WellFormed(grant) {
        continue;
      }
      var found := false;
      for i := 0 to |grants|
        invariant !found && grants == MergeAll(region.grants, requested.grants[..n])
        invariant forall k :: 0 <= k < i ==> !SameResource(grants[k], grant)
      {
        if SameResource(grants[i], grant) {
          var actions := grants[i].actions;
          for a := 0 to |grant.actions|
            invariant actions == MergeActions(grants[i].actions, grant.actions[..a])
          {
            MergeActionsStep(grants[i].actions, grant.actions, a);
            if !Contains(actions, grant.actions[a]) {
              actions := actions + [grant.actions[a]];
            }
          }
          assert grant.actions[..|grant.actions|] == grant.actions;
          MergeOneAt(grants, grant, i);
          var constraints := grants[i].constraints;
          if constraints.None? && grant.constraints.Some? {
            constraints := grant.constraints;
          }
          grants := grants[i := grants[i].(actions := actions, constraints := constraints)];
          found := true;
          break;
        }
      }
      if !found {
        MergeOneAt(grants, grant, |grants|);
        grants := grants + [grant];
      }
    }
    assert requested.grants[..|requested.grants|] == requested.grants;
    merged := Region(grants, region.forbidden);
  }

  lemma {:induction false} MergeActionsContains(have: seq<string>, more: seq<string>, want: string)
    ensures Contains(MergeActions(have, more), want) <==> Contains(have, want) || Contains(more, want)
    decreases more
  {
    if more == [] {
    } else {
      var have' := if Contains(have, more[0]) then have else have + [more[0]];
      MergeActionsContains(have', more[1..], want);
      assert more == [more[0]] + more[1..];
    }
  }

  lemma GrantedCons(first: Grant, rest: seq<Grant>, action: Action)
    ensures Granted([first] + rest, action) <==> Covers(first, action.resource, action.operation) || Granted(rest, action)
  {
    var grants := [first] + rest;
    assert first in grants && forall g :: g in rest ==> g in grants;
  }

  lemma {:induction false} MergeOneGrants(grants: seq<Grant>, requested: Grant, action: Action)
    ensures Granted(MergeOne(grants, requested), action) <==>
            Granted(grants, action) || Covers(requested, action.resource, action.operation)
  {
    if grants == [] {
      GrantedCons(requested, [], action);
    } else {
      assert grants == [grants[0]] + grants[1..];
      GrantedCons(grants[0], grants[1..], action);
      if SameResource(grants[0], requested) {
        var merged := Absorb(grants[0], requested);
        MergeActionsContains(grants[0].actions, requested.actions, action.operation);
        GrantedCons(merged, grants[1..], action);
      } else {
        MergeOneGrants(grants[1..], requested, action);
        GrantedCons(grants[0], MergeOne(grants[1..], requested), action);
      }
    }
  }

  lemma {:induction false} MergeAllGrants(grants: seq<Grant>, requested: seq<Grant>, action: Action)
    ensures Granted(MergeAll(grants, requested), action) <==>
            || Granted(grants, action)
            || exists g <- requested :: WellFormed(g) && Covers(g, action.resource, action.operation)
    decreases requested
  {
    if requested == [] {
    } else {
      var grants' := if WellFormed(requested[0]) then MergeOne(grants, requested[0]) else grants;
      MergeAllGrants(grants', requested[1..], action);
      MergeOneGrants(grants, requested[0], action);
      assert requested == [requested[0]] + requested[1..];
    }
  }

  /** mergeAuthority adds what the well-formed requested grants cover, less what the base
      forbids, and nothing else. */
  lemma MergeExact(base: Region, requested: Region, action: Action)
    ensures InScope(Merge(base, requested), action) <==>
            && !Forbids(base, action)
            && (|| Granted(base.grants, action)
                || exists g <- requested.grants ::
                     && g.typ != "" && g.id != "" && g.actions != []
                     && Covers(g, action.resource, action.operation))
  {
    MergeAllGrants(base.grants, requested.grants, action);
  }

  /** authorityConflictsWithForbiddenActions. */
  predicate ConflictsWithForbidden(region: Region, requested: Region) {
    exists g <- requested.grants :: exists a <- g.actions :: Contains(region.forbidden, a)
  }

  /** In the fields: some requested action, or every one, is forbidden. */
  lemma ConflictInFields(region: Region, requested: Region)
    ensures ConflictsWithForbidden(region, requested) <==>
            exists g <- requested.grants :: exists a <- g.actions :: "*" in region.forbidden || a in region.forbidden
  {
    if g :| g in requested.grants && exists a <- g.actions :: "*" in region.forbidden || a in region.forbidden {
      var a :| a in g.actions && ("*" in region.forbidden || a in region.forbidden);
      assert Contains(region.forbidden, a);
    }
  }

  /** What an approved expansion asked for on its own resource is in scope afterwards. */
  lemma ApprovedActionsInScope(base: Region, requested: Region, g: Grant, operation: string)
    requires !ConflictsWithForbidden(base, requested)
    requires g in requested.grants && operation in g.actions && WellFormed(g)
    ensures InScope(Merge(base, requested), Action("", operation, Resource(g.typ, g.id), operation))
  {
    var action := Action("", operation, Resource(g.typ, g.id), operation);
    MergeExact(base, requested, action);
    assert Covers(g, action.resource, action.operation);
  }

  // ---------------------------------------------------------------- merge under constraints

  /** The first grant of that type and id, or the length of the list. */
  function FirstOf(grants: seq<Grant>, g: Grant): (i: nat)
    ensures i <= |grants| && (i < |grants| ==> SameResource(grants[i], g))
    ensures forall k :: 0 <= k < i ==> !SameResource(grants[k], g)
  {
    if grants == [] || SameResource(grants[0], g) then 0 else 1 + FirstOf(grants[1..], g)
  }

  /** The constraints of the first well-formed request of that type and id that has any. */
  function FirstConstraints(requested: seq<Grant>, g: Grant): Option<Constraints> {
    if requested == [] then None
    else if WellFormed(requested[0]) && SameResource(requested[0], g) && requested[0].constraints.Some? then requested[0].constraints
    else FirstConstraints(requested[1..], g)
  }

  /** The constraints in the end of the grant that collects the requests of that type and id. */
  function Adopted(grants: seq<Grant>, requested: seq<Grant>, g: Grant): Option<Constraints> {
    var i := FirstOf(grants, g);
    if i < |grants| && grants[i].constraints.Some? then grants[i].constraints else FirstConstraints(requested, g)
  }

  /** A grant keeps its constraints unless it is the one that collects. */
  function Final(grants: seq<Grant>, requested: seq<Grant>, i: nat): Option<Constraints>
    requires i < |grants|
  {
    if FirstOf(grants, grants[i]) == i then Adopted(grants, requested, grants[i]) else grants[i].constraints
  }

  predicate Gives(g: Grant, constraints: Option<Constraints>, action: Action, ctx: Context) {
    Covers(g, action.resource, action.operation) && Satisfied(constraints, ctx)
  }

  ghost predicate BaseGives(grants: seq<Grant>, requested: seq<Grant>, action: Action, ctx: Context) {
    exists i :: 0 <= i < |grants| && Gives(grants[i], Final(grants, requested, i), action, ctx)
  }

  ghost predicate RequestGives(grants: seq<Grant>, requested: seq<Grant>, among: seq<Grant>, action: Action, ctx: Context) {
    exists g <- among :: WellFormed(g) && Gives(g, Adopted(grants, requested, g), action, ctx)
  }

  lemma MergeOneShape(grants: seq<Grant>, r: Grant)
    ensures var i, merged := FirstOf(grants, r), MergeOne(grants, r);
            if i < |grants| then merged == grants[i := Absorb(grants[i], r)] else merged == grants + [r]
  {
    MergeOneAt(grants, r, FirstOf(grants, r));
  }

  lemma {:induction false} FirstOfAlike(grants: seq<Grant>, others: seq<Grant>, g: Grant)
    requires |grants| <= |others| && forall k :: 0 <= k < |grants| ==> SameResource(grants[k], others[k])
    ensures FirstOf(grants, g) < |grants| ==> FirstOf(others, g) == FirstOf(grants, g)
    ensures FirstOf(grants, g) == |grants| ==> FirstOf(others, g) >= |grants|
  {
    if grants == [] {
    } else {
      FirstOfAlike(grants[1..], others[1..], g);
    }
  }

  lemma {:induction false} FirstOfSame(grants: seq<Grant>, g: Grant, h: Grant)
    ensures SameResource(g, h) ==> FirstOf(grants, g) == FirstOf(grants, h)
  {
    if grants == [] {
    } else {
      FirstOfSame(grants[1..], g, h);
    }
  }

  /** Merging one request ahead of the others changes no final constraints. */
  lemma AdoptedStep(grants: seq<Grant>, r: Grant, rest: seq<Grant>, g: Grant)
    requires WellFormed(r)
    ensures Adopted(MergeOne(grants, r), rest, g) == Adopted(grants, [r] + rest, g)
  {
    var merged := MergeOne(grants, r);
    MergeOneShape(grants, r);
    FirstOfAlike(grants, merged, g);
    assert ([r] + rest)[1..] == rest;
    assert SameResource(r, g) ==> FirstOf(grants, r) == FirstOf(grants, g) by {
      FirstOfSame(grants, r, g);
    }
  }

  lemma {:induction false} AdoptedSame(grants: seq<Grant>, requested: seq<Grant>, g: Grant, h: Grant)
    requires SameResource(g, h)
    ensures Adopted(grants, requested, g) == Adopted(grants, requested, h)
    ensures FirstConstraints(requested, g) == FirstConstraints(requested, h)
  {
    FirstOfSame(grants, g, h);
    if requested == [] {
    } else {
      AdoptedSame(grants, requested[1..], g, h);
    }
  }

  lemma FinalStep(grants: seq<Grant>, r: Grant, rest: seq<Grant>, i: nat)
    requires WellFormed(r) && i < |MergeOne(grants, r)|
    ensures i < |grants| ==> Final(MergeOne(grants, r), rest, i) == Final(grants, [r] + rest, i)
    ensures i == FirstOf(grants, r) ==> Final(MergeOne(grants, r), rest, i) == Adopted(grants, [r] + rest, r)
  {
    var merged := MergeOne(grants, r);
    MergeOneShape(grants, r);
    AdoptedStep(grants, r, rest, merged[i]);
    FirstOfAlike(grants, merged, merged[i]);
    FirstOfSame(grants, merged[i], r);
    if i < |grants| {
      FirstOfSame(grants, grants[i], merged[i]);
      AdoptedSame(grants, [r] + rest, grants[i], merged[i]);
    }
    if i == FirstOf(grants, r) {
      AdoptedSame(grants, [r] + rest, r, merged[i]);
    }
  }

  lemma CoversStep(grants: seq<Grant>, r: Grant, i: nat, action: Action)
    requires i < |MergeOne(grants, r)|
    ensures Covers(MergeOne(grants, r)[i], action.resource, action.operation) <==>
            || (i < |grants| && Covers(grants[i], action.resource, action.operation))
            || (i == FirstOf(grants, r) && Covers(r, action.resource, action.operation))
  {
    MergeOneShape(grants, r);
    if i < |grants| && i == FirstOf(grants, r) {
      MergeActionsContains(grants[i].actions, r.actions, action.operation);
    }
  }

  lemma MergeStepGives(grants: seq<Grant>, r: Grant, rest: seq<Grant>, action: Action, ctx: Context)
    requires WellFormed(r)
    ensures BaseGives(MergeOne(grants, r), rest, action, ctx) <==>
            || BaseGives(grants, [r] + rest, action, ctx)
            || Gives(r, Adopted(grants, [r] + rest, r), action, ctx)
  {
    var merged, all := MergeOne(grants, r), [r] + rest;
    MergeOneShape(grants, r);
    if BaseGives(merged, rest, action, ctx) {
      var i :| 0 <= i < |merged| && Gives(merged[i], Final(merged, rest, i), action, ctx);
      FinalStep(grants, r, rest, i);
      CoversStep(grants, r, i, action);
      assert i < |grants| && Covers(grants[i], action.resource, action.operation) ==> Gives(grants[i], Final(grants, all, i), action, ctx);
    }
    if BaseGives(grants, all, action, ctx) {
      var i :| 0 <= i < |grants| && Gives(grants[i], Final(grants, all, i), action, ctx);
      FinalStep(grants, r, rest, i);
      CoversStep(grants, r, i, action);
      assert Gives(merged[i], Final(merged, rest, i), action, ctx);
    }
    if Gives(r, Adopted(grants, all, r), action, ctx) {
      var at := FirstOf(grants, r);
      FinalStep(grants, r, rest, at);
      CoversStep(grants, r, at, action);
      assert Gives(merged[at], Final(merged, rest, at), action, ctx);
    }
  }

  lemma RequestStepGives(grants: seq<Grant>, r: Grant, rest: seq<Grant>, action: Action, ctx: Context)
    requires WellFormed(r)
    ensures RequestGives(MergeOne(grants, r), rest, rest, action, ctx) <==> RequestGives(grants, [r] + rest, rest, action, ctx)
  {
    forall g | g in rest
      ensures Adopted(MergeOne(grants, r), rest, g) == Adopted(grants, [r] + rest, g)
    {
      AdoptedStep(grants, r, rest, g);
    }
  }

  lemma SkippedRequest(grants: seq<Grant>, r: Grant, rest: seq<Grant>, action: Action, ctx: Context)
    requires !WellFormed(r)
    ensures BaseGives(grants, [r] + rest, action, ctx) <==> BaseGives(grants, rest, action, ctx)
    ensures RequestGives(grants, [r] + rest, [r] + rest, action, ctx) <==> RequestGives(grants, rest, rest, action, ctx)
  {
    assert ([r] + rest)[1..] == rest;
    forall g: Grant
      ensures Adopted(grants, [r] + rest, g) == Adopted(grants, rest, g)
    {
    }
    if BaseGives(grants, [r] + rest, action, ctx) {
      var i :| 0 <= i < |grants| && Gives(grants[i], Final(grants, [r] + rest, i), action, ctx);
      assert Gives(grants[i], Final(grants, rest, i), action, ctx);
    }
    if BaseGives(grants, rest, action, ctx) {
      var i :| 0 <= i < |grants| && Gives(grants[i], Final(grants, rest, i), action, ctx);
      assert Gives(grants[i], Final(grants, [r] + rest, i), action, ctx);
    }
  }

  /** Under constraints the merge is exact too. A grant that collects the requests of its type
      and id keeps its own constraints or takes on the first request's that has any; every other
      grant keeps its own. An action is in the merged scope iff the base does not forbid it and a
      base grant or a well-formed request covers it where the constraints it ends with hold. */
  lemma {:induction false} MergeAllGives(grants: seq<Grant>, requested: seq<Grant>, action: Action, ctx: Context)
    ensures GrantedFor(MergeAll(grants, requested), action, ctx) <==>
            BaseGives(grants, requested, action, ctx) || RequestGives(grants, requested, requested, action, ctx)
    decreases requested
  {
    if requested == [] {
      forall i | 0 <= i < |grants|
        ensures Final(grants, requested, i) == grants[i].constraints
      {
      }
      if GrantedFor(grants, action, ctx) {
        var g :| g in grants && Gives(g, g.constraints, action, ctx);
        var i :| 0 <= i < |grants| && grants[i] == g;
        assert Gives(grants[i], Final(grants, requested, i), action, ctx);
      }
    } else {
      var r, rest := requested[0], requested[1..];
      assert requested == [r] + rest;
      if WellFormed(r) {
        MergeAllGives(MergeOne(grants, r), rest, action, ctx);
        MergeStepGives(grants, r, rest, action, ctx);
        RequestStepGives(grants, r, rest, action, ctx);
      } else {
        MergeAllGives(grants, rest, action, ctx);
        SkippedRequest(grants, r, rest, action, ctx);
      }
    }
  }

  lemma MergeExactFor(base: Region, requested: Region, action: Action, ctx: Context)
    ensures InScopeFor(Merge(base, requested), action, ctx) <==>
            && !Forbids(base, action)
            && (|| BaseGives(base.grants, requested.grants, action, ctx)
                || RequestGives(base.grants, requested.grants, requested.grants, action, ctx))
  {
    MergeAllGives(base.grants, requested.grants, action, ctx);
  }

  /** So a merge can withdraw what was granted, and this is when: every grant that gave the action
      collects requests, had no constraints and takes on some that fail, and no request gives it. */
  lemma MergeWithdraws(grants: seq<Grant>, requested: seq<Grant>, action: Action, ctx: Context)
    requires GrantedFor(grants, action, ctx)
    ensures !GrantedFor(MergeAll(grants, requested), action, ctx) <==>
            && (forall i :: 0 <= i < |grants| && Gives(grants[i], grants[i].constraints, action, ctx) ==>
                  && FirstOf(grants, grants[i]) == i && grants[i].constraints.None?
                  && !Satisfied(FirstConstraints(requested, grants[i]), ctx))
            && (forall g <- requested :: WellFormed(g) ==> !Gives(g, Adopted(grants, requested, g), action, ctx))
  {
    MergeAllGives(grants, requested, action, ctx);
    forall i | 0 <= i < |grants|
      ensures Gives(grants[i], Final(grants, requested, i), action, ctx) <==>
              && Covers(grants[i], action.resource, action.operation)
              && if FirstOf(grants, grants[i]) == i && grants[i].constraints.None?
                 then Satisfied(FirstConstraints(requested, grants[i]), ctx) else Satisfied(grants[i].constraints, ctx)
    {
    }
    if !BaseGives(grants, requested, action, ctx) {
      forall i | 0 <= i < |grants| && Gives(grants[i], grants[i].constraints, action, ctx)
        ensures FirstOf(grants, grants[i]) == i && grants[i].constraints.None?
        ensures !Satisfied(FirstConstraints(requested, grants[i]), ctx)
      {
        assert !Gives(grants[i], Final(grants, requested, i), action, ctx);
      }
    }
  }

  /** For one request: the first grant of its type and id was unconstrained, its constraints fail,
      and no other grant gives the action. */
  lemma OneRequestWithdraws(grants: seq<Grant>, r: Grant, action: Action, ctx: Context)
    requires WellFormed(r) && GrantedFor(grants, action, ctx)
    ensures !GrantedFor(MergeOne(grants, r), action, ctx) <==>
            var i := FirstOf(grants, r);
            && i < |grants| && grants[i].constraints.None? && !Satisfied(r.constraints, ctx)
            && forall k :: 0 <= k < |grants| && k != i ==> !Gives(grants[k], grants[k].constraints, action, ctx)
  {
    var i := FirstOf(grants, r);
    assert MergeAll(grants, [r]) == MergeAll(MergeOne(grants, r), [r][1..]) == MergeOne(grants, r);
    MergeWithdraws(grants, [r], action, ctx);
    forall k | 0 <= k < |grants|
      ensures FirstOf(grants, grants[k]) == k ==> (SameResource(grants[k], r) <==> k == i)
      ensures FirstConstraints([r], grants[k]) == if SameResource(grants[k], r) then r.constraints else None
    {
      FirstOfSame(grants, grants[k], r);
      assert FirstConstraints([r][1..], grants[k]) == None;
    }
    assert FirstConstraints([r], r) == r.constraints by {
      assert FirstConstraints([r][1..], r) == None;
    }
    var g :| g in grants && Gives(g, g.constraints, action, ctx);
    var given :| 0 <= given < |grants| && grants[given] == g;
    if i < |grants| {
      FirstOfSame(grants, grants[i], r);
      assert Adopted(grants, [r], r) == if grants[i].constraints.Some? then grants[i].constraints else r.constraints;
    }
  }

  /** A witness: an unconstrained grant takes on the constraints of the request, so an action
      allowed before is refused after. */
  lemma MergeMayWithdraw(ctx: Context)
    requires !ctx.meets("branch", "main")
    ensures var base := Region([Grant("repository", "acme/api", ["read"], None)], []);
            var requested := Region([Grant("repository", "acme/api", ["write"], Some(map["branch" := "main"]))], []);
            var read := Action("", "read", Resource("repository", "acme/api"), "read");
            InScopeFor(base, read, ctx) && !InScopeFor(Merge(base, requested), read, ctx)
  {
    var base := [Grant("repository", "acme/api", ["read"], None)];
    var requested := [Grant("repository", "acme/api", ["write"], Some(map["branch" := "main"]))];
    assert MergeAll(base, requested) == MergeAll(MergeOne(base, requested[0]), []);
    var c := requested[0].constraints.value;
    assert "branch" in c;
  }

  lemma {:induction false} NoConstraints(requested: seq<Grant>, g: Grant)
    requires forall r <- requested :: r.constraints.None?
    ensures FirstConstraints(requested, g) == None
  {
    if requested == [] {
    } else {
      NoConstraints(requested[1..], g);
    }
  }

  /** A request without constraints withdraws nothing, whatever the context. */
  lemma UnconstrainedMergeKeeps(grants: seq<Grant>, requested: seq<Grant>, action: Action, ctx: Context)
    requires forall g <- requested :: g.constraints.None?
    requires GrantedFor(grants, action, ctx)
    ensures GrantedFor(MergeAll(grants, requested), action, ctx)
  {
    MergeWithdraws(grants, requested, action, ctx);
    var g :| g in grants && Gives(g, g.constraints, action, ctx);
    var i :| 0 <= i < |grants| && grants[i] == g;
    NoConstraints(requested, g);
  }

  // ---------------------------------------------------------------- intersection

  predicate Permits(parent: Region, g: Grant, operation: string) {
    InScope(parent, Action("", operation, Resource(g.typ, g.id), operation))
  }

  /** A requested action is permitted as an action of that name and operation on its own resource. */
  lemma PermitsInFields(parent: Region, g: Grant, a: string)
    ensures Permits(parent, g, a) <==>
            && "*" !in parent.forbidden && a !in parent.forbidden
            && exists p <- parent.grants ::
                 (p.typ == "*" || p.typ == "" || p.typ == g.typ) && IdMatches(p.id, g.id) && ("*" in p.actions || a in p.actions)
  {
    ScopeInFields(parent, Action("", a, Resource(g.typ, g.id), a));
  }

  /** The actions of a grant that the parent permits, or those it refuses, in their order. */
  function Select(parent: Region, g: Grant, actions: seq<string>, permitted: bool): seq<string> {
    if actions == [] then []
    else (if Permits(parent, g, actions[0]) == permitted then [actions[0]] else [])
         + Select(parent, g, actions[1..], permitted)
  }

  function Part(parent: Region, g: Grant, permitted: bool): Grant {
    g.(actions := Select(parent, g, g.actions, permitted))
  }

  function Nonempty(g: Grant): seq<Grant> {
    if g.actions == [] then [] else [g]
  }

  /** A part differs from its grant in nothing but the actions. */
  lemma PartInFields(parent: Region, g: Grant, permitted: bool)
    ensures var part := Part(parent, g, permitted); part.typ == g.typ && part.id == g.id && part.constraints == g.constraints
  {
  }

  /** The requested grants cut down to the permitted, or to the refused, actions. */
  function Parts(parent: Region, grants: seq<Grant>, permitted: bool): seq<Grant> {
    if grants == [] then []
    else
      Nonempty(Part(parent, grants[0], permitted)) + Parts(parent, grants[1..], permitted)
  }

  predicate AllInScope(parent: Region, requested: Region) {
    forall g <- requested.grants :: forall a <- g.actions :: Permits(parent, g, a)
  }

  lemma {:induction false} SelectStep(parent: Region, g: Grant, actions: seq<string>, permitted: bool, n: nat)
    requires n < |actions|
    ensures Select(parent, g, actions[..n + 1], permitted) == Select(parent, g, actions[..n], permitted)
            + if Permits(parent, g, actions[n]) == permitted then [actions[n]] else []
  {
    if n > 0 {
      assert actions[..n + 1][1..] == actions[1..][..n] && actions[..n][1..] == actions[1..][..n - 1];
      SelectStep(parent, g, actions[1..], permitted, n - 1);
      var first := if Permits(parent, g, actions[0]) == permitted then [actions[0]] else [];
      var last := if Permits(parent, g, actions[n]) == permitted then [actions[n]] else [];
      var middle := Select(parent, g, actions[1..][..n - 1], permitted);
      assert Select(parent, g, actions[..n + 1], permitted) == first + (middle + last) == (first + middle) + last;
      assert Select(parent, g, actions[..n], permitted) == first + middle;
    } else {
      assert actions[..1][1..] == [];
    }
  }

  lemma {:induction false} PartsStep(parent: Region, grants: seq<Grant>, permitted: bool, n: nat)
    requires n < |grants|
    ensures Parts(parent, grants[..n + 1], permitted) ==
            Parts(parent, grants[..n], permitted) + Nonempty(Part(parent, grants[n], permitted))
  {
    if n == 0 {
      assert grants[..1][1..] == [];
    } else {
      assert grants[..n + 1][1..] == grants[1..][..n] && grants[..n][1..] == grants[1..][..n - 1];
      PartsStep(parent, grants[1..], permitted, n - 1);
      var first, last := Nonempty(Part(parent, grants[0], permitted)), Nonempty(Part(parent, grants[n], permitted));
      var middle := Parts(parent, grants[1..][..n - 1], permitted);
      assert Parts(parent, grants[..n + 1], permitted) == first + (middle + last) == (first + middle) + last;
      assert Parts(parent, grants[..n], permitted) == first + middle;
    }
  }

  method AuthorityIntersection(parent: Region, requested: Region) returns (proposed: Region, denied: Region)
    ensures proposed == Region(Parts(parent, requested.grants, true), parent.forbidden)
    ensures denied == Region(Parts(parent, requested.grants, false), requested.forbidden)
  {
    var allowedGrants, deniedGrants := [], [];
    for n := 0 to |requested.grants|
      invariant allowedGrants == Parts(parent, requested.grants[..n], true)
      invariant deniedGrants == Parts(parent, requested.grants[..n], false)
    {
      var g := requested.grants[n];
      var allowedActions, deniedActions := [], [];
      for i := 0 to |g.actions|
        invariant allowedActions == Select(parent, g, g.actions[..i], true)
        invariant deniedActions == Select(parent, g, g.actions[..i], false)
      {
        SelectStep(parent, g, g.actions, true, i);
        SelectStep(parent, g, g.actions, false, i);
        if Permits(parent, g, g.actions[i]) {
          allowedActions := allowedActions + [g.actions[i]];
        } else {
          deniedActions := deniedActions + [g.actions[i]];
        }
      }
      assert g.actions[..|g.actions|] == g.actions;
      PartsStep(parent, requested.grants, true, n);
      PartsStep(parent, requested.grants, false, n);
      if allowedActions != [] {
        allowedGrants := allowedGrants + [g.(actions := allowedActions)];
      }
      if deniedActions != [] {
        deniedGrants := deniedGrants + [g.(actions := deniedActions)];
      }
    }
    assert requested.grants[..|requested.grants|] == requested.grants;
    proposed := Region(allowedGrants, parent.forbidden);
    denied := Region(deniedGrants, requested.forbidden);
  }

  /** The split reorders nothing: each part is the actions filtered by permission. */
  lemma {:induction false} SplitKeepsOrder(parent: Region, g: Grant, actions: seq<string>)
    ensures Select(parent, g, actions, true) == Filter(a => Permits(parent, g, a), actions)
    ensures Select(parent, g, actions, false) == Filter(a => !Permits(parent, g, a), actions)
  {
    if actions == [] {
    } else {
      SplitKeepsOrder(parent, g, actions[1..]);
    }
  }

  lemma SplitMembers(parent: Region, g: Grant, actions: seq<string>)
    ensures forall a :: a in Select(parent, g, actions, true) <==> a in actions && Permits(parent, g, a)
    ensures forall a :: a in Select(parent, g, actions, false) <==> a in actions && !Permits(parent, g, a)
  {
    SplitKeepsOrder(parent, g, actions);
    forall a: string
      ensures a in Select(parent, g, actions, true) <==> a in actions && Permits(parent, g, a)
      ensures a in Select(parent, g, actions, false) <==> a in actions && !Permits(parent, g, a)
    {
      FilterMember(x => Permits(parent, g, x), actions, a);
      FilterMember(x => !Permits(parent, g, x), actions, a);
    }
  }

  /** The split loses and adds nothing. */
  lemma SplitConserves(parent: Region, g: Grant, actions: seq<string>)
    ensures multiset(Select(parent, g, actions, true)) + multiset(Select(parent, g, actions, false)) == multiset(actions)
  {
    SplitKeepsOrder(parent, g, actions);
    FilterSplits(a => Permits(parent, g, a), a => !Permits(parent, g, a), actions);
  }

  lemma {:induction false} PartsMember(parent: Region, grants: seq<Grant>, permitted: bool, part: Grant)
    ensures part in Parts(parent, grants, permitted) <==>
            part.actions != [] && exists g <- grants :: part == Part(parent, g, permitted)
  {
    if grants == [] {
    } else {
      PartsMember(parent, grants[1..], permitted, part);
      assert grants == [grants[0]] + grants[1..];
    }
  }

  /** Nothing is denied exactly when allRequestedActionsInScope accepts the request. */
  lemma NothingDenied(parent: Region, requested: Region)
    ensures Parts(parent, requested.grants, false) == [] <==> AllInScope(parent, requested)
  {
    var denied := Parts(parent, requested.grants, false);
    forall g | g in requested.grants
      ensures (Part(parent, g, false) in denied) || forall a <- g.actions :: Permits(parent, g, a)
    {
      SplitMembers(parent, g, g.actions);
      PartsMember(parent, requested.grants, false, Part(parent, g, false));
    }
    if denied != [] {
      PartsMember(parent, requested.grants, false, denied[0]);
      var g :| g in requested.grants && denied[0] == Part(parent, g, false);
      SplitMembers(parent, g, g.actions);
      assert denied[0].actions[0] in g.actions && !Permits(parent, g, denied[0].actions[0]);
    }
  }

  function Offer(parent: Region, requested: Region): Region {
    Region(Parts(parent, requested.grants, true), parent.forbidden)
  }

  /** The permitted actions are allowed by grants whose patterns hold the requested ones. */
  predicate OfferFits(parent: Region, requested: Region) {
    forall g <- requested.grants :: forall a <- g.actions :: Permits(parent, g, a) ==> Allows(parent, g, a)
  }

  /** The counter-offer allows nothing beyond the mission if every permitted action is allowed by
      a grant that holds the requested pattern, and only if so but for globs against globs. */
  lemma ProposalWithin(parent: Region, requested: Region)
    ensures OfferFits(parent, requested) ==> ScopeWithin(parent, Offer(parent, requested))
    ensures (forall g <- requested.grants :: Comparable(parent, g)) ==>
              (ScopeWithin(parent, Offer(parent, requested)) <==> OfferFits(parent, requested))
  {
    var offer := Offer(parent, requested);
    if OfferFits(parent, requested) {
      forall part, a | part in offer.grants && a in part.actions
        ensures Allows(parent, part, a)
      {
        PartsMember(parent, requested.grants, true, part);
        var g :| g in requested.grants && part == Part(parent, g, true);
        SplitMembers(parent, g, g.actions);
        assert Allows(parent, g, a);
      }
      AttenuableEnough(parent, offer);
    }
    if ScopeWithin(parent, offer) {
      forall g, a | g in requested.grants && Comparable(parent, g) && a in g.actions && Permits(parent, g, a)
        ensures Allows(parent, g, a)
      {
        var part := Part(parent, g, true);
        SplitMembers(parent, g, g.actions);
        PartsMember(parent, requested.grants, true, part);
        AttenuableNeeded(parent, offer, part, a);
      }
    }
  }

  // ---------------------------------------------------------------- negotiation

  datatype NegotiationStatus = Accepted | Counteroffered | RequiresApproval | Denied

  datatype Negotiation = Negotiation(status: NegotiationStatus, proposed: Region, denied: Region)

  /** validateRequestedAuthority. */
  predicate ValidRequest(requested: Region) {
    requested.grants != [] && forall g <- requested.grants :: WellFormed(g)
  }

  /** What CreateAuthorityNegotiation answers on a usable mission. */
  function Outcome(parent: Region, requested: Region, risky: bool): Negotiation {
    var offer, refused := Offer(parent, requested), Region(Parts(parent, requested.grants, false), requested.forbidden);
    if AllInScope(parent, requested) then Negotiation(Accepted, requested, Region([], []))
    else if offer.grants != [] then Negotiation(Counteroffered, offer, refused)
    else Negotiation(if risky then RequiresApproval else Denied, offer, refused)
  }

  method Negotiate(parent: Region, requested: Region, risky: bool) returns (n: Negotiation)
    requires ValidRequest(requested)
    ensures n == Outcome(parent, requested, risky)
    ensures n.status == Accepted <==> AllInScope(parent, requested)
    ensures n.status == Accepted ==> n.proposed == requested && n.denied == Region([], [])
    ensures n.status != Accepted ==>
              && n.proposed == Offer(parent, requested)
              && n.denied == Region(Parts(parent, requested.grants, false), requested.forbidden)
              && n.denied.grants != []
    ensures n.status == Counteroffered ==> n.proposed.grants != []
    ensures n.status in {RequiresApproval, Denied} ==>
              && n.proposed.grants == [] && (n.status == RequiresApproval <==> risky)
  {
    var proposed, denied := AuthorityIntersection(parent, requested);
    NothingDenied(parent, requested);
    if AllInScope(parent, requested) {
      n := Negotiation(Accepted, requested, Region([], []));
    } else if proposed.grants != [] {
      n := Negotiation(Counteroffered, proposed, denied);
    } else {
      n := Negotiation(if risky then RequiresApproval else Denied, proposed, denied);
    }
  }

  /** Asking again for what was offered is a valid request and is accepted as it stands. */
  lemma OfferIsAccepted(parent: Region, requested: Region, risky: bool)
    requires ValidRequest(requested) && Outcome(parent, requested, risky).status == Counteroffered
    ensures var offer := Outcome(parent, requested, risky).proposed;
            ValidRequest(offer) && Outcome(parent, offer, risky) == Negotiation(Accepted, offer, Region([], []))
  {
    var offer := Offer(parent, requested);
    forall part | part in offer.grants
      ensures WellFormed(part) && forall a <- part.actions :: Permits(parent, part, a)
    {
      PartsMember(parent, requested.grants, true, part);
      var g :| g in requested.grants && part == Part(parent, g, true);
      SplitMembers(parent, g, g.actions);
      assert forall a <- part.actions :: Permits(parent, g, a) && Permits(parent, part, a);
    }
  }
}
