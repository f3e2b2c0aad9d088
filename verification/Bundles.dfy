/** Policy bundles: how one becomes active and which one evaluations use. */
module Bundles {
  import opened Basics
  import Policy

  datatype BundleStatus = DraftBundle | ActiveBundle | ArchivedBundle

  datatype StoredBundle = StoredBundle(
    id: string, tenant: string, version: string, status: BundleStatus, activatedAt: Time, rules: seq<Policy.Rule>)

  type StoredBundles = map<string, StoredBundle>

  predicate ActiveFor(b: StoredBundle, tenant: string) {
    b.status == ActiveBundle && b.tenant == tenant
  }

  ghost predicate OneActive(bs: StoredBundles) {
    && (forall id <- bs :: bs[id].id == id)
    && forall x <- bs, y <- bs :: ActiveFor(bs[x], bs[y].tenant) && bs[y].status == ActiveBundle ==> x == y
  }

  // ---------------------------------------------------------------- what the store does

  predicate Clashes(bs: StoredBundles, b: StoredBundle) {
    b.id in bs || exists id <- bs :: bs[id].tenant == b.tenant && bs[id].version == b.version
  }

  /** One bundle becomes active and every other active one of its tenant is archived. */
  function Activated(bs: StoredBundles, b: StoredBundle): StoredBundles {
    map id <- bs ::
      if id == b.id then b.(status := ActiveBundle)
      else if ActiveFor(bs[id], b.tenant) then bs[id].(status := ArchivedBundle)
      else bs[id]
  }

  /** Later activation wins, and among equals the smaller identifier. */
  predicate Preferred(a: StoredBundle, b: StoredBundle) {
    a.activatedAt > b.activatedAt || (a.activatedAt == b.activatedAt && Less(a.id, b.id))
  }

  ghost predicate Selected(bs: StoredBundles, tenant: string, found: Option<StoredBundle>) {
    match found
    case None => forall id <- bs :: !ActiveFor(bs[id], tenant)
    case Some(b) =>
      && b.id in bs && bs[b.id] == b && ActiveFor(b, tenant)
      && forall id <- bs :: ActiveFor(bs[id], tenant) ==> !Preferred(bs[id], b)
  }

  /** The tenant's selected bundle, or without one that of no tenant. */
  ghost predicate InUse(bs: StoredBundles, tenant: string, found: Option<StoredBundle>) {
    (found.Some? && Selected(bs, tenant, found)) || (Selected(bs, tenant, None) && Selected(bs, "", found))
  }

  lemma PreferredOrder()
    ensures forall a, b :: Preferred(a, b) ==> !Preferred(b, a)
    ensures forall a, b, c :: Preferred(a, b) && Preferred(c, a) ==> Preferred(c, b)
  {
    forall a, b | Preferred(a, b)
      ensures !Preferred(b, a)
    {
      LessTotal(a.id, b.id);
    }
    forall a, b, c | Preferred(a, b) && Preferred(c, a)
      ensures Preferred(c, b)
    {
      if a.activatedAt == b.activatedAt == c.activatedAt {
        LessTransitive(c.id, a.id, b.id);
      }
    }
  }

  /** Activation leaves one active bundle to the tenant, and it is the one then selected,
      however its activation time compares with those of the bundles it replaces. */
  lemma ActivationIsSelected(bs: StoredBundles, b: StoredBundle)
    requires OneActive(bs) && b.id in bs
    ensures OneActive(Activated(bs, b))
    ensures Selected(Activated(bs, b), b.tenant, Some(b.(status := ActiveBundle)))
  {
    LessTotal(b.id, b.id);
  }

  class BundleStore {
    var bundles: StoredBundles

    constructor ()
      ensures bundles == map[]
    {
      bundles := map[];
    }

    method SavePolicyBundle(b: StoredBundle) returns (r: Result<()>)
      modifies this
      ensures r == if Clashes(old(bundles), b) then Err(Conflict) else Ok(())
      ensures bundles == if r.Ok? then old(bundles)[b.id := b] else old(bundles)
    {
      if b.id in bundles {
        return Err(Conflict);
      }
      var rest := bundles.Keys;
      while rest != {}
        invariant rest <= bundles.Keys && bundles == old(bundles)
        invariant forall id <- bundles :: id in rest || bundles[id].tenant != b.tenant || bundles[id].version != b.version
        decreases rest
      {
        var id :| id in rest;
        if bundles[id].tenant == b.tenant && bundles[id].version == b.version {
          return Err(Conflict);
        }
        rest := rest - {id};
      }
      bundles := bundles[b.id := b];
      r := Ok(());
    }

    /** The other active bundles of the tenant are archived in the order the map yields them. */
    method StoreActivated(b: StoredBundle) returns (r: Result<()>)
      modifies this
      ensures r == if b.id in old(bundles) then Ok(()) else Err(NotFound)
      ensures bundles == if r.Ok? then Activated(old(bundles), b) else old(bundles)
    {
      if b.id !in bundles {
        return Err(NotFound);
      }
      var rest := bundles.Keys;
      while rest != {}
        invariant rest <= bundles.Keys == old(bundles).Keys
        invariant forall id <- bundles :: bundles[id] ==
                    if id in rest || id == b.id then old(bundles)[id] else Activated(old(bundles), b)[id]
        decreases rest
      {
        var id :| id in rest;
        rest := rest - {id};
        var existing := bundles[id];
        if id != b.id && existing.tenant == b.tenant && existing.status == ActiveBundle {
          bundles := bundles[id := existing.(status := ArchivedBundle)];
        }
      }
      bundles := bundles[b.id := b.(status := ActiveBundle)];
      r := Ok(());
    }

    /** The service's ActivatePolicyBundle, up to its event. */
    method ActivatePolicyBundle(id: string, now: Time) returns (r: Result<StoredBundle>)
      requires OneActive(bundles)
      modifies this
      ensures OneActive(bundles)
      ensures r.Err? ==> r.error == NotFound && id !in old(bundles) && bundles == old(bundles)
      ensures r.Ok? ==>
                && id in old(bundles) && bundles == Activated(old(bundles), old(bundles)[id].(activatedAt := now))
                && r.value == bundles[id] && Selected(bundles, r.value.tenant, Some(r.value))
    {
      if id !in bundles {
        return Err(NotFound);
      }
      var b := bundles[id].(status := ActiveBundle, activatedAt := now);
      ActivationIsSelected(bundles, b);
      var stored := StoreActivated(b);
      assert Activated(old(bundles), b) == Activated(old(bundles), old(bundles)[id].(activatedAt := now));
      r := Ok(b);
    }

    /** activePolicyBundleForTenant. */
    method ActiveForTenant(tenant: string) returns (found: Option<StoredBundle>)
      requires forall id <- bundles :: bundles[id].id == id
      ensures Selected(bundles, tenant, found)
    {
      found := None;
      var rest := bundles.Keys;
      while rest != {}
        invariant rest <= bundles.Keys
        invariant Selected(map id <- bundles | id !in rest :: bundles[id], tenant, found)
        decreases rest
      {
        var id :| id in rest;
        rest := rest - {id};
        var b := bundles[id];
        if b.tenant == tenant && b.status == ActiveBundle {
          if found.None? || b.activatedAt > found.value.activatedAt || (b.activatedAt == found.value.activatedAt && Less(b.id, found.value.id)) {
            PreferredOrder();
            found := Some(b);
          }
        }
      }
      assert bundles == map id <- bundles | id !in rest :: bundles[id];
    }

    /** A tenant without an active bundle falls back to the one of no tenant. */
    method GetActivePolicyBundle(tenant: string) returns (r: Result<StoredBundle>)
      requires forall id <- bundles :: bundles[id].id == id
      ensures InUse(bundles, tenant, if r.Ok? then Some(r.value) else None)
      ensures r.Err? ==> r.error == NotFound
    {
      var found := ActiveForTenant(tenant);
      if found.None? && tenant != "" {
        found := ActiveForTenant("");
      }
      r := if found.Some? then Ok(found.value) else Err(NotFound);
    }
  }

  // ---------------------------------------------------------------- what it guarantees

  /** The selection does not depend on the order in which the map yields its bundles. */
  lemma SelectionUnique(bs: StoredBundles, tenant: string, a: Option<StoredBundle>, b: Option<StoredBundle>)
    requires Selected(bs, tenant, a) && Selected(bs, tenant, b)
    ensures a == b
  {
    if a.Some? && b.Some? {
      LessTotal(a.value.id, b.value.id);
    }
  }

  lemma InUseUnique(bs: StoredBundles, tenant: string, a: Option<StoredBundle>, b: Option<StoredBundle>)
    requires InUse(bs, tenant, a) && InUse(bs, tenant, b)
    ensures a == b
  {
    if a.Some? && Selected(bs, tenant, a) && b.Some? && Selected(bs, tenant, b) {
      SelectionUnique(bs, tenant, a, b);
    } else if Selected(bs, "", a) && Selected(bs, "", b) {
      SelectionUnique(bs, "", a, b);
    }
  }

  datatype Change = Save(bundle: StoredBundle) | Activate(id: string, now: Time)

  /** Only drafts are created. */
  function Changed(bs: StoredBundles, c: Change): StoredBundles {
    match c
    case Save(b) => if b.status == DraftBundle && !Clashes(bs, b) then bs[b.id := b] else bs
    case Activate(id, now) => if id in bs then Activated(bs, bs[id].(activatedAt := now)) else bs
  }

  function ChangedAll(bs: StoredBundles, changes: seq<Change>): StoredBundles
    decreases changes
  {
    if changes == [] then bs else ChangedAll(Changed(bs, changes[0]), changes[1..])
  }

  /** In every reachable state a tenant has at most one active bundle. */
  lemma {:induction false} AlwaysOneActive(bs: StoredBundles, changes: seq<Change>)
    requires OneActive(bs)
    ensures OneActive(ChangedAll(bs, changes))
    decreases changes
  {
    if changes == [] {
    } else {
      if changes[0].Activate? && changes[0].id in bs {
        ActivationIsSelected(bs, bs[changes[0].id].(activatedAt := changes[0].now));
      }
      AlwaysOneActive(Changed(bs, changes[0]), changes[1..]);
    }
  }

  /** The bundle selected for a tenant is stored, active and its own, activated last, and among the
      last by the smallest identifier; and none is selected only where there is none. */
  lemma SelectedInFields(bs: StoredBundles, tenant: string, found: Option<StoredBundle>)
    requires Selected(bs, tenant, found)
    ensures found.None? ==> forall id <- bs :: bs[id].tenant != tenant || bs[id].status != ActiveBundle
    ensures found.Some? ==>
              var b := found.value;
              && b.id in bs && bs[b.id] == b && b.tenant == tenant && b.status == ActiveBundle
              && forall id <- bs :: bs[id].tenant == tenant && bs[id].status == ActiveBundle ==>
                   bs[id].activatedAt < b.activatedAt || (bs[id].activatedAt == b.activatedAt && !Less(bs[id].id, b.id))
  {
  }

  lemma ActivatedInFields(bs: StoredBundles, b: StoredBundle, id: string)
    requires id in bs
    ensures var after := Activated(bs, b);
            && after.Keys == bs.Keys
            && after[id] == if id == b.id then b.(status := ActiveBundle)
                            else if bs[id].tenant == b.tenant && bs[id].status == ActiveBundle then bs[id].(status := ArchivedBundle)
                            else bs[id]
  {
  }

  ghost predicate DistinctVersions(bs: StoredBundles) {
    forall x <- bs, y <- bs :: x != y ==> bs[x].tenant != bs[y].tenant || bs[x].version != bs[y].version
  }

  /** In every reachable state the bundles of one tenant have different versions. */
  lemma {:induction false} AlwaysDistinctVersions(bs: StoredBundles, changes: seq<Change>)
    requires OneActive(bs) && DistinctVersions(bs)
    ensures DistinctVersions(ChangedAll(bs, changes))
    decreases changes
  {
    if changes == [] {
    } else {
      AlwaysOneActive(bs, [changes[0]]);
      assert ChangedAll(bs, [changes[0]]) == ChangedAll(Changed(bs, changes[0]), [changes[0]][1..]) == Changed(bs, changes[0]);
      AlwaysDistinctVersions(Changed(bs, changes[0]), changes[1..]);
    }
  }

  /** A tenant uses its own active bundle, without one that of no tenant, and none only where there
      is neither. */
  lemma InUseInFields(bs: StoredBundles, tenant: string, found: Option<StoredBundle>)
    requires InUse(bs, tenant, found)
    ensures found.Some? ==>
              && found.value.status == ActiveBundle
              && (|| found.value.tenant == tenant
                  || (found.value.tenant == "" && forall id <- bs :: bs[id].tenant != tenant || bs[id].status != ActiveBundle))
    ensures found.None? ==> forall id <- bs :: bs[id].tenant == tenant || bs[id].tenant == "" ==> bs[id].status != ActiveBundle
  {
  }
}
