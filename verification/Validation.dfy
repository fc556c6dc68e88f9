/**
 The checks a binding or a route must pass against the tables, and the two
 invariants they are there for.
 */
module Validation {
  import opened Base
  import opened Tables

  // ---------------------------------------------------------------------------
  // Bindings.
  // ---------------------------------------------------------------------------

  /** Confirmed and enabled: the bindings that count for families and for routing. */
  predicate Active(b: BindingRow) {
    b.status.Confirmed? && b.enabled
  }

  /** The provider family of a binding: the preset of its source. */
  function Family(db: Database, b: BindingRow): Option<string> {
    if b.sourceId in db.sources then Some(db.sources[b.sourceId].presetId) else None
  }

  /** Active bindings of the same model on other sources: what the family query selects. */
  predicate Rival(db: Database, b: BindingRow, other: BindingRow) {
    && other.modelId == b.modelId && Active(other)
    && other.sourceId != b.sourceId && other.sourceId in db.sources
  }

  /** What an active binding demands of the rows it refers to. */
  predicate Live(db: Database, b: BindingRow)
    requires BindingReferences(db, b)
  {
    && db.models[b.modelId].status.Confirmed? && db.models[b.modelId].enabled
    && db.sources[b.sourceId].enabled
    && db.accounts[b.accountId].enabled
    && CatalogRoutable(db, b)
  }

  /** The family check looks at one rival's family only (LIMIT 1), whichever comes first. */
  ghost predicate FamilyMayPass(db: Database, b: BindingRow) {
    (exists o :: o in db.bindings && Rival(db, b, o)) ==>
      exists o :: o in db.bindings && Rival(db, b, o) && Family(db, o) == Family(db, b)
  }

  /** When `validate_binding_reference` may accept. */
  ghost predicate BindingAdmitted(db: Database, b: BindingRow) {
    && BindingReferences(db, b)
    && (Active(b) ==> Live(db, b) && FamilyMayPass(db, b))
  }

  /** One provider family among the active bindings of a model. */
  ghost predicate OneFamilyFor(db: Database, modelId: string) {
    forall a, b :: a in db.bindings && b in db.bindings && ActiveFor(a, modelId) && ActiveFor(b, modelId) ==>
      Family(db, a) == Family(db, b)
  }

  predicate ActiveFor(b: BindingRow, modelId: string) {
    Active(b) && b.modelId == modelId
  }

  ghost predicate OneFamily(db: Database) {
    forall modelId :: OneFamilyFor(db, modelId)
  }

  method FindRival(db: Database, b: BindingRow) returns (family: Option<string>)
    ensures family.None? <==> forall o :: o in db.bindings ==> !Rival(db, b, o)
    ensures family.Some? ==> exists o :: o in db.bindings && Rival(db, b, o) && Family(db, o) == family
  {
    for i := 0 to |db.bindings|
      invariant forall j :: 0 <= j < i ==> !Rival(db, b, db.bindings[j])
    {
      var o := db.bindings[i];
      if o.modelId == b.modelId && Active(o) && o.sourceId != b.sourceId && o.sourceId in db.sources {
        assert Rival(db, b, o) && o in db.bindings;
        return Some(db.sources[o.sourceId].presetId);
      }
    }
    return None;
  }

  /** Whichever rival the query returns, acceptance is sound; and when the stored bindings
      already agree on a family, the answer does not depend on the choice. */
  method ValidateBindingReference(db: Database, b: BindingRow) returns (ok: bool)
    ensures ok ==> BindingAdmitted(db, b)
    ensures OneFamilyFor(db, b.modelId) && BindingAdmitted(db, b) ==> ok
  {
    if !(b.modelId in db.models && b.sourceId in db.sources && b.accountId in db.accounts
         && BindingModelKey(b) in db.sourceModels && BindingCapabilityKey(b) in db.capabilities) {
      return false;
    }
    if db.accounts[b.accountId].sourceId != b.sourceId {
      return false;
    }
    if b.status.Confirmed? && b.enabled {
      if !Live(db, b) {
        return false;
      }
      var existing := FindRival(db, b);
      if existing.Some? && existing.value != db.sources[b.sourceId].presetId {
        return false;
      }
    }
    return true;
  }

  /** What is asked of every binding: its model, its source, an account of that source, the source's
      model and its capability are stored ... */
  ghost predicate Referred(db: Database, b: BindingRow) {
    && b.modelId in db.models && b.sourceId in db.sources && b.accountId in db.accounts
    && db.accounts[b.accountId].sourceId == b.sourceId
    && SourceModelKey(b.sourceId, b.upstreamId) in db.sourceModels
    && CapabilityKey(b.sourceId, b.upstreamId, b.protocol) in db.capabilities
  }

  /** ... and that the source's model and the capability be confirmed, available and routable ... */
  ghost predicate Offered(db: Database, b: BindingRow) {
    && var model, capability :=
         SourceModelKey(b.sourceId, b.upstreamId), CapabilityKey(b.sourceId, b.upstreamId, b.protocol);
    && model in db.sourceModels && db.sourceModels[model] == SourceModelRow(Confirmed, Available)
    && capability in db.capabilities && db.capabilities[capability].status == Confirmed
    && (db.capabilities[capability].mode == Native || db.capabilities[capability].mode == Adapter)
  }

  /** ... and, of one that is confirmed and enabled, that everything it refers to be too, and that some
      active binding of its model on another source, if there is any, have its source's preset. */
  lemma {:induction false} BindingAdmittedIff(db: Database, b: BindingRow)
    ensures BindingAdmitted(db, b) <==>
              && Referred(db, b)
              && (b.status == Confirmed && b.enabled ==>
                    && db.models[b.modelId].status == Confirmed && db.models[b.modelId].enabled
                    && db.sources[b.sourceId].enabled && db.accounts[b.accountId].enabled
                    && Offered(db, b)
                    && ((exists o :: o in db.bindings && ActiveElsewhere(db, b, o)) ==>
                          exists o :: && o in db.bindings && ActiveElsewhere(db, b, o)
                                      && db.sources[o.sourceId].presetId == db.sources[b.sourceId].presetId))
  {
    if Referred(db, b) {
      forall o ensures Rival(db, b, o) <==> ActiveElsewhere(db, b, o) {
      }
    }
  }

  ghost predicate ActiveElsewhere(db: Database, b: BindingRow, o: BindingRow) {
    && o.modelId == b.modelId && o.sourceId != b.sourceId && o.sourceId in db.sources
    && o.status == Confirmed && o.enabled == true
  }

  /** Under one family, admitting a binding means agreeing with every rival. */
  lemma {:induction false} AdmittedAgrees(db: Database, b: BindingRow, other: BindingRow)
    requires OneFamilyFor(db, b.modelId) && BindingAdmitted(db, b) && Active(b)
    requires other in db.bindings && Active(other) && other.modelId == b.modelId && other.sourceId in db.sources
    ensures Family(db, other) == Family(db, b)
  {
    if other.sourceId != b.sourceId {
      assert Rival(db, b, other);
      var o :| o in db.bindings && Rival(db, b, o) && Family(db, o) == Family(db, b);
      assert Family(db, other) == Family(db, o);
    }
  }

  // ---------------------------------------------------------------------------
  // Routes.
  // ---------------------------------------------------------------------------

  /** Another enabled route of the model already lists the protocol. */
  predicate Conflicts(db: Database, id: string, modelId: string, p: Protocol) {
    exists r :: r in db.routes && r.modelId == modelId && r.id != id && r.enabled && Lists(r, p)
  }

  predicate Bound(db: Database, modelId: string, p: Protocol) {
    exists b ::
      && b in db.bindings && b.modelId == modelId && b.protocol == p
      && b.status.Confirmed? && CatalogRoutable(db, b)
  }

  /** What `validate_route_reference` accepts. */
  predicate RouteAdmitted(db: Database, id: string, modelId: string, protocols: seq<Protocol>, enabled: bool) {
    && modelId in db.models
    && forall p :: p in protocols ==> (enabled ==> !Conflicts(db, id, modelId, p)) && Bound(db, modelId, p)
  }

  ghost predicate ListsFor(r: RouteRow, modelId: string, p: Protocol) {
    r.enabled && r.modelId == modelId && Lists(r, p)
  }

  /** A route is admitted exactly when its model is stored and, for each protocol it lists, the model has a
      confirmed binding that the catalog offers, and no other enabled route of the model lists it unless
      this one is disabled. */
  lemma {:induction false} RouteAdmittedIff(db: Database, id: string, modelId: string, protocols: seq<Protocol>,
                                            enabled: bool)
    ensures RouteAdmitted(db, id, modelId, protocols, enabled) <==>
              && modelId in db.models
              && (forall p :: p in protocols ==>
                    exists b :: && b in db.bindings && b.modelId == modelId && b.protocol == p
                                && b.status == Confirmed && Offered(db, b))
              && (enabled ==>
                    forall r, p :: r in db.routes && p in protocols && ListsFor(r, modelId, p) ==> r.id == id)
  {
    forall b ensures CatalogRoutable(db, b) <==> Offered(db, b) {
    }
    if RouteAdmitted(db, id, modelId, protocols, enabled) {
      forall p | p in protocols
        ensures exists b :: && b in db.bindings && b.modelId == modelId && b.protocol == p
                            && b.status == Confirmed && Offered(db, b)
      {
        assert Bound(db, modelId, p);
      }
    }
  }

  /** Two enabled routes that would serve the same protocol of the same model. */
  predicate SameTarget(r: RouteRow, s: RouteRow, p: Protocol) {
    r.modelId == s.modelId && r.enabled && s.enabled && Lists(r, p) && Lists(s, p)
  }

  /** At most one enabled route per model and protocol. */
  ghost predicate OneRoute(db: Database) {
    forall r, s, p :: r in db.routes && s in db.routes && SameTarget(r, s, p) ==> r.id == s.id
  }

  method ValidateRouteReference(db: Database, id: string, modelId: string, protocols: seq<Protocol>, enabled: bool)
    returns (ok: bool)
    ensures ok <==> RouteAdmitted(db, id, modelId, protocols, enabled)
  {
    if modelId !in db.models {
      return false;
    }
    var errors := 0;
    for i := 0 to |protocols|
      invariant errors >= 0
      invariant errors == 0 <==>
                  forall j :: 0 <= j < i ==>
                    (enabled ==> !Conflicts(db, id, modelId, protocols[j])) && Bound(db, modelId, protocols[j])
    {
      if enabled && Conflicts(db, id, modelId, protocols[i]) {
        errors := errors + 1;
      }
      if !Bound(db, modelId, protocols[i]) {
        errors := errors + 1;
      }
    }
    ok := errors == 0;
  }
}
