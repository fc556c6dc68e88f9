/**
 What a published snapshot says, column by column, in terms of the tables: no law of this
 module speaks of the join, the judgement or the fold that produced it.
 */
module SnapshotContents {
  import opened Base
  import opened Seqs
  import opened Strings
  import opened JsonDiff
  import opened Features
  import opened Tables
  import opened Snapshot
  import opened SnapshotLaws

  // ---------------------------------------------------------------------------
  // The query.
  // ---------------------------------------------------------------------------

  /** The binding may serve the route: everything on the way is enabled, confirmed and there. */
  ghost predicate MayServe(db: Database, r: RouteRow, b: BindingRow) {
    && r in db.routes && b in db.bindings && r.modelId == b.modelId
    && r.modelId in db.models && b.sourceId in db.sources && b.accountId in db.accounts
    && db.accounts[b.accountId].sourceId == b.sourceId
    && r.enabled == true
    && db.models[r.modelId].enabled == true && db.models[r.modelId].status == Confirmed
    && b.enabled == true && b.status == Confirmed
    && var model := SourceModelKey(b.sourceId, b.upstreamId);
    && model in db.sourceModels
    && db.sourceModels[model] == SourceModelRow(Confirmed, Available)
    && var capability := CapabilityKey(b.sourceId, b.upstreamId, b.protocol);
    && capability in db.capabilities && db.capabilities[capability].status == Confirmed
    && (db.capabilities[capability].mode == Native || db.capabilities[capability].mode == Adapter)
  }

  function CapabilityOf(db: Database, b: BindingRow): CapabilityRow
    requires CapabilityKey(b.sourceId, b.upstreamId, b.protocol) in db.capabilities
  {
    db.capabilities[CapabilityKey(b.sourceId, b.upstreamId, b.protocol)]
  }

  /** Every column of a query row. */
  ghost predicate RowIs(db: Database, x: Row, r: RouteRow, b: BindingRow) {
    && MayServe(db, r, b)
    && x.routeId == r.id && x.strategy == r.strategy && x.routeProtocols == r.protocols && x.allowLossy == r.allowLossy
    && var m := db.models[r.modelId];
    && x.timeoutMs == m.timeoutMs && x.maxRetries == m.maxRetries
    && x.publicName == m.publicName && x.displayName == m.displayName
    && x.bindingId == b.id && x.sourceId == b.sourceId && x.accountId == b.accountId
    && x.upstreamId == b.upstreamId && x.protocol == b.protocol && x.priority == b.priority
    && var s := db.sources[b.sourceId];
    && x.presetId == s.presetId && x.sourceName == s.displayName && x.baseUrl == s.baseUrl && x.endpoints == s.endpoints
    && var a := db.accounts[b.accountId];
    && x.accountName == a.displayName && x.weight == a.weight && x.enabled == (a.enabled && s.enabled)
    && var c := CapabilityOf(db, b);
    && x.mode == c.mode && x.sourceProtocol == c.sourceProtocol && x.adapter == c.adapter && x.features == c.features
  }

  lemma {:induction false} JoinIs(db: Database, x: Row, r: RouteRow, b: BindingRow)
    requires r in db.routes && b in db.bindings
    ensures Joins(db, r, b) && x == RowOf(db, r, b) <==> RowIs(db, x, r, b)
  {
  }

  /** The query's rows are exactly these. */
  lemma {:induction false} SnapshotRowsAre(db: Database, x: Row)
    ensures x in SnapshotRows(db) <==> exists r, b :: RowIs(db, x, r, b)
  {
    SnapshotRowsMembers(db);
    if x in SnapshotRows(db) {
      var r, b :| r in db.routes && b in db.bindings && Joins(db, r, b) && x == RowOf(db, r, b);
      JoinIs(db, x, r, b);
    }
    if r, b :| RowIs(db, x, r, b) {
      JoinIs(db, x, r, b);
    }
  }

  /** The rows come ordered by route, protocol in database order, falling priority, native before
      adapter, and binding id. */
  lemma {:induction false} SnapshotRowsAreOrdered(db: Database, i: nat, j: nat)
    requires i < j < |SnapshotRows(db)|
    ensures var x, y := SnapshotRows(db)[i], SnapshotRows(db)[j];
            && StrLe(x.routeId, y.routeId)
            && (x.routeId == y.routeId ==> EnumRank(x.protocol) <= EnumRank(y.protocol))
            && (x.routeId == y.routeId && x.protocol == y.protocol ==> x.priority >= y.priority)
            && (x.routeId == y.routeId && x.protocol == y.protocol && x.priority == y.priority ==>
                  && (y.mode == Native ==> x.mode == Native)
                  && (x.mode == y.mode ==> x.bindingId <= y.bindingId))
  {
    RowOrderIsTotal();
    SortBySorts(JoinRoutes(db, db.routes), RowOrder());
    StrLeIsOrder();
    var x, y := SnapshotRows(db)[i], SnapshotRows(db)[j];
    assert RowOrder()(x, y);
  }

  // ---------------------------------------------------------------------------
  // One row.
  // ---------------------------------------------------------------------------

  /** The protocol spoken to the source. */
  ghost predicate Speaks(x: Row, up: Protocol) {
    (x.mode == Native && up == x.protocol) || (x.mode == Adapter && x.sourceProtocol == Some(up))
  }

  /** The adapter's feature, or everything where there is no adapter. */
  function AdapterFeature(adapters: AdapterRegistry, x: Row, i: nat): FeatureMode
    requires i < 8
  {
    if x.mode == Adapter && x.adapter.Some? && x.adapter.value in adapters then adapters[x.adapter.value].features[i]
    else NativeFeature
  }

  /** The features column decodes. */
  ghost predicate FeaturesReadable(column: Json) {
    || column == Null
    || (column.Obj? && forall i :: 0 <= i < 8 && FEATURES[i] in column.fields ==> KnownWord(column.fields[FEATURES[i]]))
  }

  /** Some feature the catalog declares would be lost behind the adapter. */
  ghost predicate LosesFeature(adapters: AdapterRegistry, x: Row) {
    exists i: nat ::
      i < 8 && CatalogMode(x.features, FEATURES[i]) != NoFeature && AdapterFeature(adapters, x, i) == NoFeature
  }

  /** The row can be served. */
  ghost predicate Servable(adapters: AdapterRegistry, x: Row) {
    && x.endpoints.Decoded?
    && (exists up :: Speaks(x, up) && up in x.endpoints.value && !Blank(x.endpoints.value[up])
                     && (x.mode == Adapter ==>
                           && x.adapter.Some? && x.adapter.value in adapters
                           && adapters[x.adapter.value].from == x.protocol && adapters[x.adapter.value].to == up))
    && FeaturesReadable(x.features)
    && (x.allowLossy || !LosesFeature(adapters, x))
    && x.weight > 0
  }

  /** What a served row is published as. */
  ghost predicate PublishedAs(adapters: AdapterRegistry, x: Row, rb: RuntimeBinding) {
    && rb.bindingId == x.bindingId && rb.sourceId == x.sourceId && rb.providerId == x.presetId
    && rb.accountId == x.accountId && rb.upstreamId == x.upstreamId
    && Speaks(x, rb.protocolUpstream)
    && x.endpoints.Decoded? && rb.protocolUpstream in x.endpoints.value
    && rb.endpoint == JoinEndpoint(x.baseUrl, x.endpoints.value[rb.protocolUpstream])
    && rb.mode == x.mode && rb.adapter == x.adapter
    && |rb.effective| == 8
    && (forall i :: 0 <= i < 8 ==>
          rb.effective[i]
          == if CatalogMode(x.features, FEATURES[i]) == NoFeature then NoFeature else AdapterFeature(adapters, x, i))
    && (forall i :: 0 <= i < 8 ==>
          (FEATURES[i] in rb.degraded <==> Strength(rb.effective[i]) < Strength(CatalogMode(x.features, FEATURES[i]))))
  }

  lemma {:induction false} JudgedIntersection(adapters: AdapterRegistry, x: Row, model: Capabilities,
                                              features: Option<Capabilities>)
    requires CapabilitiesFromCatalog(x.features) == Some(model)
    requires forall i :: 0 <= i < 8 ==> Through(features, i) == AdapterFeature(adapters, x, i)
    ensures Intersect(model, features, x.allowLossy).Ok? <==> x.allowLossy || !LosesFeature(adapters, x)
    ensures Intersect(model, features, x.allowLossy).Ok? ==>
              var r := Intersect(model, features, x.allowLossy).value;
              forall i :: 0 <= i < 8 ==>
                && r.modes[i] == (if CatalogMode(x.features, FEATURES[i]) == NoFeature then NoFeature
                                  else AdapterFeature(adapters, x, i))
                && (FEATURES[i] in r.degraded <==>
                      Strength(r.modes[i]) < Strength(CatalogMode(x.features, FEATURES[i])))
  {
    CatalogIs(x.features);
    IntersectFailsIff(model, features, x.allowLossy, 8);
    forall i: nat | i < 8 ensures Loses(model, features, i) <==>
      CatalogMode(x.features, FEATURES[i]) != NoFeature && AdapterFeature(adapters, x, i) == NoFeature
    {
    }
    if Intersect(model, features, x.allowLossy).Ok? {
      forall i | 0 <= i < 8
        ensures var r := Intersect(model, features, x.allowLossy).value;
                && r.modes[i] == (if CatalogMode(x.features, FEATURES[i]) == NoFeature then NoFeature
                                  else AdapterFeature(adapters, x, i))
                && (FEATURES[i] in r.degraded <==>
                      Strength(r.modes[i]) < Strength(CatalogMode(x.features, FEATURES[i])))
      {
        IntersectGives(model, features, x.allowLossy, 8, i);
        DegradedIsExact(model, features, x.allowLossy, 8, i);
      }
    }
  }

  function FeaturesBehind(adapters: AdapterRegistry, x: Row): Option<Capabilities> {
    if x.mode == Adapter && x.adapter.Some? && x.adapter.value in adapters then Some(adapters[x.adapter.value].features)
    else None
  }

  lemma {:induction false} NativeJudged(adapters: AdapterRegistry, x: Row)
    requires x.mode == Native && x.routeProtocols.Decoded? && x.protocol in x.routeProtocols.value
    ensures Judge(adapters, x).Keep? <==> Servable(adapters, x)
    ensures Judge(adapters, x).Keep? ==> PublishedAs(adapters, x, Judge(adapters, x).binding)
    ensures !Judge(adapters, x).Skip?
  {
    CatalogIs(x.features);
    if CapabilitiesFromCatalog(x.features).Some? {
      JudgedIntersection(adapters, x, CapabilitiesFromCatalog(x.features).value, None);
    }
    assert Speaks(x, x.protocol);
  }

  lemma {:induction false} AdapterJudged(adapters: AdapterRegistry, x: Row)
    requires x.mode == Adapter && x.routeProtocols.Decoded? && x.protocol in x.routeProtocols.value
    ensures Judge(adapters, x).Keep? <==> Servable(adapters, x)
    ensures Judge(adapters, x).Keep? ==> PublishedAs(adapters, x, Judge(adapters, x).binding)
    ensures !Judge(adapters, x).Skip?
  {
    CatalogIs(x.features);
    if CapabilitiesFromCatalog(x.features).Some? && x.adapter.Some? && x.adapter.value in adapters {
      JudgedIntersection(adapters, x, CapabilitiesFromCatalog(x.features).value, FeaturesBehind(adapters, x));
    }
    if x.sourceProtocol.Some? {
      assert Speaks(x, x.sourceProtocol.value);
    }
  }

  /** A routable row is skipped exactly when its route does not list its protocol, fails exactly when
      the list does not decode or the listed row cannot be served, and is otherwise published. */
  lemma {:induction false} RowIsJudged(adapters: AdapterRegistry, x: Row)
    requires x.mode == Native || x.mode == Adapter
    ensures Judge(adapters, x).Skip? <==> x.routeProtocols.Decoded? && x.protocol !in x.routeProtocols.value
    ensures Judge(adapters, x).Keep? <==>
              x.routeProtocols.Decoded? && x.protocol in x.routeProtocols.value && Servable(adapters, x)
    ensures Judge(adapters, x).Keep? ==> PublishedAs(adapters, x, Judge(adapters, x).binding)
  {
    if x.routeProtocols.Decoded? && x.protocol in x.routeProtocols.value {
      if x.mode == Native {
        NativeJudged(adapters, x);
      } else {
        AdapterJudged(adapters, x);
      }
    }
  }

  // ---------------------------------------------------------------------------
  // The snapshot.
  // ---------------------------------------------------------------------------

  /** The row is one the snapshot is made of. */
  ghost predicate Listed(db: Database, x: Row, r: RouteRow, b: BindingRow) {
    RowIs(db, x, r, b) && r.protocols.Decoded? && b.protocol in r.protocols.value
  }

  /** It builds only if every listed row can be served. */
  lemma {:induction false} BuiltRowsAreServable(adapters: AdapterRegistry, db: Database, x: Row, r: RouteRow,
                                                b: BindingRow)
    requires Builds(adapters, SnapshotRows(db)) && RowIs(db, x, r, b)
    ensures r.protocols.Decoded? && (Listed(db, x, r, b) ==> Servable(adapters, x))
  {
    SnapshotRowsAre(db, x);
    RowIsJudged(adapters, x);
  }

  /** Conversely, it fails only on a list that does not decode, on a listed row that cannot be
      served, or on an account with two upstream models for one logical model. */
  lemma {:induction false} BuildsWhenServable(adapters: AdapterRegistry, db: Database)
    requires forall x, r, b :: RowIs(db, x, r, b) ==>
               r.protocols.Decoded? && (Listed(db, x, r, b) ==> Servable(adapters, x))
    ensures Builds(adapters, SnapshotRows(db)) <==> Agreement(Kept(adapters, SnapshotRows(db)))
  {
    forall x | x in SnapshotRows(db) ensures !Judge(adapters, x).Fail? {
      SnapshotRowsAre(db, x);
      var r, b :| RowIs(db, x, r, b);
      assert RowIs(db, x, r, b) ==> r.protocols.Decoded? && (Listed(db, x, r, b) ==> Servable(adapters, x));
      RowIsJudged(adapters, x);
    }
  }

  lemma {:induction false} KeptRowIsListed(adapters: AdapterRegistry, db: Database, e: KeptRow)
    returns (r: RouteRow, b: BindingRow)
    requires e in Kept(adapters, SnapshotRows(db))
    ensures Listed(db, e.row, r, b) && PublishedAs(adapters, e.row, e.binding)
  {
    SnapshotRowsAre(db, e.row);
    r, b :| RowIs(db, e.row, r, b);
    RowIsJudged(adapters, e.row);
  }

  /** Every published binding is some binding of the tables behind some route of theirs: the key
      is the route's, the model's public name and the binding's protocol, the policy is the route's
      and the model's, and the contents are what the rows say. */
  lemma {:induction false} BindingReflectsTables(adapters: AdapterRegistry, db: Database, s: RuntimeSnapshot, i: nat,
                                                 rb: RuntimeBinding)
    returns (x: Row, r: RouteRow, b: BindingRow)
    requires Integrity(db) && IsSnapshotOf(Kept(adapters, SnapshotRows(db)), s)
    requires i < |s.routes| && rb in s.routes[i].bindings
    ensures Listed(db, x, r, b) && PublishedAs(adapters, x, rb)
    ensures s.routes[i].key == RouteKey(r.id, db.models[r.modelId].publicName, b.protocol)
    ensures s.routes[i].strategy == r.strategy && s.routes[i].allowLossy == r.allowLossy
    ensures s.routes[i].timeoutMs == db.models[r.modelId].timeoutMs
    ensures s.routes[i].maxRetries == db.models[r.modelId].maxRetries
  {
    var es := Kept(adapters, SnapshotRows(db));
    var e := BindingComesFromRow(es, s.routes, i, rb);
    x := e.row;
    r, b := KeptRowIsListed(adapters, db, e);
    PolicyOfRoute(adapters, db, s.routes, i, e);
  }

  lemma {:induction false} PolicyOfRoute(adapters: AdapterRegistry, db: Database, routes: seq<RuntimeRoute>, i: nat,
                                         e: KeptRow)
    requires Integrity(db) && RoutesMatch(Kept(adapters, SnapshotRows(db)), routes)
    requires i < |routes| && e in Kept(adapters, SnapshotRows(db)) && KeyOf()(e) == routes[i].key
    ensures routes[i].strategy == e.row.strategy && routes[i].allowLossy == e.row.allowLossy
    ensures routes[i].timeoutMs == e.row.timeoutMs && routes[i].maxRetries == e.row.maxRetries
  {
    var es := Kept(adapters, SnapshotRows(db));
    assert RouteMatches(es, Keys(es)[i], routes[i]);
    var first := Filter(es, HasKey(Keys(es)[i]))[0];
    assert first in Filter(es, HasKey(Keys(es)[i]));
    SameRouteSamePolicy(db, first.row, e.row);
  }

  lemma {:induction false} AccountGroup(adapters: AdapterRegistry, db: Database, id: string)
    requires Builds(adapters, SnapshotRows(db))
    ensures Filter(Kept(adapters, SnapshotRows(db)), HasAccount(id)) != [] <==>
              exists x, r, b :: Listed(db, x, r, b) && b.accountId == id
  {
    var es := Kept(adapters, SnapshotRows(db));
    if Filter(es, HasAccount(id)) != [] {
      var e := Filter(es, HasAccount(id))[0];
      assert e in Filter(es, HasAccount(id));
      AccountIsListed(adapters, db, e);
    }
    if x, r, b :| Listed(db, x, r, b) && b.accountId == id {
      var e := ListedAccount(adapters, db, x, r, b);
      assert e in Filter(es, HasAccount(id));
    }
  }

  lemma {:induction false} AccountIsListed(adapters: AdapterRegistry, db: Database, e: KeptRow)
    requires e in Kept(adapters, SnapshotRows(db))
    ensures exists x, r, b ::
              && Listed(db, x, r, b) && b.accountId == e.row.accountId
              && db.models[r.modelId].publicName == e.row.publicName
  {
    var r, b := KeptRowIsListed(adapters, db, e);
    assert Listed(db, e.row, r, b) && b.accountId == e.row.accountId;
  }

  lemma {:induction false} ListedAccount(adapters: AdapterRegistry, db: Database, x: Row, r: RouteRow, b: BindingRow)
    returns (e: KeptRow)
    requires Builds(adapters, SnapshotRows(db)) && Listed(db, x, r, b)
    ensures e in Kept(adapters, SnapshotRows(db))
    ensures e.row.accountId == b.accountId && e.row.publicName == db.models[r.modelId].publicName
  {
    e := ListedRowIsKept(adapters, db, x, r, b);
  }

  /** An account is published exactly when it serves a listed row, as its row says: under its
      source, and enabled exactly when both the account and the source are. */
  lemma {:induction false} AccountReflectsTables(adapters: AdapterRegistry, db: Database, s: RuntimeSnapshot,
                                                 id: string)
    requires Builds(adapters, SnapshotRows(db)) && IsSnapshotOf(Kept(adapters, SnapshotRows(db)), s)
    ensures FindAccount(s.accounts, id).Some? <==> exists x, r, b :: Listed(db, x, r, b) && b.accountId == id
    ensures FindAccount(s.accounts, id).Some? ==>
              var a := FindAccount(s.accounts, id).value;
              && id in db.accounts && db.accounts[id].sourceId in db.sources
              && a.id == id && a.providerId == db.accounts[id].sourceId
              && a.displayName == db.accounts[id].displayName && a.weight == db.accounts[id].weight
              && a.enabled == (db.accounts[id].enabled && db.sources[db.accounts[id].sourceId].enabled)
  {
    var es := Kept(adapters, SnapshotRows(db));
    AccountGroup(adapters, db, id);
    assert AccountMatches(es, id, FindAccount(s.accounts, id));
    if Filter(es, HasAccount(id)) != [] {
      assert Filter(es, HasAccount(id))[0] in Filter(es, HasAccount(id));
      var r, b := KeptRowIsListed(adapters, db, Filter(es, HasAccount(id))[0]);
    }
  }

  lemma {:induction false} ListedRowIsKept(adapters: AdapterRegistry, db: Database, x: Row, r: RouteRow,
                                           b: BindingRow)
    returns (e: KeptRow)
    requires Builds(adapters, SnapshotRows(db)) && Listed(db, x, r, b)
    ensures e in Kept(adapters, SnapshotRows(db)) && e.row == x
  {
    SnapshotRowsAre(db, x);
    BuiltRowsAreListed(adapters, db);
    var rows, es := Filter(SnapshotRows(db), ListedRow()), Kept(adapters, SnapshotRows(db));
    assert x in rows;
    var i :| 0 <= i < |rows| && rows[i] == x;
    assert Map(es, KeptRowOf())[i] == x;
    e := es[i];
  }

  lemma {:induction false} SourceGroup(adapters: AdapterRegistry, db: Database, id: string)
    requires Builds(adapters, SnapshotRows(db))
    ensures Filter(Kept(adapters, SnapshotRows(db)), HasSource(id)) != [] <==>
              exists x, r, b :: Listed(db, x, r, b) && b.sourceId == id
  {
    var es := Kept(adapters, SnapshotRows(db));
    if Filter(es, HasSource(id)) != [] {
      var e := Filter(es, HasSource(id))[0];
      assert e in Filter(es, HasSource(id));
      UpstreamIsListed(adapters, db, e);
    }
    if x, r, b :| Listed(db, x, r, b) && b.sourceId == id {
      var e := ListedUpstream(adapters, db, x, r, b);
      assert e in Filter(es, HasSource(id));
    }
  }

  /** A provider is published exactly when its source serves a listed row, as the source's row says. */
  lemma {:induction false} ProviderReflectsTables(adapters: AdapterRegistry, db: Database, s: RuntimeSnapshot,
                                                  id: string)
    requires Builds(adapters, SnapshotRows(db)) && IsSnapshotOf(Kept(adapters, SnapshotRows(db)), s)
    ensures FindProvider(s.providers, id).Some? <==> exists x, r, b :: Listed(db, x, r, b) && b.sourceId == id
    ensures FindProvider(s.providers, id).Some? ==>
              var p := FindProvider(s.providers, id).value;
              && id in db.sources && p.id == id && p.name == db.sources[id].displayName
              && p.baseUrl == db.sources[id].baseUrl && Decoded(p.endpoints) == db.sources[id].endpoints
  {
    var es := Kept(adapters, SnapshotRows(db));
    SourceGroup(adapters, db, id);
    assert ProviderMatches(es, id, FindProvider(s.providers, id));
    if Filter(es, HasSource(id)) != [] {
      assert Filter(es, HasSource(id))[0] in Filter(es, HasSource(id));
      var r, b := KeptRowIsListed(adapters, db, Filter(es, HasSource(id))[0]);
    }
  }

  /** A provider's models are the upstream models of its source that serve a listed row. */
  lemma {:induction false} ProviderModelsAre(adapters: AdapterRegistry, db: Database, s: RuntimeSnapshot, id: string,
                                             m: string)
    requires Builds(adapters, SnapshotRows(db)) && IsSnapshotOf(Kept(adapters, SnapshotRows(db)), s)
    requires FindProvider(s.providers, id).Some?
    ensures m in FindProvider(s.providers, id).value.models <==>
              exists x, r, b :: Listed(db, x, r, b) && b.sourceId == id && b.upstreamId == m
  {
    var es := Kept(adapters, SnapshotRows(db));
    assert ProviderMatches(es, id, FindProvider(s.providers, id));
    UpstreamsAre(adapters, db, id, m);
  }

  lemma {:induction false} UpstreamsAre(adapters: AdapterRegistry, db: Database, id: string, m: string)
    requires Builds(adapters, SnapshotRows(db))
    ensures m in Map(Filter(Kept(adapters, SnapshotRows(db)), HasSource(id)), UpstreamOf()) <==>
              exists x, r, b :: Listed(db, x, r, b) && b.sourceId == id && b.upstreamId == m
  {
    UpstreamMember(Kept(adapters, SnapshotRows(db)), id, m);
    if e :| e in Kept(adapters, SnapshotRows(db)) && e.row.sourceId == id && e.row.upstreamId == m {
      UpstreamIsListed(adapters, db, e);
    }
    if x, r, b :| Listed(db, x, r, b) && b.sourceId == id && b.upstreamId == m {
      var e := ListedUpstream(adapters, db, x, r, b);
    }
  }

  lemma {:induction false} UpstreamMember(es: seq<KeptRow>, id: string, m: string)
    ensures m in Map(Filter(es, HasSource(id)), UpstreamOf()) <==>
              exists e :: e in es && e.row.sourceId == id && e.row.upstreamId == m
  {
    MapMember(Filter(es, HasSource(id)), UpstreamOf(), m);
    if e :| e in es && e.row.sourceId == id && e.row.upstreamId == m {
      assert e in Filter(es, HasSource(id)) && UpstreamOf()(e) == m;
    }
  }

  lemma {:induction false} UpstreamIsListed(adapters: AdapterRegistry, db: Database, e: KeptRow)
    requires e in Kept(adapters, SnapshotRows(db))
    ensures exists x, r, b :: Listed(db, x, r, b) && b.sourceId == e.row.sourceId && b.upstreamId == e.row.upstreamId
  {
    var r, b := KeptRowIsListed(adapters, db, e);
    assert Listed(db, e.row, r, b) && b.sourceId == e.row.sourceId;
  }

  lemma {:induction false} ListedUpstream(adapters: AdapterRegistry, db: Database, x: Row, r: RouteRow, b: BindingRow)
    returns (e: KeptRow)
    requires Builds(adapters, SnapshotRows(db)) && Listed(db, x, r, b)
    ensures e in Kept(adapters, SnapshotRows(db)) && e.row.sourceId == b.sourceId && e.row.upstreamId == b.upstreamId
  {
    e := ListedRowIsKept(adapters, db, x, r, b);
  }

  lemma {:induction false} MapMember<T(!new), U>(s: seq<T>, f: T -> U, y: U)
    ensures y in Map(s, f) <==> exists x :: x in s && f(x) == y
  {
    if y in Map(s, f) {
      var i :| 0 <= i < |s| && Map(s, f)[i] == y;
      assert s[i] in s && f(s[i]) == y;
    }
    if x :| x in s && f(x) == y {
      var i :| 0 <= i < |s| && s[i] == x;
      assert Map(s, f)[i] == y;
    }
  }

  /** A public name is published exactly when its model has a listed row: a paused, unconfirmed or
      unrouted model is not. */
  lemma {:induction false} ModelIsPublishedIff(adapters: AdapterRegistry, db: Database, s: RuntimeSnapshot,
                                               name: string)
    requires Builds(adapters, SnapshotRows(db)) && IsSnapshotOf(Kept(adapters, SnapshotRows(db)), s)
    ensures (exists m :: m in s.models && m.id == name) <==>
            exists x, r, b :: Listed(db, x, r, b) && db.models[r.modelId].publicName == name
  {
    var es := Kept(adapters, SnapshotRows(db));
    if x, r, b :| Listed(db, x, r, b) && db.models[r.modelId].publicName == name {
      var e := ListedAccount(adapters, db, x, r, b);
      var m := ModelOfRow(es, s.models, e);
    }
    if m :| m in s.models && m.id == name {
      var e := RowOfModel(es, s.models, m);
      AccountIsListed(adapters, db, e);
    }
  }

  /** A published model carries its row's display name, and offers exactly the accounts that serve
      one of its listed rows. */
  lemma {:induction false} ModelReflectsTables(adapters: AdapterRegistry, db: Database, s: RuntimeSnapshot,
                                               m: PublishedModel, id: string)
    requires Integrity(db) && Builds(adapters, SnapshotRows(db)) && IsSnapshotOf(Kept(adapters, SnapshotRows(db)), s)
    requires m in s.models
    ensures forall k :: k in db.models && db.models[k].publicName == m.id ==> m.displayName == db.models[k].displayName
    ensures id in m.accountIds <==>
              exists x, r, b :: Listed(db, x, r, b) && b.accountId == id && db.models[r.modelId].publicName == m.id
  {
    var es := Kept(adapters, SnapshotRows(db));
    var first := RowOfModel(es, s.models, m);
    var q, c := KeptRowIsListed(adapters, db, first);
    AccountsOfModel(es, s.models, m, id);
    if e :| e in es && e.row.publicName == m.id && e.row.accountId == id {
      AccountIsListed(adapters, db, e);
    }
    if x, r, b :| Listed(db, x, r, b) && b.accountId == id && db.models[r.modelId].publicName == m.id {
      var e := ListedAccount(adapters, db, x, r, b);
    }
  }

  lemma {:induction false} AccountsOfModel(es: seq<KeptRow>, models: seq<PublishedModel>, m: PublishedModel, id: string)
    requires SortedModels(es, models) && m in models
    ensures id in m.accountIds <==> exists e :: e in es && e.row.publicName == m.id && e.row.accountId == id
  {
    var ms :| ModelsMatch(es, ms) && models == SortBy(ms, ByModelId());
    SortByIsPermutation(ms, ByModelId());
    var i :| 0 <= i < |ms| && ms[i] == m;
    assert ModelMatches(es, Names(es)[i], ms[i]);
    MapMember(Filter(es, HasName(Names(es)[i])), AccountOf(), id);
    if e :| e in es && e.row.publicName == m.id && e.row.accountId == id {
      assert e in Filter(es, HasName(Names(es)[i])) && AccountOf()(e) == id;
    }
  }

  lemma {:induction false} ModelOfRow(es: seq<KeptRow>, models: seq<PublishedModel>,
                                      e: KeptRow)
    returns (m: PublishedModel)
    requires SortedModels(es, models) && e in es
    ensures m in models && m.id == e.row.publicName
  {
    var ms :| ModelsMatch(es, ms) && models == SortBy(ms, ByModelId());
    SortByIsPermutation(ms, ByModelId());
    var j :| 0 <= j < |es| && es[j] == e;
    assert Map(es, NameOf())[j] == e.row.publicName;
    assert e.row.publicName in Names(es);
    var i :| 0 <= i < |Names(es)| && Names(es)[i] == e.row.publicName;
    assert ModelMatches(es, Names(es)[i], ms[i]);
    m := ms[i];
    assert m in ms;
  }

  lemma {:induction false} RowOfModel(es: seq<KeptRow>, models: seq<PublishedModel>,
                                      m: PublishedModel)
    returns (e: KeptRow)
    requires SortedModels(es, models) && m in models
    ensures e in es && e.row.publicName == m.id && m.displayName == e.row.displayName
  {
    var ms :| ModelsMatch(es, ms) && models == SortBy(ms, ByModelId());
    SortByIsPermutation(ms, ByModelId());
    var i :| 0 <= i < |ms| && ms[i] == m;
    assert ModelMatches(es, Names(es)[i], ms[i]);
    var group := Filter(es, HasName(Names(es)[i]));
    assert group[0] in group;
    e := group[0];
  }

  /** Providers, accounts and models are listed by ascending id. */
  lemma {:induction false} ListsAreOrdered(es: seq<KeptRow>, s: RuntimeSnapshot)
    requires IsSnapshotOf(es, s)
    ensures forall i, j :: 0 <= i < j < |s.providers| ==>
              StrLe(s.providers[i].id, s.providers[j].id) && s.providers[i].id != s.providers[j].id
    ensures forall i, j :: 0 <= i < j < |s.accounts| ==>
              StrLe(s.accounts[i].id, s.accounts[j].id) && s.accounts[i].id != s.accounts[j].id
    ensures forall i, j :: 0 <= i < j < |s.models| ==> StrLe(s.models[i].id, s.models[j].id)
  {
    ModelsAreOrdered(es, s.models);
  }

  lemma {:induction false} ModelsAreOrdered(es: seq<KeptRow>, models: seq<PublishedModel>)
    requires SortedModels(es, models)
    ensures forall i, j :: 0 <= i < j < |models| ==> StrLe(models[i].id, models[j].id)
  {
    var ms :| ModelsMatch(es, ms) && models == SortBy(ms, ByModelId());
    StrLeIsOrder();
    SortBySorts(ms, ByModelId());
    forall i, j | 0 <= i < j < |models| ensures StrLe(models[i].id, models[j].id) {
      assert ByModelId()(models[i], models[j]);
    }
  }

  // ---------------------------------------------------------------------------
  // One upstream model for an account and a public name.
  // ---------------------------------------------------------------------------

  predicate Uses(e: KeptRow, id: string, name: string) {
    e.row.accountId == id && e.row.publicName == name
  }

  /** Row i is the first with this account and public name. */
  ghost predicate FirstUse(es: seq<KeptRow>, i: nat, id: string, name: string) {
    i < |es| && Uses(es[i], id, name) && forall k :: 0 <= k < i ==> !Uses(es[k], id, name)
  }

  lemma {:induction false} FirstUpstreamIs(es: seq<KeptRow>, i: nat, id: string, name: string)
    requires FirstUse(es, i, id, name)
    ensures FirstUpstream(es, id, name) == Some(es[i].row.upstreamId)
  {
    var n := |es| - 1;
    assert es == es[..n] + [es[n]];
    FirstUpstreamSnoc(es[..n], es[n], id, name);
    if i < n {
      FirstUpstreamIs(es[..n], i, id, name);
    } else {
      NoUpstream(es[..n], id, name);
    }
  }

  lemma {:induction false} NoUpstream(es: seq<KeptRow>, id: string, name: string)
    requires forall k :: 0 <= k < |es| ==> !Uses(es[k], id, name)
    ensures FirstUpstream(es, id, name) == None
  {
    var group := Filter(es, HasAccountAndName(id, name));
    if group != [] {
      assert group[0] in group;
    }
  }

  lemma {:induction false} FindFirstUse(es: seq<KeptRow>, n: nat, id: string, name: string) returns (i: nat)
    requires n < |es| && Uses(es[n], id, name)
    ensures i <= n && FirstUse(es, i, id, name)
  {
    if k :| 0 <= k < n && Uses(es[k], id, name) {
      i := FindFirstUse(es, k, id, name);
    } else {
      i := n;
    }
  }

  /** Rows agree exactly when each row of a route that does not fall back in order goes to the upstream
      model of the first row with its account and public name. */
  lemma {:induction false} AgreementIs(es: seq<KeptRow>)
    ensures Agreement(es) <==>
              forall j: nat, i: nat ::
                j < i < |es| && FirstUse(es, j, es[i].row.accountId, es[i].row.publicName)
                && es[i].row.strategy != "ordered_fallback" ==>
                  es[i].row.upstreamId == es[j].row.upstreamId
  {
    forall i: nat | i < |es|
      ensures Compatible(es[..i], es[i].row) <==>
        forall j: nat :: j < i && FirstUse(es, j, es[i].row.accountId, es[i].row.publicName)
                         && es[i].row.strategy != "ordered_fallback" ==>
                           es[i].row.upstreamId == es[j].row.upstreamId
    {
      CompatibleIs(es, i);
    }
  }

  lemma {:induction false} CompatibleIs(es: seq<KeptRow>, i: nat)
    requires i < |es|
    ensures Compatible(es[..i], es[i].row) <==>
              forall j: nat :: j < i && FirstUse(es, j, es[i].row.accountId, es[i].row.publicName)
                               && es[i].row.strategy != "ordered_fallback" ==>
                                 es[i].row.upstreamId == es[j].row.upstreamId
  {
    var id, name := es[i].row.accountId, es[i].row.publicName;
    if k :| 0 <= k < i && Uses(es[k], id, name) {
      var j := FindFirstUse(es, k, id, name);
      assert FirstUse(es[..i], j, id, name);
      FirstUpstreamIs(es[..i], j, id, name);
    } else {
      NoUpstream(es[..i], id, name);
    }
  }

  /** An account's map holds, for each public name it serves, the first row's upstream model. */
  lemma {:induction false} ModelMapIs(es: seq<KeptRow>, s: RuntimeSnapshot, id: string, name: string, upstream: string)
    requires IsSnapshotOf(es, s) && FindAccount(s.accounts, id).Some?
    ensures Find(FindAccount(s.accounts, id).value.modelMap, name) == Some(upstream) <==>
              exists i: nat :: FirstUse(es, i, id, name) && es[i].row.upstreamId == upstream
  {
    assert AccountMatches(es, id, FindAccount(s.accounts, id));
    if k :| 0 <= k < |es| && Uses(es[k], id, name) {
      var i := FindFirstUse(es, k, id, name);
      FirstUpstreamIs(es, i, id, name);
    } else {
      NoUpstream(es, id, name);
    }
  }

  // ---------------------------------------------------------------------------
  // Capability chains.
  // ---------------------------------------------------------------------------

  /** The chain check accepts exactly when, for every confirmed capability of a stored source, the
      protocol spoken to the source has an endpoint that is not blank: the capability's own when it is
      native, and otherwise its adapter's source protocol, itself confirmed and native there. */
  lemma {:induction false} ChainsAre(adapters: AdapterRegistry, db: Database)
    ensures ChainsOk(adapters, db) <==>
              forall k :: k in db.capabilities && k.sourceId in db.sources && db.capabilities[k].status == Confirmed ==>
                && (db.capabilities[k].mode == Native ==> Serves(db.sources[k.sourceId], k.protocol))
                && (db.capabilities[k].mode == Adapter ==> AdaptsSoundly(adapters, db, k))
  {
    forall k | k in db.capabilities && k.sourceId in db.sources && db.capabilities[k].status == Confirmed
      ensures (Checked(db, k) ==> ChainOk(adapters, db, k)) <==>
                && (db.capabilities[k].mode == Native ==> Serves(db.sources[k.sourceId], k.protocol))
                && (db.capabilities[k].mode == Adapter ==> AdaptsSoundly(adapters, db, k))
    {
    }
  }

  ghost predicate Serves(s: SourceRow, p: Protocol) {
    s.endpoints.Decoded? && p in s.endpoints.value && !Blank(s.endpoints.value[p])
  }

  ghost predicate AdaptsSoundly(adapters: AdapterRegistry, db: Database, k: CapabilityKey)
    requires k in db.capabilities && k.sourceId in db.sources
  {
    var c := db.capabilities[k];
    && c.sourceProtocol.Some? && c.adapter.Some?
    && Serves(db.sources[k.sourceId], c.sourceProtocol.value)
    && c.adapter.value in adapters
    && adapters[c.adapter.value].from == k.protocol && adapters[c.adapter.value].to == c.sourceProtocol.value
    && var native := CapabilityKey(k.sourceId, k.upstreamId, c.sourceProtocol.value);
    && native in db.capabilities
    && db.capabilities[native].status == Confirmed && db.capabilities[native].mode == Native
  }

  // ---------------------------------------------------------------------------
  // Endpoints.
  // ---------------------------------------------------------------------------

  predicate AllSlashes(s: string) {
    forall i :: 0 <= i < |s| ==> s[i] == '/'
  }

  /** An absolute endpoint is used as it is; any other is put behind the base URL with exactly one
      slash between them, whatever slashes either has there. */
  lemma {:induction false} JoinEndpointIs(base: string, endpoint: string, head: string, tail: string, m: string,
                                          n: string)
    requires base == head + m && AllSlashes(m) && (head != [] ==> head[|head| - 1] != '/')
    requires endpoint == n + tail && AllSlashes(n) && (tail != [] ==> tail[0] != '/')
    ensures "http://" <= endpoint || "https://" <= endpoint ==> JoinEndpoint(base, endpoint) == endpoint
    ensures !("http://" <= endpoint || "https://" <= endpoint) ==> JoinEndpoint(base, endpoint) == head + "/" + tail
  {
    TrimEndOf(head, m);
    TrimStartOf(n, tail);
  }

  lemma {:induction false} TrimEndOf(head: string, m: string)
    requires AllSlashes(m) && (head != [] ==> head[|head| - 1] != '/')
    ensures TrimEnd(head + m) == head
  {
    if m == [] {
      assert head + m == head;
    } else {
      assert (head + m)[..|head + m| - 1] == head + m[..|m| - 1];
      TrimEndOf(head, m[..|m| - 1]);
    }
  }

  lemma {:induction false} TrimStartOf(n: string, tail: string)
    requires AllSlashes(n) && (tail != [] ==> tail[0] != '/')
    ensures TrimStart(n + tail) == tail
  {
    if n == [] {
      assert n + tail == tail;
    } else {
      assert (n + tail)[1..] == n[1..] + tail;
      TrimStartOf(n[1..], tail);
    }
  }
}
