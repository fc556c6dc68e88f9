/**
 The runtime snapshot: the ordered join of routes and bindings, folded row by row
 into runtime routes, accounts, providers and published models.
 */
module Snapshot {
  import opened Base
  import opened Seqs
  import opened Strings
  import opened JsonDiff
  import opened Features
  import opened Tables

  /** One row of the snapshot query. */
  datatype Row = Row(
    routeId: string,
    strategy: string,
    timeoutMs: Option<int>,
    maxRetries: Option<int>,
    publicName: string,
    displayName: string,
    routeProtocols: Stored<seq<Protocol>>,
    allowLossy: bool,
    bindingId: int,
    sourceId: string,
    presetId: string,
    sourceName: string,
    baseUrl: string,
    endpoints: Stored<map<Protocol, string>>,
    accountId: string,
    accountName: string,
    enabled: bool,
    weight: int,
    upstreamId: string,
    protocol: Protocol,
    mode: ProtocolMode,
    sourceProtocol: Option<Protocol>,
    adapter: Option<string>,
    features: Json,
    priority: int)

  datatype RuntimeBinding = RuntimeBinding(
    bindingId: int,
    sourceId: string,
    providerId: string,
    accountId: string,
    upstreamId: string,
    protocolUpstream: Protocol,
    endpoint: string,
    mode: ProtocolMode,
    adapter: Option<string>,
    effective: seq<FeatureMode>,
    degraded: seq<string>)

  datatype RouteKey = RouteKey(routeId: string, model: string, protocol: Protocol)

  datatype RuntimeRoute = RuntimeRoute(
    key: RouteKey,
    strategy: string,
    timeoutMs: Option<int>,
    maxRetries: Option<int>,
    allowLossy: bool,
    bindings: seq<RuntimeBinding>)

  datatype Provider = Provider(
    id: string,
    name: string,
    baseUrl: string,
    endpoints: map<Protocol, string>,
    models: seq<string>)

  datatype Account = Account(
    id: string,
    providerId: string,
    displayName: string,
    enabled: bool,
    weight: int,
    modelMap: map<string, string>)

  datatype PublishedModel = PublishedModel(id: string, displayName: string, accountIds: seq<string>)

  datatype RuntimeSnapshot = RuntimeSnapshot(
    providers: seq<Provider>,
    accounts: seq<Account>,
    routes: seq<RuntimeRoute>,
    models: seq<PublishedModel>,
    revision: int)

  const ORDERED_FALLBACK := "ordered_fallback"

  // ---------------------------------------------------------------------------
  // The query.
  // ---------------------------------------------------------------------------

  /** The join conditions and the WHERE clause. */
  predicate Joins(db: Database, r: RouteRow, b: BindingRow) {
    && r.modelId in db.models && b.modelId == r.modelId
    && b.sourceId in db.sources
    && b.accountId in db.accounts && db.accounts[b.accountId].sourceId == b.sourceId
    && r.enabled
    && db.models[r.modelId].enabled && db.models[r.modelId].status.Confirmed?
    && b.enabled && b.status.Confirmed?
    && CatalogRoutable(db, b)
  }

  function RowOf(db: Database, r: RouteRow, b: BindingRow): Row
    requires Joins(db, r, b)
  {
    var m, s, a := db.models[r.modelId], db.sources[b.sourceId], db.accounts[b.accountId];
    var c := db.capabilities[BindingCapabilityKey(b)];
    Row(r.id, r.strategy, m.timeoutMs, m.maxRetries, m.publicName, m.displayName, r.protocols, r.allowLossy,
        b.id, b.sourceId, s.presetId, s.displayName, s.baseUrl, s.endpoints,
        b.accountId, a.displayName, a.enabled && s.enabled, a.weight,
        b.upstreamId, b.protocol, c.mode, c.sourceProtocol, c.adapter, c.features, b.priority)
  }

  function JoinBindings(db: Database, r: RouteRow, bs: seq<BindingRow>): seq<Row> {
    if bs == [] then []
    else
      var n := |bs| - 1;
      JoinBindings(db, r, bs[..n]) + if Joins(db, r, bs[n]) then [RowOf(db, r, bs[n])] else []
  }

  function JoinRoutes(db: Database, rs: seq<RouteRow>): seq<Row> {
    if rs == [] then []
    else JoinRoutes(db, rs[..|rs| - 1]) + JoinBindings(db, rs[|rs| - 1], db.bindings)
  }

  function ModeRank(m: ProtocolMode): int {
    if m.Native? then 0 else 1
  }

  /** ORDER BY route, protocol, priority DESC, native first, binding. */
  function RowOrder(): (Row, Row) -> bool {
    (x: Row, y: Row) =>
      if x.routeId != y.routeId then StrLe(x.routeId, y.routeId)
      else if x.protocol != y.protocol then EnumRank(x.protocol) < EnumRank(y.protocol)
      else if x.priority != y.priority then x.priority > y.priority
      else if ModeRank(x.mode) != ModeRank(y.mode) then ModeRank(x.mode) < ModeRank(y.mode)
      else x.bindingId <= y.bindingId
  }

  function SnapshotRows(db: Database): seq<Row> {
    SortBy(JoinRoutes(db, db.routes), RowOrder())
  }

  lemma {:induction false} RowOrderConnects(x: Row, y: Row)
    ensures RowOrder()(x, y) || RowOrder()(y, x)
  {
    StrLeIsOrder();
  }

  lemma {:induction false} RowOrderComposes(x: Row, y: Row, z: Row)
    requires RowOrder()(x, y) && RowOrder()(y, z)
    ensures RowOrder()(x, z)
  {
    StrLeIsOrder();
  }

  lemma {:induction false} RowOrderIsTotal()
    ensures TotalPreorder(RowOrder())
  {
    forall x: Row, y: Row ensures RowOrder()(x, y) || RowOrder()(y, x) {
      RowOrderConnects(x, y);
    }
    forall x: Row, y: Row, z: Row | RowOrder()(x, y) && RowOrder()(y, z) ensures RowOrder()(x, z) {
      RowOrderComposes(x, y, z);
    }
  }

  lemma {:induction false} JoinBindingsMembers(db: Database, r: RouteRow, bs: seq<BindingRow>)
    ensures forall x :: x in JoinBindings(db, r, bs) <==> exists b :: b in bs && Joins(db, r, b) && x == RowOf(db, r, b)
  {
    if bs != [] {
      var n := |bs| - 1;
      assert bs == bs[..n] + [bs[n]];
      JoinBindingsMembers(db, r, bs[..n]);
    }
  }

  lemma {:induction false} JoinRoutesMembers(db: Database, rs: seq<RouteRow>)
    ensures forall x :: x in JoinRoutes(db, rs) <==>
              exists r, b :: r in rs && b in db.bindings && Joins(db, r, b) && x == RowOf(db, r, b)
  {
    if rs != [] {
      var n := |rs| - 1;
      assert rs == rs[..n] + [rs[n]];
      JoinRoutesMembers(db, rs[..n]);
      JoinBindingsMembers(db, rs[n], db.bindings);
    }
  }

  /** Every snapshot row comes from a route and a binding of the database. */
  lemma {:induction false} SnapshotRowsMembers(db: Database)
    ensures forall x :: x in SnapshotRows(db) <==>
              exists r, b :: r in db.routes && b in db.bindings && Joins(db, r, b) && x == RowOf(db, r, b)
  {
    JoinRoutesMembers(db, db.routes);
    SortByIsPermutation(JoinRoutes(db, db.routes), RowOrder());
  }

  // ---------------------------------------------------------------------------
  // Judging one row by itself.
  // ---------------------------------------------------------------------------

  datatype Problem =
    | BadRouteProtocols | BadEndpoints
    | MissingSourceProtocol | NoEndpoint | BadFeatures
    | MissingAdapter | UnknownAdapter | WrongDirection
    | LostFeature | BadWeight | SeveralUpstreams

  datatype Verdict = Skip | Fail(problem: Problem) | Keep(binding: RuntimeBinding)

  function UpstreamProtocol(row: Row): Option<Protocol> {
    if row.mode.Native? then Some(row.protocol) else row.sourceProtocol
  }

  predicate HasEndpoint(endpoints: map<Protocol, string>, p: Protocol) {
    p in endpoints && !Blank(endpoints[p])
  }

  predicate StartsWith(s: string, prefix: string) {
    prefix <= s
  }

  function TrimStart(s: string): string {
    if s != [] && s[0] == '/' then TrimStart(s[1..]) else s
  }

  function TrimEnd(s: string): string {
    if s != [] && s[|s| - 1] == '/' then TrimEnd(s[..|s| - 1]) else s
  }

  function JoinEndpoint(base: string, endpoint: string): string {
    if StartsWith(endpoint, "http://") || StartsWith(endpoint, "https://") then endpoint
    else TrimEnd(base) + "/" + TrimStart(endpoint)
  }

  /** The adapter's features, or why the adapter cannot serve this row. */
  function AdapterFeatures(adapters: AdapterRegistry, row: Row,
                           upstream: Protocol): Result<Option<Capabilities>, Problem> {
    if !row.mode.Adapter? then Ok(None)
    else if row.adapter.None? then Err(MissingAdapter)
    else if row.adapter.value !in adapters then Err(UnknownAdapter)
    else
      var d := adapters[row.adapter.value];
      if d.from != row.protocol || d.to != upstream then Err(WrongDirection) else Ok(Some(d.features))
  }

  function Judge(adapters: AdapterRegistry, row: Row): Verdict {
    if row.routeProtocols.Malformed? then Fail(BadRouteProtocols)
    else if row.protocol !in row.routeProtocols.value then Skip
    else if row.endpoints.Malformed? then Fail(BadEndpoints)
    else if row.mode.Adapter? && row.sourceProtocol.None? then Fail(MissingSourceProtocol)
    else if !row.mode.Routable() then Skip
    else
      var upstream := UpstreamProtocol(row).value;
      if !HasEndpoint(row.endpoints.value, upstream) then Fail(NoEndpoint)
      else if CapabilitiesFromCatalog(row.features).None? then Fail(BadFeatures)
      else match AdapterFeatures(adapters, row, upstream)
        case Err(problem) => Fail(problem)
        case Ok(features) =>
          match Intersect(CapabilitiesFromCatalog(row.features).value, features, row.allowLossy)
          case Err(_) => Fail(LostFeature)
          case Ok(x) =>
            if row.weight <= 0 then Fail(BadWeight)
            else Keep(RuntimeBinding(row.bindingId, row.sourceId, row.presetId, row.accountId, row.upstreamId, upstream,
                                     JoinEndpoint(row.baseUrl, row.endpoints.value[upstream]), row.mode, row.adapter,
                                     x.modes, x.degraded))
  }

  /** A row that made it into the snapshot, with the binding it became. */
  datatype KeptRow = KeptRow(row: Row, binding: RuntimeBinding)

  function Kept(adapters: AdapterRegistry, rows: seq<Row>): (r: seq<KeptRow>)
    ensures forall e :: e in r ==> e.row in rows && Judge(adapters, e.row) == Keep(e.binding)
  {
    if rows == [] then []
    else
      var n := |rows| - 1;
      var v := Judge(adapters, rows[n]);
      Kept(adapters, rows[..n]) + if v.Keep? then [KeptRow(rows[n], v.binding)] else []
  }

  // ---------------------------------------------------------------------------
  // The snapshot a list of kept rows stands for: group by key, in order.
  // ---------------------------------------------------------------------------

  function KeyOf(): KeptRow -> RouteKey {
    (e: KeptRow) => RouteKey(e.row.routeId, e.row.publicName, e.row.protocol)
  }

  function HasKey(k: RouteKey): KeptRow -> bool {
    (e: KeptRow) => KeyOf()(e) == k
  }

  function BindingOf(): KeptRow -> RuntimeBinding {
    (e: KeptRow) => e.binding
  }

  function HasName(name: string): KeptRow -> bool {
    (e: KeptRow) => e.row.publicName == name
  }

  function NameOf(): KeptRow -> string {
    (e: KeptRow) => e.row.publicName
  }

  function AccountOf(): KeptRow -> string {
    (e: KeptRow) => e.row.accountId
  }

  function HasAccount(id: string): KeptRow -> bool {
    (e: KeptRow) => e.row.accountId == id
  }

  function HasSource(id: string): KeptRow -> bool {
    (e: KeptRow) => e.row.sourceId == id
  }

  function UpstreamOf(): KeptRow -> string {
    (e: KeptRow) => e.row.upstreamId
  }

  function HasAccountAndName(id: string, name: string): KeptRow -> bool {
    (e: KeptRow) => e.row.accountId == id && e.row.publicName == name
  }

  /** The group of rows that share a key, as one route; its policy is the first row's. */
  function RouteOf(group: seq<KeptRow>, k: RouteKey): RuntimeRoute
    requires group != []
  {
    var first := group[0].row;
    RuntimeRoute(k, first.strategy, first.timeoutMs, first.maxRetries, first.allowLossy, Map(group, BindingOf()))
  }

  function Keys(es: seq<KeptRow>): seq<RouteKey> {
    Distinct(Map(es, KeyOf()))
  }

  function Names(es: seq<KeptRow>): seq<string> {
    Distinct(Map(es, NameOf()))
  }

  /** The routes are exactly the groups, in order of first occurrence. */
  ghost predicate RoutesMatch(es: seq<KeptRow>, routes: seq<RuntimeRoute>) {
    && |routes| == |Keys(es)|
    && forall i :: 0 <= i < |routes| ==> RouteMatches(es, Keys(es)[i], routes[i])
  }

  ghost predicate RouteMatches(es: seq<KeptRow>, k: RouteKey, r: RuntimeRoute) {
    Filter(es, HasKey(k)) != [] && r == RouteOf(Filter(es, HasKey(k)), k)
  }

  /** One published model per public name, its accounts in order of first occurrence. */
  ghost predicate ModelsMatch(es: seq<KeptRow>, models: seq<PublishedModel>) {
    && |models| == |Names(es)|
    && forall i :: 0 <= i < |models| ==> ModelMatches(es, Names(es)[i], models[i])
  }

  /** The upstream model an account's map holds for a logical model: the first one seen. */
  function FirstUpstream(es: seq<KeptRow>, accountId: string, name: string): Option<string> {
    var group := Filter(es, HasAccountAndName(accountId, name));
    if group == [] then None else Some(group[0].row.upstreamId)
  }

  function Find<V>(m: map<string, V>, k: string): Option<V> {
    if k in m then Some(m[k]) else None
  }

  ghost predicate AccountMatches(es: seq<KeptRow>, id: string, a: Option<Account>) {
    var group := Filter(es, HasAccount(id));
    && (a.Some? <==> group != [])
    && (a.Some? ==>
          var first := group[0].row;
          && a.value.(modelMap := map[])
          == Account(id, first.sourceId, first.accountName, first.enabled, first.weight, map[])
          && forall name :: Find(a.value.modelMap, name) == FirstUpstream(es, id, name))
  }

  ghost predicate AccountsMatch(es: seq<KeptRow>, accounts: map<string, Account>) {
    forall id :: AccountMatches(es, id, Find(accounts, id))
  }

  ghost predicate ProviderMatches(es: seq<KeptRow>, id: string, p: Option<Provider>) {
    var group := Filter(es, HasSource(id));
    && (p.Some? <==> group != [])
    && (p.Some? ==>
          var first := group[0].row;
          && first.endpoints.Decoded?
          && p.value == Provider(id, first.sourceName, first.baseUrl, first.endpoints.value,
                                 Distinct(Map(group, UpstreamOf()))))
  }

  ghost predicate ProvidersMatch(es: seq<KeptRow>, providers: map<string, Provider>) {
    forall id :: ProviderMatches(es, id, Find(providers, id))
  }

  /** A row may join the ones before it: its account maps the logical model to the same
      upstream model, or the route falls back in order and need not. */
  predicate Compatible(es: seq<KeptRow>, row: Row) {
    || row.strategy == ORDERED_FALLBACK
    || FirstUpstream(es, row.accountId, row.publicName).None?
    || FirstUpstream(es, row.accountId, row.publicName) == Some(row.upstreamId)
  }

  ghost predicate Agreement(es: seq<KeptRow>) {
    forall i :: 0 <= i < |es| ==> Compatible(es[..i], es[i].row)
  }

  /** When the snapshot builds. */
  ghost predicate Builds(adapters: AdapterRegistry, rows: seq<Row>) {
    && (forall row :: row in rows ==> !Judge(adapters, row).Fail?)
    && Agreement(Kept(adapters, rows))
  }

  // ---------------------------------------------------------------------------
  // One more kept row.
  // ---------------------------------------------------------------------------

  lemma {:induction false} DistinctMapSnoc<U(!new)>(es: seq<KeptRow>, e: KeptRow, f: KeptRow -> U)
    ensures Distinct(Map(es + [e], f))
         == if f(e) in Distinct(Map(es, f)) then Distinct(Map(es, f)) else Distinct(Map(es, f)) + [f(e)]
  {
    assert Map(es + [e], f)[..|es|] == Map(es, f);
  }

  lemma {:induction false} GroupEmpty<U(!new)>(es: seq<KeptRow>, f: KeptRow -> U, p: KeptRow -> bool, k: U)
    requires forall e :: p(e) <==> f(e) == k
    ensures k !in Map(es, f) <==> Filter(es, p) == []
  {
    if Filter(es, p) != [] {
      var e := Filter(es, p)[0];
      assert e in Filter(es, p);
      var i :| 0 <= i < |es| && es[i] == e;
      assert Map(es, f)[i] == k;
    }
    if k in Map(es, f) {
      var i :| 0 <= i < |es| && Map(es, f)[i] == k;
      assert es[i] in Filter(es, p);
    }
  }

  lemma {:induction false} RouteOfSnoc(group: seq<KeptRow>, e: KeptRow, k: RouteKey)
    requires group != []
    ensures RouteOf(group + [e], k) == RouteOf(group, k).(bindings := RouteOf(group, k).bindings + [e.binding])
  {
    assert Map(group + [e], BindingOf()) == Map(group, BindingOf()) + [e.binding];
  }

  /** The row extends the group that is there. */
  lemma {:induction false} RoutesExtend(es: seq<KeptRow>, routes: seq<RuntimeRoute>, e: KeptRow, j: nat)
    requires RoutesMatch(es, routes) && j < |routes| && routes[j].key == KeyOf()(e)
    ensures RoutesMatch(es + [e], routes[j := routes[j].(bindings := routes[j].bindings + [e.binding])])
  {
    var k, keys := KeyOf()(e), Keys(es);
    var routes' := routes[j := routes[j].(bindings := routes[j].bindings + [e.binding])];
    DistinctMapSnoc(es, e, KeyOf());
    assert RouteMatches(es, keys[j], routes[j]);
    assert keys[j] == k && Keys(es + [e]) == keys;
    forall i | 0 <= i < |routes'| ensures RouteMatches(es + [e], keys[i], routes'[i]) {
      assert RouteMatches(es, keys[i], routes[i]);
      if i == j {
        FilterSnoc(es, e, HasKey(k));
        RouteOfSnoc(Filter(es, HasKey(k)), e, k);
      } else {
        OtherRouteMatches(es, e, keys[i], routes[i]);
      }
    }
  }

  lemma {:induction false} OtherRouteMatches(es: seq<KeptRow>, e: KeptRow, k: RouteKey, r: RuntimeRoute)
    requires RouteMatches(es, k, r) && KeyOf()(e) != k
    ensures RouteMatches(es + [e], k, r)
  {
    FilterSnoc(es, e, HasKey(k));
    assert Filter(es + [e], HasKey(k)) == Filter(es, HasKey(k));
  }

  lemma {:induction false} OpenedRouteMatches(es: seq<KeptRow>, e: KeptRow)
    requires KeyOf()(e) !in Keys(es)
    ensures RouteMatches(es + [e], KeyOf()(e), RouteOf([e], KeyOf()(e)))
  {
    var k := KeyOf()(e);
    GroupEmpty(es, KeyOf(), HasKey(k), k);
    FilterSnoc(es, e, HasKey(k));
    assert Filter(es + [e], HasKey(k)) == [] + [e];
  }

  lemma {:induction false} NewKey(es: seq<KeptRow>, routes: seq<RuntimeRoute>, k: RouteKey)
    requires RoutesMatch(es, routes) && forall j :: 0 <= j < |routes| ==> routes[j].key != k
    ensures k !in Keys(es)
  {
    forall j | 0 <= j < |Keys(es)| ensures Keys(es)[j] != k {
      assert RouteMatches(es, Keys(es)[j], routes[j]);
    }
  }

  /** The row opens a group of its own. */
  lemma {:induction false} RoutesOpen(es: seq<KeptRow>, routes: seq<RuntimeRoute>, e: KeptRow)
    requires RoutesMatch(es, routes)
    requires forall j :: 0 <= j < |routes| ==> routes[j].key != KeyOf()(e)
    ensures RoutesMatch(es + [e], routes + [RouteOf([e], KeyOf()(e))])
  {
    var k, keys := KeyOf()(e), Keys(es);
    NewKey(es, routes, k);
    DistinctMapSnoc(es, e, KeyOf());
    assert Keys(es + [e]) == keys + [k];
    OpenedRouteMatches(es, e);
    forall i | 0 <= i < |routes| ensures RouteMatches(es + [e], keys[i], routes[i]) {
      assert RouteMatches(es, keys[i], routes[i]);
      OtherRouteMatches(es, e, keys[i], routes[i]);
    }
    AppendedRoutes(es + [e], keys, routes, k, RouteOf([e], k));
  }

  lemma {:induction false} AppendedRoutes(es: seq<KeptRow>, keys: seq<RouteKey>, routes: seq<RuntimeRoute>,
                                          k: RouteKey, r: RuntimeRoute)
    requires |routes| == |keys| && Keys(es) == keys + [k]
    requires forall i :: 0 <= i < |routes| ==> RouteMatches(es, keys[i], routes[i])
    requires RouteMatches(es, k, r)
    ensures RoutesMatch(es, routes + [r])
  {
  }

  method FindRoute(routes: seq<RuntimeRoute>, k: RouteKey) returns (r: Option<nat>)
    ensures r.Some? ==> r.value < |routes| && routes[r.value].key == k
    ensures r.None? ==> forall j :: 0 <= j < |routes| ==> routes[j].key != k
  {
    for i := 0 to |routes|
      invariant forall j :: 0 <= j < i ==> routes[j].key != k
    {
      if routes[i].key == k {
        return Some(i);
      }
    }
    return None;
  }

  method AddToRoutes(ghost es: seq<KeptRow>, routes: seq<RuntimeRoute>, e: KeptRow) returns (r: seq<RuntimeRoute>)
    ensures RoutesMatch(es, routes) ==> RoutesMatch(es + [e], r)
  {
    var k := RouteKey(e.row.routeId, e.row.publicName, e.row.protocol);
    var found := FindRoute(routes, k);
    if found.Some? {
      var j := found.value;
      if RoutesMatch(es, routes) {
        RoutesExtend(es, routes, e, j);
      }
      r := routes[j := routes[j].(bindings := routes[j].bindings + [e.binding])];
    } else {
      if RoutesMatch(es, routes) {
        RoutesOpen(es, routes, e);
      }
      assert Map([e], BindingOf()) == [e.binding];
      r := routes + [RuntimeRoute(k, e.row.strategy, e.row.timeoutMs, e.row.maxRetries, e.row.allowLossy, [e.binding])];
    }
  }

  ghost predicate ModelMatches(es: seq<KeptRow>, name: string, m: PublishedModel) {
    var group := Filter(es, HasName(name));
    group != [] && m == PublishedModel(name, group[0].row.displayName, Distinct(Map(group, AccountOf())))
  }

  lemma {:induction false} OtherModelMatches(es: seq<KeptRow>, e: KeptRow, name: string, m: PublishedModel)
    requires ModelMatches(es, name, m) && e.row.publicName != name
    ensures ModelMatches(es + [e], name, m)
  {
    FilterSnoc(es, e, HasName(name));
    assert Filter(es + [e], HasName(name)) == Filter(es, HasName(name));
  }

  lemma {:induction false} ExtendedModelMatches(es: seq<KeptRow>, e: KeptRow, m: PublishedModel)
    requires ModelMatches(es, e.row.publicName, m)
    ensures var ids' := if e.row.accountId in m.accountIds then m.accountIds else m.accountIds + [e.row.accountId];
            ModelMatches(es + [e], e.row.publicName, m.(accountIds := ids'))
  {
    FilterSnoc(es, e, HasName(e.row.publicName));
    DistinctMapSnoc(Filter(es, HasName(e.row.publicName)), e, AccountOf());
  }

  lemma {:induction false} OpenedModelMatches(es: seq<KeptRow>, e: KeptRow)
    requires e.row.publicName !in Names(es)
    ensures ModelMatches(es + [e], e.row.publicName,
                         PublishedModel(e.row.publicName, e.row.displayName, [e.row.accountId]))
  {
    var name := e.row.publicName;
    GroupEmpty(es, NameOf(), HasName(name), name);
    FilterSnoc(es, e, HasName(name));
    assert Filter(es + [e], HasName(name)) == [] + [e];
    DistinctMapSnoc([], e, AccountOf());
  }

  lemma {:induction false} ModelsExtend(es: seq<KeptRow>, models: seq<PublishedModel>, e: KeptRow, j: nat)
    requires ModelsMatch(es, models) && j < |models| && models[j].id == e.row.publicName
    ensures var ids := models[j].accountIds;
            var ids' := if e.row.accountId in ids then ids else ids + [e.row.accountId];
            ModelsMatch(es + [e], models[j := models[j].(accountIds := ids')])
  {
    var ids := models[j].accountIds;
    var ids' := if e.row.accountId in ids then ids else ids + [e.row.accountId];
    var models', names := models[j := models[j].(accountIds := ids')], Names(es);
    DistinctMapSnoc(es, e, NameOf());
    assert names[j] == e.row.publicName && Names(es + [e]) == names;
    forall i | 0 <= i < |models'| ensures ModelMatches(es + [e], names[i], models'[i]) {
      assert ModelMatches(es, names[i], models[i]);
      if i == j {
        ExtendedModelMatches(es, e, models[j]);
      } else {
        OtherModelMatches(es, e, names[i], models[i]);
      }
    }
  }

  lemma {:induction false} ModelsOpen(es: seq<KeptRow>, models: seq<PublishedModel>, e: KeptRow)
    requires ModelsMatch(es, models)
    requires forall j :: 0 <= j < |models| ==> models[j].id != e.row.publicName
    ensures ModelsMatch(es + [e], models + [PublishedModel(e.row.publicName, e.row.displayName, [e.row.accountId])])
  {
    var name, names := e.row.publicName, Names(es);
    var models' := models + [PublishedModel(name, e.row.displayName, [e.row.accountId])];
    forall j | 0 <= j < |names| ensures names[j] != name {
      assert ModelMatches(es, names[j], models[j]);
    }
    DistinctMapSnoc(es, e, NameOf());
    assert Names(es + [e]) == names + [name];
    forall i | 0 <= i < |models'| ensures ModelMatches(es + [e], (names + [name])[i], models'[i]) {
      if i < |models| {
        assert ModelMatches(es, names[i], models[i]);
        OtherModelMatches(es, e, names[i], models[i]);
      } else {
        OpenedModelMatches(es, e);
      }
    }
  }

  method FindModel(models: seq<PublishedModel>, id: string) returns (r: Option<nat>)
    ensures r.Some? ==> r.value < |models| && models[r.value].id == id
    ensures r.None? ==> forall j :: 0 <= j < |models| ==> models[j].id != id
  {
    for i := 0 to |models|
      invariant forall j :: 0 <= j < i ==> models[j].id != id
    {
      if models[i].id == id {
        return Some(i);
      }
    }
    return None;
  }

  method AddToModels(ghost es: seq<KeptRow>, models: seq<PublishedModel>, e: KeptRow) returns (r: seq<PublishedModel>)
    ensures ModelsMatch(es, models) ==> ModelsMatch(es + [e], r)
  {
    var found := FindModel(models, e.row.publicName);
    if found.Some? {
      var j := found.value;
      if ModelsMatch(es, models) {
        ModelsExtend(es, models, e, j);
      }
      r := models;
      if e.row.accountId !in models[j].accountIds {
        r := models[j := models[j].(accountIds := models[j].accountIds + [e.row.accountId])];
      } else {
        assert models == models[j := models[j]];
      }
    } else {
      if ModelsMatch(es, models) {
        ModelsOpen(es, models, e);
      }
      r := models + [PublishedModel(e.row.publicName, e.row.displayName, [e.row.accountId])];
    }
  }

  lemma {:induction false} FirstUpstreamSnoc(es: seq<KeptRow>, e: KeptRow, id: string, name: string)
    ensures FirstUpstream(es + [e], id, name)
         == if FirstUpstream(es, id, name).Some? then FirstUpstream(es, id, name)
            else if e.row.accountId == id && e.row.publicName == name then Some(e.row.upstreamId) else None
  {
    FilterSnoc(es, e, HasAccountAndName(id, name));
  }

  lemma {:induction false} UpstreamNeedsAccount(es: seq<KeptRow>, id: string, name: string)
    requires Filter(es, HasAccount(id)) == []
    ensures FirstUpstream(es, id, name).None?
  {
    forall e | e in es ensures !HasAccountAndName(id, name)(e) {
      assert HasAccount(id)(e) ==> e in Filter(es, HasAccount(id));
    }
    FilterNone(es, HasAccountAndName(id, name));
  }

  /** The account after the row: created by its first row, its map filled by the first
      row of each logical model. */
  function AccountAfter(a: Option<Account>, row: Row): Account {
    var base := if a.Some? then a.value
                else Account(row.accountId, row.sourceId, row.accountName, row.enabled, row.weight, map[]);
    if row.publicName in base.modelMap then base
    else base.(modelMap := base.modelMap[row.publicName := row.upstreamId])
  }

  lemma {:induction false} AccountSame(es: seq<KeptRow>, e: KeptRow, id: string, a: Option<Account>)
    requires AccountMatches(es, id, a) && e.row.accountId != id
    ensures AccountMatches(es + [e], id, a)
  {
    FilterSnoc(es, e, HasAccount(id));
    assert Filter(es + [e], HasAccount(id)) == Filter(es, HasAccount(id));
    if a.Some? {
      forall name ensures Find(a.value.modelMap, name) == FirstUpstream(es + [e], id, name) {
        FirstUpstreamSnoc(es, e, id, name);
      }
    }
  }

  lemma {:induction false} AccountUpdated(es: seq<KeptRow>, e: KeptRow, a: Option<Account>)
    requires AccountMatches(es, e.row.accountId, a)
    ensures AccountMatches(es + [e], e.row.accountId, Some(AccountAfter(a, e.row)))
  {
    var id := e.row.accountId;
    var a' := AccountAfter(a, e.row);
    FilterSnoc(es, e, HasAccount(id));
    forall name ensures Find(a'.modelMap, name) == FirstUpstream(es + [e], id, name) {
      FirstUpstreamSnoc(es, e, id, name);
      if a.None? {
        UpstreamNeedsAccount(es, id, name);
      }
    }
  }

  method AddToAccounts(ghost es: seq<KeptRow>, accounts: map<string, Account>, e: KeptRow)
    returns (r: Option<map<string, Account>>)
    ensures AccountsMatch(es, accounts) ==> (r.Some? <==> Compatible(es, e.row))
    ensures AccountsMatch(es, accounts) && r.Some? ==> AccountsMatch(es + [e], r.value)
  {
    var row := e.row;
    var account := if row.accountId in accounts then accounts[row.accountId]
                   else Account(row.accountId, row.sourceId, row.accountName, row.enabled, row.weight, map[]);
    if AccountsMatch(es, accounts) {
      MapEntry(es, accounts, e);
      AccountsStep(es, accounts, e);
    }
    if row.publicName in account.modelMap {
      if account.modelMap[row.publicName] != row.upstreamId && row.strategy != ORDERED_FALLBACK {
        return None;
      }
    } else {
      account := account.(modelMap := account.modelMap[row.publicName := row.upstreamId]);
    }
    r := Some(accounts[row.accountId := account]);
  }

  lemma {:induction false} MapEntry(es: seq<KeptRow>, accounts: map<string, Account>, e: KeptRow)
    requires AccountsMatch(es, accounts)
    ensures FirstUpstream(es, e.row.accountId, e.row.publicName)
         == if e.row.accountId in accounts then Find(accounts[e.row.accountId].modelMap, e.row.publicName) else None
  {
    assert AccountMatches(es, e.row.accountId, Find(accounts, e.row.accountId));
    if e.row.accountId !in accounts {
      UpstreamNeedsAccount(es, e.row.accountId, e.row.publicName);
    }
  }

  lemma {:induction false} AccountsStep(es: seq<KeptRow>, accounts: map<string, Account>, e: KeptRow)
    requires AccountsMatch(es, accounts)
    ensures AccountsMatch(es + [e], accounts[e.row.accountId := AccountAfter(Find(accounts, e.row.accountId), e.row)])
  {
    var id := e.row.accountId;
    var accounts' := accounts[id := AccountAfter(Find(accounts, id), e.row)];
    forall other ensures AccountMatches(es + [e], other, Find(accounts', other)) {
      assert AccountMatches(es, other, Find(accounts, other));
      if other == id {
        AccountUpdated(es, e, Find(accounts, id));
      } else {
        AccountSame(es, e, other, Find(accounts, other));
      }
    }
  }

  function ProviderAfter(p: Option<Provider>, row: Row): Provider
    requires row.endpoints.Decoded?
  {
    var base := if p.Some? then p.value
                else Provider(row.sourceId, row.sourceName, row.baseUrl, row.endpoints.value, []);
    if row.upstreamId in base.models then base else base.(models := base.models + [row.upstreamId])
  }

  lemma {:induction false} ProviderUpdated(es: seq<KeptRow>, e: KeptRow, p: Option<Provider>)
    requires ProviderMatches(es, e.row.sourceId, p) && e.row.endpoints.Decoded?
    ensures ProviderMatches(es + [e], e.row.sourceId, Some(ProviderAfter(p, e.row)))
  {
    var id := e.row.sourceId;
    FilterSnoc(es, e, HasSource(id));
    DistinctMapSnoc(Filter(es, HasSource(id)), e, UpstreamOf());
    if p.None? {
      assert Filter(es, HasSource(id)) == [];
    }
  }

  lemma {:induction false} ProviderSame(es: seq<KeptRow>, e: KeptRow, id: string, p: Option<Provider>)
    requires ProviderMatches(es, id, p) && e.row.sourceId != id
    ensures ProviderMatches(es + [e], id, p)
  {
    FilterSnoc(es, e, HasSource(id));
    assert Filter(es + [e], HasSource(id)) == Filter(es, HasSource(id));
  }

  method AddToProviders(ghost es: seq<KeptRow>, providers: map<string, Provider>, e: KeptRow)
    returns (r: map<string, Provider>)
    requires e.row.endpoints.Decoded?
    ensures ProvidersMatch(es, providers) ==> ProvidersMatch(es + [e], r)
  {
    var row := e.row;
    var provider := if row.sourceId in providers then providers[row.sourceId]
                    else Provider(row.sourceId, row.sourceName, row.baseUrl, row.endpoints.value, []);
    if row.upstreamId !in provider.models {
      provider := provider.(models := provider.models + [row.upstreamId]);
    }
    r := providers[row.sourceId := provider];
    assert provider == ProviderAfter(Find(providers, row.sourceId), row);
    forall id | ProvidersMatch(es, providers) ensures ProviderMatches(es + [e], id, Find(r, id)) {
      assert ProviderMatches(es, id, Find(providers, id));
      if id == row.sourceId {
        ProviderUpdated(es, e, Find(providers, id));
      } else {
        ProviderSame(es, e, id, Find(providers, id));
      }
    }
  }

  // ---------------------------------------------------------------------------
  // The builder.
  // ---------------------------------------------------------------------------

  datatype Draft = Draft(
    providers: map<string, Provider>,
    accounts: map<string, Account>,
    routes: seq<RuntimeRoute>,
    models: seq<PublishedModel>)

  /** The four collections stand for the rows kept so far. */
  ghost predicate Drafted(es: seq<KeptRow>, d: Draft) {
    && ProvidersMatch(es, d.providers)
    && AccountsMatch(es, d.accounts)
    && RoutesMatch(es, d.routes)
    && ModelsMatch(es, d.models)
  }

  method AddRow(ghost es: seq<KeptRow>, d: Draft, e: KeptRow) returns (r: Option<Draft>)
    requires e.row.endpoints.Decoded?
    ensures Drafted(es, d) ==> (r.Some? <==> Compatible(es, e.row))
    ensures Drafted(es, d) && r.Some? ==> Drafted(es + [e], r.value)
  {
    var providers := AddToProviders(es, d.providers, e);
    var accounts := AddToAccounts(es, d.accounts, e);
    if accounts.None? {
      return None;
    }
    var routes := AddToRoutes(es, d.routes, e);
    var models := AddToModels(es, d.models, e);
    r := Some(Draft(providers, accounts.value, routes, models));
  }

  /** `GatewayConfig::account` and `::provider`: the first entry with the id. */
  function FindAccount(accounts: seq<Account>, id: string): Option<Account> {
    if accounts == [] then None
    else if accounts[0].id == id then Some(accounts[0]) else FindAccount(accounts[1..], id)
  }

  function FindProvider(providers: seq<Provider>, id: string): Option<Provider> {
    if providers == [] then None
    else if providers[0].id == id then Some(providers[0]) else FindProvider(providers[1..], id)
  }

  function AccountList(m: map<string, Account>, keys: seq<string>): (r: seq<Account>)
    requires forall k :: k in keys ==> k in m
    ensures |r| == |keys| && forall i :: 0 <= i < |keys| ==> r[i] == m[keys[i]]
  {
    seq(|keys|, i requires 0 <= i < |keys| => assert keys[i] in keys; m[keys[i]])
  }

  function ProviderList(m: map<string, Provider>, keys: seq<string>): (r: seq<Provider>)
    requires forall k :: k in keys ==> k in m
    ensures |r| == |keys| && forall i :: 0 <= i < |keys| ==> r[i] == m[keys[i]]
  {
    seq(|keys|, i requires 0 <= i < |keys| => assert keys[i] in keys; m[keys[i]])
  }

  lemma {:induction false} FindInAccountList(m: map<string, Account>, keys: seq<string>, id: string)
    requires forall k :: k in keys ==> k in m
    requires forall k :: k in m ==> m[k].id == k
    ensures FindAccount(AccountList(m, keys), id) == if id in keys then Some(m[id]) else None
  {
    if keys != [] {
      var l := AccountList(m, keys);
      assert l[1..] == AccountList(m, keys[1..]);
      assert keys == [keys[0]] + keys[1..];
      assert keys[0] in keys;
      FindInAccountList(m, keys[1..], id);
    }
  }

  lemma {:induction false} FindInProviderList(m: map<string, Provider>, keys: seq<string>, id: string)
    requires forall k :: k in keys ==> k in m
    requires forall k :: k in m ==> m[k].id == k
    ensures FindProvider(ProviderList(m, keys), id) == if id in keys then Some(m[id]) else None
  {
    if keys != [] {
      var l := ProviderList(m, keys);
      assert l[1..] == ProviderList(m, keys[1..]);
      assert keys == [keys[0]] + keys[1..];
      assert keys[0] in keys;
      FindInProviderList(m, keys[1..], id);
    }
  }

  function ByModelId(): (PublishedModel, PublishedModel) -> bool {
    (l: PublishedModel, r: PublishedModel) => StrLe(l.id, r.id)
  }

  ghost predicate AscendingAccounts(accounts: seq<Account>) {
    forall i, j :: 0 <= i < j < |accounts| ==> StrLe(accounts[i].id, accounts[j].id) && accounts[i].id != accounts[j].id
  }

  ghost predicate AscendingProviders(providers: seq<Provider>) {
    forall i, j :: 0 <= i < j < |providers| ==>
      StrLe(providers[i].id, providers[j].id) && providers[i].id != providers[j].id
  }

  ghost predicate SortedModels(es: seq<KeptRow>, models: seq<PublishedModel>) {
    exists ms :: ModelsMatch(es, ms) && models == SortBy(ms, ByModelId())
  }

  /** The snapshot holds exactly what the kept rows say. */
  ghost predicate IsSnapshotOf(es: seq<KeptRow>, s: RuntimeSnapshot) {
    && RoutesMatch(es, s.routes)
    && SortedModels(es, s.models)
    && AscendingAccounts(s.accounts) && (forall id :: AccountMatches(es, id, FindAccount(s.accounts, id)))
    && AscendingProviders(s.providers) && (forall id :: ProviderMatches(es, id, FindProvider(s.providers, id)))
  }

  lemma {:induction false} ListedAccounts(es: seq<KeptRow>, m: map<string, Account>)
    requires AccountsMatch(es, m)
    ensures AscendingAccounts(AccountList(m, SortedKeys(m.Keys)))
    ensures forall id :: AccountMatches(es, id, FindAccount(AccountList(m, SortedKeys(m.Keys)), id))
  {
    forall id | id in m ensures m[id].id == id {
      assert AccountMatches(es, id, Find(m, id));
    }
    forall id ensures AccountMatches(es, id, FindAccount(AccountList(m, SortedKeys(m.Keys)), id)) {
      FindInAccountList(m, SortedKeys(m.Keys), id);
      assert AccountMatches(es, id, Find(m, id));
    }
  }

  lemma {:induction false} ListedProviders(es: seq<KeptRow>, m: map<string, Provider>)
    requires ProvidersMatch(es, m)
    ensures AscendingProviders(ProviderList(m, SortedKeys(m.Keys)))
    ensures forall id :: ProviderMatches(es, id, FindProvider(ProviderList(m, SortedKeys(m.Keys)), id))
  {
    forall id | id in m ensures m[id].id == id {
      assert ProviderMatches(es, id, Find(m, id));
    }
    forall id ensures ProviderMatches(es, id, FindProvider(ProviderList(m, SortedKeys(m.Keys)), id)) {
      FindInProviderList(m, SortedKeys(m.Keys), id);
      assert ProviderMatches(es, id, Find(m, id));
    }
  }

  method Finish(ghost es: seq<KeptRow>, d: Draft, revision: int) returns (s: RuntimeSnapshot)
    requires Drafted(es, d)
    ensures s.revision == revision && IsSnapshotOf(es, s)
  {
    ListedAccounts(es, d.accounts);
    ListedProviders(es, d.providers);
    var accounts := AccountList(d.accounts, SortedKeys(d.accounts.Keys));
    var providers := ProviderList(d.providers, SortedKeys(d.providers.Keys));
    s := RuntimeSnapshot(providers, accounts, d.routes, SortBy(d.models, ByModelId()), revision);
  }

  /** The fold has met no error and stands for the rows seen; or it has, and the rows
      cannot build. */
  ghost predicate Folded(adapters: AdapterRegistry, rows: seq<Row>, d: Draft, errors: seq<Problem>) {
    && (errors == [] <==> Builds(adapters, rows))
    && (errors == [] ==> Drafted(Kept(adapters, rows), d))
  }

  lemma {:induction false} BuildsSnoc(adapters: AdapterRegistry, rows: seq<Row>, row: Row)
    ensures Kept(adapters, rows + [row])
         == Kept(adapters, rows)
            + if Judge(adapters, row).Keep? then [KeptRow(row, Judge(adapters, row).binding)] else []
    ensures Builds(adapters, rows + [row]) <==>
              && Builds(adapters, rows) && !Judge(adapters, row).Fail?
              && (Judge(adapters, row).Keep? ==> Compatible(Kept(adapters, rows), row))
  {
    assert (rows + [row])[..|rows|] == rows;
    var es, v := Kept(adapters, rows), Judge(adapters, row);
    if v.Keep? {
      AgreementSnoc(es, KeptRow(row, v.binding));
    } else {
      assert Kept(adapters, rows + [row]) == es;
    }
  }

  lemma {:induction false} AgreementSnoc(es: seq<KeptRow>, e: KeptRow)
    ensures Agreement(es + [e]) <==> Agreement(es) && Compatible(es, e.row)
  {
    var fs := es + [e];
    assert forall i :: 0 <= i < |es| ==> fs[..i] == es[..i] && fs[i] == es[i];
    assert fs[..|es|] == es && fs[|es|] == e;
    if Agreement(fs) {
      forall i | 0 <= i < |es| ensures Compatible(es[..i], es[i].row) {
        assert Compatible(fs[..i], fs[i].row);
      }
      assert Compatible(fs[..|es|], fs[|es|].row);
    }
  }

  method FoldRow(adapters: AdapterRegistry, ghost rows: seq<Row>, d: Draft, errors: seq<Problem>, row: Row)
    returns (d': Draft, errors': seq<Problem>)
    requires Folded(adapters, rows, d, errors)
    ensures Folded(adapters, rows + [row], d', errors')
    ensures errors != [] ==> errors' != []
  {
    d', errors' := d, errors;
    BuildsSnoc(adapters, rows, row);
    var verdict := Judge(adapters, row);
    match verdict {
      case Skip =>
        assert Kept(adapters, rows + [row]) == Kept(adapters, rows);
      case Fail(problem) =>
        errors' := errors + [problem];
      case Keep(binding) =>
        var next := AddRow(Kept(adapters, rows), d, KeptRow(row, binding));
        if next.Some? {
          d' := next.value;
        } else {
          errors' := errors + [SeveralUpstreams];
        }
    }
  }

  /** Fold the ordered rows into a snapshot, or report every row that cannot be one. */
  method BuildSnapshot(adapters: AdapterRegistry, rows: seq<Row>, revision: int)
    returns (r: Result<RuntimeSnapshot, seq<Problem>>)
    ensures r.Ok? <==> Builds(adapters, rows)
    ensures r.Ok? ==> r.value.revision == revision && IsSnapshotOf(Kept(adapters, rows), r.value)
    ensures r.Err? ==> r.error != []
  {
    var d := Draft(map[], map[], [], []);
    var errors: seq<Problem> := [];
    EmptyDraft(adapters);
    var i := 0;
    while i < |rows|
      invariant 0 <= i <= |rows|
      invariant Folded(adapters, rows[..i], d, errors)
    {
      assert rows[..i + 1] == rows[..i] + [rows[i]];
      d, errors := FoldRow(adapters, rows[..i], d, errors, rows[i]);
      i := i + 1;
    }
    assert rows[..i] == rows;
    if errors != [] {
      return Err(errors);
    }
    var s := Finish(Kept(adapters, rows), d, revision);
    r := Ok(s);
  }

  lemma {:induction false} EmptyDraft(adapters: AdapterRegistry)
    ensures Folded(adapters, [], Draft(map[], map[], [], []), [])
  {
    assert Kept(adapters, []) == [];
  }
}
