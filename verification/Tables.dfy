/**
 The control plane's tables. Tables read by key are maps; the two tables that are
 joined and ordered, bindings and routes, are sequences of rows.
 */
module Tables {
  import opened Base
  import opened JsonDiff

  /** A JSON column that may fail to decode. SQL may still find protocol names in one that does:
      `["openai_responses", 7]` is no list of protocols and yet `? 'openai_responses'` holds. */
  datatype Stored<+T> = Decoded(value: T) | Malformed(mentioned: set<Protocol>)

  datatype SourceRow = SourceRow(
    presetId: string,
    presetVersion: int,
    displayName: string,
    baseUrl: string,
    endpoints: Stored<map<Protocol, string>>,
    enabled: bool)

  datatype PresetKey = PresetKey(id: string, version: int)

  datatype AccountRow = AccountRow(sourceId: string, displayName: string, enabled: bool, weight: int)

  datatype ModelRow = ModelRow(
    publicName: string,
    displayName: string,
    status: CatalogStatus,
    enabled: bool,
    timeoutMs: Option<int>,
    maxRetries: Option<int>)

  datatype SourceModelKey = SourceModelKey(sourceId: string, upstreamId: string)

  datatype SourceModelRow = SourceModelRow(confirmation: CatalogStatus, availability: Availability)

  datatype CapabilityKey = CapabilityKey(sourceId: string, upstreamId: string, protocol: Protocol)

  datatype CapabilityRow = CapabilityRow(
    status: CatalogStatus,
    mode: ProtocolMode,
    sourceProtocol: Option<Protocol>,
    adapter: Option<string>,
    features: Json)

  datatype BindingRow = BindingRow(
    id: int,
    modelId: string,
    sourceId: string,
    accountId: string,
    upstreamId: string,
    protocol: Protocol,
    status: CatalogStatus,
    enabled: bool,
    priority: int)

  datatype RouteRow = RouteRow(
    id: string,
    modelId: string,
    protocols: Stored<seq<Protocol>>,
    strategy: string,
    allowLossy: bool,
    enabled: bool)

  datatype Database = Database(
    presets: set<PresetKey>,
    sources: map<string, SourceRow>,
    accounts: map<string, AccountRow>,
    models: map<string, ModelRow>,
    sourceModels: map<SourceModelKey, SourceModelRow>,
    capabilities: map<CapabilityKey, CapabilityRow>,
    bindings: seq<BindingRow>,
    routes: seq<RouteRow>,
    nextBindingId: int,
    revision: int)

  function BindingModelKey(b: BindingRow): SourceModelKey {
    SourceModelKey(b.sourceId, b.upstreamId)
  }

  function BindingCapabilityKey(b: BindingRow): CapabilityKey {
    CapabilityKey(b.sourceId, b.upstreamId, b.protocol)
  }

  /** `protocols ? name`: the stored column names the protocol, whether or not it decodes. */
  predicate Lists(r: RouteRow, p: Protocol) {
    match r.protocols
    case Decoded(protocols) => p in protocols
    case Malformed(mentioned) => p in mentioned
  }

  function SourcePreset(s: SourceRow): PresetKey {
    PresetKey(s.presetId, s.presetVersion)
  }

  /** A model that a binding may be routed to right now. */
  predicate CatalogRoutable(db: Database, b: BindingRow) {
    && BindingModelKey(b) in db.sourceModels
    && db.sourceModels[BindingModelKey(b)].confirmation.Confirmed?
    && db.sourceModels[BindingModelKey(b)].availability.Available?
    && BindingCapabilityKey(b) in db.capabilities
    && db.capabilities[BindingCapabilityKey(b)].status.Confirmed?
    && db.capabilities[BindingCapabilityKey(b)].mode.Routable()
  }

  // ---------------------------------------------------------------------------
  // Keys and references, as the schema declares them.
  // ---------------------------------------------------------------------------

  ghost predicate UniqueRouteIds(routes: seq<RouteRow>) {
    forall i, j :: 0 <= i < j < |routes| ==> routes[i].id != routes[j].id
  }

  ghost predicate UniqueBindingIds(bindings: seq<BindingRow>) {
    forall i, j :: 0 <= i < j < |bindings| ==> bindings[i].id != bindings[j].id
  }

  /** The columns of the UNIQUE constraint on bindings. */
  predicate SameLine(a: BindingRow, b: BindingRow) {
    && a.modelId == b.modelId && a.sourceId == b.sourceId && a.accountId == b.accountId
    && a.upstreamId == b.upstreamId && a.protocol == b.protocol
  }

  ghost predicate UniqueBindings(bindings: seq<BindingRow>) {
    forall i, j :: 0 <= i < j < |bindings| ==> !SameLine(bindings[i], bindings[j])
  }

  ghost predicate UniquePublicNames(models: map<string, ModelRow>) {
    forall m, n :: m in models && n in models && models[m].publicName == models[n].publicName ==> m == n
  }

  lemma {:induction false} SameBinding(bindings: seq<BindingRow>, b: BindingRow, c: BindingRow)
    requires UniqueBindings(bindings) && b in bindings && c in bindings && SameLine(b, c)
    ensures b == c
  {
    var m :| 0 <= m < |bindings| && bindings[m] == b;
    var n :| 0 <= n < |bindings| && bindings[n] == c;
    assert m == n;
  }

  lemma {:induction false} SameRoute(routes: seq<RouteRow>, r: RouteRow, q: RouteRow)
    requires UniqueRouteIds(routes) && r in routes && q in routes && r.id == q.id
    ensures r == q
  {
    var i :| 0 <= i < |routes| && routes[i] == r;
    var j :| 0 <= j < |routes| && routes[j] == q;
  }

  predicate BindingReferences(db: Database, b: BindingRow) {
    && b.modelId in db.models
    && b.sourceId in db.sources
    && b.accountId in db.accounts && db.accounts[b.accountId].sourceId == b.sourceId
    && BindingModelKey(b) in db.sourceModels
    && BindingCapabilityKey(b) in db.capabilities
  }

  /** What PostgreSQL guarantees of every state: primary, unique and foreign keys. */
  ghost predicate Integrity(db: Database) {
    && UniqueRouteIds(db.routes)
    && UniqueBindingIds(db.bindings)
    && UniqueBindings(db.bindings)
    && UniquePublicNames(db.models)
    && (forall b :: b in db.bindings ==> BindingReferences(db, b) && b.id < db.nextBindingId)
    && (forall r :: r in db.routes ==> r.modelId in db.models)
    && (forall a :: a in db.accounts ==> db.accounts[a].sourceId in db.sources)
    && (forall k :: k in db.sourceModels ==> k.sourceId in db.sources)
    && (forall k :: k in db.capabilities ==> SourceModelKey(k.sourceId, k.upstreamId) in db.sourceModels)
  }
}
