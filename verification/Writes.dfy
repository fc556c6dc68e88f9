/**
 The admin writes as transactions over the tables: what each one demands, what it
 leaves behind, and the invariants every one of them keeps.
 */
module Writes {
  import opened Base
  import opened Seqs
  import opened Strings
  import opened JsonDiff
  import opened Tables
  import opened Validation
  import opened Snapshot
  import opened Routing
  import Config

  type Matrix = Config.Matrix

  /** A source to be written: its row, its authentication settings, and its declared protocol
      capabilities, None when they do not decode. */
  datatype SourceInput = SourceInput(row: SourceRow, auth: Json, capabilities: Option<Matrix>)

  datatype Write =
    | CreateBinding(binding: BindingRow)
    | UpdateBinding(bindingId: int, binding: BindingRow)
    | EnableBinding(bindingId: int, enabled: bool)
    | DeleteBinding(bindingId: int)
    | CreateRoute(route: RouteRow)
    | UpdateRoute(route: RouteRow)
    | EnableRoute(routeId: string, enabled: bool)
    | DeleteRoute(routeId: string)
    | WriteRouting(modelId: string, intent: RoutingWrite, create: bool, freshRouteId: string)
    | CreateSource(sourceId: string, source: SourceInput)
    | UpdateSource(sourceId: string, source: SourceInput)
    | EnableSource(sourceId: string, enabled: bool)
    | DeleteSource(sourceId: string)
    | DeleteAccount(accountId: string)
    | DeleteModel(modelId: string)
    | Elsewhere(tables: Database)

  // ---------------------------------------------------------------------------
  // Rows by id.
  // ---------------------------------------------------------------------------

  predicate HasBinding(bindings: seq<BindingRow>, id: int) {
    exists b :: b in bindings && b.id == id
  }

  predicate HasRoute(routes: seq<RouteRow>, id: string) {
    exists r :: r in routes && r.id == id
  }

  function BindingWithId(bindings: seq<BindingRow>, id: int): (r: Option<BindingRow>)
    ensures r.Some? <==> HasBinding(bindings, id)
    ensures r.Some? ==> r.value in bindings && r.value.id == id
  {
    if bindings == [] then None
    else if bindings[0].id == id then Some(bindings[0])
    else
      assert bindings == [bindings[0]] + bindings[1..];
      BindingWithId(bindings[1..], id)
  }

  function RouteWithId(routes: seq<RouteRow>, id: string): (r: Option<RouteRow>)
    ensures r.Some? <==> HasRoute(routes, id)
    ensures r.Some? ==> r.value in routes && r.value.id == id
  {
    if routes == [] then None
    else if routes[0].id == id then Some(routes[0])
    else
      assert routes == [routes[0]] + routes[1..];
      RouteWithId(routes[1..], id)
  }

  /** UPDATE ... WHERE id: the row with the id is replaced where it stands. */
  function PutBinding(bindings: seq<BindingRow>, row: BindingRow): (r: seq<BindingRow>)
    ensures |r| == |bindings|
    ensures forall i :: 0 <= i < |r| ==> r[i] == if bindings[i].id == row.id then row else bindings[i]
  {
    seq(|bindings|, i requires 0 <= i < |bindings| => if bindings[i].id == row.id then row else bindings[i])
  }

  function PutRoute(routes: seq<RouteRow>, row: RouteRow): (r: seq<RouteRow>)
    ensures |r| == |routes|
    ensures forall i :: 0 <= i < |r| ==> r[i] == if routes[i].id == row.id then row else routes[i]
  {
    seq(|routes|, i requires 0 <= i < |routes| => if routes[i].id == row.id then row else routes[i])
  }

  function OtherBinding(id: int): BindingRow -> bool {
    (b: BindingRow) => b.id != id
  }

  function OtherRoute(id: string): RouteRow -> bool {
    (r: RouteRow) => r.id != id
  }

  function OnOtherSource(id: string): BindingRow -> bool {
    (b: BindingRow) => b.sourceId != id
  }

  function OnOtherAccount(id: string): BindingRow -> bool {
    (b: BindingRow) => b.accountId != id
  }

  // ---------------------------------------------------------------------------
  // What a write leaves in the tables.
  // ---------------------------------------------------------------------------

  /** Deleting a source takes its accounts, catalog and bindings with it. */
  function WithoutSource(db: Database, id: string): Database {
    db.(sources := db.sources - {id},
        accounts := db.accounts - (set a | a in db.accounts && db.accounts[a].sourceId == id),
        sourceModels := db.sourceModels - (set k | k in db.sourceModels && k.sourceId == id),
        capabilities := db.capabilities - (set k | k in db.capabilities && k.sourceId == id),
        bindings := Filter(db.bindings, OnOtherSource(id)))
  }

  function Effect(db: Database, w: Write): Database {
    match w
    case CreateBinding(b) =>
      db.(bindings := db.bindings + [b.(id := db.nextBindingId)], nextBindingId := db.nextBindingId + 1)
    case UpdateBinding(id, b) => db.(bindings := PutBinding(db.bindings, b.(id := id)))
    case EnableBinding(id, enabled) =>
      (match BindingWithId(db.bindings, id)
       case None => db
       case Some(b) => db.(bindings := PutBinding(db.bindings, b.(enabled := enabled))))
    case DeleteBinding(id) => db.(bindings := Filter(db.bindings, OtherBinding(id)))
    case CreateRoute(r) => db.(routes := db.routes + [r])
    case UpdateRoute(r) => db.(routes := PutRoute(db.routes, r))
    case EnableRoute(id, enabled) =>
      (match RouteWithId(db.routes, id)
       case None => db
       case Some(r) => db.(routes := PutRoute(db.routes, r.(enabled := enabled))))
    case DeleteRoute(id) => db.(routes := Filter(db.routes, OtherRoute(id)))
    case WriteRouting(id, intent, _, freshId) => RoutingTables(db, id, intent, RouteIdFor(db, id, freshId))
    case CreateSource(id, s) => db.(sources := db.sources[id := s.row])
    case UpdateSource(id, s) => db.(sources := db.sources[id := s.row])
    case EnableSource(id, enabled) =>
      if id in db.sources then db.(sources := db.sources[id := db.sources[id].(enabled := enabled)]) else db
    case DeleteSource(id) => WithoutSource(db, id)
    case DeleteAccount(id) => db.(accounts := db.accounts - {id}, bindings := Filter(db.bindings, OnOtherAccount(id)))
    case DeleteModel(id) =>
      db.(models := db.models - {id},
          bindings := Filter(db.bindings, OnOtherModel(id)),
          routes := Filter(db.routes, RouteOfOtherModel(id)))
    case Elsewhere(tables) => tables
  }

  // ---------------------------------------------------------------------------
  // What a write demands.
  // ---------------------------------------------------------------------------

  predicate BindingShape(b: BindingRow) {
    !Blank(b.modelId) && !Blank(b.sourceId) && !Blank(b.accountId) && !Blank(b.upstreamId)
  }

  ghost predicate RouteShape(r: RouteRow) {
    && !Blank(r.id) && !Blank(r.modelId) && !Blank(r.strategy)
    && r.protocols.Decoded? && r.protocols.value != [] && NoDuplicates(r.protocols.value)
  }

  predicate SourceShape(id: string, s: SourceInput) {
    && !Blank(id) && !Blank(s.row.displayName) && !Blank(s.row.presetId) && s.row.presetVersion > 0
    && (s.auth.Null? || s.auth.Obj?) && s.capabilities.Some?
    && s.row.endpoints.Decoded? && forall p :: p in s.row.endpoints.value ==> !Blank(s.row.endpoints.value[p])
  }

  predicate LineTaken(db: Database, id: int, b: BindingRow) {
    exists o :: o in db.bindings && o.id != id && SameLine(o, b)
  }

  /** Writes to models, accounts and the catalog: they leave bindings, routes and the presets
      of the stored sources alone, and the database refuses what breaks its keys. */
  ghost predicate Unrelated(db: Database, tables: Database) {
    && tables.bindings == db.bindings && tables.routes == db.routes
    && tables.nextBindingId == db.nextBindingId && tables.revision == db.revision
    && (forall s :: s in db.sources && s in tables.sources ==> tables.sources[s].presetId == db.sources[s].presetId)
    && Integrity(tables)
  }

  /** What the checks of a write let through. */
  ghost predicate Admits(db: Database, w: Write) {
    match w
    case CreateBinding(b) => BindingShape(b) && BindingAdmitted(db, b) && !LineTaken(db, db.nextBindingId, b)
    case UpdateBinding(id, b) =>
      && BindingShape(b) && HasBinding(db.bindings, id)
      && BindingWithId(db.bindings, id).value.status.CanTransitionTo(b.status)
      && BindingAdmitted(db, b) && !LineTaken(db, id, b)
    case EnableBinding(id, enabled) =>
      && HasBinding(db.bindings, id)
      && (enabled ==> BindingAdmitted(db, BindingWithId(db.bindings, id).value.(enabled := true)))
    case DeleteBinding(id) => HasBinding(db.bindings, id)
    case CreateRoute(r) =>
      RouteShape(r) && !HasRoute(db.routes, r.id) && RouteAdmitted(db, r.id, r.modelId, r.protocols.value, r.enabled)
    case UpdateRoute(r) =>
      RouteShape(r) && HasRoute(db.routes, r.id) && RouteAdmitted(db, r.id, r.modelId, r.protocols.value, r.enabled)
    case EnableRoute(id, enabled) =>
      && HasRoute(db.routes, id)
      && var r := RouteWithId(db.routes, id).value;
      && (enabled ==> r.protocols.Decoded? && RouteAdmitted(db, r.id, r.modelId, r.protocols.value, true))
    case DeleteRoute(id) => HasRoute(db.routes, id)
    case WriteRouting(id, intent, create, freshId) => RoutingAccepted(db, id, intent, create, freshId)
    case CreateSource(id, s) => SourceShape(id, s) && id !in db.sources && SourcePreset(s.row) in db.presets
    case UpdateSource(id, s) =>
      SourceShape(id, s) && id in db.sources && SourcePreset(db.sources[id]) == SourcePreset(s.row)
    case EnableSource(id, _) => id in db.sources
    case DeleteSource(id) => id in db.sources
    case DeleteAccount(id) => id in db.accounts
    case DeleteModel(id) => id in db.models
    case Elsewhere(tables) => Unrelated(db, tables)
  }

  /** No binding but the one with this id has the row's model, source, account, upstream model and protocol. */
  ghost predicate LineFree(db: Database, id: int, b: BindingRow) {
    forall o :: o in db.bindings && o.id != id ==>
      !(&& o.modelId == b.modelId && o.sourceId == b.sourceId && o.accountId == b.accountId
        && o.upstreamId == b.upstreamId && o.protocol == b.protocol)
  }

  ghost predicate Named(b: BindingRow) {
    !Blank(b.modelId) && !Blank(b.sourceId) && !Blank(b.accountId) && !Blank(b.upstreamId)
  }

  /** Which binding writes are let through: a confirmed binding never becomes pending again, an unavailable
      one never confirmed, and switching off needs no check. */
  lemma {:induction false} BindingWriteAdmittedIff(db: Database, id: int, b: BindingRow, enabled: bool)
    ensures Admits(db, CreateBinding(b)) <==> Named(b) && BindingAdmitted(db, b) && LineFree(db, db.nextBindingId, b)
    ensures Admits(db, UpdateBinding(id, b)) <==>
              && Named(b) && BindingAdmitted(db, b) && LineFree(db, id, b)
              && var stored := BindingWithId(db.bindings, id);
              && stored.Some?
              && !(stored.value.status == Confirmed && b.status == Pending)
              && !(stored.value.status == Unavailable && b.status == Confirmed)
    ensures Admits(db, EnableBinding(id, enabled)) <==>
              var stored := BindingWithId(db.bindings, id);
              stored.Some? && (!enabled || BindingAdmitted(db, stored.value.(enabled := true)))
    ensures Admits(db, DeleteBinding(id)) <==> exists o :: o in db.bindings && o.id == id
  {
    assert LineFree(db, id, b) <==> !LineTaken(db, id, b);
    assert LineFree(db, db.nextBindingId, b) <==> !LineTaken(db, db.nextBindingId, b);
  }

  /** Which route writes are let through: a named route with a list of different protocols, admitted by the
      tables, under a new id or in place of a stored one; switching off needs no check. */
  lemma {:induction false} RouteWriteAdmittedIff(db: Database, id: string, r: RouteRow, enabled: bool)
    ensures Admits(db, CreateRoute(r)) <==>
              && Listing(r) && RouteAdmitted(db, r.id, r.modelId, r.protocols.value, r.enabled)
              && forall q :: q in db.routes ==> q.id != r.id
    ensures Admits(db, UpdateRoute(r)) <==>
              && Listing(r) && RouteAdmitted(db, r.id, r.modelId, r.protocols.value, r.enabled)
              && exists q :: q in db.routes && q.id == r.id
    ensures Admits(db, EnableRoute(id, enabled)) <==>
              && var stored := RouteWithId(db.routes, id);
              && stored.Some?
              && (!enabled || (&& stored.value.protocols.Decoded?
                               && RouteAdmitted(db, id, stored.value.modelId, stored.value.protocols.value, true)))
    ensures Admits(db, DeleteRoute(id)) <==> exists q :: q in db.routes && q.id == id
  {
  }

  /** Which source writes are let through: a new source of a stored preset version, or a stored one that
      keeps its preset version. */
  lemma {:induction false} SourceWriteAdmittedIff(db: Database, id: string, s: SourceInput, enabled: bool)
    ensures Admits(db, CreateSource(id, s)) <==>
              SourceShape(id, s) && id !in db.sources && PresetKey(s.row.presetId, s.row.presetVersion) in db.presets
    ensures Admits(db, UpdateSource(id, s)) <==>
              && SourceShape(id, s) && id in db.sources
              && s.row.presetId == db.sources[id].presetId && s.row.presetVersion == db.sources[id].presetVersion
    ensures Admits(db, EnableSource(id, enabled)) <==> id in db.sources
    ensures Admits(db, DeleteSource(id)) <==> id in db.sources
  {
  }

  ghost predicate Listing(r: RouteRow) {
    && !Blank(r.id) && !Blank(r.modelId) && !Blank(r.strategy)
    && r.protocols.Decoded? && |r.protocols.value| > 0
    && forall i, j :: 0 <= i < j < |r.protocols.value| ==> r.protocols.value[i] != r.protocols.value[j]
  }

  // ---------------------------------------------------------------------------
  // One provider family per model.
  // ---------------------------------------------------------------------------

  /** Rows that stay, and sources that keep their preset, keep their family. */
  ghost predicate PresetsStay(db: Database, tx: Database) {
    forall b :: b in db.bindings && b in tx.bindings ==> Family(tx, b) == Family(db, b)
  }

  /** A state whose active bindings were there before, but for one admitted row. */
  lemma {:induction false} FamilyKept(db: Database, tx: Database, added: BindingRow)
    requires Integrity(db) && OneFamily(db) && PresetsStay(db, tx)
    requires forall b :: b in tx.bindings && Active(b) ==> b in db.bindings || b == added
    requires added in tx.bindings && Active(added) ==>
               forall b :: b in db.bindings && b in tx.bindings && ActiveFor(b, added.modelId) ==>
                 Family(db, b) == Family(tx, added)
    ensures OneFamily(tx)
  {
    forall modelId ensures OneFamilyFor(tx, modelId) {
      forall a, b | a in tx.bindings && b in tx.bindings && ActiveFor(a, modelId) && ActiveFor(b, modelId)
        ensures Family(tx, a) == Family(tx, b)
      {
        assert OneFamilyFor(db, modelId);
      }
    }
  }

  /** Fewer bindings over the same presets. */
  lemma {:induction false} FamilyKeptByRemoval(db: Database, tx: Database)
    requires Integrity(db) && OneFamily(db) && PresetsStay(db, tx)
    requires forall b :: b in tx.bindings && Active(b) ==> b in db.bindings
    ensures OneFamily(tx)
  {
    forall modelId ensures OneFamilyFor(tx, modelId) {
      assert OneFamilyFor(db, modelId);
    }
  }

  lemma {:induction false} FamilyOfAdmitted(db: Database, row: BindingRow, b: BindingRow)
    requires Integrity(db) && OneFamily(db) && BindingAdmitted(db, row) && Active(row)
    requires b in db.bindings && ActiveFor(b, row.modelId)
    ensures Family(db, b) == Family(db, row)
  {
    assert OneFamilyFor(db, row.modelId);
    assert BindingReferences(db, b);
    AdmittedAgrees(db, row, b);
  }

  /** Storing an admitted row, new or in place of another, keeps one family per model. */
  lemma {:induction false} StoredBindingKeepsFamily(db: Database, tx: Database, input: BindingRow, row: BindingRow)
    requires Integrity(db) && OneFamily(db) && tx.sources == db.sources
    requires Active(row) ==>
               && BindingAdmitted(db, input) && Active(input)
               && input.modelId == row.modelId && input.sourceId == row.sourceId
    requires forall b :: b in tx.bindings ==> b in db.bindings || b == row
    ensures OneFamily(tx)
  {
    if Active(row) {
      forall b | b in db.bindings && b in tx.bindings && ActiveFor(b, row.modelId)
        ensures Family(db, b) == Family(tx, row)
      {
        FamilyOfAdmitted(db, input, b);
      }
    }
    FamilyKept(db, tx, row);
  }

  ghost predicate LineMade(db: Database, id: string, lines: seq<Line>, b: BindingRow) {
    exists line :: line in lines && FromLine(db, id, b, line)
  }

  /** Where the bindings of the compiled tables come from. */
  ghost predicate Origin(db: Database, id: string, lines: seq<Line>, b: BindingRow) {
    (b in db.bindings && b.modelId != id) || (b.modelId == id && LineMade(db, id, lines, b))
  }

  lemma {:induction false} RoutingOrigin(db: Database, id: string, input: RoutingWrite, routeId: string)
    ensures forall b :: b in RoutingTables(db, id, input, routeId).bindings ==> Origin(db, id, input.lines, b)
  {
    LineBindingsMembers(db, id, input.lines, db.nextBindingId);
    forall b | b in LineBindings(db, id, input.lines, db.nextBindingId) ensures Origin(db, id, input.lines, b) {
      assert LineMade(db, id, input.lines, b);
    }
  }

  lemma {:induction false} RoutingKeepsFamily(db: Database, tx: Database, id: string, lines: seq<Line>)
    requires OneFamily(db) && LinesOneFamily(db, lines) && tx.sources == db.sources
    requires forall b :: b in tx.bindings ==> Origin(db, id, lines, b)
    ensures OneFamily(tx)
  {
    forall modelId ensures OneFamilyFor(tx, modelId) {
      forall a, b | a in tx.bindings && b in tx.bindings && ActiveFor(a, modelId) && ActiveFor(b, modelId)
        ensures Family(tx, a) == Family(tx, b)
      {
        if modelId != id {
          assert OneFamilyFor(db, modelId);
        } else {
          LinesAgree(db, id, lines, a, b);
        }
      }
    }
  }

  lemma {:induction false} LinesAgree(db: Database, id: string, lines: seq<Line>, a: BindingRow, b: BindingRow)
    requires LinesOneFamily(db, lines)
    requires LineMade(db, id, lines, a) && LineMade(db, id, lines, b)
    ensures Family(db, a) == Family(db, b)
  {
    var k :| k in lines && FromLine(db, id, a, k);
    var l :| l in lines && FromLine(db, id, b, l);
    var i :| 0 <= i < |lines| && lines[i] == k;
    var j :| 0 <= j < |lines| && lines[j] == l;
    assert i < j ==> LineFamily(db, lines[i]) == LineFamily(db, lines[j]);
    assert j < i ==> LineFamily(db, lines[j]) == LineFamily(db, lines[i]);
  }

  // ---------------------------------------------------------------------------
  // One enabled route per model and protocol.
  // ---------------------------------------------------------------------------

  /** Storing a route that met no conflict keeps at most one per model and protocol. */
  lemma {:induction false} StoredRouteKeepsOneRoute(db: Database, tx: Database, row: RouteRow)
    requires OneRoute(db)
    requires forall r :: r in tx.routes ==> (r in db.routes && r.id != row.id) || r == row
    requires row.enabled ==>
               row.protocols.Decoded? && forall p :: p in row.protocols.value ==> !Conflicts(db, row.id, row.modelId, p)
    ensures OneRoute(tx)
  {
    forall r, s, p | r in tx.routes && s in tx.routes && SameTarget(r, s, p) ensures r.id == s.id {
      assert r == row || s == row || (r in db.routes && s in db.routes);
    }
  }

  lemma {:induction false} RemovalKeepsOneRoute(db: Database, tx: Database)
    requires OneRoute(db) && forall r :: r in tx.routes ==> r in db.routes
    ensures OneRoute(tx)
  {
  }

  lemma {:induction false} RoutingKeepsOneRoute(db: Database, id: string, input: RoutingWrite, routeId: string)
    requires OneRoute(db)
    ensures OneRoute(RoutingTables(db, id, input, routeId))
  {
    var tx := RoutingTables(db, id, input, routeId);
    forall r, s, p | r in tx.routes && s in tx.routes && SameTarget(r, s, p) ensures r.id == s.id {
      if r.modelId != id {
        assert r in Filter(db.routes, RouteOfOtherModel(id)) && s in Filter(db.routes, RouteOfOtherModel(id));
      } else {
        assert r !in Filter(db.routes, RouteOfOtherModel(id)) && s !in Filter(db.routes, RouteOfOtherModel(id));
      }
    }
  }

  // ---------------------------------------------------------------------------
  // Keys and references.
  // ---------------------------------------------------------------------------

  lemma {:induction false} PutBindingMembers(bindings: seq<BindingRow>, row: BindingRow)
    ensures forall b :: b in PutBinding(bindings, row) ==> (b in bindings && b.id != row.id) || b == row
    ensures UniqueBindingIds(bindings) ==> UniqueBindingIds(PutBinding(bindings, row))
  {
    var put := PutBinding(bindings, row);
    forall b | b in put ensures (b in bindings && b.id != row.id) || b == row {
      var i :| 0 <= i < |put| && put[i] == b;
    }
    if UniqueBindingIds(bindings) {
      forall i, j | 0 <= i < j < |put| ensures put[i].id != put[j].id {
        assert put[i].id == bindings[i].id && put[j].id == bindings[j].id;
      }
    }
  }

  lemma {:induction false} PutBindingUnique(bindings: seq<BindingRow>, row: BindingRow)
    requires UniqueBindingIds(bindings) && UniqueBindings(bindings)
    requires forall o :: o in bindings && o.id != row.id ==> !SameLine(o, row)
    ensures UniqueBindings(PutBinding(bindings, row))
  {
    var put := PutBinding(bindings, row);
    forall i, j | 0 <= i < j < |put| ensures !SameLine(put[i], put[j]) {
      assert bindings[i].id != bindings[j].id;
      assert bindings[i] in bindings && bindings[j] in bindings;
      assert !SameLine(bindings[i], bindings[j]);
    }
  }

  lemma {:induction false} PutRouteMembers(routes: seq<RouteRow>, row: RouteRow)
    ensures forall r :: r in PutRoute(routes, row) ==> (r in routes && r.id != row.id) || r == row
    ensures UniqueRouteIds(routes) ==> UniqueRouteIds(PutRoute(routes, row))
  {
    var put := PutRoute(routes, row);
    forall r | r in put ensures (r in routes && r.id != row.id) || r == row {
      var i :| 0 <= i < |put| && put[i] == r;
    }
    if UniqueRouteIds(routes) {
      forall i, j | 0 <= i < j < |put| ensures put[i].id != put[j].id {
        assert put[i].id == routes[i].id && put[j].id == routes[j].id;
      }
    }
  }

  lemma {:induction false} OneMoreBinding(bindings: seq<BindingRow>, b: BindingRow)
    requires UniqueBindingIds(bindings) && UniqueBindings(bindings)
    requires forall i :: 0 <= i < |bindings| ==> bindings[i].id != b.id && !SameLine(bindings[i], b)
    ensures UniqueBindingIds(bindings + [b]) && UniqueBindings(bindings + [b])
  {
  }

  lemma {:induction false} FilterKeepsBindingKeys(bindings: seq<BindingRow>, p: BindingRow -> bool)
    requires UniqueBindingIds(bindings) && UniqueBindings(bindings)
    ensures UniqueBindingIds(Filter(bindings, p)) && UniqueBindings(Filter(bindings, p))
  {
    if bindings != [] {
      var n := |bindings| - 1;
      var f, last := Filter(bindings[..n], p), bindings[n];
      FilterKeepsBindingKeys(bindings[..n], p);
      forall j | 0 <= j < |f| ensures f[j].id != last.id && !SameLine(f[j], last) {
        assert f[j] in f;
        var i :| 0 <= i < n && bindings[i] == f[j];
      }
      OneMoreBinding(f, last);
    }
  }

  lemma {:induction false} FilterKeepsRouteKeys(routes: seq<RouteRow>, p: RouteRow -> bool)
    requires UniqueRouteIds(routes)
    ensures UniqueRouteIds(Filter(routes, p))
  {
    if routes != [] {
      var n := |routes| - 1;
      FilterKeepsRouteKeys(routes[..n], p);
      var f := Filter(routes[..n], p);
      forall r | r in f ensures r.id != routes[n].id {
        var i :| 0 <= i < n && routes[i] == r;
      }
    }
  }

  /** The references of one row only read the rows it names. */
  ghost predicate SameReferences(db: Database, tx: Database) {
    && tx.sources.Keys == db.sources.Keys && tx.models == db.models && tx.accounts == db.accounts
    && tx.sourceModels == db.sourceModels && tx.capabilities == db.capabilities && tx.routes == db.routes
  }

  /** New bindings over the same other tables. */
  lemma {:induction false} BindingsKeepIntegrity(db: Database, tx: Database, row: BindingRow)
    requires Integrity(db) && SameReferences(db, tx) && tx.nextBindingId >= db.nextBindingId
    requires UniqueBindingIds(tx.bindings) && UniqueBindings(tx.bindings)
    requires forall b :: b in tx.bindings ==> b in db.bindings || b == row
    requires row in tx.bindings ==> BindingReferences(db, row) && row.id < tx.nextBindingId
    ensures Integrity(tx)
  {
    forall b | b in tx.bindings ensures BindingReferences(tx, b) && b.id < tx.nextBindingId {
      assert BindingReferences(db, b);
    }
  }

  lemma {:induction false} CreateBindingKeepsIntegrity(db: Database, b: BindingRow)
    requires Integrity(db) && Admits(db, CreateBinding(b))
    ensures Integrity(Effect(db, CreateBinding(b)))
  {
    var row := b.(id := db.nextBindingId);
    var tx := Effect(db, CreateBinding(b));
    forall o | o in db.bindings ensures !SameLine(o, row) && o.id != row.id {
      assert o.id < db.nextBindingId;
    }
    BindingsKeepIntegrity(db, tx, row);
  }

  lemma {:induction false} StoreBindingKeepsIntegrity(db: Database, row: BindingRow)
    requires Integrity(db) && HasBinding(db.bindings, row.id) && BindingReferences(db, row)
    requires !LineTaken(db, row.id, row)
    ensures Integrity(db.(bindings := PutBinding(db.bindings, row)))
  {
    PutBindingMembers(db.bindings, row);
    PutBindingUnique(db.bindings, row);
    BindingsKeepIntegrity(db, db.(bindings := PutBinding(db.bindings, row)), row);
  }

  lemma {:induction false} OwnLineIsFree(db: Database, b: BindingRow, row: BindingRow)
    requires Integrity(db) && b in db.bindings && SameLine(b, row) && b.id == row.id
    ensures !LineTaken(db, row.id, row)
  {
    forall o | o in db.bindings && o.id != row.id ensures !SameLine(o, row) {
      var i :| 0 <= i < |db.bindings| && db.bindings[i] == b;
      var j :| 0 <= j < |db.bindings| && db.bindings[j] == o;
      assert i < j ==> !SameLine(db.bindings[i], db.bindings[j]);
      assert j < i ==> !SameLine(db.bindings[j], db.bindings[i]);
    }
  }

  /** Fewer rows, with nothing left that refers to what is gone. */
  lemma {:induction false} RemovalKeepsIntegrity(db: Database, tx: Database, p: BindingRow -> bool, q: RouteRow -> bool)
    requires Integrity(db) && tx.nextBindingId == db.nextBindingId
    requires tx.bindings == Filter(db.bindings, p) && tx.routes == Filter(db.routes, q)
    requires forall m :: m in tx.models ==> m in db.models && tx.models[m] == db.models[m]
    requires forall b :: b in tx.bindings ==> BindingReferences(tx, b)
    requires forall r :: r in tx.routes ==> r.modelId in tx.models
    requires forall a :: a in tx.accounts ==> tx.accounts[a].sourceId in tx.sources
    requires forall k :: k in tx.sourceModels ==> k.sourceId in tx.sources
    requires forall k :: k in tx.capabilities ==> SourceModelKey(k.sourceId, k.upstreamId) in tx.sourceModels
    ensures Integrity(tx)
  {
    FilterKeepsBindingKeys(db.bindings, p);
    FilterKeepsRouteKeys(db.routes, q);
  }

  function AnyBinding(): BindingRow -> bool {
    (b: BindingRow) => true
  }

  function AnyRoute(): RouteRow -> bool {
    (r: RouteRow) => true
  }

  lemma {:induction false} DeleteBindingKeepsIntegrity(db: Database, id: int)
    requires Integrity(db)
    ensures Integrity(Effect(db, DeleteBinding(id)))
  {
    var tx := Effect(db, DeleteBinding(id));
    FilterAll(db.routes, AnyRoute());
    forall b | b in tx.bindings ensures BindingReferences(tx, b) {
      assert b in db.bindings && BindingReferences(db, b);
    }
    RemovalKeepsIntegrity(db, tx, OtherBinding(id), AnyRoute());
  }

  lemma {:induction false} DeleteRouteKeepsIntegrity(db: Database, id: string)
    requires Integrity(db)
    ensures Integrity(Effect(db, DeleteRoute(id)))
  {
    var tx := Effect(db, DeleteRoute(id));
    FilterAll(db.bindings, AnyBinding());
    forall b | b in tx.bindings ensures BindingReferences(tx, b) {
      assert b in db.bindings && BindingReferences(db, b);
    }
    RemovalKeepsIntegrity(db, tx, AnyBinding(), OtherRoute(id));
  }

  lemma {:induction false} DeleteAccountKeepsIntegrity(db: Database, id: string)
    requires Integrity(db)
    ensures Integrity(Effect(db, DeleteAccount(id)))
  {
    var tx := Effect(db, DeleteAccount(id));
    FilterAll(db.routes, AnyRoute());
    forall b | b in tx.bindings ensures BindingReferences(tx, b) {
      assert b in db.bindings && BindingReferences(db, b);
    }
    RemovalKeepsIntegrity(db, tx, OnOtherAccount(id), AnyRoute());
  }

  lemma {:induction false} DeleteModelKeepsIntegrity(db: Database, id: string)
    requires Integrity(db)
    ensures Integrity(Effect(db, DeleteModel(id)))
  {
    var tx := Effect(db, DeleteModel(id));
    forall b | b in tx.bindings ensures BindingReferences(tx, b) {
      assert b in db.bindings && BindingReferences(db, b);
    }
    RemovalKeepsIntegrity(db, tx, OnOtherModel(id), RouteOfOtherModel(id));
  }

  lemma {:induction false} DeleteSourceKeepsIntegrity(db: Database, id: string)
    requires Integrity(db)
    ensures Integrity(WithoutSource(db, id))
  {
    var tx := WithoutSource(db, id);
    FilterAll(db.routes, AnyRoute());
    forall b | b in tx.bindings ensures BindingReferences(tx, b) {
      assert BindingReferences(db, b);
    }
    RemovalKeepsIntegrity(db, tx, OnOtherSource(id), AnyRoute());
  }

  lemma {:induction false} RoutesKeepIntegrity(db: Database, tx: Database)
    requires Integrity(db) && tx == db.(routes := tx.routes) && UniqueRouteIds(tx.routes)
    requires forall r :: r in tx.routes ==> r.modelId in db.models
    ensures Integrity(tx)
  {
    forall b | b in tx.bindings ensures BindingReferences(tx, b) && b.id < tx.nextBindingId {
      assert BindingReferences(db, b);
    }
  }

  lemma {:induction false} SourcesKeepIntegrity(db: Database, tx: Database)
    requires Integrity(db) && tx == db.(sources := tx.sources) && forall s :: s in db.sources ==> s in tx.sources
    ensures Integrity(tx)
  {
    forall b | b in tx.bindings ensures BindingReferences(tx, b) && b.id < tx.nextBindingId {
      assert BindingReferences(db, b);
    }
  }

  // ---------------------------------------------------------------------------
  // The compiled tables.
  // ---------------------------------------------------------------------------

  lemma {:induction false} BindingsForKeys(id: string, line: Line, position: nat, ps: seq<Protocol>, firstId: int)
    requires NoDuplicates(ps)
    ensures var bs := BindingsFor(id, line, position, ps, firstId);
            UniqueBindingIds(bs) && UniqueBindings(bs)
  {
  }

  lemma {:induction false} AppendKeepsBindingKeys(s: seq<BindingRow>, t: seq<BindingRow>)
    requires UniqueBindingIds(s) && UniqueBindings(s) && UniqueBindingIds(t) && UniqueBindings(t)
    requires forall a, b :: a in s && b in t ==> a.id != b.id && !SameLine(a, b)
    ensures UniqueBindingIds(s + t) && UniqueBindings(s + t)
  {
  }

  function OnLine(b: BindingRow): Line {
    Line(b.sourceId, b.accountId, b.upstreamId)
  }

  /** The compiled bindings of some lines: fresh ids in a row, on those lines only. */
  ghost predicate Stocked(lines: seq<Line>, firstId: int, bs: seq<BindingRow>) {
    && UniqueBindingIds(bs) && UniqueBindings(bs)
    && forall b :: b in bs ==> OnLine(b) in lines && firstId <= b.id < firstId + |bs|
  }

  lemma {:induction false} StockedSnoc(db: Database, id: string, lines: seq<Line>, line: Line, firstId: int,
                                       bs: seq<BindingRow>)
    requires Stocked(lines, firstId, bs) && line !in lines
    ensures Stocked(lines + [line], firstId,
                    bs + BindingsFor(id, line, |lines|, LineProtocols(db, line), firstId + |bs|))
  {
    var ps := LineProtocols(db, line);
    var more := BindingsFor(id, line, |lines|, ps, firstId + |bs|);
    LineProtocolsMembers(db, line);
    BindingsForKeys(id, line, |lines|, ps, firstId + |bs|);
    forall b | b in more ensures OnLine(b) == line && firstId + |bs| <= b.id < firstId + |bs| + |more| {
      var i :| 0 <= i < |more| && more[i] == b;
      assert line == Line(line.sourceId, line.accountId, line.upstreamId);
    }
    AppendKeepsBindingKeys(bs, more);
  }

  ghost function StockedBy(firstId: int): (seq<Line>, seq<BindingRow>) -> bool {
    (lines: seq<Line>, bs: seq<BindingRow>) => NoDuplicates(lines) ==> Stocked(lines, firstId, bs)
  }

  lemma {:induction false} StockedStep(db: Database, id: string, lines: seq<Line>, line: Line, firstId: int,
                                       bs: seq<BindingRow>)
    ensures LineStep(db, id, firstId, StockedBy(firstId), lines, line, bs)
  {
    NoDuplicatesSnoc(lines, line);
    if NoDuplicates(lines + [line]) && Stocked(lines, firstId, bs) {
      StockedSnoc(db, id, lines, line, firstId, bs);
    }
  }

  lemma {:induction false} LineBindingsStocked(db: Database, id: string, lines: seq<Line>, firstId: int)
    ensures StockedBy(firstId)(lines, LineBindings(db, id, lines, firstId))
  {
    assert StockedBy(firstId)([], []);
    forall ls, line, bs ensures LineStep(db, id, firstId, StockedBy(firstId), ls, line, bs) {
      StockedStep(db, id, ls, line, firstId, bs);
    }
    LineInduction(db, id, lines, firstId, StockedBy(firstId));
  }

  lemma {:induction false} RoutingBindingKeys(db: Database, id: string, input: RoutingWrite, routeId: string)
    requires Integrity(db) && NoDuplicates(input.lines)
    ensures var tx := RoutingTables(db, id, input, routeId);
            && UniqueBindingIds(tx.bindings) && UniqueBindings(tx.bindings)
            && forall b :: b in tx.bindings ==> b.id < tx.nextBindingId
  {
    var kept, added := Filter(db.bindings, OnOtherModel(id)), LineBindings(db, id, input.lines, db.nextBindingId);
    FilterKeepsBindingKeys(db.bindings, OnOtherModel(id));
    LineBindingsStocked(db, id, input.lines, db.nextBindingId);
    LineBindingsMembers(db, id, input.lines, db.nextBindingId);
    AppendKeepsBindingKeys(kept, added);
  }

  lemma {:induction false} OriginReferences(db: Database, tx: Database, id: string, lines: seq<Line>, b: BindingRow)
    requires Integrity(db) && SameCatalog(db, tx) && Origin(db, id, lines, b)
    requires id in tx.models && forall m :: m in db.models ==> m in tx.models
    ensures BindingReferences(tx, b)
  {
    if b in db.bindings && b.modelId != id {
      assert BindingReferences(db, b);
    }
  }

  lemma {:induction false} RoutingKeepsNames(db: Database, id: string, input: RoutingWrite, routeId: string)
    requires UniquePublicNames(db.models) && !NameTaken(db, id, input.publicName)
    ensures UniquePublicNames(RoutingTables(db, id, input, routeId).models)
  {
  }

  lemma {:induction false} RoutingKeepsRouteKeys(db: Database, id: string, input: RoutingWrite, routeId: string)
    requires Integrity(db) && (input.lines != [] ==> RouteIdFree(db, id, routeId))
    ensures UniqueRouteIds(RoutingTables(db, id, input, routeId).routes)
    ensures forall r :: r in RoutingTables(db, id, input, routeId).routes ==>
              r.modelId in RoutingTables(db, id, input, routeId).models
  {
    FilterKeepsRouteKeys(db.routes, RouteOfOtherModel(id));
    var others := Filter(db.routes, RouteOfOtherModel(id));
    forall r | r in others && input.lines != [] ensures r.id != routeId {
      assert r in db.routes;
    }
  }

  lemma {:induction false} RoutingKeepsIntegrity(db: Database, id: string, input: RoutingWrite, routeId: string)
    requires Integrity(db) && NoDuplicates(input.lines) && !NameTaken(db, id, input.publicName)
    requires input.lines != [] ==> RouteIdFree(db, id, routeId)
    ensures Integrity(RoutingTables(db, id, input, routeId))
  {
    var tx := RoutingTables(db, id, input, routeId);
    RoutingBindingKeys(db, id, input, routeId);
    RoutingKeepsNames(db, id, input, routeId);
    RoutingKeepsRouteKeys(db, id, input, routeId);
    RoutingOrigin(db, id, input, routeId);
    forall b | b in tx.bindings ensures BindingReferences(tx, b) {
      OriginReferences(db, tx, id, input.lines, b);
    }
  }

  // ---------------------------------------------------------------------------
  // Every write keeps everything.
  // ---------------------------------------------------------------------------

  /** What the gateway promises of every stored state. */
  ghost predicate Sound(db: Database) {
    Integrity(db) && OneFamily(db) && OneRoute(db)
  }

  lemma {:induction false} CreateBindingKeeps(db: Database, b: BindingRow)
    requires Sound(db) && Admits(db, CreateBinding(b))
    ensures Sound(Effect(db, CreateBinding(b)))
  {
    CreateBindingKeepsIntegrity(db, b);
    StoredBindingKeepsFamily(db, Effect(db, CreateBinding(b)), b, b.(id := db.nextBindingId));
  }

  /** An admitted row, stored in place of the one with its id. */
  lemma {:induction false} StoreBindingKeeps(db: Database, input: BindingRow, row: BindingRow)
    requires Sound(db) && HasBinding(db.bindings, row.id) && BindingReferences(db, row) && !LineTaken(db, row.id, row)
    requires Active(row) ==>
               && BindingAdmitted(db, input) && Active(input)
               && input.modelId == row.modelId && input.sourceId == row.sourceId
    ensures Sound(db.(bindings := PutBinding(db.bindings, row)))
  {
    PutBindingMembers(db.bindings, row);
    StoreBindingKeepsIntegrity(db, row);
    StoredBindingKeepsFamily(db, db.(bindings := PutBinding(db.bindings, row)), input, row);
  }

  lemma {:induction false} UpdateBindingKeeps(db: Database, id: int, b: BindingRow)
    requires Sound(db) && Admits(db, UpdateBinding(id, b))
    ensures Sound(Effect(db, UpdateBinding(id, b)))
  {
    StoreBindingKeeps(db, b, b.(id := id));
  }

  lemma {:induction false} EnableBindingKeeps(db: Database, id: int, enabled: bool)
    requires Sound(db) && Admits(db, EnableBinding(id, enabled))
    ensures Sound(Effect(db, EnableBinding(id, enabled)))
  {
    var b := BindingWithId(db.bindings, id).value;
    var row := b.(enabled := enabled);
    OwnLineIsFree(db, b, row);
    assert BindingReferences(db, b);
    StoreBindingKeeps(db, row, row);
  }

  lemma {:induction false} SameBindingsSameFamily(db: Database, tx: Database)
    requires OneFamily(db) && tx.bindings == db.bindings && tx.sources == db.sources
    ensures OneFamily(tx)
  {
    forall m ensures OneFamilyFor(tx, m) {
      assert OneFamilyFor(db, m);
    }
  }

  lemma {:induction false} RouteWriteKeeps(db: Database, w: Write)
    requires Sound(db) && Admits(db, w)
    requires w.CreateRoute? || w.UpdateRoute? || w.EnableRoute?
    ensures Sound(Effect(db, w))
  {
    var tx := Effect(db, w);
    SameBindingsSameFamily(db, tx);
    match w
    case CreateRoute(r) =>
      forall q | q in db.routes ensures q.id != r.id {
      }
      StoredRouteKeepsOneRoute(db, tx, r);
      RoutesKeepIntegrity(db, tx);
    case UpdateRoute(r) =>
      PutRouteMembers(db.routes, r);
      StoredRouteKeepsOneRoute(db, tx, r);
      RoutesKeepIntegrity(db, tx);
    case EnableRoute(id, enabled) =>
      var r := RouteWithId(db.routes, id).value.(enabled := enabled);
      PutRouteMembers(db.routes, r);
      StoredRouteKeepsOneRoute(db, tx, r);
      RoutesKeepIntegrity(db, tx);
  }

  lemma {:induction false} DeletionRemoves(db: Database, w: Write)
    requires Integrity(db) && Admits(db, w)
    requires w.DeleteBinding? || w.DeleteRoute? || w.DeleteAccount? || w.DeleteModel? || w.DeleteSource?
    ensures var tx := Effect(db, w);
            && (forall b :: b in tx.bindings ==> b in db.bindings) && (forall r :: r in tx.routes ==> r in db.routes)
            && PresetsStay(db, tx)
  {
  }

  lemma {:induction false} DeletionKeepsIntegrity(db: Database, w: Write)
    requires Integrity(db) && Admits(db, w)
    requires w.DeleteBinding? || w.DeleteRoute? || w.DeleteAccount? || w.DeleteModel? || w.DeleteSource?
    ensures Integrity(Effect(db, w))
  {
    match w
    case DeleteBinding(id) => DeleteBindingKeepsIntegrity(db, id);
    case DeleteRoute(id) => DeleteRouteKeepsIntegrity(db, id);
    case DeleteAccount(id) => DeleteAccountKeepsIntegrity(db, id);
    case DeleteModel(id) => DeleteModelKeepsIntegrity(db, id);
    case DeleteSource(id) => DeleteSourceKeepsIntegrity(db, id);
  }

  lemma {:induction false} DeletionKeeps(db: Database, w: Write)
    requires Sound(db) && Admits(db, w)
    requires w.DeleteBinding? || w.DeleteRoute? || w.DeleteAccount? || w.DeleteModel? || w.DeleteSource?
    ensures Sound(Effect(db, w))
  {
    DeletionKeepsIntegrity(db, w);
    DeletionRemoves(db, w);
    FamilyKeptByRemoval(db, Effect(db, w));
    RemovalKeepsOneRoute(db, Effect(db, w));
  }

  lemma {:induction false} SourceWriteKeeps(db: Database, w: Write)
    requires Sound(db) && Admits(db, w)
    requires w.CreateSource? || w.UpdateSource? || w.EnableSource?
    ensures Sound(Effect(db, w))
  {
    var tx := Effect(db, w);
    SourcesKeepIntegrity(db, tx);
    forall b | b in db.bindings ensures Family(tx, b) == Family(db, b) {
      assert BindingReferences(db, b);
    }
    FamilyKeptByRemoval(db, tx);
    RemovalKeepsOneRoute(db, tx);
  }

  lemma {:induction false} UnrelatedKeeps(db: Database, tables: Database)
    requires Sound(db) && Unrelated(db, tables)
    ensures Sound(tables)
  {
    forall b | b in db.bindings ensures Family(tables, b) == Family(db, b) {
      assert BindingReferences(db, b) && BindingReferences(tables, b);
    }
    FamilyKeptByRemoval(db, tables);
    RemovalKeepsOneRoute(db, tables);
  }

  lemma {:induction false} RoutingKeeps(db: Database, id: string, intent: RoutingWrite, create: bool, freshId: string)
    requires Sound(db) && RoutingAccepted(db, id, intent, create, freshId)
    ensures Sound(RoutingTables(db, id, intent, RouteIdFor(db, id, freshId)))
  {
    var routeId := RouteIdFor(db, id, freshId);
    RoutingKeepsIntegrity(db, id, intent, routeId);
    RoutingOrigin(db, id, intent, routeId);
    RoutingKeepsFamily(db, RoutingTables(db, id, intent, routeId), id, intent.lines);
    RoutingKeepsOneRoute(db, id, intent, routeId);
  }

  /** Every admitted write keeps the keys, one provider family per model and one enabled
      route per model and protocol. */
  lemma {:induction false} WriteKeepsSound(db: Database, w: Write)
    requires Sound(db) && Admits(db, w)
    ensures Sound(Effect(db, w))
  {
    if w.CreateBinding? {
      CreateBindingKeeps(db, w.binding);
    } else if w.UpdateBinding? {
      UpdateBindingKeeps(db, w.bindingId, w.binding);
    } else if w.EnableBinding? {
      EnableBindingKeeps(db, w.bindingId, w.enabled);
    } else if w.CreateRoute? || w.UpdateRoute? || w.EnableRoute? {
      RouteWriteKeeps(db, w);
    } else if w.CreateSource? || w.UpdateSource? || w.EnableSource? {
      SourceWriteKeeps(db, w);
    } else if w.WriteRouting? {
      RoutingKeeps(db, w.modelId, w.intent, w.create, w.freshRouteId);
    } else if w.Elsewhere? {
      UnrelatedKeeps(db, w.tables);
    } else {
      DeletionKeeps(db, w);
    }
  }

  // ---------------------------------------------------------------------------
  // What a write touches, seen row by row.
  // ---------------------------------------------------------------------------

  lemma {:induction false} FoundById(bindings: seq<BindingRow>, b: BindingRow)
    requires UniqueBindingIds(bindings)
    ensures BindingWithId(bindings, b.id) == Some(b) <==> b in bindings
  {
    if b in bindings {
      var found := BindingWithId(bindings, b.id).value;
      var i :| 0 <= i < |bindings| && bindings[i] == b;
      var j :| 0 <= j < |bindings| && bindings[j] == found;
      assert i == j;
    }
  }

  /** The binding a write is about. */
  function Target(db: Database, w: Write): Option<int> {
    match w
    case CreateBinding(_) => Some(db.nextBindingId)
    case UpdateBinding(id, _) => Some(id)
    case EnableBinding(id, _) => Some(id)
    case DeleteBinding(id) => Some(id)
    case _ => None
  }

  lemma {:induction false} PutElsewhere(bindings: seq<BindingRow>, row: BindingRow, b: BindingRow)
    ensures b in PutBinding(bindings, row) <==>
              (b in bindings && b.id != row.id) || (b == row && HasBinding(bindings, row.id))
  {
    var put := PutBinding(bindings, row);
    PutBindingMembers(bindings, row);
    if b in bindings && b.id != row.id {
      var i :| 0 <= i < |bindings| && bindings[i] == b;
      assert put[i] == b;
    }
    if HasBinding(bindings, row.id) {
      var o :| o in bindings && o.id == row.id;
      var i :| 0 <= i < |bindings| && bindings[i] == o;
      assert put[i] == row;
    }
    if b in put && b == row {
      var i :| 0 <= i < |put| && put[i] == b;
      assert bindings[i] in bindings && bindings[i].id == row.id;
    }
  }

  /** What the row a write names looks like afterwards. */
  ghost predicate Becomes(db: Database, w: Write, b: BindingRow) {
    match w
    case CreateBinding(input) => b == input.(id := b.id)
    case UpdateBinding(_, input) => b == input.(id := b.id)
    case EnableBinding(_, enabled) =>
      b.enabled == enabled && exists stored :: stored in db.bindings && b == stored.(enabled := enabled)
    case _ => false
  }

  lemma {:induction false} FlagChanged(bindings: seq<BindingRow>, current: BindingRow, enabled: bool, b: BindingRow)
    requires UniqueBindingIds(bindings) && current in bindings && b.id == current.id
    ensures b == current.(enabled := enabled) <==>
              b.enabled == enabled && exists stored :: stored in bindings && b == stored.(enabled := enabled)
  {
    if stored :| stored in bindings && b == stored.(enabled := enabled) {
      FoundById(bindings, stored);
      FoundById(bindings, current);
    }
  }

  lemma {:induction false} EnableBindingIsLocal(db: Database, id: int, enabled: bool, b: BindingRow)
    requires Integrity(db) && HasBinding(db.bindings, id)
    ensures b in Effect(db, EnableBinding(id, enabled)).bindings <==>
              if b.id == id then Becomes(db, EnableBinding(id, enabled), b) else b in db.bindings
  {
    var current := BindingWithId(db.bindings, id).value;
    PutElsewhere(db.bindings, current.(enabled := enabled), b);
    if b.id == id {
      FlagChanged(db.bindings, current, enabled, b);
    }
  }

  /** A binding write changes the one row it names and no other: a created or updated row is
      the input under its id, an enabled one differs in the flag only, a deleted one is gone. */
  lemma {:induction false} BindingWriteIsLocal(db: Database, w: Write, b: BindingRow)
    requires Integrity(db) && Admits(db, w) && Target(db, w).Some?
    ensures b in Effect(db, w).bindings <==> if b.id == Target(db, w).value then Becomes(db, w, b) else b in db.bindings
  {
    match w
    case CreateBinding(input) =>
      assert b in db.bindings ==> b.id < db.nextBindingId;
    case UpdateBinding(id, input) =>
      PutElsewhere(db.bindings, input.(id := id), b);
    case EnableBinding(id, enabled) =>
      EnableBindingIsLocal(db, id, enabled, b);
    case DeleteBinding(id) =>
  }

  /** The route a write is about. */
  function TargetRoute(w: Write): Option<string> {
    match w
    case CreateRoute(r) => Some(r.id)
    case UpdateRoute(r) => Some(r.id)
    case EnableRoute(id, _) => Some(id)
    case DeleteRoute(id) => Some(id)
    case _ => None
  }

  lemma {:induction false} PutRouteElsewhere(routes: seq<RouteRow>, row: RouteRow, r: RouteRow)
    ensures r in PutRoute(routes, row) <==> (r in routes && r.id != row.id) || (r == row && HasRoute(routes, row.id))
  {
    var put := PutRoute(routes, row);
    PutRouteMembers(routes, row);
    if r in routes && r.id != row.id {
      var i :| 0 <= i < |routes| && routes[i] == r;
      assert put[i] == r;
    }
    if HasRoute(routes, row.id) {
      var o :| o in routes && o.id == row.id;
      var i :| 0 <= i < |routes| && routes[i] == o;
      assert put[i] == row;
    }
    if r in put && r == row {
      var i :| 0 <= i < |put| && put[i] == r;
      assert routes[i] in routes && routes[i].id == row.id;
    }
  }

  /** What the route a write names looks like afterwards. */
  ghost predicate RouteBecomes(db: Database, w: Write, r: RouteRow) {
    match w
    case CreateRoute(input) => r == input
    case UpdateRoute(input) => r == input
    case EnableRoute(_, enabled) =>
      r.enabled == enabled && exists stored :: stored in db.routes && r == stored.(enabled := enabled)
    case _ => false
  }

  lemma {:induction false} RouteFlagChanged(routes: seq<RouteRow>, current: RouteRow, enabled: bool, r: RouteRow)
    requires UniqueRouteIds(routes) && current in routes && r.id == current.id
    ensures r == current.(enabled := enabled) <==>
              r.enabled == enabled && exists stored :: stored in routes && r == stored.(enabled := enabled)
  {
    if stored :| stored in routes && r == stored.(enabled := enabled) {
      SameRoute(routes, stored, current);
    }
  }

  lemma {:induction false} EnableRouteIsLocal(db: Database, id: string, enabled: bool, r: RouteRow)
    requires Integrity(db) && HasRoute(db.routes, id)
    ensures r in Effect(db, EnableRoute(id, enabled)).routes <==>
              if r.id == id then RouteBecomes(db, EnableRoute(id, enabled), r) else r in db.routes
  {
    var current := RouteWithId(db.routes, id).value;
    PutRouteElsewhere(db.routes, current.(enabled := enabled), r);
    if r.id == id {
      RouteFlagChanged(db.routes, current, enabled, r);
    }
  }

  /** A route write changes the one route it names and no other, and no binding: a created or
      updated route is the input, an enabled one differs in the flag only, a deleted one is gone. */
  lemma {:induction false} RouteWriteIsLocal(db: Database, w: Write, r: RouteRow)
    requires Integrity(db) && Admits(db, w) && TargetRoute(w).Some?
    ensures Effect(db, w) == db.(routes := Effect(db, w).routes)
    ensures r in Effect(db, w).routes <==>
              if r.id == TargetRoute(w).value then RouteBecomes(db, w, r) else r in db.routes
  {
    match w
    case CreateRoute(input) =>
    case UpdateRoute(input) =>
      PutRouteElsewhere(db.routes, input, r);
    case EnableRoute(id, enabled) =>
      EnableRouteIsLocal(db, id, enabled, r);
    case DeleteRoute(id) =>
  }

  /** Deleting a source removes exactly what belongs to it, in every table. */
  lemma {:induction false} DeleteSourceIsExact(db: Database, id: string)
    ensures var tx := Effect(db, DeleteSource(id));
            && (forall s :: Find(tx.sources, s) == if s == id then None else Find(db.sources, s))
            && (forall a :: Find(tx.accounts, a)
                         == if a in db.accounts && db.accounts[a].sourceId == id then None else Find(db.accounts, a))
            && (forall k :: k in tx.sourceModels <==> k in db.sourceModels && k.sourceId != id)
            && (forall k :: k in tx.capabilities <==> k in db.capabilities && k.sourceId != id)
            && (forall b :: b in tx.bindings <==> b in db.bindings && b.sourceId != id)
            && tx.models == db.models && tx.routes == db.routes
  {
  }

  /** The source a write is about. */
  function TargetSource(w: Write): Option<string> {
    match w
    case CreateSource(id, _) => Some(id)
    case UpdateSource(id, _) => Some(id)
    case EnableSource(id, _) => Some(id)
    case _ => None
  }

  /** A source write changes the one source it names, to the input's row or by the flag alone, and
      no other source and no other table. */
  lemma {:induction false} SourceWriteIsLocal(db: Database, w: Write, id: string)
    requires Admits(db, w) && TargetSource(w).Some?
    ensures var tx := Effect(db, w);
            && tx == db.(sources := tx.sources)
            && (id != TargetSource(w).value ==> Find(tx.sources, id) == Find(db.sources, id))
            && (id == TargetSource(w).value ==>
                  match w
                  case CreateSource(_, input) => Find(tx.sources, id) == Some(input.row)
                  case UpdateSource(_, input) => Find(tx.sources, id) == Some(input.row)
                  case EnableSource(_, enabled) =>
                    && Find(db.sources, id).Some? && Find(tx.sources, id).Some?
                    && tx.sources[id].enabled == enabled
                    && tx.sources[id] == db.sources[id].(enabled := tx.sources[id].enabled)
                  case _ => false)
  {
  }

  /** A binding write touches no other table. */
  lemma {:induction false} BindingWriteFrame(db: Database, w: Write)
    requires Admits(db, w) && Target(db, w).Some?
    ensures var tx := Effect(db, w);
            && tx == db.(bindings := tx.bindings, nextBindingId := tx.nextBindingId)
            && tx.nextBindingId == (if w.CreateBinding? then db.nextBindingId + 1 else db.nextBindingId)
            && |tx.bindings| <= |db.bindings| + 1
  {
  }

  /** Deleting an account removes it and its bindings, and nothing else. */
  lemma {:induction false} DeleteAccountIsExact(db: Database, id: string)
    ensures var tx := Effect(db, DeleteAccount(id));
            && (forall a :: Find(tx.accounts, a) == if a == id then None else Find(db.accounts, a))
            && (forall b :: b in tx.bindings <==> b in db.bindings && b.accountId != id)
            && tx == db.(accounts := tx.accounts, bindings := tx.bindings)
  {
  }

  /** Deleting a model removes it, its bindings and its routes, and nothing else. */
  lemma {:induction false} DeleteModelIsExact(db: Database, id: string)
    ensures var tx := Effect(db, DeleteModel(id));
            && (forall m :: Find(tx.models, m) == if m == id then None else Find(db.models, m))
            && (forall b :: b in tx.bindings <==> b in db.bindings && b.modelId != id)
            && (forall r :: r in tx.routes <==> r in db.routes && r.modelId != id)
            && tx == db.(models := tx.models, bindings := tx.bindings, routes := tx.routes)
  {
  }
}
