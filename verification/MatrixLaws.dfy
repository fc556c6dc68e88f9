/** The capability matrix neither loses nor invents a binding, and always builds. */
module MatrixLaws {
  import opened Base
  import opened Seqs
  import opened Strings
  import opened Features
  import opened Tables
  import opened Snapshot
  import opened Matrix

  /** x is the binding at its rank of the route its model and protocol resolve to. */
  ghost predicate Resolved(routes: seq<RuntimeRoute>, x: Placement) {
    match Resolve(routes, x.protocol, x.key.model)
    case Err(_) => false
    case Ok(r) => x.rank < |r.bindings| && x == Place(x.key.model, r, x.protocol, x.rank)
  }

  ghost predicate Publishes(models: seq<PublishedModel>, id: string) {
    exists m :: m in models && m.id == id
  }

  lemma {:induction false} ResolvedPlacementsMembers(routes: seq<RuntimeRoute>, model: string, p: Protocol,
                                                     x: Placement)
    ensures x in ResolvedPlacements(routes, model, p) <==>
              x.key.model == model && x.protocol == p && Resolved(routes, x)
  {
    var s := ResolvedPlacements(routes, model, p);
    if x in s {
      var i :| 0 <= i < |s| && s[i] == x;
    }
    if x.key.model == model && x.protocol == p && Resolved(routes, x) {
      assert s[x.rank] == x;
    }
  }

  lemma {:induction false} ProtocolPlacementsMembers(routes: seq<RuntimeRoute>, model: string, ps: seq<Protocol>,
                                                     x: Placement)
    ensures x in ProtocolPlacements(routes, model, ps) <==>
              x.key.model == model && x.protocol in ps && Resolved(routes, x)
  {
    if ps != [] {
      var n := |ps| - 1;
      assert ps == ps[..n] + [ps[n]];
      ProtocolPlacementsMembers(routes, model, ps[..n], x);
      ResolvedPlacementsMembers(routes, model, ps[n], x);
    }
  }

  lemma {:induction false} AllProtocols(p: Protocol)
    ensures EnumRank(p) < 3 && ALL_PROTOCOLS[EnumRank(p)] == p && p in ALL_PROTOCOLS
  {
    assert ALL_PROTOCOLS[EnumRank(p)] in ALL_PROTOCOLS;
  }

  /** The placements are exactly the resolved bindings of the published models. */
  lemma {:induction false} PlacementsMembers(routes: seq<RuntimeRoute>, models: seq<PublishedModel>, x: Placement)
    ensures x in Placements(routes, models) <==> Publishes(models, x.key.model) && Resolved(routes, x)
  {
    if models != [] {
      var n := |models| - 1;
      assert models == models[..n] + [models[n]];
      PlacementsMembers(routes, models[..n], x);
      ProtocolPlacementsMembers(routes, models[n].id, ALL_PROTOCOLS, x);
      AllProtocols(x.protocol);
      assert Publishes(models, x.key.model) <==> Publishes(models[..n], x.key.model) || models[n].id == x.key.model;
    }
  }

  // ---------------------------------------------------------------------------
  // Cells and bindings, one to one.
  // ---------------------------------------------------------------------------

  lemma {:induction false} RowKeys(xs: seq<Placement>)
    ensures NoDuplicates(SortBy(MatrixKeys(xs), KeyOrder()))
    ensures forall x :: x in xs ==> x.key in SortBy(MatrixKeys(xs), KeyOrder())
    ensures forall k :: k in SortBy(MatrixKeys(xs), KeyOrder()) ==> exists x :: x in xs && x.key == k
  {
    var keys, sorted := MatrixKeys(xs), SortBy(MatrixKeys(xs), KeyOrder());
    SortByIsPermutation(keys, KeyOrder());
    OccursOnce(keys);
    OccursOnce(sorted);
    var all := Map(xs, PlacementKey());
    forall x | x in xs ensures x.key in keys {
      var i :| 0 <= i < |xs| && xs[i] == x;
      assert all[i] == x.key;
    }
    forall k | k in keys ensures exists x :: x in xs && x.key == k {
      var i :| 0 <= i < |all| && all[i] == k;
      assert xs[i] in xs;
    }
  }

  lemma {:induction false} OnlyOne(xs: seq<Placement>, x: Placement)
    requires Good(xs) && x in xs
    ensures Filter(xs, At(x.key, x.protocol)) == [x]
  {
    var group := Filter(xs, At(x.key, x.protocol));
    assert x in group && |group| <= 1;
  }

  /** The cell shows binding i of the route, every field of it. */
  ghost predicate Shows(c: Cell, r: RuntimeRoute, p: Protocol, i: nat) {
    && i < |r.bindings| && c.Routable?
    && var b := r.bindings[i];
    && c.protocol == p && c.bindingId == b.bindingId
    && (c.selection == Primary <==> i == 0) && c.rank == i
    && c.protocolUpstream == b.protocolUpstream && c.endpoint == b.endpoint
    && c.mode == b.mode && c.adapter == b.adapter
    && c.effective == b.effective && c.degraded == b.degraded
    && c.allowLossy == r.allowLossy
  }

  /** The line that binding i of the route serves the model on. */
  ghost predicate OnLine(k: MatrixKey, model: string, r: RuntimeRoute, i: nat) {
    && i < |r.bindings| && k.model == model && k.routeId == r.key.routeId
    && k.sourceId == r.bindings[i].sourceId && k.accountId == r.bindings[i].accountId
    && k.upstreamId == r.bindings[i].upstreamId
  }

  lemma {:induction false} PlacementShows(r: RuntimeRoute, p: Protocol, model: string, i: nat)
    requires i < |r.bindings|
    ensures Shows(CellOf(Place(model, r, p, i)), r, p, i) && OnLine(Place(model, r, p, i).key, model, r, i)
  {
  }

  lemma {:induction false} PlacementHasItsCell(routes: seq<RuntimeRoute>, xs: seq<Placement>, data: seq<MatrixRow>,
                                               x: Placement)
    returns (a: nat)
    requires Good(xs) && IsMatrixOf(routes, xs, data) && x in xs
    ensures a < |data| && data[a].key == x.key && |data[a].cells| == 3
    ensures data[a].cells[EnumRank(x.protocol)] == CellOf(x)
    ensures forall c :: 0 <= c < |data| && data[c].key == x.key ==> c == a
  {
    var keys := SortBy(MatrixKeys(xs), KeyOrder());
    RowKeys(xs);
    a :| 0 <= a < |keys| && keys[a] == x.key;
    OnlyOne(xs, x);
    AllProtocols(x.protocol);
    assert data[a].cells[EnumRank(x.protocol)] == CellAt(routes, xs, keys[a], ALL_PROTOCOLS[EnumRank(x.protocol)]);
  }

  /** Every resolved binding of a published model has a cell: in the one row of its line, under its
      protocol, with the binding's own contents, primary exactly at rank 0. */
  lemma {:induction false} EveryBindingHasItsCell(routes: seq<RuntimeRoute>, models: seq<PublishedModel>,
                                                  data: seq<MatrixRow>, model: string, p: Protocol, r: RuntimeRoute,
                                                  i: nat)
    returns (a: nat)
    requires Good(Placements(routes, models)) && IsMatrixOf(routes, Placements(routes, models), data)
    requires Publishes(models, model) && Resolve(routes, p, model) == Ok(r) && i < |r.bindings|
    ensures a < |data| && OnLine(data[a].key, model, r, i)
    ensures |data[a].cells| == 3 && Shows(data[a].cells[EnumRank(p)], r, p, i)
    ensures forall c :: 0 <= c < |data| && OnLine(data[c].key, model, r, i) ==> c == a
  {
    var x := Place(model, r, p, i);
    PlacementsMembers(routes, models, x);
    a := PlacementHasItsCell(routes, Placements(routes, models), data, x);
    PlacementShows(r, p, model, i);
    forall c | 0 <= c < |data| && OnLine(data[c].key, model, r, i) ensures c == a {
      assert data[c].key == x.key;
    }
  }

  lemma {:induction false} CellAtPlace(routes: seq<RuntimeRoute>, xs: seq<Placement>, data: seq<MatrixRow>, a: nat,
                                       j: nat)
    requires IsMatrixOf(routes, xs, data) && a < |data| && j < 3
    ensures |data[a].cells| == 3 && data[a].cells[j] == CellAt(routes, xs, data[a].key, ALL_PROTOCOLS[j])
  {
  }

  lemma {:induction false} RoutableCell(routes: seq<RuntimeRoute>, xs: seq<Placement>, k: MatrixKey,
                                        p: Protocol) returns (x: Placement)
    requires Good(xs) && CellAt(routes, xs, k, p).Routable?
    ensures x in xs && x.key == k && x.protocol == p && CellAt(routes, xs, k, p) == CellOf(x)
    ensures forall y :: y in xs && y.key == k && y.protocol == p ==> y == x
  {
    var group := Filter(xs, At(k, p));
    assert |group| <= 1;
    x := group[0];
    assert x in group;
    forall y | y in xs && y.key == k && y.protocol == p ensures y == x {
      assert y in group;
    }
  }

  /** Every routable cell shows one binding: of a published model, of the route its model and protocol
      resolve to, and no other binding of that route has its place. */
  lemma {:induction false} EveryCellHasItsBinding(routes: seq<RuntimeRoute>, models: seq<PublishedModel>,
                                                  data: seq<MatrixRow>, a: nat, p: Protocol)
    returns (r: RuntimeRoute, i: nat)
    requires Good(Placements(routes, models)) && IsMatrixOf(routes, Placements(routes, models), data) && a < |data|
    requires |data[a].cells| == 3 && data[a].cells[EnumRank(p)].Routable?
    ensures Publishes(models, data[a].key.model) && Resolve(routes, p, data[a].key.model) == Ok(r)
    ensures OnLine(data[a].key, data[a].key.model, r, i) && Shows(data[a].cells[EnumRank(p)], r, p, i)
    ensures forall j :: OnLine(data[a].key, data[a].key.model, r, j) ==> j == i
  {
    var xs, k := Placements(routes, models), data[a].key;
    AllProtocols(p);
    CellAtPlace(routes, xs, data, a, EnumRank(p));
    var x := RoutableCell(routes, xs, k, p);
    PlacementsMembers(routes, models, x);
    r, i := Resolve(routes, p, k.model).value, x.rank;
    PlacementShows(r, p, k.model, i);
    forall j | OnLine(k, k.model, r, j) ensures j == i {
      OnlyOnLine(routes, models, k, p, r, j);
    }
  }

  lemma {:induction false} OnlyOnLine(routes: seq<RuntimeRoute>, models: seq<PublishedModel>, k: MatrixKey, p: Protocol,
                                      r: RuntimeRoute, j: nat)
    requires Publishes(models, k.model) && Resolve(routes, p, k.model) == Ok(r) && OnLine(k, k.model, r, j)
    ensures Place(k.model, r, p, j) in Placements(routes, models)
    ensures Place(k.model, r, p, j).key == k && Place(k.model, r, p, j).protocol == p
    ensures Place(k.model, r, p, j).rank == j
  {
    PlacementsMembers(routes, models, Place(k.model, r, p, j));
  }

  // ---------------------------------------------------------------------------
  // Rows.
  // ---------------------------------------------------------------------------

  lemma {:induction false} RowHasPlacement(routes: seq<RuntimeRoute>, xs: seq<Placement>, data: seq<MatrixRow>, a: nat)
    returns (x: Placement)
    requires IsMatrixOf(routes, xs, data) && a < |data|
    ensures x in xs && x.key == data[a].key
  {
    RowKeys(xs);
    var keys := SortBy(MatrixKeys(xs), KeyOrder());
    assert data[a].key == keys[a] && keys[a] in keys;
    x :| x in xs && x.key == data[a].key;
  }

  /** There is a row for a line exactly when some protocol of a published model resolves to a binding
      on it. */
  lemma {:induction false} RowExistsIff(routes: seq<RuntimeRoute>, models: seq<PublishedModel>, data: seq<MatrixRow>,
                                        k: MatrixKey)
    requires Good(Placements(routes, models)) && IsMatrixOf(routes, Placements(routes, models), data)
    ensures (exists a :: 0 <= a < |data| && data[a].key == k) <==>
            Publishes(models, k.model) && exists p, i :: Serves(routes, k, p, i)
  {
    if a :| 0 <= a < |data| && data[a].key == k {
      var x := RowHasPlacement(routes, Placements(routes, models), data, a);
      PlacementServes(routes, models, x);
    }
    if p, i :| Publishes(models, k.model) && Serves(routes, k, p, i) {
      var a := EveryBindingHasItsCell(routes, models, data, k.model, p, Resolve(routes, p, k.model).value, i);
      assert data[a].key == k;
    }
  }

  lemma {:induction false} PlacementServes(routes: seq<RuntimeRoute>, models: seq<PublishedModel>, x: Placement)
    requires x in Placements(routes, models)
    ensures Publishes(models, x.key.model) && Serves(routes, x.key, x.protocol, x.rank)
  {
    PlacementsMembers(routes, models, x);
  }

  ghost predicate Serves(routes: seq<RuntimeRoute>, k: MatrixKey, p: Protocol, i: nat) {
    Resolve(routes, p, k.model).Ok? && OnLine(k, k.model, Resolve(routes, p, k.model).value, i)
  }

  /** The rows are in strictly ascending order of model, route, source, account and upstream model. */
  lemma {:induction false} RowsAreOrdered(routes: seq<RuntimeRoute>, xs: seq<Placement>, data: seq<MatrixRow>, a: nat,
                                          c: nat)
    requires IsMatrixOf(routes, xs, data) && a < c < |data|
    ensures var x, y := data[a].key, data[c].key;
            && x != y && StrLe(x.model, y.model)
            && (x.model == y.model ==> StrLe(x.routeId, y.routeId))
            && (x.model == y.model && x.routeId == y.routeId ==> StrLe(x.sourceId, y.sourceId))
            && (x.model == y.model && x.routeId == y.routeId && x.sourceId == y.sourceId ==>
                  StrLe(x.accountId, y.accountId))
            && (x.(upstreamId := y.upstreamId) == y ==> StrLe(x.upstreamId, y.upstreamId))
  {
    KeyOrderIsTotal();
    SortBySorts(MatrixKeys(xs), KeyOrder());
    RowKeys(xs);
    StrLeIsOrder();
    assert KeyOrder()(data[a].key, data[c].key);
  }

  lemma {:induction false} KeyOrderIsTotal()
    ensures TotalPreorder(KeyOrder())
  {
    StrLeIsOrder();
    forall x: MatrixKey, y: MatrixKey ensures KeyOrder()(x, y) || KeyOrder()(y, x) {
      KeyOrderConnects(x, y);
    }
    forall x: MatrixKey, y: MatrixKey, z: MatrixKey | KeyOrder()(x, y) && KeyOrder()(y, z) ensures KeyOrder()(x, z) {
      KeyOrderComposes(x, y, z);
    }
  }

  lemma {:induction false} KeyOrderConnects(x: MatrixKey, y: MatrixKey)
    ensures KeyOrder()(x, y) || KeyOrder()(y, x)
  {
    StrLeIsOrder();
  }

  lemma {:induction false} KeyOrderComposes(x: MatrixKey, y: MatrixKey, z: MatrixKey)
    requires KeyOrder()(x, y) && KeyOrder()(y, z)
    ensures KeyOrder()(x, z)
  {
    StrLeIsOrder();
  }

  // ---------------------------------------------------------------------------
  // Resolution and empty cells.
  // ---------------------------------------------------------------------------

  predicate Matches(r: RuntimeRoute, p: Protocol, model: string) {
    r.key.protocol == p && r.key.model == model
  }

  /** Resolution takes the first route of the protocol and model: it is not found exactly when there is
      none, and unavailable exactly when that one has no binding. */
  lemma {:induction false} ResolveIs(routes: seq<RuntimeRoute>, p: Protocol, model: string, n: nat)
    requires n <= |routes| && forall j :: 0 <= j < n ==> !Matches(routes[j], p, model)
    requires n < |routes| ==> Matches(routes[n], p, model)
    ensures n == |routes| ==> Resolve(routes, p, model) == Err(RouteNotFound)
    ensures n < |routes| ==>
              && (routes[n].bindings == [] ==> Resolve(routes, p,
                                                       model) == Err(RouteUnavailable(routes[n].key.routeId)))
              && (routes[n].bindings != [] ==> Resolve(routes, p, model) == Ok(routes[n]))
  {
    if n > 0 {
      ResolveIs(routes[1..], p, model, n - 1);
    }
  }

  lemma {:induction false} CellExplains(routes: seq<RuntimeRoute>, xs: seq<Placement>, k: MatrixKey, p: Protocol)
    ensures CellAt(routes, xs, k, p).protocol == p
    ensures CellAt(routes, xs, k, p).Unroutable? ==>
              var r := Resolve(routes, p, k.model);
              && (r.Err? ==> CellAt(routes, xs, k, p).error == Resolution(r.error))
              && (r.Ok? ==> CellAt(routes, xs, k, p).error == BindingNotAvailable(k))
  {
    var group := Filter(xs, At(k, p));
    if group != [] {
      assert group[0] in group;
    }
  }

  /** Every row has the three protocols in their fixed order; a cell without a binding carries the
      resolver's error when resolution failed, and otherwise says that this line has no binding. */
  lemma {:induction false} EmptyCellsExplainThemselves(routes: seq<RuntimeRoute>, xs: seq<Placement>,
                                                       data: seq<MatrixRow>, a: nat, j: nat)
    requires IsMatrixOf(routes, xs, data) && a < |data| && j < 3
    ensures |data[a].cells| == 3 && data[a].cells[j].protocol == ALL_PROTOCOLS[j]
    ensures data[a].cells[j].Unroutable? ==>
              var r := Resolve(routes, ALL_PROTOCOLS[j], data[a].key.model);
              && (r.Err? ==> data[a].cells[j].error == Resolution(r.error))
              && (r.Ok? ==> data[a].cells[j].error == BindingNotAvailable(data[a].key))
  {
    CellAtPlace(routes, xs, data, a, j);
    CellExplains(routes, xs, data[a].key, ALL_PROTOCOLS[j]);
  }

  /** The row holds the binding of this rank for the model and protocol. */
  ghost predicate HoldsRank(data: seq<MatrixRow>, a: nat, model: string, p: Protocol, i: nat) {
    && a < |data| && data[a].key.model == model && |data[a].cells| == 3
    && data[a].cells[EnumRank(p)].Routable? && data[a].cells[EnumRank(p)].rank == i
  }

  /** For a published model and a protocol that resolves, a rank is held by some row exactly
      when the resolved route has a binding of that rank... */
  lemma {:induction false} RankIsHeldIff(routes: seq<RuntimeRoute>, models: seq<PublishedModel>, data: seq<MatrixRow>,
                                         model: string, p: Protocol,
                                         r: RuntimeRoute, i: nat)
    requires Good(Placements(routes, models)) && IsMatrixOf(routes, Placements(routes, models), data)
    requires Publishes(models, model) && Resolve(routes, p, model) == Ok(r)
    ensures (exists a :: HoldsRank(data, a, model, p, i)) <==> i < |r.bindings|
  {
    if i < |r.bindings| {
      var a := EveryBindingHasItsCell(routes, models, data, model, p, r, i);
      assert HoldsRank(data, a, model, p, i);
    }
    if a: nat :| HoldsRank(data, a, model, p, i) {
      RankHolder(routes, models, data, model, p, r, i, a);
    }
  }

  /** ... its cell is that binding's, primary at rank 0 only ... */
  lemma {:induction false} RankHolder(routes: seq<RuntimeRoute>, models: seq<PublishedModel>, data: seq<MatrixRow>,
                                      model: string, p: Protocol,
                                      r: RuntimeRoute, i: nat, a: nat)
    requires Good(Placements(routes, models)) && IsMatrixOf(routes, Placements(routes, models), data)
    requires Resolve(routes, p, model) == Ok(r) && HoldsRank(data, a, model, p, i)
    ensures OnLine(data[a].key, model, r, i) && Shows(data[a].cells[EnumRank(p)], r, p, i)
  {
    var q, j := EveryCellHasItsBinding(routes, models, data, a, p);
  }

  /** ... and no other row holds it. */
  lemma {:induction false} RankIsHeldOnce(routes: seq<RuntimeRoute>, models: seq<PublishedModel>,
                                          data: seq<MatrixRow>, model: string, p: Protocol,
                                          r: RuntimeRoute, i: nat, a: nat, c: nat)
    requires Good(Placements(routes, models)) && IsMatrixOf(routes, Placements(routes, models), data)
    requires Resolve(routes, p, model) == Ok(r) && HoldsRank(data, a, model, p, i) && HoldsRank(data, c, model, p, i)
    ensures a == c
  {
    RankHolder(routes, models, data, model, p, r, i, a);
    RankHolder(routes, models, data, model, p, r, i, c);
    assert data[a].key == data[c].key;
    RowKeys(Placements(routes, models));
  }

  // ---------------------------------------------------------------------------
  // A published snapshot can always be laid out.
  // ---------------------------------------------------------------------------

  /** No two placements want the same cell. */
  ghost predicate Apart(xs: seq<Placement>) {
    forall i, j :: 0 <= i < j < |xs| ==> xs[i].key != xs[j].key || xs[i].protocol != xs[j].protocol
  }

  lemma {:induction false} ApartFilter(xs: seq<Placement>, k: MatrixKey, p: Protocol)
    requires Apart(xs)
    ensures |Filter(xs, At(k, p))| <= 1
  {
    if xs != [] {
      var n := |xs| - 1;
      ApartFilter(xs[..n], k, p);
      if At(k, p)(xs[n]) {
        forall x | x in xs[..n] ensures !At(k, p)(x) {
          var i :| 0 <= i < n && xs[i] == x;
        }
        FilterNone(xs[..n], At(k, p));
      }
    }
  }

  lemma {:induction false} ApartAppend(xs: seq<Placement>, ys: seq<Placement>)
    requires Apart(xs) && Apart(ys)
    requires forall x, y :: x in xs && y in ys ==> x.key != y.key || x.protocol != y.protocol
    ensures Apart(xs + ys)
  {
  }

  function BindingLine(b: RuntimeBinding): (string, string, string) {
    (b.sourceId, b.accountId, b.upstreamId)
  }

  /** The bindings of a route are routable and on different lines. */
  ghost predicate Orderly(r: RuntimeRoute) {
    && (forall i :: 0 <= i < |r.bindings| ==> r.bindings[i].mode.Routable())
    && (forall i, j :: 0 <= i < j < |r.bindings| ==> BindingLine(r.bindings[i]) != BindingLine(r.bindings[j]))
  }

  lemma {:induction false} ResolvedApart(routes: seq<RuntimeRoute>, model: string, p: Protocol)
    requires forall r :: r in routes ==> Orderly(r)
    ensures Apart(ResolvedPlacements(routes, model, p))
    ensures forall x :: x in ResolvedPlacements(routes, model, p) ==> x.binding.mode.Routable()
  {
    var resolved := Resolve(routes, p, model);
    if resolved.Ok? {
      var r := resolved.value;
      assert Orderly(r);
      var xs := RoutePlacements(model, r, p);
      forall i, j | 0 <= i < j < |xs| ensures xs[i].key != xs[j].key {
        assert BindingLine(r.bindings[i]) != BindingLine(r.bindings[j]);
      }
    }
  }

  lemma {:induction false} ProtocolsApart(routes: seq<RuntimeRoute>, model: string, ps: seq<Protocol>)
    requires (forall r :: r in routes ==> Orderly(r)) && NoDuplicates(ps)
    ensures Apart(ProtocolPlacements(routes, model, ps))
    ensures forall x :: x in ProtocolPlacements(routes, model, ps) ==> x.binding.mode.Routable()
  {
    if ps != [] {
      var n := |ps| - 1;
      ProtocolsApart(routes, model, ps[..n]);
      ResolvedApart(routes, model, ps[n]);
      var xs, ys := ProtocolPlacements(routes, model, ps[..n]), ResolvedPlacements(routes, model, ps[n]);
      forall x, y | x in xs && y in ys ensures x.protocol != y.protocol {
        ProtocolPlacementsMembers(routes, model, ps[..n], x);
        ResolvedPlacementsMembers(routes, model, ps[n], y);
      }
      ApartAppend(xs, ys);
    }
  }

  ghost predicate DistinctIds(models: seq<PublishedModel>) {
    forall i, j :: 0 <= i < j < |models| ==> models[i].id != models[j].id
  }

  lemma {:induction false} ModelsApart(routes: seq<RuntimeRoute>, models: seq<PublishedModel>)
    requires (forall r :: r in routes ==> Orderly(r)) && DistinctIds(models)
    ensures Apart(Placements(routes, models))
    ensures forall x :: x in Placements(routes, models) ==> x.binding.mode.Routable()
  {
    if models != [] {
      var n := |models| - 1;
      ModelsApart(routes, models[..n]);
      assert NoDuplicates(ALL_PROTOCOLS);
      ProtocolsApart(routes, models[n].id, ALL_PROTOCOLS);
      var xs, ys := Placements(routes, models[..n]), ProtocolPlacements(routes, models[n].id, ALL_PROTOCOLS);
      forall x, y | x in xs && y in ys ensures x.key != y.key {
        PlacementsMembers(routes, models[..n], x);
        ProtocolPlacementsMembers(routes, models[n].id, ALL_PROTOCOLS, y);
        var m :| m in models[..n] && m.id == x.key.model;
        var i :| 0 <= i < n && models[i] == m;
      }
      ApartAppend(xs, ys);
    }
  }

  lemma {:induction false} OrderlyIsGood(routes: seq<RuntimeRoute>, models: seq<PublishedModel>)
    requires (forall r :: r in routes ==> Orderly(r)) && DistinctIds(models)
    ensures Good(Placements(routes, models))
  {
    ModelsApart(routes, models);
    forall k, p ensures |Filter(Placements(routes, models), At(k, p))| <= 1 {
      ApartFilter(Placements(routes, models), k, p);
    }
  }

  function ModelId(): PublishedModel -> string {
    (m: PublishedModel) => m.id
  }

  lemma {:induction false} PublishedIdsDistinct(es: seq<KeptRow>, models: seq<PublishedModel>)
    requires SortedModels(es, models)
    ensures DistinctIds(models)
  {
    var ms :| ModelsMatch(es, ms) && models == SortBy(ms, ByModelId());
    SortByIsPermutation(ms, ByModelId());
    MapPermutation(models, ms, ModelId());
    assert Map(ms, ModelId()) == Names(es);
    OccursOnce(Names(es));
    OccursOnce(Map(models, ModelId()));
    forall i, j | 0 <= i < j < |models| ensures models[i].id != models[j].id {
      assert Map(models, ModelId())[i] != Map(models, ModelId())[j];
    }
  }

  // The rows of the snapshot query are distinct.

  lemma {:induction false} JoinedBindingsDistinct(db: Database, r: RouteRow, bs: seq<BindingRow>)
    requires UniqueBindingIds(bs)
    ensures NoDuplicates(JoinBindings(db, r, bs))
  {
    if bs != [] {
      var n := |bs| - 1;
      JoinedBindingsDistinct(db, r, bs[..n]);
      JoinBindingsMembers(db, r, bs[..n]);
      var init := JoinBindings(db, r, bs[..n]);
      if Joins(db, r, bs[n]) {
        forall x | x in init ensures x != RowOf(db, r, bs[n]) {
          var b :| b in bs[..n] && Joins(db, r, b) && x == RowOf(db, r, b);
          var i :| 0 <= i < n && bs[i] == b;
        }
        AppendDistinct(init, [RowOf(db, r, bs[n])]);
      }
    }
  }

  lemma {:induction false} JoinedRoutesDistinct(db: Database, rs: seq<RouteRow>)
    requires UniqueBindingIds(db.bindings) && UniqueRouteIds(rs)
    ensures NoDuplicates(JoinRoutes(db, rs))
  {
    if rs != [] {
      var n := |rs| - 1;
      JoinedRoutesDistinct(db, rs[..n]);
      JoinedBindingsDistinct(db, rs[n], db.bindings);
      JoinRoutesMembers(db, rs[..n]);
      JoinBindingsMembers(db, rs[n], db.bindings);
      var xs, ys := JoinRoutes(db, rs[..n]), JoinBindings(db, rs[n], db.bindings);
      forall x, y | x in xs && y in ys ensures x != y {
        assert y.routeId == rs[n].id;
        var r, b :| r in rs[..n] && b in db.bindings && Joins(db, r, b) && x == RowOf(db, r, b);
        var i :| 0 <= i < n && rs[i] == r;
      }
      AppendDistinct(xs, ys);
    }
  }

  lemma {:induction false} AppendDistinct<T(!new)>(s: seq<T>, t: seq<T>)
    requires NoDuplicates(s) && NoDuplicates(t) && forall x, y :: x in s && y in t ==> x != y
    ensures NoDuplicates(s + t)
  {
    forall i, j | 0 <= i < j < |s + t| ensures (s + t)[i] != (s + t)[j] {
      if i < |s| <= j {
        assert s[i] in s && t[j - |s|] in t;
      }
    }
  }

  lemma {:induction false} SnapshotRowsDistinct(db: Database)
    requires Integrity(db)
    ensures NoDuplicates(SnapshotRows(db))
  {
    var rows := JoinRoutes(db, db.routes);
    JoinedRoutesDistinct(db, db.routes);
    SortByIsPermutation(rows, RowOrder());
    OccursOnce(rows);
    OccursOnce(SnapshotRows(db));
  }

  lemma {:induction false} KeptDistinct(adapters: AdapterRegistry, rows: seq<Row>)
    requires NoDuplicates(rows)
    ensures NoDuplicates(Kept(adapters, rows))
  {
    if rows != [] {
      var n := |rows| - 1;
      KeptDistinct(adapters, rows[..n]);
      assert rows[n] !in rows[..n];
    }
  }

  lemma {:induction false} SameLineSameRow(db: Database, x: Row, y: Row)
    requires Integrity(db) && x in SnapshotRows(db) && y in SnapshotRows(db)
    requires x.routeId == y.routeId && x.protocol == y.protocol
    requires x.sourceId == y.sourceId && x.accountId == y.accountId && x.upstreamId == y.upstreamId
    ensures x == y
  {
    SnapshotRowsMembers(db);
    var r, b :| r in db.routes && b in db.bindings && Joins(db, r, b) && x == RowOf(db, r, b);
    var q, c :| q in db.routes && c in db.bindings && Joins(db, q, c) && y == RowOf(db, q, c);
    SameRoute(db.routes, r, q);
    SameBinding(db.bindings, b, c);
  }

  lemma {:induction false} KeptMode(adapters: AdapterRegistry, row: Row)
    requires Judge(adapters, row).Keep?
    ensures Judge(adapters, row).binding.mode.Routable()
    ensures BindingLine(Judge(adapters, row).binding) == (row.sourceId, row.accountId, row.upstreamId)
  {
  }

  lemma {:induction false} GroupIsOrderly(adapters: AdapterRegistry, db: Database, group: seq<KeptRow>, k: RouteKey)
    requires Integrity(db) && group != [] && NoDuplicates(group)
    requires forall e :: e in group ==>
               e.row in SnapshotRows(db) && Judge(adapters, e.row) == Keep(e.binding) && KeyOf()(e) == k
    ensures Orderly(RouteOf(group, k))
  {
    var r := RouteOf(group, k);
    forall i | 0 <= i < |group| ensures r.bindings[i].mode.Routable() {
      assert group[i] in group;
      KeptMode(adapters, group[i].row);
    }
    forall i, j | 0 <= i < j < |group| ensures BindingLine(r.bindings[i]) != BindingLine(r.bindings[j]) {
      var e, f := group[i], group[j];
      assert e in group && f in group && e != f;
      KeptMode(adapters, e.row);
      KeptMode(adapters, f.row);
      if BindingLine(e.binding) == BindingLine(f.binding) {
        SameLineSameRow(db, e.row, f.row);
      }
    }
  }

  /** Whatever the tables hold, the matrix of a published snapshot builds: no duplicate
      binding and no invalid mode can be met. */
  lemma {:induction false} PublishedMatrixBuilds(adapters: AdapterRegistry, db: Database, s: RuntimeSnapshot)
    requires Integrity(db) && IsSnapshotOf(Kept(adapters, SnapshotRows(db)), s)
    ensures Good(Placements(s.routes, s.models))
  {
    var es := Kept(adapters, SnapshotRows(db));
    SnapshotRowsDistinct(db);
    KeptDistinct(adapters, SnapshotRows(db));
    forall r | r in s.routes ensures Orderly(r) {
      var i :| 0 <= i < |s.routes| && s.routes[i] == r;
      FilterKeepsDistinct(es, HasKey(Keys(es)[i]));
      GroupIsOrderly(adapters, db, Filter(es, HasKey(Keys(es)[i])), Keys(es)[i]);
    }
    PublishedIdsDistinct(es, s.models);
    OrderlyIsGood(s.routes, s.models);
  }
}
