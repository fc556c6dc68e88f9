/**
 The effective capability matrix: resolved runtime routes regrouped into one row per
 upstream line and one cell per protocol.
 */
module Matrix {
  import opened Base
  import opened Seqs
  import opened Strings
  import opened Features
  import opened Snapshot

  // ---------------------------------------------------------------------------
  // Resolution.
  // ---------------------------------------------------------------------------

  datatype ResolutionError = RouteNotFound | RouteUnavailable(routeId: string)

  function FirstRoute(routes: seq<RuntimeRoute>, p: Protocol, model: string): (r: Option<RuntimeRoute>)
    ensures r.Some? ==> r.value in routes && r.value.key.protocol == p && r.value.key.model == model
    ensures r.None? ==> forall x :: x in routes ==> !(x.key.protocol == p && x.key.model == model)
  {
    if routes == [] then None
    else if routes[0].key.protocol == p && routes[0].key.model == model then Some(routes[0])
    else
      assert routes == [routes[0]] + routes[1..];
      FirstRoute(routes[1..], p, model)
  }

  /** The first route for the protocol and model, if it has a binding to offer. */
  function Resolve(routes: seq<RuntimeRoute>, p: Protocol, model: string): Result<RuntimeRoute, ResolutionError> {
    match FirstRoute(routes, p, model)
    case None => Err(RouteNotFound)
    case Some(r) => if r.bindings == [] then Err(RouteUnavailable(r.key.routeId)) else Ok(r)
  }

  // ---------------------------------------------------------------------------
  // Rows, cells, and where a resolved binding belongs.
  // ---------------------------------------------------------------------------

  datatype MatrixKey = MatrixKey(model: string, routeId: string, sourceId: string, accountId: string,
                                 upstreamId: string)

  datatype Selection = Primary | Fallback

  datatype CellError = Resolution(error: ResolutionError) | BindingNotAvailable(key: MatrixKey)

  datatype Cell =
    | Routable(
        protocol: Protocol,
        bindingId: int,
        selection: Selection,
        rank: nat,
        protocolUpstream: Protocol,
        endpoint: string,
        mode: ProtocolMode,
        adapter: Option<string>,
        effective: seq<FeatureMode>,
        degraded: seq<string>,
        allowLossy: bool)
    | Unroutable(protocol: Protocol, error: CellError)

  datatype MatrixRow = MatrixRow(key: MatrixKey, cells: seq<Cell>)

  /** A resolved binding: of this model and protocol, at this rank. */
  datatype Placement = Placement(key: MatrixKey, protocol: Protocol, rank: nat, binding: RuntimeBinding,
                                 allowLossy: bool)

  function Place(model: string, r: RuntimeRoute, p: Protocol, i: nat): Placement
    requires i < |r.bindings|
  {
    var b := r.bindings[i];
    Placement(MatrixKey(model, r.key.routeId, b.sourceId, b.accountId, b.upstreamId), p, i, b, r.allowLossy)
  }

  function RoutePlacements(model: string, r: RuntimeRoute, p: Protocol): (s: seq<Placement>)
    ensures |s| == |r.bindings|
    ensures forall i :: 0 <= i < |s| ==> s[i] == Place(model, r, p, i)
  {
    seq(|r.bindings|, i requires 0 <= i < |r.bindings| => Place(model, r, p, i))
  }

  function ResolvedPlacements(routes: seq<RuntimeRoute>, model: string, p: Protocol): seq<Placement> {
    match Resolve(routes, p, model)
    case Err(_) => []
    case Ok(r) => RoutePlacements(model, r, p)
  }

  function ProtocolPlacements(routes: seq<RuntimeRoute>, model: string, ps: seq<Protocol>): seq<Placement> {
    if ps == [] then []
    else ProtocolPlacements(routes, model, ps[..|ps| - 1]) + ResolvedPlacements(routes, model, ps[|ps| - 1])
  }

  /** Every resolved binding of every published model, in the order they are met. */
  function Placements(routes: seq<RuntimeRoute>, models: seq<PublishedModel>): seq<Placement> {
    if models == [] then []
    else Placements(routes, models[..|models| - 1]) + ProtocolPlacements(routes, models[|models| - 1].id, ALL_PROTOCOLS)
  }

  function CellOf(x: Placement): Cell {
    var b := x.binding;
    Routable(x.protocol, b.bindingId, if x.rank == 0 then Primary else Fallback, x.rank, b.protocolUpstream, b.endpoint,
             b.mode, b.adapter, b.effective, b.degraded, x.allowLossy)
  }

  function At(k: MatrixKey, p: Protocol): Placement -> bool {
    (x: Placement) => x.key == k && x.protocol == p
  }

  function PlacementKey(): Placement -> MatrixKey {
    (x: Placement) => x.key
  }

  function MatrixKeys(xs: seq<Placement>): seq<MatrixKey> {
    Distinct(Map(xs, PlacementKey()))
  }

  /** Bindings that can be laid out: all routable, no two in one cell. */
  ghost predicate Good(xs: seq<Placement>) {
    && (forall x :: x in xs ==> x.binding.mode.Routable())
    && (forall k, p :: |Filter(xs, At(k, p))| <= 1)
  }

  /** BTreeMap order of the rows. */
  function KeyOrder(): (MatrixKey, MatrixKey) -> bool {
    (x: MatrixKey, y: MatrixKey) =>
      if x.model != y.model then StrLe(x.model, y.model)
      else if x.routeId != y.routeId then StrLe(x.routeId, y.routeId)
      else if x.sourceId != y.sourceId then StrLe(x.sourceId, y.sourceId)
      else if x.accountId != y.accountId then StrLe(x.accountId, y.accountId)
      else StrLe(x.upstreamId, y.upstreamId)
  }

  /** What a cell without a binding says. */
  function Missing(routes: seq<RuntimeRoute>, k: MatrixKey, p: Protocol): Cell {
    match Resolve(routes, p, k.model)
    case Err(e) => Unroutable(p, Resolution(e))
    case Ok(_) => Unroutable(p, BindingNotAvailable(k))
  }

  function CellAt(routes: seq<RuntimeRoute>, xs: seq<Placement>, k: MatrixKey, p: Protocol): Cell {
    var group := Filter(xs, At(k, p));
    if group == [] then Missing(routes, k, p) else CellOf(group[0])
  }

  /** One row per line with a binding, in key order, each with the three protocols. */
  ghost predicate IsMatrixOf(routes: seq<RuntimeRoute>, xs: seq<Placement>, data: seq<MatrixRow>) {
    var keys := SortBy(MatrixKeys(xs), KeyOrder());
    && |data| == |keys|
    && forall i :: 0 <= i < |data| ==>
         && data[i].key == keys[i] && |data[i].cells| == 3
         && forall j :: 0 <= j < 3 ==> data[i].cells[j] == CellAt(routes, xs, keys[i], ALL_PROTOCOLS[j])
  }

  // ---------------------------------------------------------------------------
  // The builder.
  // ---------------------------------------------------------------------------

  datatype MatrixError =
    | InvalidRuntimeMode(routeId: string, bindingId: int)
    | DuplicateRuntimeBinding(routeId: string, bindingId: int, protocol: Protocol)

  type RowCells = map<Protocol, Cell>

  /** The rows so far; the keys in order of insertion stand for the map's own order. */
  datatype Layout = Layout(keys: seq<MatrixKey>, rows: map<MatrixKey, RowCells>)

  function CellIn(rows: map<MatrixKey, RowCells>, k: MatrixKey, p: Protocol): Option<Cell> {
    if k in rows && p in rows[k] then Some(rows[k][p]) else None
  }

  function ExpectedCell(xs: seq<Placement>, k: MatrixKey, p: Protocol): Option<Cell> {
    var group := Filter(xs, At(k, p));
    if group == [] then None else Some(CellOf(group[0]))
  }

  ghost predicate Laid(xs: seq<Placement>, d: Layout) {
    && d.keys == MatrixKeys(xs)
    && (forall k :: k in d.rows <==> k in d.keys)
    && (forall k, p :: CellIn(d.rows, k, p) == ExpectedCell(xs, k, p))
  }

  lemma {:induction false} MatrixKeysSnoc(xs: seq<Placement>, x: Placement)
    ensures MatrixKeys(xs + [x]) == MatrixKeys(xs) + if x.key in MatrixKeys(xs) then [] else [x.key]
  {
    assert Map(xs + [x], PlacementKey())[..|xs|] == Map(xs, PlacementKey());
  }

  lemma {:induction false} GoodSnoc(xs: seq<Placement>, x: Placement)
    ensures Good(xs + [x]) <==> Good(xs) && x.binding.mode.Routable() && Filter(xs, At(x.key, x.protocol)) == []
  {
    forall k, p ensures |Filter(xs + [x], At(k, p))| == |Filter(xs, At(k, p))| + if At(k, p)(x) then 1 else 0 {
      FilterSnoc(xs, x, At(k, p));
    }
    if Good(xs + [x]) {
      assert x in xs + [x];
      forall y | y in xs ensures y.binding.mode.Routable() {
        assert y in xs + [x];
      }
      forall k, p ensures |Filter(xs, At(k, p))| <= 1 {
        assert |Filter(xs + [x], At(k, p))| <= 1;
      }
      assert |Filter(xs + [x], At(x.key, x.protocol))| <= 1;
    }
  }

  lemma {:induction false} GoodPrefix(xs: seq<Placement>, ys: seq<Placement>)
    requires Good(xs + ys)
    ensures Good(xs)
  {
    forall x | x in xs ensures x.binding.mode.Routable() {
      assert x in xs + ys;
    }
    forall k, p ensures |Filter(xs, At(k, p))| <= 1 {
      FilterAppend(xs, ys, At(k, p));
      assert |Filter(xs + ys, At(k, p))| <= 1;
    }
  }

  lemma {:induction false} ExpectedSnoc(xs: seq<Placement>, x: Placement, k: MatrixKey, p: Protocol)
    requires Filter(xs, At(x.key, x.protocol)) == []
    ensures ExpectedCell(xs + [x], k, p)
         == if k == x.key && p == x.protocol then Some(CellOf(x)) else ExpectedCell(xs, k, p)
  {
    FilterSnoc(xs, x, At(k, p));
    if !(k == x.key && p == x.protocol) {
      assert Filter(xs + [x], At(k, p)) == Filter(xs, At(k, p));
    }
  }

  function RowFor(d: Layout, k: MatrixKey): RowCells {
    if k in d.rows then d.rows[k] else map[]
  }

  lemma {:induction false} OccupiedIff(xs: seq<Placement>, d: Layout, x: Placement)
    requires Laid(xs, d)
    ensures x.protocol in RowFor(d, x.key) <==> Filter(xs, At(x.key, x.protocol)) != []
  {
    assert CellIn(d.rows, x.key, x.protocol) == ExpectedCell(xs, x.key, x.protocol);
  }

  lemma {:induction false} CellsSnoc(xs: seq<Placement>, d: Layout, x: Placement, k: MatrixKey, p: Protocol)
    requires Laid(xs, d) && Filter(xs, At(x.key, x.protocol)) == []
    ensures CellIn(d.rows[x.key := RowFor(d, x.key)[x.protocol := CellOf(x)]], k, p) == ExpectedCell(xs + [x], k, p)
  {
    ExpectedSnoc(xs, x, k, p);
    assert CellIn(d.rows, k, p) == ExpectedCell(xs, k, p);
  }

  lemma {:induction false} LaidSnoc(xs: seq<Placement>, d: Layout, x: Placement)
    requires Laid(xs, d) && Filter(xs, At(x.key, x.protocol)) == []
    ensures Laid(xs + [x], Layout(d.keys + (if x.key in d.rows then [] else [x.key]),
                                  d.rows[x.key := RowFor(d, x.key)[x.protocol := CellOf(x)]]))
  {
    MatrixKeysSnoc(xs, x);
    forall k, p
      ensures CellIn(d.rows[x.key := RowFor(d, x.key)[x.protocol := CellOf(x)]], k, p) == ExpectedCell(xs + [x], k, p)
    {
      CellsSnoc(xs, d, x, k, p);
    }
  }

  /** The error names this placement: a mode that cannot be served, or a place already taken. */
  ghost predicate Blames(e: MatrixError, x: Placement) {
    if x.binding.mode != Native && x.binding.mode != Adapter then
      e == InvalidRuntimeMode(x.key.routeId, x.binding.bindingId)
    else
      e == DuplicateRuntimeBinding(x.key.routeId, x.binding.bindingId, x.protocol)
  }

  /** The error names the first placement that cannot be laid out beside the ones before it. */
  ghost predicate BlamesFirst(xs: seq<Placement>, n: nat, e: MatrixError) {
    n < |xs| && Good(xs[..n]) && !Good(xs[..n + 1]) && Blames(e, xs[n])
  }

  ghost predicate Refused(xs: seq<Placement>, e: MatrixError) {
    exists n: nat :: BlamesFirst(xs, n, e)
  }

  lemma {:induction false} RefusedNow(xs: seq<Placement>, x: Placement, ys: seq<Placement>, all: seq<Placement>,
                                      e: MatrixError)
    requires Good(xs) && !Good(xs + [x]) && Blames(e, x) && all == xs + [x] + ys
    ensures Refused(all, e)
  {
    assert all[..|xs|] == xs && all[..|xs| + 1] == xs + [x] && all[|xs|] == x;
    assert BlamesFirst(all, |xs|, e);
  }

  lemma {:induction false} RefusedStill(xs: seq<Placement>, ys: seq<Placement>, e: MatrixError)
    requires Refused(xs, e)
    ensures Refused(xs + ys, e)
  {
    var n: nat :| BlamesFirst(xs, n, e);
    assert n < |xs|;
    assert (xs + ys)[..n] == xs[..n] && (xs + ys)[..n + 1] == xs[..n + 1] && (xs + ys)[n] == xs[n];
    assert BlamesFirst(xs + ys, n, e);
  }

  lemma {:induction false} RefusedIsBad(xs: seq<Placement>, e: MatrixError)
    requires Refused(xs, e)
    ensures !Good(xs)
  {
    var n: nat :| BlamesFirst(xs, n, e);
    assert n < |xs|;
    assert xs == xs[..n + 1] + xs[n + 1..];
    if Good(xs) {
      GoodPrefix(xs[..n + 1], xs[n + 1..]);
    }
  }

  method InsertBinding(ghost xs: seq<Placement>, d: Layout, x: Placement) returns (r: Result<Layout, MatrixError>)
    requires Good(xs) && Laid(xs, d)
    ensures r.Ok? <==> Good(xs + [x])
    ensures r.Ok? ==> Laid(xs + [x], r.value)
    ensures r.Err? ==> Blames(r.error, x)
  {
    GoodSnoc(xs, x);
    OccupiedIff(xs, d, x);
    if !x.binding.mode.Routable() {
      return Err(InvalidRuntimeMode(x.key.routeId, x.binding.bindingId));
    }
    var keys, row := d.keys + (if x.key in d.rows then [] else [x.key]), RowFor(d, x.key);
    if x.protocol in row {
      return Err(DuplicateRuntimeBinding(x.key.routeId, x.binding.bindingId, x.protocol));
    }
    LaidSnoc(xs, d, x);
    r := Ok(Layout(keys, d.rows[x.key := row[x.protocol := CellOf(x)]]));
  }

  lemma {:induction false} NextPlacement(xs: seq<Placement>, all: seq<Placement>, i: nat)
    requires i < |all|
    ensures xs + all[..i] + [all[i]] == xs + all[..i + 1]
    ensures xs + all == xs + all[..i] + [all[i]] + all[i + 1..]
  {
  }

  method InsertRoute(ghost xs: seq<Placement>, d: Layout, model: string, route: RuntimeRoute, p: Protocol)
    returns (r: Result<Layout, MatrixError>)
    requires Good(xs) && Laid(xs, d)
    ensures r.Ok? ==>
              Good(xs + RoutePlacements(model, route, p)) && Laid(xs + RoutePlacements(model, route, p), r.value)
    ensures r.Err? ==> Refused(xs + RoutePlacements(model, route, p), r.error)
  {
    ghost var all := RoutePlacements(model, route, p);
    var draft := d;
    assert xs + all[..0] == xs;
    var i := 0;
    while i < |route.bindings|
      invariant 0 <= i <= |route.bindings|
      invariant Good(xs + all[..i]) && Laid(xs + all[..i], draft)
    {
      var x := Place(model, route, p, i);
      NextPlacement(xs, all, i);
      var next := InsertBinding(xs + all[..i], draft, x);
      if next.Err? {
        RefusedNow(xs + all[..i], x, all[i + 1..], xs + all, next.error);
        return Err(next.error);
      }
      draft := next.value;
      i := i + 1;
    }
    assert all[..i] == all;
    r := Ok(draft);
  }

  method InsertModel(routes: seq<RuntimeRoute>, ghost xs: seq<Placement>, d: Layout,
                     model: string) returns (r: Result<Layout, MatrixError>)
    requires Good(xs) && Laid(xs, d)
    ensures r.Ok? ==>
              && Good(xs + ProtocolPlacements(routes, model, ALL_PROTOCOLS))
              && Laid(xs + ProtocolPlacements(routes, model, ALL_PROTOCOLS), r.value)
    ensures r.Err? ==> Refused(xs + ProtocolPlacements(routes, model, ALL_PROTOCOLS), r.error)
  {
    r := InsertProtocols(routes, xs, d, model, ALL_PROTOCOLS);
  }

  method InsertProtocols(routes: seq<RuntimeRoute>, ghost xs: seq<Placement>, d: Layout, model: string,
                         ps: seq<Protocol>)
    returns (r: Result<Layout, MatrixError>)
    requires Good(xs) && Laid(xs, d)
    ensures r.Ok? ==>
              && Good(xs + ProtocolPlacements(routes, model, ps))
              && Laid(xs + ProtocolPlacements(routes, model, ps), r.value)
    ensures r.Err? ==> Refused(xs + ProtocolPlacements(routes, model, ps), r.error)
  {
    var draft := d;
    assert xs + ProtocolPlacements(routes, model, ps[..0]) == xs;
    var i := 0;
    while i < |ps|
      invariant 0 <= i <= |ps|
      invariant Good(xs + ProtocolPlacements(routes, model, ps[..i]))
      invariant Laid(xs + ProtocolPlacements(routes, model, ps[..i]), draft)
    {
      ghost var done := xs + ProtocolPlacements(routes, model, ps[..i]);
      ghost var rest := ProtocolStep(routes, xs, model, ps, i);
      var resolved := Resolve(routes, ps[i], model);
      if resolved.Ok? {
        var next := InsertRoute(done, draft, model, resolved.value, ps[i]);
        if next.Err? {
          RefusedStill(xs + ProtocolPlacements(routes, model, ps[..i + 1]), rest, next.error);
          return Err(next.error);
        }
        draft := next.value;
      } else {
        assert done + [] == done;
      }
      i := i + 1;
    }
    assert ps[..i] == ps;
    r := Ok(draft);
  }

  lemma {:induction false} ProtocolStep(routes: seq<RuntimeRoute>, xs: seq<Placement>, model: string,
                                        ps: seq<Protocol>, i: nat)
    returns (rest: seq<Placement>)
    requires i < |ps|
    ensures xs + ProtocolPlacements(routes, model, ps[..i + 1])
         == xs + ProtocolPlacements(routes, model, ps[..i]) + ResolvedPlacements(routes, model, ps[i])
    ensures xs + ProtocolPlacements(routes, model, ps) == xs + ProtocolPlacements(routes, model, ps[..i + 1]) + rest
  {
    assert ps[..i + 1][..i] == ps[..i];
    rest := ProtocolSuffix(routes, model, ps, i + 1);
  }

  lemma {:induction false} ProtocolSuffix(routes: seq<RuntimeRoute>, model: string, ps: seq<Protocol>, i: nat)
    returns (rest: seq<Placement>)
    requires i <= |ps|
    ensures ProtocolPlacements(routes, model, ps) == ProtocolPlacements(routes, model, ps[..i]) + rest
  {
    if i == |ps| {
      assert ps[..i] == ps;
      rest := [];
    } else {
      var n := |ps| - 1;
      assert ps[..n][..i] == ps[..i];
      var init := ProtocolSuffix(routes, model, ps[..n], i);
      var last := ResolvedPlacements(routes, model, ps[n]);
      AppendIsAssociative(ProtocolPlacements(routes, model, ps[..i]), init, last);
      rest := init + last;
    }
  }

  lemma {:induction false} ModelStep(routes: seq<RuntimeRoute>, models: seq<PublishedModel>, i: nat)
    returns (rest: seq<Placement>)
    requires i < |models|
    ensures Placements(routes, models[..i + 1])
         == Placements(routes, models[..i]) + ProtocolPlacements(routes, models[i].id, ALL_PROTOCOLS)
    ensures Placements(routes, models) == Placements(routes, models[..i + 1]) + rest
  {
    assert models[..i + 1][..i] == models[..i];
    rest := ModelSuffix(routes, models, i + 1);
  }

  lemma {:induction false} ModelSuffix(routes: seq<RuntimeRoute>, models: seq<PublishedModel>,
                                       i: nat) returns (rest: seq<Placement>)
    requires i <= |models|
    ensures Placements(routes, models) == Placements(routes, models[..i]) + rest
  {
    if i == |models| {
      assert models[..i] == models;
      rest := [];
    } else {
      var n := |models| - 1;
      assert models[..n][..i] == models[..i];
      var init := ModelSuffix(routes, models[..n], i);
      rest := init + ProtocolPlacements(routes, models[n].id, ALL_PROTOCOLS);
    }
  }

  /** Lay every resolved binding out, or report the first that cannot be. */
  method LayOut(routes: seq<RuntimeRoute>, models: seq<PublishedModel>) returns (r: Result<Layout, MatrixError>)
    ensures r.Ok? ==> Good(Placements(routes, models)) && Laid(Placements(routes, models), r.value)
    ensures r.Err? ==> Refused(Placements(routes, models), r.error)
  {
    var draft := Layout([], map[]);
    var i := 0;
    while i < |models|
      invariant 0 <= i <= |models|
      invariant Good(Placements(routes, models[..i])) && Laid(Placements(routes, models[..i]), draft)
    {
      ghost var rest := ModelStep(routes, models, i);
      var next := InsertModel(routes, Placements(routes, models[..i]), draft, models[i].id);
      if next.Err? {
        RefusedStill(Placements(routes, models[..i + 1]), rest, next.error);
        return Err(next.error);
      }
      draft := next.value;
      i := i + 1;
    }
    assert models[..i] == models;
    r := Ok(draft);
  }

  method FinishRow(routes: seq<RuntimeRoute>, ghost xs: seq<Placement>, d: Layout,
                   k: MatrixKey) returns (row: MatrixRow)
    requires Laid(xs, d)
    ensures row.key == k && |row.cells| == 3
    ensures forall j :: 0 <= j < 3 ==> row.cells[j] == CellAt(routes, xs, k, ALL_PROTOCOLS[j])
  {
    var cells: seq<Cell> := [];
    var j := 0;
    while j < 3
      invariant 0 <= j <= 3 && |cells| == j
      invariant forall n :: 0 <= n < j ==> cells[n] == CellAt(routes, xs, k, ALL_PROTOCOLS[n])
    {
      var p := ALL_PROTOCOLS[j];
      var found := CellIn(d.rows, k, p);
      assert found == ExpectedCell(xs, k, p);
      cells := cells + [if found.Some? then found.value else Missing(routes, k, p)];
      j := j + 1;
    }
    row := MatrixRow(k, cells);
  }

  /** `from_runtime_snapshot`. */
  method BuildMatrix(routes: seq<RuntimeRoute>, models: seq<PublishedModel>)
    returns (r: Result<seq<MatrixRow>, MatrixError>)
    ensures r.Ok? <==> Good(Placements(routes, models))
    ensures r.Err? ==> Refused(Placements(routes, models), r.error)
    ensures r.Ok? ==> IsMatrixOf(routes, Placements(routes, models), r.value)
  {
    var laid := LayOut(routes, models);
    if laid.Err? {
      RefusedIsBad(Placements(routes, models), laid.error);
      return Err(laid.error);
    }
    var keys := SortBy(laid.value.keys, KeyOrder());
    var data: seq<MatrixRow> := [];
    ghost var xs := Placements(routes, models);
    var i := 0;
    while i < |keys|
      invariant 0 <= i <= |keys| && |data| == i
      invariant forall n :: 0 <= n < i ==>
                  && data[n].key == keys[n] && |data[n].cells| == 3
                  && forall j :: 0 <= j < 3 ==> data[n].cells[j] == CellAt(routes, xs, keys[n], ALL_PROTOCOLS[j])
    {
      var row := FinishRow(routes, xs, laid.value, keys[i]);
      data := data + [row];
      i := i + 1;
    }
    r := Ok(data);
  }
}
