/**
 From intent to runtime: what a routing write becomes once the snapshot is built.
 */
module RoutingLaws {
  import opened Base
  import opened Seqs
  import opened Features
  import opened Tables
  import opened Snapshot
  import opened SnapshotLaws
  import opened Routing

  // ---------------------------------------------------------------------------
  // The rows of one key, through join, sort and fold.
  // ---------------------------------------------------------------------------

  function RowLine(): Row -> Line {
    (x: Row) => Line(x.sourceId, x.accountId, x.upstreamId)
  }

  function RuntimeLine(): RuntimeBinding -> Line {
    (b: RuntimeBinding) => Line(b.sourceId, b.accountId, b.upstreamId)
  }

  function ServesOn(db: Database, p: Protocol): Line -> bool {
    (line: Line) => LineServes(db, line, p)
  }

  lemma {:induction false} JoinAppend(db: Database, r: RouteRow, s: seq<BindingRow>, t: seq<BindingRow>)
    ensures JoinBindings(db, r, s + t) == JoinBindings(db, r, s) + JoinBindings(db, r, t)
  {
    if t == [] {
      assert s + t == s;
    } else {
      var n := |t| - 1;
      assert (s + t)[..|s| + n] == s + t[..n];
      JoinAppend(db, r, s, t[..n]);
    }
  }

  lemma {:induction false} KeptAll(adapters: AdapterRegistry, rows: seq<Row>)
    requires forall row :: row in rows ==> Judge(adapters, row).Keep?
    ensures |Kept(adapters, rows)| == |rows|
    ensures forall i :: 0 <= i < |rows| ==>
              Kept(adapters, rows)[i] == KeptRow(rows[i], Judge(adapters, rows[i]).binding)
  {
    if rows != [] {
      var n := |rows| - 1;
      assert rows == rows[..n] + [rows[n]];
      assert rows[n] in rows;
      KeptAll(adapters, rows[..n]);
    }
  }

  // ---------------------------------------------------------------------------
  // The compiled route and its bindings.
  // ---------------------------------------------------------------------------

  /** A route of a published model over the catalog of db. */
  ghost predicate Publishes(db: Database, tx: Database, r: RouteRow, k: RouteKey) {
    && SameCatalog(db, tx)
    && r.modelId in tx.models && tx.models[r.modelId].enabled && tx.models[r.modelId].status.Confirmed?
    && tx.models[r.modelId].publicName == k.model
    && r.enabled && r.id == k.routeId
  }

  lemma {:induction false} LineRow(db: Database, tx: Database, r: RouteRow, k: RouteKey, line: Line, position: nat,
                                   p: Protocol, id: int)
    requires Publishes(db, tx, r, k) && LineServes(db, line, p)
    ensures var b := LineBinding(r.modelId, line, p, position, id);
            && Joins(tx, r, b) && (RowHasKey(k)(RowOf(tx, r, b)) <==> p == k.protocol)
            && RowLine()(RowOf(tx, r, b)) == line && RowOf(tx, r, b).priority == 0 - position
  {
    assert line == Line(line.sourceId, line.accountId, line.upstreamId);
  }

  lemma {:induction false} JoinSnoc(db: Database, r: RouteRow, bs: seq<BindingRow>, b: BindingRow)
    ensures JoinBindings(db, r, bs + [b]) == JoinBindings(db, r, bs) + if Joins(db, r, b) then [RowOf(db, r, b)] else []
  {
    assert (bs + [b])[..|bs|] == bs;
  }

  predicate LoneRow(rows: seq<Row>, line: Line, position: nat) {
    |rows| == 1 && RowLine()(rows[0]) == line && rows[0].priority == 0 - position
  }

  /** The rows of one key among the joins of some bindings. */
  function KeyRows(tx: Database, r: RouteRow, k: RouteKey): seq<BindingRow> -> seq<Row> {
    (bs: seq<BindingRow>) => Filter(JoinBindings(tx, r, bs), RowHasKey(k))
  }

  /** The rows of a line under one protocol, when the line's bindings are for ps. */
  predicate RowsFor(rows: seq<Row>, ps: seq<Protocol>, q: Protocol, line: Line, position: nat) {
    if q in ps then LoneRow(rows, line, position) else rows == []
  }

  lemma {:induction false} RowsForSnoc(rows: seq<Row>, ps: seq<Protocol>, p: Protocol, q: Protocol, line: Line,
                                       position: nat, x: Row)
    requires RowsFor(rows, ps, q, line, position) && p !in ps
    requires RowLine()(x) == line && x.priority == 0 - position
    ensures RowsFor(rows + (if p == q then [x] else []), ps + [p], q, line, position)
  {
    if p != q {
      assert rows + [] == rows;
    }
  }

  lemma {:induction false} JoinFilterSnoc(tx: Database, r: RouteRow, k: RouteKey, bs: seq<BindingRow>, b: BindingRow)
    requires Joins(tx, r, b)
    ensures Filter(JoinBindings(tx, r, bs + [b]), RowHasKey(k))
         == Filter(JoinBindings(tx, r, bs),
                   RowHasKey(k)) + if RowHasKey(k)(RowOf(tx, r, b)) then [RowOf(tx, r, b)] else []
  {
    JoinSnoc(tx, r, bs, b);
    FilterSnoc(JoinBindings(tx, r, bs), RowOf(tx, r, b), RowHasKey(k));
  }

  lemma {:induction false} BindingsForSnoc(id: string, line: Line, position: nat, ps: seq<Protocol>, p: Protocol,
                                           firstId: int)
    ensures BindingsFor(id, line, position, ps + [p], firstId)
         == BindingsFor(id, line, position, ps, firstId) + [LineBinding(id, line, p, position, firstId + |ps|)]
  {
  }

  /** One more protocol of a line. */
  ghost predicate ProtocolStep(id: string, line: Line, position: nat, firstId: int,
                               P: (seq<Protocol>, seq<BindingRow>) -> bool,
                               ps: seq<Protocol>, p: Protocol, bs: seq<BindingRow>) {
    P(ps, bs) ==> P(ps + [p], bs + [LineBinding(id, line, p, position, firstId + |ps|)])
  }

  lemma {:induction false} ProtocolInduction(id: string, line: Line, position: nat, firstId: int, ps: seq<Protocol>,
                                             P: (seq<Protocol>, seq<BindingRow>) -> bool)
    requires P([], [])
    requires forall qs, p, bs :: ProtocolStep(id, line, position, firstId, P, qs, p, bs)
    ensures P(ps, BindingsFor(id, line, position, ps, firstId))
  {
    if ps == [] {
      assert BindingsFor(id, line, position, ps, firstId) == [];
    } else {
      var qs, p := ps[..|ps| - 1], ps[|ps| - 1];
      ProtocolInduction(id, line, position, firstId, qs, P);
      assert ProtocolStep(id, line, position, firstId, P, qs, p, BindingsFor(id, line, position, qs, firstId));
      BindingsForSnoc(id, line, position, qs, p, firstId);
      assert ps == qs + [p];
    }
  }

  ghost function OneRowEach(db: Database, line: Line, position: nat, q: Protocol, R: seq<BindingRow> -> seq<Row>)
    : (seq<Protocol>, seq<BindingRow>) -> bool
  {
    (ps: seq<Protocol>, bs: seq<BindingRow>) => Served1(db, line, ps) ==> RowsFor(R(bs), ps, q, line, position)
  }

  /** Distinct protocols, all served by the line. */
  ghost predicate Served1(db: Database, line: Line, ps: seq<Protocol>) {
    NoDuplicates(ps) && forall i :: 0 <= i < |ps| ==> LineServes(db, line, ps[i])
  }

  lemma {:induction false} Served1Snoc(db: Database, line: Line, ps: seq<Protocol>, p: Protocol)
    requires Served1(db, line, ps + [p])
    ensures Served1(db, line, ps) && p !in ps && LineServes(db, line, p)
  {
    NoDuplicatesSnoc(ps, p);
    forall i | 0 <= i < |ps| ensures LineServes(db, line, ps[i]) {
      assert (ps + [p])[i] == ps[i];
    }
    assert (ps + [p])[|ps|] == p;
  }

  lemma {:induction false} OneRowStep(db: Database, tx: Database, r: RouteRow, k: RouteKey, line: Line, position: nat,
                                      firstId: int,
                                      ps: seq<Protocol>, p: Protocol, bs: seq<BindingRow>)
    requires Publishes(db, tx, r, k)
    ensures ProtocolStep(r.modelId, line, position, firstId,
                         OneRowEach(db, line, position, k.protocol, KeyRows(tx, r, k)), ps, p, bs)
  {
    var b := LineBinding(r.modelId, line, p, position, firstId + |ps|);
    if Served1(db, line, ps + [p]) && RowsFor(KeyRows(tx, r, k)(bs), ps, k.protocol, line, position) {
      Served1Snoc(db, line, ps, p);
      LineRow(db, tx, r, k, line, position, p, firstId + |ps|);
      NextRow(tx, r, k, line, position, ps, p, firstId, bs, b);
    } else if Served1(db, line, ps + [p]) {
      Served1Snoc(db, line, ps, p);
    }
  }

  lemma {:induction false} NoRowsYet(db: Database, tx: Database, r: RouteRow, k: RouteKey, line: Line, position: nat)
    ensures OneRowEach(db, line, position, k.protocol, KeyRows(tx, r, k))([], [])
  {
    assert KeyRows(tx, r, k)([]) == [];
  }

  lemma {:induction false} OneRowPerLine(db: Database, tx: Database, r: RouteRow, k: RouteKey,
                                         line: Line, position: nat, ps: seq<Protocol>, firstId: int)
    requires Publishes(db, tx, r, k)
    ensures var bs := BindingsFor(r.modelId, line, position, ps, firstId);
            OneRowEach(db, line, position, k.protocol, KeyRows(tx, r, k))(ps, bs)
  {
    var P := OneRowEach(db, line, position, k.protocol, KeyRows(tx, r, k));
    NoRowsYet(db, tx, r, k, line, position);
    forall qs, p, bs ensures ProtocolStep(r.modelId, line, position, firstId, P, qs, p, bs) {
      OneRowStep(db, tx, r, k, line, position, firstId, qs, p, bs);
    }
    ProtocolInduction(r.modelId, line, position, firstId, ps, P);
  }

  lemma {:induction false} NextRow(tx: Database, r: RouteRow, k: RouteKey, line: Line, position: nat,
                                   ps: seq<Protocol>, p: Protocol,
                                   firstId: int, bs: seq<BindingRow>, b: BindingRow)
    requires Joins(tx, r, b) && (RowHasKey(k)(RowOf(tx, r, b)) <==> p == k.protocol) && p !in ps
    requires RowLine()(RowOf(tx, r, b)) == line && RowOf(tx, r, b).priority == 0 - position
    requires RowsFor(KeyRows(tx, r, k)(bs), ps, k.protocol, line, position)
    ensures RowsFor(KeyRows(tx, r, k)(bs + [b]), ps + [p], k.protocol, line, position)
  {
    JoinFilterSnoc(tx, r, k, bs, b);
    RowsForSnoc(Filter(JoinBindings(tx, r, bs), RowHasKey(k)), ps, p, k.protocol, line, position, RowOf(tx, r, b));
  }

  ghost predicate DescendingPriorities(rows: seq<Row>) {
    forall i, j :: 0 <= i < j < |rows| ==> rows[i].priority > rows[j].priority
  }

  /** One row per line that serves the protocol, in line order, at priority -position. */
  predicate LinesJoined(db: Database, lines: seq<Line>, p: Protocol, rows: seq<Row>) {
    if lines == [] then rows == []
    else
      var n, m := |lines| - 1, |rows| - 1;
      if LineServes(db, lines[n], p)
      then
        && rows != [] && RowLine()(rows[m]) == lines[n] && rows[m].priority == 0 - n
        && LinesJoined(db, lines[..n], p, rows[..m])
      else LinesJoined(db, lines[..n], p, rows)
  }

  lemma {:induction false} LinesJoinedSnoc(db: Database, lines: seq<Line>, line: Line, p: Protocol, rest: seq<Row>,
                                           more: seq<Row>)
    requires LinesJoined(db, lines, p, rest) && OneLine(db, line, p, |lines|)(more)
    ensures LinesJoined(db, lines + [line], p, rest + more)
  {
    assert (lines + [line])[..|lines|] == lines;
    if LineServes(db, line, p) {
      assert (rest + more)[..|rest|] == rest;
    } else {
      assert rest + more == rest;
    }
  }

  lemma {:induction false} MapLast(rows: seq<Row>)
    requires rows != []
    ensures Map(rows, RowLine()) == Map(rows[..|rows| - 1], RowLine()) + [RowLine()(rows[|rows| - 1])]
  {
  }

  lemma {:induction false} LinesJoinedInOrder(db: Database, lines: seq<Line>, p: Protocol, rows: seq<Row>)
    requires LinesJoined(db, lines, p, rows)
    ensures Map(rows, RowLine()) == Filter(lines, ServesOn(db, p))
  {
    if lines != [] {
      var n := |lines| - 1;
      if LineServes(db, lines[n], p) {
        LinesJoinedInOrder(db, lines[..n], p, rows[..|rows| - 1]);
        MapLast(rows);
      } else {
        LinesJoinedInOrder(db, lines[..n], p, rows);
      }
    }
  }

  lemma {:induction false} LinesJoinedDescend(db: Database, lines: seq<Line>, p: Protocol, rows: seq<Row>)
    requires LinesJoined(db, lines, p, rows)
    ensures DescendingPriorities(rows)
    ensures forall i :: 0 <= i < |rows| ==> rows[i].priority > 0 - |lines|
  {
    if lines != [] {
      var n, m := |lines| - 1, |rows| - 1;
      if LineServes(db, lines[n], p) {
        LinesJoinedDescend(db, lines[..n], p, rows[..m]);
      } else {
        LinesJoinedDescend(db, lines[..n], p, rows);
      }
    }
  }

  function JoinedBy(db: Database, p: Protocol, R: seq<BindingRow> -> seq<Row>): (seq<Line>, seq<BindingRow>) -> bool {
    (lines: seq<Line>, bs: seq<BindingRow>) => LinesJoined(db, lines, p, R(bs))
  }

  function Splits(R: seq<BindingRow> -> seq<Row>): (seq<BindingRow>, seq<BindingRow>) -> bool {
    (bs: seq<BindingRow>, more: seq<BindingRow>) => R(bs + more) == R(bs) + R(more)
  }

  lemma {:induction false} KeyRowsAppend(tx: Database, r: RouteRow, k: RouteKey, bs: seq<BindingRow>,
                                         more: seq<BindingRow>)
    ensures Splits(KeyRows(tx, r, k))(bs, more)
  {
    JoinAppend(tx, r, bs, more);
    FilterAppend(JoinBindings(tx, r, bs), JoinBindings(tx, r, more), RowHasKey(k));
  }

  /** What the rows of one line's bindings look like. */
  function OneLine(db: Database, line: Line, p: Protocol, position: nat): seq<Row> -> bool {
    (rows: seq<Row>) =>
      if LineServes(db, line, p) then LoneRow(rows, line, position) else rows == []
  }

  /** The rows of a line's bindings, at any position. */
  function OneLineEach(db: Database, id: string, p: Protocol, R: seq<BindingRow> -> seq<Row>): (Line, nat,
                                                                                                int) -> bool {
    (line: Line, position: nat, firstId: int) =>
      OneLine(db, line, p, position)(R(BindingsFor(id, line, position, LineProtocols(db, line), firstId)))
  }

  lemma {:induction false} OneLineFrom(db: Database, id: string, p: Protocol, R: seq<BindingRow> -> seq<Row>,
                                       line: Line, position: nat, firstId: int, rows: seq<Row>)
    requires rows == R(BindingsFor(id, line, position, LineProtocols(db, line), firstId))
    requires RowsFor(rows, LineProtocols(db, line), p, line, position)
    ensures OneLineEach(db, id, p, R)(line, position, firstId)
  {
    LineProtocolsMembers(db, line);
    assert OneLine(db, line, p, position)(rows);
  }

  lemma {:induction false} AllServed(db: Database, line: Line)
    ensures Served1(db, line, LineProtocols(db, line))
  {
    LineProtocolsMembers(db, line);
    forall i | 0 <= i < |LineProtocols(db, line)| ensures LineServes(db, line, LineProtocols(db, line)[i]) {
      assert LineProtocols(db, line)[i] in LineProtocols(db, line);
    }
  }

  lemma {:induction false} KeyRowsOfLine(db: Database, tx: Database, r: RouteRow, k: RouteKey, line: Line,
                                         position: nat, firstId: int)
    requires Publishes(db, tx, r, k)
    ensures OneLineEach(db, r.modelId, k.protocol, KeyRows(tx, r, k))(line, position, firstId)
  {
    AllServed(db, line);
    OneRowPerLine(db, tx, r, k, line, position, LineProtocols(db, line), firstId);
    OneLineFrom(db, r.modelId, k.protocol, KeyRows(tx, r, k), line, position, firstId,
                KeyRows(tx, r, k)(BindingsFor(r.modelId, line, position, LineProtocols(db, line), firstId)));
  }

  lemma {:induction false} JoinedByStep(db: Database, id: string, firstId: int, p: Protocol,
                                        R: seq<BindingRow> -> seq<Row>,
                                        lines: seq<Line>, line: Line, bs: seq<BindingRow>)
    requires forall s, t :: Splits(R)(s, t)
    requires OneLineEach(db, id, p, R)(line, |lines|, firstId + |bs|)
    ensures LineStep(db, id, firstId, JoinedBy(db, p, R), lines, line, bs)
  {
    var more := BindingsFor(id, line, |lines|, LineProtocols(db, line), firstId + |bs|);
    assert Splits(R)(bs, more);
    if LinesJoined(db, lines, p, R(bs)) {
      LinesJoinedSnoc(db, lines, line, p, R(bs), R(more));
    }
  }

  lemma {:induction false} JoinedLinesBy(db: Database, id: string, firstId: int, p: Protocol,
                                         R: seq<BindingRow> -> seq<Row>, lines: seq<Line>)
    requires R([]) == []
    requires forall s, t :: Splits(R)(s, t)
    requires forall line, position, f :: OneLineEach(db, id, p, R)(line, position, f)
    ensures JoinedBy(db, p, R)(lines, LineBindings(db, id, lines, firstId))
  {
    forall ls, line, bs ensures LineStep(db, id, firstId, JoinedBy(db, p, R), ls, line, bs) {
      JoinedByStep(db, id, firstId, p, R, ls, line, bs);
    }
    LineInduction(db, id, lines, firstId, JoinedBy(db, p, R));
  }

  /** Joining the compiled bindings gives one row per serving line. */
  lemma {:induction false} JoinedLines(db: Database, tx: Database, r: RouteRow, k: RouteKey, lines: seq<Line>,
                                       firstId: int)
    requires Publishes(db, tx, r, k)
    ensures JoinedBy(db, k.protocol, KeyRows(tx, r, k))(lines, LineBindings(db, r.modelId, lines, firstId))
  {
    forall s, t ensures Splits(KeyRows(tx, r, k))(s, t) {
      KeyRowsAppend(tx, r, k, s, t);
    }
    forall line, position, f ensures OneLineEach(db, r.modelId, k.protocol, KeyRows(tx, r, k))(line, position, f) {
      KeyRowsOfLine(db, tx, r, k, line, position, f);
    }
    JoinedLinesBy(db, r.modelId, firstId, k.protocol, KeyRows(tx, r, k), lines);
  }

  function CompiledRoute(db: Database, id: string, input: RoutingWrite, routeId: string): RouteRow {
    RouteRow(routeId, id, Decoded(UnionProtocols(db, input.lines)), ORDERED_FALLBACK, false, true)
  }

  lemma {:induction false} RowsOfOtherRoutes(tx: Database, rs: seq<RouteRow>, k: RouteKey)
    requires forall r :: r in rs ==> r.id != k.routeId
    ensures Filter(JoinRoutes(tx, rs), RowHasKey(k)) == []
  {
    JoinRoutesMembers(tx, rs);
    FilterNone(JoinRoutes(tx, rs), RowHasKey(k));
  }

  lemma {:induction false} RowsOfOtherModels(tx: Database, r: RouteRow, bs: seq<BindingRow>)
    requires forall b :: b in bs ==> b.modelId != r.modelId
    ensures JoinBindings(tx, r, bs) == []
  {
    if bs != [] {
      RowsOfOtherModels(tx, r, bs[..|bs| - 1]);
      assert bs[|bs| - 1] in bs;
    }
  }

  lemma {:induction false} SortedByPriority(rows: seq<Row>, k: RouteKey)
    requires DescendingPriorities(rows) && forall x :: x in rows ==> RowHasKey(k)(x)
    ensures SortBy(rows, RowOrder()) == rows
  {
    forall i, j | 0 <= i < j < |rows| ensures RowOrder()(rows[i], rows[j]) {
      assert rows[i] in rows && rows[j] in rows;
    }
    SortBySortedIsIdentity(rows, RowOrder());
  }

  /** In the compiled tables, the ordered rows of the compiled route for a protocol are the
      serving lines in their order. */
  lemma {:induction false} CompiledRouteRows(db: Database, id: string, input: RoutingWrite, routeId: string,
                                             p: Protocol)
    requires input.enabled && input.lines != [] && RouteIdFree(db, id, routeId)
    ensures var rows := Filter(SnapshotRows(RoutingTables(db, id, input, routeId)),
                               RowHasKey(RouteKey(routeId, input.publicName, p)));
            Map(rows, RowLine()) == Filter(input.lines, ServesOn(db, p))
  {
    var tx := RoutingTables(db, id, input, routeId);
    var k, r := RouteKey(routeId, input.publicName, p), CompiledRoute(db, id, input, routeId);
    var others := Filter(db.routes, RouteOfOtherModel(id));
    var kept := Filter(db.bindings, OnOtherModel(id));
    var added := LineBindings(db, id, input.lines, db.nextBindingId);
    OnlyRoutesRows(tx, others, r, kept, added, k);
    JoinedLines(db, tx, r, k, input.lines, db.nextBindingId);
    var rows := Filter(JoinBindings(tx, r, added), RowHasKey(k));
    LinesJoinedInOrder(db, input.lines, p, rows);
    LinesJoinedDescend(db, input.lines, p, rows);
    SortedRows(tx, rows, k);
  }

  /** The rows of a key come from the one route with its id and the bindings of its model. */
  lemma {:induction false} OnlyRoutesRows(tx: Database, others: seq<RouteRow>, r: RouteRow, kept: seq<BindingRow>,
                                          added: seq<BindingRow>, k: RouteKey)
    requires tx.routes == others + [r] && tx.bindings == kept + added
    requires forall q :: q in others ==> q.id != k.routeId
    requires forall b :: b in kept ==> b.modelId != r.modelId
    ensures Filter(JoinRoutes(tx, tx.routes), RowHasKey(k)) == Filter(JoinBindings(tx, r, added), RowHasKey(k))
  {
    RowsOfOtherRoutes(tx, others, k);
    RowsOfOtherModels(tx, r, kept);
    JoinAppend(tx, r, kept, added);
    assert [] + JoinBindings(tx, r, added) == JoinBindings(tx, r, added);
    JoinRoutesSnoc(tx, others, r, k);
    var rows := Filter(JoinBindings(tx, r, added), RowHasKey(k));
    assert [] + rows == rows;
  }

  lemma {:induction false} SortedRows(tx: Database, rows: seq<Row>, k: RouteKey)
    requires Filter(JoinRoutes(tx, tx.routes), RowHasKey(k)) == rows && DescendingPriorities(rows)
    ensures Filter(SnapshotRows(tx), RowHasKey(k)) == rows
  {
    RowOrderIsTotal();
    FilterSortBy(JoinRoutes(tx, tx.routes), RowOrder(), RowHasKey(k));
    SortedByPriority(rows, k);
  }

  lemma {:induction false} NotSkipped(adapters: AdapterRegistry, x: Row)
    requires x.routeProtocols.Decoded? && x.protocol in x.routeProtocols.value && x.mode.Routable()
    requires !Judge(adapters, x).Fail?
    ensures Judge(adapters, x).Keep?
  {
  }

  lemma {:induction false} CompiledRowPolicy(db: Database, id: string, input: RoutingWrite, routeId: string, x: Row)
    requires input.lines != [] && RouteIdFree(db, id, routeId)
    requires x in SnapshotRows(RoutingTables(db, id, input, routeId)) && x.routeId == routeId
    ensures x.strategy == ORDERED_FALLBACK && !x.allowLossy && x.mode.Routable()
    ensures x.timeoutMs == input.timeoutMs && x.maxRetries == input.maxRetries
    ensures x.routeProtocols == Decoded(UnionProtocols(db, input.lines))
  {
    var tx := RoutingTables(db, id, input, routeId);
    SnapshotRowsMembers(tx);
    var r, b :| r in tx.routes && b in tx.bindings && Joins(tx, r, b) && x == RowOf(tx, r, b);
    assert r in Filter(db.routes, RouteOfOtherModel(id)) || r == CompiledRoute(db, id, input, routeId);
  }

  lemma {:induction false} UnionMembers(db: Database, lines: seq<Line>, p: Protocol)
    ensures p in UnionProtocols(db, lines) <==> SomeLineServes(db, lines, p)
  {
    ListedMembers(Served(db, lines));
  }

  /** A runtime route under the model's public name is the compiled route. */
  lemma {:induction false} NamedRowIsCompiled(db: Database, id: string, input: RoutingWrite, routeId: string, x: Row)
    requires !NameTaken(db, id, input.publicName)
    requires x in SnapshotRows(RoutingTables(db, id, input, routeId)) && x.publicName == input.publicName
    ensures x.routeId == routeId && input.lines != []
  {
    var tx := RoutingTables(db, id, input, routeId);
    SnapshotRowsMembers(tx);
    var r, b :| r in tx.routes && b in tx.bindings && Joins(tx, r, b) && x == RowOf(tx, r, b);
    assert r.modelId == id;
  }

  lemma {:induction false} KeptLines(adapters: AdapterRegistry, rows: seq<Row>)
    requires forall row :: row in rows ==> Judge(adapters, row).Keep?
    ensures Map(Map(Kept(adapters, rows), BindingOf()), RuntimeLine()) == Map(rows, RowLine())
  {
    KeptAll(adapters, rows);
    var lines := Map(Map(Kept(adapters, rows), BindingOf()), RuntimeLine());
    forall i | 0 <= i < |rows| ensures lines[i] == RowLine()(rows[i]) {
      assert rows[i] in rows;
      KeptLine(adapters, rows[i]);
    }
  }

  lemma {:induction false} KeptLine(adapters: AdapterRegistry, row: Row)
    requires Judge(adapters, row).Keep?
    ensures RuntimeLine()(Judge(adapters, row).binding) == RowLine()(row)
  {
  }

  lemma {:induction false} CompiledRowsKept(adapters: AdapterRegistry, db: Database, id: string, input: RoutingWrite,
                                            routeId: string,
                                            p: Protocol, rows: seq<Row>)
    requires input.lines != [] && RouteIdFree(db, id, routeId)
    requires forall x :: x in rows ==>
               && x in SnapshotRows(RoutingTables(db, id, input, routeId)) && x.routeId == routeId && x.protocol == p
               && !Judge(adapters, x).Fail?
    requires Map(rows, RowLine()) == Filter(input.lines, ServesOn(db, p))
    ensures forall x :: x in rows ==> Judge(adapters, x).Keep?
  {
    forall x | x in rows ensures Judge(adapters, x).Keep? {
      var i :| 0 <= i < |rows| && rows[i] == x;
      assert Map(rows, RowLine())[i] in Filter(input.lines, ServesOn(db, p));
      UnionMembers(db, input.lines, p);
      CompiledRowPolicy(db, id, input, routeId, x);
      NotSkipped(adapters, x);
    }
  }

  ghost predicate IntentPolicy(input: RoutingWrite, x: Row) {
    && x.strategy == ORDERED_FALLBACK && !x.allowLossy
    && x.timeoutMs == input.timeoutMs && x.maxRetries == input.maxRetries
  }

  lemma {:induction false} GroupOfCompiledRoute(adapters: AdapterRegistry, db: Database, id: string,
                                                input: RoutingWrite, routeId: string, p: Protocol)
    requires input.enabled && input.lines != [] && RouteIdFree(db, id, routeId)
    requires Builds(adapters, SnapshotRows(RoutingTables(db, id, input, routeId)))
    ensures var group := Filter(Kept(adapters, SnapshotRows(RoutingTables(db, id, input, routeId))),
                                HasKey(RouteKey(routeId, input.publicName, p)));
            && Map(Map(group, BindingOf()), RuntimeLine()) == Filter(input.lines, ServesOn(db, p))
            && forall e :: e in group ==> IntentPolicy(input, e.row)
  {
    var all := SnapshotRows(RoutingTables(db, id, input, routeId));
    var k := RouteKey(routeId, input.publicName, p);
    var rows := Filter(all, RowHasKey(k));
    KeptFilter(adapters, all, k);
    CompiledRouteRows(db, id, input, routeId, p);
    CompiledRowsKept(adapters, db, id, input, routeId, p, rows);
    KeptLines(adapters, rows);
    forall e | e in Kept(adapters, rows) ensures IntentPolicy(input, e.row) {
      CompiledRowPolicy(db, id, input, routeId, e.row);
    }
  }

  /** The meaning of a routing write: once the snapshot builds, each protocol that some line
      serves has exactly one runtime route under the public name; its bindings are the lines
      that serve the protocol, one each, in the order of the intent; its policy is the
      intent's. A protocol no line serves has no route. */
  lemma {:induction false} CompileToRuntime(adapters: AdapterRegistry, db: Database, id: string, input: RoutingWrite,
                                            create: bool,
                                            freshRouteId: string, s: RuntimeSnapshot, p: Protocol)
    requires RoutingAccepted(db, id, input, create, freshRouteId) && input.enabled
    requires Builds(adapters, SnapshotRows(RoutingTables(db, id, input, RouteIdFor(db, id, freshRouteId))))
    requires IsSnapshotOf(Kept(adapters,
                               SnapshotRows(RoutingTables(db, id, input, RouteIdFor(db, id, freshRouteId)))), s)
    ensures SomeLineServes(db, input.lines, p) <==> exists r :: r in s.routes && Targets(r, input.publicName, p)
    ensures forall i, j :: 0 <= i < j < |s.routes| ==>
              !(Targets(s.routes[i], input.publicName, p) && Targets(s.routes[j], input.publicName, p))
    ensures forall r :: r in s.routes && Targets(r, input.publicName, p) ==>
              && Map(r.bindings, RuntimeLine()) == Filter(input.lines, ServesOn(db, p))
              && r.strategy == ORDERED_FALLBACK && !r.allowLossy
              && r.timeoutMs == input.timeoutMs && r.maxRetries == input.maxRetries
  {
    var routeId := RouteIdFor(db, id, freshRouteId);
    var es := Kept(adapters, SnapshotRows(RoutingTables(db, id, input, routeId)));
    GroupOfCompiledRoute(adapters, db, id, input, routeId, p);
    forall i | 0 <= i < |s.routes| && Targets(s.routes[i], input.publicName, p)
      ensures s.routes[i].key == RouteKey(routeId, input.publicName, p)
    {
      TargetIsCompiled(adapters, db, id, input, routeId, s.routes, p, i);
    }
    OnlyTarget(es, s.routes, input, RouteKey(routeId, input.publicName, p), Filter(input.lines, ServesOn(db, p)));
    SomeServes(db, input.lines, p);
  }

  lemma {:induction false} SomeServes(db: Database, lines: seq<Line>, p: Protocol)
    ensures SomeLineServes(db, lines, p) <==> Filter(lines, ServesOn(db, p)) != []
  {
    var served := Filter(lines, ServesOn(db, p));
    if served != [] {
      assert served[0] in served;
    }
    if line :| line in lines && LineServes(db, line, p) {
      assert line in served;
    }
  }

  /** When every route that targets a model and protocol has one key, the group of that key
      is the only one. */
  lemma {:induction false} OnlyTarget(es: seq<KeptRow>, routes: seq<RuntimeRoute>, input: RoutingWrite, k: RouteKey,
                                      lines: seq<Line>)
    requires RoutesMatch(es, routes)
    requires forall i :: 0 <= i < |routes| && Targets(routes[i], k.model, k.protocol) ==> routes[i].key == k
    requires Map(Map(Filter(es, HasKey(k)), BindingOf()), RuntimeLine()) == lines
    requires forall e :: e in Filter(es, HasKey(k)) ==> IntentPolicy(input, e.row)
    ensures lines != [] <==> exists r :: r in routes && Targets(r, k.model, k.protocol)
    ensures forall i, j :: 0 <= i < j < |routes| ==>
              !(Targets(routes[i], k.model, k.protocol) && Targets(routes[j], k.model, k.protocol))
    ensures forall r :: r in routes && Targets(r, k.model, k.protocol) ==>
              && Map(r.bindings, RuntimeLine()) == lines
              && r.strategy == ORDERED_FALLBACK && !r.allowLossy
              && r.timeoutMs == input.timeoutMs && r.maxRetries == input.maxRetries
  {
    var group := Filter(es, HasKey(k));
    forall i | 0 <= i < |routes| && Targets(routes[i], k.model, k.protocol) ensures Keys(es)[i] == k {
      assert RouteMatches(es, Keys(es)[i], routes[i]);
    }
    forall r | r in routes && Targets(r, k.model, k.protocol)
      ensures group != [] && r == RouteOf(group, k) && group[0] in group
    {
      var i :| 0 <= i < |routes| && routes[i] == r;
      assert RouteMatches(es, Keys(es)[i], routes[i]);
    }
    if lines != [] {
      assert group[0] in group;
      var i := RouteExists(es, routes, group[0]);
      assert routes[i] in routes && Targets(routes[i], k.model, k.protocol);
    }
  }

  predicate Targets(r: RuntimeRoute, name: string, p: Protocol) {
    r.key.model == name && r.key.protocol == p
  }

  lemma {:induction false} TargetIsCompiled(adapters: AdapterRegistry, db: Database, id: string, input: RoutingWrite,
                                            routeId: string,
                                            routes: seq<RuntimeRoute>, p: Protocol, i: nat)
    requires !NameTaken(db, id, input.publicName)
    requires RoutesMatch(Kept(adapters, SnapshotRows(RoutingTables(db, id, input, routeId))), routes)
    requires i < |routes| && Targets(routes[i], input.publicName, p)
    ensures routes[i].key == RouteKey(routeId, input.publicName, p)
    ensures Keys(Kept(adapters, SnapshotRows(RoutingTables(db, id, input, routeId))))[i] == routes[i].key
  {
    var es := Kept(adapters, SnapshotRows(RoutingTables(db, id, input, routeId)));
    var group := Filter(es, HasKey(Keys(es)[i]));
    assert group[0] in group;
    NamedRowIsCompiled(db, id, input, routeId, group[0].row);
  }

  lemma {:induction false} RouteExists(es: seq<KeptRow>, routes: seq<RuntimeRoute>, e: KeptRow) returns (i: nat)
    requires RoutesMatch(es, routes) && e in es
    ensures i < |routes| && routes[i].key == KeyOf()(e)
  {
    var n :| 0 <= n < |es| && es[n] == e;
    assert Map(es, KeyOf())[n] in Map(es, KeyOf());
    i :| 0 <= i < |Keys(es)| && Keys(es)[i] == KeyOf()(e);
  }

  // ---------------------------------------------------------------------------
  // Isolation: the other models keep their runtime routes.
  // ---------------------------------------------------------------------------

  /** The public name belongs to another model before and after the write. */
  predicate OtherName(db: Database, id: string, input: RoutingWrite, name: string) {
    name != input.publicName && (id in db.models ==> name != db.models[id].publicName)
  }

  lemma {:induction false} SameJoin(db: Database, tx: Database, id: string, r: RouteRow, bs: seq<BindingRow>)
    requires SameCatalog(db, tx) && r.modelId != id
    requires forall m :: m != id ==> Find(tx.models, m) == Find(db.models, m)
    ensures JoinBindings(tx, r, bs) == JoinBindings(db, r, Filter(bs, OnOtherModel(id)))
  {
    if bs != [] {
      var n := |bs| - 1;
      SameJoin(db, tx, id, r, bs[..n]);
      SameRow(db, tx, r, bs[n]);
      JoinSnoc(db, r, Filter(bs[..n], OnOtherModel(id)), bs[n]);
      if bs[n].modelId == id {
        assert Filter(bs, OnOtherModel(id)) == Filter(bs[..n], OnOtherModel(id));
      }
    }
  }

  lemma {:induction false} SameRow(db: Database, tx: Database, r: RouteRow, b: BindingRow)
    requires SameCatalog(db, tx) && Find(tx.models, r.modelId) == Find(db.models, r.modelId)
    ensures Joins(tx, r, b) <==> Joins(db, r, b)
    ensures Joins(db, r, b) ==> RowOf(tx, r, b) == RowOf(db, r, b)
  {
  }

  lemma {:induction false} SameRouteRows(db: Database, id: string, input: RoutingWrite, routeId: string, r: RouteRow)
    requires r.modelId != id
    ensures var tx := RoutingTables(db, id, input, routeId);
            JoinBindings(tx, r, tx.bindings) == JoinBindings(db, r, db.bindings)
  {
    var tx := RoutingTables(db, id, input, routeId);
    var kept, added := Filter(db.bindings, OnOtherModel(id)), LineBindings(db, id, input.lines, db.nextBindingId);
    LineBindingsMembers(db, id, input.lines, db.nextBindingId);
    FilterNone(added, OnOtherModel(id));
    FilterAll(kept, OnOtherModel(id));
    FilterAppend(kept, added, OnOtherModel(id));
    SameJoin(db, tx, id, r, tx.bindings);
    SameJoin(db, db, id, r, db.bindings);
    assert Filter(tx.bindings, OnOtherModel(id)) == kept;
  }

  lemma {:induction false} SameRoutesRows(db: Database, id: string, input: RoutingWrite, routeId: string,
                                          rs: seq<RouteRow>)
    requires forall r :: r in rs ==> r.modelId != id
    ensures JoinRoutes(RoutingTables(db, id, input, routeId), rs) == JoinRoutes(db, rs)
  {
    if rs != [] {
      var n := |rs| - 1;
      assert rs[n] in rs;
      SameRoutesRows(db, id, input, routeId, rs[..n]);
      SameRouteRows(db, id, input, routeId, rs[n]);
    }
  }

  lemma {:induction false} RowsUnderName(db: Database, id: string, r: RouteRow, bs: seq<BindingRow>, k: RouteKey)
    requires r.modelId == id && (id in db.models ==> db.models[id].publicName != k.model)
    ensures Filter(JoinBindings(db, r, bs), RowHasKey(k)) == []
  {
    JoinBindingsMembers(db, r, bs);
    FilterNone(JoinBindings(db, r, bs), RowHasKey(k));
  }

  lemma {:induction false} JoinRoutesSnoc(db: Database, rs: seq<RouteRow>, r: RouteRow, k: RouteKey)
    ensures Filter(JoinRoutes(db, rs + [r]), RowHasKey(k))
         == Filter(JoinRoutes(db, rs), RowHasKey(k)) + Filter(JoinBindings(db, r, db.bindings), RowHasKey(k))
  {
    assert (rs + [r])[..|rs|] == rs;
    FilterAppend(JoinRoutes(db, rs), JoinBindings(db, r, db.bindings), RowHasKey(k));
  }

  lemma {:induction false} DropRoutesOf(db: Database, id: string, rs: seq<RouteRow>, k: RouteKey)
    requires id in db.models ==> db.models[id].publicName != k.model
    ensures Filter(JoinRoutes(db, rs), RowHasKey(k))
         == Filter(JoinRoutes(db, Filter(rs, RouteOfOtherModel(id))), RowHasKey(k))
  {
    if rs != [] {
      var init, r := rs[..|rs| - 1], rs[|rs| - 1];
      DropRoutesOf(db, id, init, k);
      assert rs == init + [r];
      JoinRoutesSnoc(db, init, r, k);
      FilterSnoc(init, r, RouteOfOtherModel(id));
      if r.modelId == id {
        RowsUnderName(db, id, r, db.bindings, k);
        assert Filter(rs, RouteOfOtherModel(id)) == Filter(init, RouteOfOtherModel(id));
      } else {
        JoinRoutesSnoc(db, Filter(init, RouteOfOtherModel(id)), r, k);
      }
    }
  }

  lemma {:induction false} OtherRowsUnchanged(db: Database, id: string, input: RoutingWrite, routeId: string,
                                              k: RouteKey)
    requires OtherName(db, id, input, k.model)
    ensures Filter(SnapshotRows(RoutingTables(db, id, input, routeId)), RowHasKey(k))
         == Filter(SnapshotRows(db), RowHasKey(k))
  {
    var tx := RoutingTables(db, id, input, routeId);
    var others := Filter(db.routes, RouteOfOtherModel(id));
    DropRoutesOf(db, id, db.routes, k);
    DropRoutesOf(tx, id, tx.routes, k);
    var last := if input.lines == [] then [] else [CompiledRoute(db, id, input, routeId)];
    assert tx.routes == others + last;
    FilterAppend(others, last, RouteOfOtherModel(id));
    FilterAll(others, RouteOfOtherModel(id));
    FilterNone(last, RouteOfOtherModel(id));
    assert Filter(tx.routes, RouteOfOtherModel(id)) == others;
    SameRoutesRows(db, id, input, routeId, others);
    RowOrderIsTotal();
    FilterSortBy(JoinRoutes(tx, tx.routes), RowOrder(), RowHasKey(k));
    FilterSortBy(JoinRoutes(db, db.routes), RowOrder(), RowHasKey(k));
  }

  /** Whatever the intent says, the runtime routes of every other model stay as they were. */
  lemma {:induction false} OtherModelsUnaffected(adapters: AdapterRegistry, db: Database, id: string,
                                                 input: RoutingWrite, routeId: string,
                                                 before: RuntimeSnapshot, after: RuntimeSnapshot, r: RuntimeRoute)
    requires IsSnapshotOf(Kept(adapters, SnapshotRows(db)), before)
    requires IsSnapshotOf(Kept(adapters, SnapshotRows(RoutingTables(db, id, input, routeId))), after)
    requires OtherName(db, id, input, r.key.model)
    ensures r in before.routes <==> r in after.routes
  {
    var k := r.key;
    var was := Kept(adapters, SnapshotRows(db));
    var now := Kept(adapters, SnapshotRows(RoutingTables(db, id, input, routeId)));
    OtherRowsUnchanged(db, id, input, routeId, k);
    KeptFilter(adapters, SnapshotRows(db), k);
    KeptFilter(adapters, SnapshotRows(RoutingTables(db, id, input, routeId)), k);
    RouteOfGroup(was, before.routes, r);
    RouteOfGroup(now, after.routes, r);
  }

  lemma {:induction false} RouteOfGroup(es: seq<KeptRow>, routes: seq<RuntimeRoute>, r: RuntimeRoute)
    requires RoutesMatch(es, routes)
    ensures r in routes <==> Filter(es, HasKey(r.key)) != [] && r == RouteOf(Filter(es, HasKey(r.key)), r.key)
  {
    var group := Filter(es, HasKey(r.key));
    if r in routes {
      var i :| 0 <= i < |routes| && routes[i] == r;
      assert Keys(es)[i] == r.key;
    }
    if group != [] && r == RouteOf(group, r.key) {
      assert group[0] in group;
      var i := RouteExists(es, routes, group[0]);
      assert routes[i] == r;
    }
  }
}
