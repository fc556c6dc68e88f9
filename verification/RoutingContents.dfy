/**
 What a routing write asks for and what it leaves in the tables, column by column, and what the
 view shows of any tables.
 */
module RoutingContents {
  import opened Base
  import opened Seqs
  import opened Strings
  import opened Features
  import opened Tables
  import opened Snapshot
  import opened SnapshotContents
  import opened Routing
  import opened RoutingView

  // ---------------------------------------------------------------------------
  // What is accepted.
  // ---------------------------------------------------------------------------

  /** The account may use the source's model for the protocol. */
  ghost predicate Offers(db: Database, line: Line, p: Protocol) {
    && line.sourceId in db.sources && db.sources[line.sourceId].enabled == true
    && line.accountId in db.accounts && db.accounts[line.accountId].enabled == true
    && db.accounts[line.accountId].sourceId == line.sourceId
    && var model := SourceModelKey(line.sourceId, line.upstreamId);
    && model in db.sourceModels && db.sourceModels[model] == SourceModelRow(Confirmed, Available)
    && var capability := CapabilityKey(line.sourceId, line.upstreamId, p);
    && capability in db.capabilities && db.capabilities[capability].status == Confirmed
    && (db.capabilities[capability].mode == Native || db.capabilities[capability].mode == Adapter)
  }

  lemma {:induction false} LineServesIff(db: Database, line: Line, p: Protocol)
    ensures LineServes(db, line, p) <==> Offers(db, line, p)
  {
  }

  /** An intent is accepted exactly when its names are there and not taken, an enabled one has lines, its
      limits are in range, its lines are complete, distinct and of one preset, each offers some protocol,
      and the route's id is not another model's. */
  lemma {:induction false} RoutingAcceptedIff(db: Database, id: string, input: RoutingWrite, create: bool,
                                              freshRouteId: string)
    ensures RoutingAccepted(db, id, input, create, freshRouteId) <==>
              && !Blank(id) && !Blank(input.publicName) && !Blank(input.displayName)
              && (create <==> id !in db.models)
              && (forall m :: m in db.models && db.models[m].publicName == input.publicName ==> m == id)
              && (input.enabled ==> |input.lines| > 0)
              && (input.timeoutMs.Some? ==> input.timeoutMs.value >= 1)
              && (input.maxRetries.Some? ==> input.maxRetries.value >= 0)
              && (forall i, j :: 0 <= i < j < |input.lines| ==> input.lines[i] != input.lines[j])
              && (forall i :: 0 <= i < |input.lines| ==> Acceptable(db, input.lines[i], input.lines[0]))
              && (input.lines != [] ==>
                    forall r :: r in db.routes && r.id == RouteIdFor(db, id, freshRouteId) ==> r.modelId == id)
  {
    var lines := input.lines;
    forall i | 0 <= i < |lines| ensures LineProtocols(db, lines[i]) != [] <==> exists p :: Offers(db, lines[i], p) {
      OffersSomething(db, lines[i]);
    }
    if forall i :: 0 <= i < |lines| ==> Acceptable(db, lines[i], lines[0]) {
      AcceptableLines(db, lines);
    } else if RoutingAccepted(db, id, input, create, freshRouteId) {
      AcceptedLines(db, lines);
    }
  }

  /** The line is complete, offers some protocol, and has the preset of the other. */
  ghost predicate Acceptable(db: Database, line: Line, first: Line) {
    && !Blank(line.sourceId) && !Blank(line.accountId) && !Blank(line.upstreamId)
    && (exists p :: Offers(db, line, p))
    && line.sourceId in db.sources && first.sourceId in db.sources
    && db.sources[line.sourceId].presetId == db.sources[first.sourceId].presetId
  }

  lemma {:induction false} OffersSomething(db: Database, line: Line)
    ensures LineProtocols(db, line) != [] <==> exists p :: Offers(db, line, p)
  {
    LineProtocolsMembers(db, line);
    if LineProtocols(db, line) != [] {
      var p := LineProtocols(db, line)[0];
      assert p in LineProtocols(db, line);
      LineServesIff(db, line, p);
    }
    if p :| Offers(db, line, p) {
      LineServesIff(db, line, p);
      assert p in LineProtocols(db, line);
    }
  }

  lemma {:induction false} AcceptableLines(db: Database, lines: seq<Line>)
    requires forall i :: 0 <= i < |lines| ==> Acceptable(db, lines[i], lines[0])
    ensures EveryLineServes(db, lines) && LinesOneFamily(db, lines)
    ensures forall line :: line in lines ==> !BlankLine(line)
  {
    forall i | 0 <= i < |lines| ensures LineProtocols(db, lines[i]) != [] {
      assert Acceptable(db, lines[i], lines[0]);
      OffersSomething(db, lines[i]);
    }
    forall i, j | 0 <= i < j < |lines| ensures LineFamily(db, lines[i]) == LineFamily(db, lines[j]) {
      assert Acceptable(db, lines[i], lines[0]) && Acceptable(db, lines[j], lines[0]);
    }
  }

  lemma {:induction false} AcceptedLines(db: Database, lines: seq<Line>)
    requires EveryLineServes(db, lines) && LinesOneFamily(db, lines)
    requires forall line :: line in lines ==> !BlankLine(line)
    ensures forall i :: 0 <= i < |lines| ==> Acceptable(db, lines[i], lines[0])
  {
    forall i | 0 <= i < |lines| ensures Acceptable(db, lines[i], lines[0]) {
      OffersSomething(db, lines[i]);
      OffersSomething(db, lines[0]);
      assert lines[i] in lines;
      assert 0 < i ==> LineFamily(db, lines[0]) == LineFamily(db, lines[i]);
    }
  }

  // ---------------------------------------------------------------------------
  // The compiled tables.
  // ---------------------------------------------------------------------------

  /** The route keeps the least id of the model's routes; a model without one gets the fresh id. */
  lemma {:induction false} RouteIdIs(db: Database, id: string, freshId: string)
    ensures (forall r :: r in db.routes ==> r.modelId != id) ==> RouteIdFor(db, id, freshId) == freshId
    ensures (exists r :: r in db.routes && r.modelId == id) ==>
              && (exists r :: r in db.routes && r.modelId == id && r.id == RouteIdFor(db, id, freshId))
              && forall r :: r in db.routes && r.modelId == id ==> StrLe(RouteIdFor(db, id, freshId), r.id)
  {
    var ids := set r | r in db.routes && r.modelId == id :: r.id;
    if r :| r in db.routes && r.modelId == id {
      assert r.id in ids;
      var keys := SortedKeys(ids);
      assert r.id in keys;
      assert keys[0] in keys && keys[0] in ids;
      StrLeIsOrder();
      forall q | q in db.routes && q.modelId == id ensures StrLe(keys[0], q.id) {
        assert q.id in ids;
        assert q.id in keys;
      }
    }
  }

  /** The model's row holds the intent; lines confirm it, and without lines a stored model keeps its
      status. No other model, and no other table but bindings and routes, changes. */
  lemma {:induction false} CompiledModelIs(db: Database, id: string, input: RoutingWrite, routeId: string)
    ensures var tx := RoutingTables(db, id, input, routeId);
            && id in tx.models
            && tx.models[id].publicName == input.publicName && tx.models[id].displayName == input.displayName
            && tx.models[id].enabled == input.enabled
            && tx.models[id].timeoutMs == input.timeoutMs && tx.models[id].maxRetries == input.maxRetries
            && (input.lines != [] || id !in db.models ==> tx.models[id].status == Confirmed)
            && (input.lines == [] && id in db.models ==> tx.models[id].status == db.models[id].status)
            && (forall m :: m != id ==> (m in tx.models <==> m in db.models))
            && (forall m :: m != id && m in db.models ==> tx.models[m] == db.models[m])
            && tx.presets == db.presets && tx.sources == db.sources && tx.accounts == db.accounts
            && tx.sourceModels == db.sourceModels && tx.capabilities == db.capabilities && tx.revision == db.revision
  {
  }

  /** The model has one route, or none without lines: enabled, in order of fallback, lossless. Other
      models keep their routes. */
  lemma {:induction false} CompiledRouteIs(db: Database, id: string, input: RoutingWrite, routeId: string, r: RouteRow)
    ensures r in RoutingTables(db, id, input, routeId).routes <==>
              || (r in db.routes && r.modelId != id)
              || (&& input.lines != [] && r.id == routeId && r.modelId == id
                  && r.protocols == Decoded(UnionProtocols(db, input.lines))
                  && r.strategy == "ordered_fallback" && r.allowLossy == false && r.enabled == true)
  {
  }

  /** It lists the protocols some line offers, in the order of their names. */
  lemma {:induction false} CompiledProtocolsAre(db: Database, lines: seq<Line>, p: Protocol)
    ensures p in UnionProtocols(db, lines) <==> exists line :: line in lines && Offers(db, line, p)
    ensures forall i, j :: 0 <= i < j < |UnionProtocols(db, lines)| ==>
              NameRank(UnionProtocols(db, lines)[i]) < NameRank(UnionProtocols(db, lines)[j])
  {
    ListedMembers(Served(db, lines));
    if line :| line in lines && LineServes(db, line, p) {
      LineServesIff(db, line, p);
    }
    if line :| line in lines && Offers(db, line, p) {
      LineServesIff(db, line, p);
    }
  }

  /** b is line i's binding for one protocol it offers. */
  ghost predicate MadeFrom(db: Database, id: string, lines: seq<Line>, i: nat, b: BindingRow) {
    && i < |lines| && b.modelId == id
    && b.sourceId == lines[i].sourceId && b.accountId == lines[i].accountId && b.upstreamId == lines[i].upstreamId
    && Offers(db, lines[i], b.protocol)
    && b.status == Confirmed && b.enabled == true && b.priority == 0 - i
  }

  /** The rows are numbered on from the first id, each is some line's, and every protocol a line offers
      has its row. */
  ghost predicate Rendered(db: Database, id: string, firstId: int, lines: seq<Line>, bs: seq<BindingRow>) {
    && (forall k :: 0 <= k < |bs| ==> bs[k].id == firstId + k)
    && FromLines(db, id, lines, bs)
    && CoversOffers(db, id, lines, bs)
  }

  ghost predicate FromLines(db: Database, id: string, lines: seq<Line>, bs: seq<BindingRow>) {
    forall b :: b in bs ==> exists i :: MadeFrom(db, id, lines, i, b)
  }

  ghost predicate CoversOffers(db: Database, id: string, lines: seq<Line>, bs: seq<BindingRow>) {
    forall i: nat, p :: i < |lines| && Offers(db, lines[i], p) ==> HasRow(db, id, lines, bs, i, p)
  }

  ghost predicate HasRow(db: Database, id: string, lines: seq<Line>, bs: seq<BindingRow>, i: nat, p: Protocol) {
    exists b :: b in bs && MadeFrom(db, id, lines, i, b) && b.protocol == p
  }

  ghost function RenderedFor(db: Database, id: string, firstId: int): (seq<Line>, seq<BindingRow>) -> bool {
    (lines: seq<Line>, bs: seq<BindingRow>) => Rendered(db, id, firstId, lines, bs)
  }

  lemma {:induction false} RenderedLine(db: Database, id: string, line: Line, i: nat, firstId: int, b: BindingRow)
    ensures b in BindingsFor(id, line, i, LineProtocols(db, line), firstId) ==>
              && b.modelId == id && b.sourceId == line.sourceId && b.accountId == line.accountId
              && b.upstreamId == line.upstreamId && Offers(db, line, b.protocol)
              && b.status == Confirmed && b.enabled == true && b.priority == 0 - i
  {
    LineProtocolsMembers(db, line);
    var ps := LineProtocols(db, line);
    var more := BindingsFor(id, line, i, ps, firstId);
    if b in more {
      var k :| 0 <= k < |more| && more[k] == b;
      assert ps[k] in ps;
      LineServesIff(db, line, ps[k]);
    }
  }

  lemma {:induction false} RowOfOffer(db: Database, id: string, line: Line, i: nat, firstId: int, p: Protocol)
    returns (b: BindingRow)
    requires Offers(db, line, p)
    ensures b in BindingsFor(id, line, i, LineProtocols(db, line), firstId) && b.protocol == p
  {
    LineProtocolsMembers(db, line);
    LineServesIff(db, line, p);
    var ps := LineProtocols(db, line);
    var k :| 0 <= k < |ps| && ps[k] == p;
    b := BindingsFor(id, line, i, ps, firstId)[k];
  }

  lemma {:induction false} AppendedRow(db: Database, id: string, lines: seq<Line>, line: Line, bs: seq<BindingRow>,
                                       firstId: int, b: BindingRow)
    requires b in bs ==> exists i :: MadeFrom(db, id, lines, i, b)
    requires b !in bs ==> b in BindingsFor(id, line, |lines|, LineProtocols(db, line), firstId)
    ensures exists i :: MadeFrom(db, id, lines + [line], i, b)
  {
    if b in bs {
      var i :| MadeFrom(db, id, lines, i, b);
      assert MadeFrom(db, id, lines + [line], i, b);
    } else {
      RenderedLine(db, id, line, |lines|, firstId, b);
      assert MadeFrom(db, id, lines + [line], |lines|, b);
    }
  }

  lemma {:induction false} AppendedOffer(db: Database, id: string, lines: seq<Line>, line: Line, bs: seq<BindingRow>,
                                         firstId: int, i: nat, p: Protocol)
    returns (b: BindingRow)
    requires i <= |lines| && Offers(db, (lines + [line])[i], p)
    requires i < |lines| && Offers(db, lines[i], p) ==> HasRow(db, id, lines, bs, i, p)
    ensures b in bs || b in BindingsFor(id, line, |lines|, LineProtocols(db, line), firstId)
    ensures MadeFrom(db, id, lines + [line], i, b) && b.protocol == p
  {
    if i < |lines| {
      b :| b in bs && MadeFrom(db, id, lines, i, b) && b.protocol == p;
    } else {
      b := RowOfOffer(db, id, line, |lines|, firstId, p);
      RenderedLine(db, id, line, |lines|, firstId, b);
    }
  }

  lemma {:induction false} AllFromLines(db: Database, id: string, lines: seq<Line>, line: Line, bs: seq<BindingRow>,
                                        more: seq<BindingRow>, firstId: int)
    requires FromLines(db, id, lines, bs)
    requires more == BindingsFor(id, line, |lines|, LineProtocols(db, line), firstId)
    ensures FromLines(db, id, lines + [line], bs + more)
  {
    forall b | b in bs + more ensures exists i :: MadeFrom(db, id, lines + [line], i, b) {
      AppendedRow(db, id, lines, line, bs, firstId, b);
    }
  }

  lemma {:induction false} AllOffers(db: Database, id: string, lines: seq<Line>, line: Line, bs: seq<BindingRow>,
                                     more: seq<BindingRow>, firstId: int)
    requires CoversOffers(db, id, lines, bs)
    requires more == BindingsFor(id, line, |lines|, LineProtocols(db, line), firstId)
    ensures CoversOffers(db, id, lines + [line], bs + more)
  {
    forall i: nat, p | i < |lines + [line]| && Offers(db, (lines + [line])[i], p)
      ensures HasRow(db, id, lines + [line], bs + more, i, p)
    {
      assert i < |lines| && Offers(db, lines[i], p) ==> HasRow(db, id, lines, bs, i, p);
      var b := AppendedOffer(db, id, lines, line, bs, firstId, i, p);
      assert b in bs + more;
    }
  }

  lemma {:induction false} LinesAreRendered(db: Database, id: string, lines: seq<Line>, firstId: int)
    ensures Rendered(db, id, firstId, lines, LineBindings(db, id, lines, firstId))
  {
    var P := RenderedFor(db, id, firstId);
    forall ls, line, bs ensures LineStep(db, id, firstId, P, ls, line, bs) {
      if P(ls, bs) {
        var more := BindingsFor(id, line, |ls|, LineProtocols(db, line), firstId + |bs|);
        AllFromLines(db, id, ls, line, bs, more, firstId + |bs|);
        AllOffers(db, id, ls, line, bs, more, firstId + |bs|);
      }
    }
    LineInduction(db, id, lines, firstId, P);
    assert P(lines, LineBindings(db, id, lines, firstId));
  }

  /** The model's bindings are those of its lines: line i's at priority -i, confirmed and enabled, one
      for each protocol it offers, under fresh ids in order. Other models keep theirs. */
  lemma {:induction false} CompiledBindingsAre(db: Database, id: string, input: RoutingWrite, routeId: string)
    returns (rest: nat)
    ensures var tx := RoutingTables(db, id, input, routeId);
            && rest <= |tx.bindings|
            && (forall b :: b in tx.bindings[..rest] <==> b in db.bindings && b.modelId != id)
            && Rendered(db, id, db.nextBindingId, input.lines, tx.bindings[rest..])
            && tx.nextBindingId == db.nextBindingId + |tx.bindings| - rest
  {
    var others := Filter(db.bindings, OnOtherModel(id));
    var added := LineBindings(db, id, input.lines, db.nextBindingId);
    rest := |others|;
    LinesAreRendered(db, id, input.lines, db.nextBindingId);
    assert (others + added)[..rest] == others && (others + added)[rest..] == added;
  }

  /** A paused intent publishes nothing under its name. */
  lemma {:induction false} PausedHasNoRoute(adapters: AdapterRegistry, db: Database, id: string, input: RoutingWrite,
                                            create: bool, freshRouteId: string, s: RuntimeSnapshot, i: nat)
    requires RoutingAccepted(db, id, input, create, freshRouteId) && !input.enabled
    requires IsSnapshotOf(Kept(adapters,
                               SnapshotRows(RoutingTables(db, id, input, RouteIdFor(db, id, freshRouteId)))), s)
    requires i < |s.routes|
    ensures s.routes[i].key.model != input.publicName
  {
    var tx := RoutingTables(db, id, input, RouteIdFor(db, id, freshRouteId));
    var es := Kept(adapters, SnapshotRows(tx));
    assert RouteMatches(es, Keys(es)[i], s.routes[i]);
    var group := Filter(es, HasKey(Keys(es)[i]));
    assert group[0] in group;
    var r, b := KeptRowIsListed(adapters, tx, group[0]);
    assert r.modelId != id;
    assert r.modelId in db.models;
  }

  // ---------------------------------------------------------------------------
  // The view.
  // ---------------------------------------------------------------------------

  /** The binding serves right now: it, its source, its account and its model's catalog entries are
      active, and an enabled route of its model lists its protocol. */
  ghost predicate ServesNow(db: Database, b: BindingRow) {
    && b.status == Confirmed && b.enabled == true
    && Offers(db, Line(b.sourceId, b.accountId, b.upstreamId), b.protocol)
    && exists r :: r in db.routes && r.modelId == b.modelId && r.enabled == true && Lists(r, b.protocol)
  }

  ghost predicate OfLine(b: BindingRow, id: string, line: Line) {
    b.modelId == id && b.sourceId == line.sourceId && b.accountId == line.accountId && b.upstreamId == line.upstreamId
  }

  /** The binding's source and account are there, the account under the source. */
  ghost predicate Joined(db: Database, b: BindingRow) {
    && b.sourceId in db.sources && b.accountId in db.accounts
    && db.accounts[b.accountId].sourceId == b.sourceId
  }

  lemma {:induction false} ServesNowIff(db: Database, id: string, b: BindingRow)
    requires Shown(db, id)(b)
    ensures RoutableNow(db, b) <==> ServesNow(db, b)
  {
  }

  lemma {:induction false} ViewRowsMembers(db: Database, id: string, b: BindingRow)
    ensures b in ViewRows(db, id) <==> b in db.bindings && b.modelId == id && Joined(db, b)
  {
    SortByIsPermutation(Filter(db.bindings, Shown(db, id)), ViewOrder());
    SameMembers(ViewRows(db, id), Filter(db.bindings, Shown(db, id)));
  }

  lemma {:induction false} LineKeysMembers(db: Database, id: string, line: Line)
    ensures line in LineKeys(ViewRows(db, id)) <==>
            exists b :: b in db.bindings && OfLine(b, id, line) && Joined(db, b)
  {
    MapMember(ViewRows(db, id), LineOf(), line);
    if b :| b in ViewRows(db, id) && LineOf()(b) == line {
      ViewRowsMembers(db, id, b);
      assert OfLine(b, id, line);
    }
    if b :| b in db.bindings && OfLine(b, id, line) && Joined(db, b) {
      ViewRowsMembers(db, id, b);
      assert LineOf()(b) == line;
    }
  }

  /** A line is shown exactly when the model has a joined binding on it. */
  lemma {:induction false} ViewLinesAre(db: Database, id: string, v: View, line: Line)
    requires IsViewOf(db, id, v)
    ensures (exists i :: 0 <= i < |v.lines| && v.lines[i].line == line) <==>
            exists b :: b in db.bindings && OfLine(b, id, line) && Joined(db, b)
  {
    LineKeysMembers(db, id, line);
    var keys := LineKeys(ViewRows(db, id));
    assert forall i :: 0 <= i < |v.lines| ==> v.lines[i].line == keys[i];
    if line in keys {
      var i :| 0 <= i < |keys| && keys[i] == line;
      assert v.lines[i].line == line;
    }
  }

  /** What is listed earlier in first-occurrence order occurs before each later element. */
  lemma {:induction false} OccursBefore<T(!new)>(s: seq<T>, i: nat, j: nat, y: nat) returns (x: nat)
    requires i < j < |Distinct(s)| && y < |s| && s[y] == Distinct(s)[j]
    ensures x < y && s[x] == Distinct(s)[i]
  {
    var n := |s| - 1;
    var init := Distinct(s[..n]);
    assert s == s[..n] + [s[n]];
    if y < n && j < |init| {
      x := OccursBefore(s[..n], i, j, y);
    } else {
      assert Distinct(s)[i] == init[i];
      if j < |init| {
        var z := IndexIn(s[..n], init[j]);
        x := OccursBefore(s[..n], i, j, z);
      } else {
        x := IndexIn(s[..n], init[i]);
      }
    }
  }

  lemma {:induction false} IndexIn<T(!new)>(s: seq<T>, x: T) returns (i: nat)
    requires x in Distinct(s)
    ensures i < |s| && s[i] == x
  {
    assert x in s;
    i :| 0 <= i < |s| && s[i] == x;
  }

  /** Lines come in the order of their best binding, by falling priority and then by id: each binding of a
      later line has one of the earlier line before it. */
  lemma {:induction false} ViewLinesAreOrdered(db: Database, id: string, v: View, i: nat, j: nat, c: BindingRow)
    returns (b: BindingRow)
    requires IsViewOf(db, id, v) && i < j < |v.lines|
    requires c in db.bindings && OfLine(c, id, v.lines[j].line) && Joined(db, c)
    ensures b in db.bindings && OfLine(b, id, v.lines[i].line) && Joined(db, b)
    ensures b.priority > c.priority || (b.priority == c.priority && b.id <= c.id)
  {
    var rows := ViewRows(db, id);
    var lines := Map(rows, LineOf());
    ViewRowsMembers(db, id, c);
    var y :| 0 <= y < |rows| && rows[y] == c;
    assert lines[y] == v.lines[j].line == LineKeys(rows)[j];
    var x := OccursBefore(lines, i, j, y);
    b := rows[x];
    assert b in rows;
    ViewRowsMembers(db, id, b);
    assert LineOf()(b) == v.lines[i].line;
    assert TotalPreorder(ViewOrder());
    SortBySorts(Filter(db.bindings, Shown(db, id)), ViewOrder());
    assert ViewOrder()(rows[x], rows[y]);
  }

  lemma {:induction false} SortedProtocols(ps: seq<Protocol>, p: Protocol)
    ensures p in SortBy(ps, ByName()) <==> p in ps
    ensures SortedBy(SortBy(ps, ByName()), ByName())
  {
    ByNameIsTotal();
    SortByIsPermutation(ps, ByName());
    SameMembers(SortBy(ps, ByName()), ps);
    SortBySorts(ps, ByName());
  }

  lemma {:induction false} ProtocolsOfMembers(rows: seq<BindingRow>, f: BindingRow -> bool, p: Protocol)
    ensures p in ProtocolsOf(rows, f) <==> exists b :: b in rows && f(b) && b.protocol == p
  {
    MapMember(Filter(rows, f), ProtocolOf(), p);
    if b :| b in rows && f(b) && b.protocol == p {
      assert b in Filter(rows, f) && ProtocolOf()(b) == p;
    }
  }

  lemma {:induction false} ServingRow(db: Database, id: string, line: Line, b: BindingRow)
    ensures b in ViewRows(db, id) && RoutableOn(db, line)(b) <==>
              b in db.bindings && OfLine(b, id, line) && Joined(db, b) && ServesNow(db, b)
  {
    ViewRowsMembers(db, id, b);
    if b.modelId == id && Joined(db, b) {
      ServesNowIff(db, id, b);
      assert line == Line(line.sourceId, line.accountId, line.upstreamId);
      assert LineOf()(b) == line <==> OfLine(b, id, line);
    }
  }

  lemma {:induction false} ServingProtocols(db: Database, id: string, line: Line, p: Protocol)
    ensures p in ProtocolsOf(ViewRows(db, id), RoutableOn(db, line)) <==>
              exists b ::
                b in db.bindings && OfLine(b, id, line) && Joined(db, b) && ServesNow(db, b) && b.protocol == p
  {
    ProtocolsOfMembers(ViewRows(db, id), RoutableOn(db, line), p);
    if b :| b in ViewRows(db, id) && RoutableOn(db, line)(b) && b.protocol == p {
      ServingRow(db, id, line, b);
    }
    if b :| b in db.bindings && OfLine(b, id, line) && Joined(db, b) && ServesNow(db, b) && b.protocol == p {
      ServingRow(db, id, line, b);
    }
  }

  /** A shown line lists, in the order of their names, the protocols of its bindings that serve now ... */
  lemma {:induction false} ViewLineProtocolsAre(db: Database, id: string, v: View, i: nat, p: Protocol)
    requires IsViewOf(db, id, v) && i < |v.lines|
    ensures p in v.lines[i].protocols <==>
              exists b ::
                && b in db.bindings && OfLine(b, id, v.lines[i].line) && Joined(db, b)
                && ServesNow(db, b) && b.protocol == p
    ensures SortedBy(v.lines[i].protocols, ByName())
  {
    SortedProtocols(ProtocolsOf(ViewRows(db, id), RoutableOn(db, v.lines[i].line)), p);
    ServingProtocols(db, id, v.lines[i].line, p);
  }

  /** ... and the view those of all the model's bindings. */
  lemma {:induction false} ViewProtocolsAre(db: Database, id: string, v: View, p: Protocol)
    requires IsViewOf(db, id, v)
    ensures p in v.protocols <==>
              exists b :: b in db.bindings && b.modelId == id && Joined(db, b) && ServesNow(db, b) && b.protocol == p
    ensures SortedBy(v.protocols, ByName())
  {
    var rows, f := ViewRows(db, id), RoutableRow(db);
    SortedProtocols(ProtocolsOf(rows, f), p);
    ProtocolsOfMembers(rows, f, p);
    if b :| b in rows && f(b) && b.protocol == p {
      ViewRowsMembers(db, id, b);
      ServesNowIff(db, id, b);
    }
    if b :| b in db.bindings && b.modelId == id && Joined(db, b) && ServesNow(db, b) && b.protocol == p {
      ViewRowsMembers(db, id, b);
      ServesNowIff(db, id, b);
      assert f(b);
    }
  }
}
