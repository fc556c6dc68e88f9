/** What a built snapshot guarantees, and what chain validation guarantees the builder. */
module SnapshotLaws {
  import opened Base
  import opened Seqs
  import opened Features
  import opened Tables
  import opened Snapshot

  // ---------------------------------------------------------------------------
  // Conservation: rows are neither lost nor repeated.
  // ---------------------------------------------------------------------------

  function BindingCount(routes: seq<RuntimeRoute>): nat {
    if routes == [] then 0 else BindingCount(routes[..|routes| - 1]) + |routes[|routes| - 1].bindings|
  }

  function GroupSizes(es: seq<KeptRow>, keys: seq<RouteKey>): nat {
    if keys == [] then 0
    else GroupSizes(es, keys[..|keys| - 1]) + |Filter(es, HasKey(keys[|keys| - 1]))|
  }

  lemma {:induction false} GroupSizesSnoc(es: seq<KeptRow>, e: KeptRow, keys: seq<RouteKey>)
    requires NoDuplicates(keys)
    ensures GroupSizes(es + [e], keys) == GroupSizes(es, keys) + if KeyOf()(e) in keys then 1 else 0
  {
    if keys != [] {
      var n := |keys| - 1;
      assert keys == keys[..n] + [keys[n]];
      GroupSizesSnoc(es, e, keys[..n]);
      FilterSnoc(es, e, HasKey(keys[n]));
      assert keys[n] !in keys[..n];
    }
  }

  lemma {:induction false} GroupsCoverRows(es: seq<KeptRow>)
    ensures GroupSizes(es, Keys(es)) == |es|
  {
    if es != [] {
      var n := |es| - 1;
      var fs, e := es[..n], es[n];
      assert es == fs + [e];
      GroupsCoverRows(fs);
      DistinctMapSnoc(fs, e, KeyOf());
      GroupSizesSnoc(fs, e, Keys(fs));
      if KeyOf()(e) !in Keys(fs) {
        GroupSizesSnoc(fs, e, Keys(fs) + [KeyOf()(e)]);
        GroupEmpty(fs, KeyOf(), HasKey(KeyOf()(e)), KeyOf()(e));
        assert (Keys(fs) + [KeyOf()(e)])[..|Keys(fs)|] == Keys(fs);
      }
    }
  }

  lemma {:induction false} CountByGroups(es: seq<KeptRow>, keys: seq<RouteKey>, routes: seq<RuntimeRoute>)
    requires |routes| == |keys|
    requires forall i :: 0 <= i < |routes| ==> |routes[i].bindings| == |Filter(es, HasKey(keys[i]))|
    ensures BindingCount(routes) == GroupSizes(es, keys)
  {
    if routes != [] {
      var n := |routes| - 1;
      CountByGroups(es, keys[..n], routes[..n]);
    }
  }

  /** A snapshot's routes have distinct keys and carry exactly as many bindings as rows
      were kept; with RoutesMatch, each row sits in one place of one route. */
  lemma {:induction false} RoutesConserveRows(es: seq<KeptRow>, routes: seq<RuntimeRoute>)
    requires RoutesMatch(es, routes)
    ensures forall i, j :: 0 <= i < j < |routes| ==> routes[i].key != routes[j].key
    ensures BindingCount(routes) == |es|
    ensures forall e :: e in es ==>
              exists i :: 0 <= i < |routes| && routes[i].key == KeyOf()(e) && e.binding in routes[i].bindings
  {
    forall i | 0 <= i < |routes|
      ensures routes[i].key == Keys(es)[i] && |routes[i].bindings| == |Filter(es, HasKey(Keys(es)[i]))|
    {
      assert RouteMatches(es, Keys(es)[i], routes[i]);
    }
    CountByGroups(es, Keys(es), routes);
    GroupsCoverRows(es);
    forall e | e in es
      ensures exists i :: 0 <= i < |routes| && routes[i].key == KeyOf()(e) && e.binding in routes[i].bindings
    {
      var i := PlaceOfRow(es, routes, e);
    }
  }

  lemma {:induction false} PlaceOfRow(es: seq<KeptRow>, routes: seq<RuntimeRoute>, e: KeptRow) returns (i: nat)
    requires RoutesMatch(es, routes) && e in es
    ensures i < |routes| && routes[i].key == KeyOf()(e) && e.binding in routes[i].bindings
  {
    var n :| 0 <= n < |es| && es[n] == e;
    assert Map(es, KeyOf())[n] == KeyOf()(e);
    assert KeyOf()(e) in Keys(es);
    i :| 0 <= i < |Keys(es)| && Keys(es)[i] == KeyOf()(e);
    assert RouteMatches(es, Keys(es)[i], routes[i]);
    var group := Filter(es, HasKey(KeyOf()(e)));
    assert e in group;
    var g :| 0 <= g < |group| && group[g] == e;
    assert routes[i].bindings[g] == e.binding;
  }

  // ---------------------------------------------------------------------------
  // Conservation over the query: the kept rows are the listed rows.
  // ---------------------------------------------------------------------------

  function RowHasKey(k: RouteKey): Row -> bool {
    (x: Row) => x.routeId == k.routeId && x.publicName == k.model && x.protocol == k.protocol
  }

  function KeptFrom(row: Row, v: Verdict): seq<KeptRow> {
    if v.Keep? then [KeptRow(row, v.binding)] else []
  }

  lemma {:induction false} KeptSnoc(adapters: AdapterRegistry, rows: seq<Row>, row: Row)
    ensures Kept(adapters, rows + [row]) == Kept(adapters, rows) + KeptFrom(row, Judge(adapters, row))
  {
    assert (rows + [row])[..|rows|] == rows;
  }

  lemma {:induction false} FilterKept(es: seq<KeptRow>, row: Row, v: Verdict, k: RouteKey)
    ensures Filter(es + KeptFrom(row, v), HasKey(k))
         == Filter(es, HasKey(k)) + if RowHasKey(k)(row) then KeptFrom(row, v) else []
  {
    if v.Keep? {
      var e := KeptRow(row, v.binding);
      assert KeyOf()(e) == RouteKey(row.routeId, row.publicName, row.protocol);
      assert HasKey(k)(e) <==> RowHasKey(k)(row);
      FilterSnoc(es, KeptRow(row, v.binding), HasKey(k));
    } else {
      assert es + KeptFrom(row, v) == es;
    }
  }

  lemma {:induction false} KeptFilter(adapters: AdapterRegistry, rows: seq<Row>, k: RouteKey)
    ensures Filter(Kept(adapters, rows), HasKey(k)) == Kept(adapters, Filter(rows, RowHasKey(k)))
  {
    if rows != [] {
      var n := |rows| - 1;
      assert rows == rows[..n] + [rows[n]];
      KeptFilter(adapters, rows[..n], k);
      KeptFilterStep(adapters, rows[..n], rows[n], rows, k);
    }
  }

  lemma {:induction false} KeptFilterStep(adapters: AdapterRegistry, rows: seq<Row>, row: Row, all: seq<Row>,
                                          k: RouteKey)
    requires all == rows + [row]
    requires Filter(Kept(adapters, rows), HasKey(k)) == Kept(adapters, Filter(rows, RowHasKey(k)))
    ensures Filter(Kept(adapters, all), HasKey(k)) == Kept(adapters, Filter(all, RowHasKey(k)))
  {
    KeptSnoc(adapters, rows, row);
    KeptSnoc(adapters, Filter(rows, RowHasKey(k)), row);
    FilterSnoc(rows, row, RowHasKey(k));
    FilterKept(Kept(adapters, rows), row, Judge(adapters, row), k);
    if !RowHasKey(k)(row) {
      assert Filter(rows + [row], RowHasKey(k)) == Filter(rows, RowHasKey(k));
    }
  }

  /** The route of the row lists the row's protocol. */
  function ListedRow(): Row -> bool {
    (x: Row) => x.routeProtocols.Decoded? && x.protocol in x.routeProtocols.value
  }

  function ListedUnder(k: RouteKey): Row -> bool {
    (x: Row) => RowHasKey(k)(x) && ListedRow()(x)
  }

  function KeptRowOf(): KeptRow -> Row {
    (e: KeptRow) => e.row
  }

  lemma {:induction false} KeptIffListed(adapters: AdapterRegistry, x: Row)
    requires x.mode.Routable() && !Judge(adapters, x).Fail?
    ensures Judge(adapters, x).Keep? <==> ListedRow()(x)
  {
  }

  /** A list of routable rows none of which fails: the kept ones are the listed ones, in order. */
  lemma {:induction false} KeptAreListed(adapters: AdapterRegistry, rows: seq<Row>)
    requires forall x :: x in rows ==> x.mode.Routable() && !Judge(adapters, x).Fail?
    ensures Map(Kept(adapters, rows), KeptRowOf()) == Filter(rows, ListedRow())
  {
    if rows != [] {
      var init, x := rows[..|rows| - 1], rows[|rows| - 1];
      assert rows == init + [x];
      KeptAreListed(adapters, init);
      KeptSnoc(adapters, init, x);
      KeptIffListed(adapters, x);
      FilterSnoc(init, x, ListedRow());
      MapKept(Kept(adapters, init), x, Judge(adapters, x));
    }
  }

  lemma {:induction false} MapKept(es: seq<KeptRow>, x: Row, v: Verdict)
    ensures Map(es + KeptFrom(x, v), KeptRowOf()) == Map(es, KeptRowOf()) + if v.Keep? then [x] else []
  {
  }

  lemma {:induction false} SnapshotRowIsRoutable(db: Database, x: Row)
    requires x in SnapshotRows(db)
    ensures x.mode.Routable()
  {
    SnapshotRowsMembers(db);
    var r, b :| r in db.routes && b in db.bindings && Joins(db, r, b) && x == RowOf(db, r, b);
  }

  /** Whenever a database builds, the rows behind the snapshot are exactly the query's rows
      whose protocol the route lists, in the query's order. */
  lemma {:induction false} BuiltRowsAreListed(adapters: AdapterRegistry, db: Database)
    requires Builds(adapters, SnapshotRows(db))
    ensures Map(Kept(adapters, SnapshotRows(db)), KeptRowOf()) == Filter(SnapshotRows(db), ListedRow())
  {
    forall x | x in SnapshotRows(db) ensures x.mode.Routable() {
      SnapshotRowIsRoutable(db, x);
    }
    KeptAreListed(adapters, SnapshotRows(db));
  }

  lemma {:induction false} FilterTwice(rows: seq<Row>, k: RouteKey)
    ensures Filter(Filter(rows, RowHasKey(k)), ListedRow()) == Filter(rows, ListedUnder(k))
  {
    if rows != [] {
      var init, x := rows[..|rows| - 1], rows[|rows| - 1];
      FilterTwice(init, k);
      if RowHasKey(k)(x) {
        FilterSnoc(Filter(init, RowHasKey(k)), x, ListedRow());
      } else {
        assert Filter(rows, RowHasKey(k)) == Filter(init, RowHasKey(k));
      }
    }
  }

  /** The group of a key is the in-order filter of the query's rows under that key that the
      route lists. */
  lemma {:induction false} GroupIsListed(adapters: AdapterRegistry, db: Database, k: RouteKey)
    requires Builds(adapters, SnapshotRows(db))
    ensures Map(Filter(Kept(adapters, SnapshotRows(db)), HasKey(k)), KeptRowOf())
         == Filter(SnapshotRows(db), ListedUnder(k))
  {
    var rows := SnapshotRows(db);
    KeptFilter(adapters, rows, k);
    forall x | x in Filter(rows, RowHasKey(k)) ensures x.mode.Routable() {
      SnapshotRowIsRoutable(db, x);
    }
    KeptAreListed(adapters, Filter(rows, RowHasKey(k)));
    FilterTwice(rows, k);
  }

  /** Binding j of a route is what row j of some list was judged to be. */
  ghost predicate Renders(adapters: AdapterRegistry, rows: seq<Row>, bindings: seq<RuntimeBinding>) {
    && |bindings| == |rows|
    && forall j :: 0 <= j < |rows| ==> Judge(adapters, rows[j]) == Keep(bindings[j])
  }

  lemma {:induction false} GroupRenders(adapters: AdapterRegistry, group: seq<KeptRow>)
    requires forall e :: e in group ==> Judge(adapters, e.row) == Keep(e.binding)
    ensures Renders(adapters, Map(group, KeptRowOf()), Map(group, BindingOf()))
  {
    forall j | 0 <= j < |group|
      ensures Judge(adapters, Map(group, KeptRowOf())[j]) == Keep(Map(group, BindingOf())[j])
    {
      assert group[j] in group;
    }
  }

  /** Conservation, from the query to the snapshot: route keys are distinct; each route's
      bindings are, one by one and in order, the query's rows under its key that the route
      lists; every listed row is in the route of its key; and there are as many bindings in all
      as listed rows. */
  lemma {:induction false} SnapshotConservesRows(adapters: AdapterRegistry, db: Database, s: RuntimeSnapshot)
    requires Builds(adapters, SnapshotRows(db)) && IsSnapshotOf(Kept(adapters, SnapshotRows(db)), s)
    ensures forall i, j :: 0 <= i < j < |s.routes| ==> s.routes[i].key != s.routes[j].key
    ensures forall i :: 0 <= i < |s.routes| ==>
              Renders(adapters, Filter(SnapshotRows(db), ListedUnder(s.routes[i].key)), s.routes[i].bindings)
    ensures forall x :: x in Filter(SnapshotRows(db), ListedRow()) ==>
              exists i :: 0 <= i < |s.routes| && ListedUnder(s.routes[i].key)(x)
    ensures BindingCount(s.routes) == |Filter(SnapshotRows(db), ListedRow())|
  {
    var es := Kept(adapters, SnapshotRows(db));
    RoutesConserveRows(es, s.routes);
    BuiltRowsAreListed(adapters, db);
    forall i | 0 <= i < |s.routes|
      ensures Renders(adapters, Filter(SnapshotRows(db), ListedUnder(s.routes[i].key)), s.routes[i].bindings)
    {
      RouteRendersRows(adapters, db, s.routes, i);
    }
    forall x | x in Filter(SnapshotRows(db), ListedRow())
      ensures exists i :: 0 <= i < |s.routes| && ListedUnder(s.routes[i].key)(x)
    {
      var i := RouteOfListedRow(es, s.routes, Filter(SnapshotRows(db), ListedRow()), x);
    }
  }

  lemma {:induction false} RouteRendersRows(adapters: AdapterRegistry, db: Database, routes: seq<RuntimeRoute>, i: nat)
    requires Builds(adapters, SnapshotRows(db)) && RoutesMatch(Kept(adapters, SnapshotRows(db)), routes) && i < |routes|
    ensures Renders(adapters, Filter(SnapshotRows(db), ListedUnder(routes[i].key)), routes[i].bindings)
  {
    var es := Kept(adapters, SnapshotRows(db));
    var k := Keys(es)[i];
    assert RouteMatches(es, k, routes[i]);
    GroupIsListed(adapters, db, k);
    GroupRenders(adapters, Filter(es, HasKey(k)));
  }

  lemma {:induction false} RouteOfListedRow(es: seq<KeptRow>, routes: seq<RuntimeRoute>, listed: seq<Row>,
                                            x: Row) returns (i: nat)
    requires RoutesMatch(es, routes) && Map(es, KeptRowOf()) == listed && x in listed && ListedRow()(x)
    ensures i < |routes| && ListedUnder(routes[i].key)(x)
  {
    var j :| 0 <= j < |es| && Map(es, KeptRowOf())[j] == x;
    assert es[j] in es;
    i := PlaceOfRow(es, routes, es[j]);
  }

  /** Every binding of a route is one of the rows the route's key selects. */
  lemma {:induction false} BindingComesFromRow(es: seq<KeptRow>, routes: seq<RuntimeRoute>, i: nat,
                                               b: RuntimeBinding) returns (e: KeptRow)
    requires RoutesMatch(es, routes) && i < |routes| && b in routes[i].bindings
    ensures e in es && KeyOf()(e) == routes[i].key && e.binding == b
  {
    var group := Filter(es, HasKey(Keys(es)[i]));
    var g :| 0 <= g < |group| && routes[i].bindings[g] == b;
    e := group[g];
    assert e in group;
  }

  lemma {:induction false} KeptBindingNames(adapters: AdapterRegistry, rows: seq<Row>, e: KeptRow)
    requires e in Kept(adapters, rows)
    ensures e.binding.accountId == e.row.accountId && e.binding.sourceId == e.row.sourceId
    ensures e.binding.upstreamId == e.row.upstreamId && e.binding.bindingId == e.row.bindingId
  {
  }

  /** Every binding's account and source are in the published configuration. */
  lemma {:induction false} BindingsAreConfigured(adapters: AdapterRegistry, rows: seq<Row>, s: RuntimeSnapshot,
                                                 i: nat, b: RuntimeBinding)
    requires IsSnapshotOf(Kept(adapters, rows), s) && i < |s.routes| && b in s.routes[i].bindings
    ensures FindAccount(s.accounts, b.accountId).Some? && FindProvider(s.providers, b.sourceId).Some?
  {
    var es := Kept(adapters, rows);
    var e := BindingComesFromRow(es, s.routes, i, b);
    KeptBindingNames(adapters, rows, e);
    assert e in Filter(es, HasAccount(b.accountId));
    assert e in Filter(es, HasSource(b.sourceId));
    assert AccountMatches(es, b.accountId, FindAccount(s.accounts, b.accountId));
    assert ProviderMatches(es, b.sourceId, FindProvider(s.providers, b.sourceId));
  }

  // ---------------------------------------------------------------------------
  // Model maps agree with the bindings.
  // ---------------------------------------------------------------------------

  lemma {:induction false} FirstUpstreamStable(es: seq<KeptRow>, n: nat, id: string, name: string)
    requires n <= |es| && FirstUpstream(es[..n], id, name).Some?
    ensures FirstUpstream(es, id, name) == FirstUpstream(es[..n], id, name)
  {
    if n == |es| {
      assert es[..n] == es;
    } else {
      var m := |es| - 1;
      assert es == es[..m] + [es[m]];
      assert es[..m][..n] == es[..n];
      FirstUpstreamStable(es[..m], n, id, name);
      FirstUpstreamSnoc(es[..m], es[m], id, name);
    }
  }

  lemma {:induction false} AgreeingRow(es: seq<KeptRow>, e: KeptRow)
    requires Agreement(es) && e in es && e.row.strategy != ORDERED_FALLBACK
    ensures FirstUpstream(es, e.row.accountId, e.row.publicName) == Some(e.row.upstreamId)
  {
    var n :| 0 <= n < |es| && es[n] == e;
    AgreementAt(es, n);
    AgreesNow(es[..n], e);
    FirstUpstreamFrom(es, n, e.row.accountId, e.row.publicName, e.row.upstreamId);
  }

  lemma {:induction false} AgreementAt(es: seq<KeptRow>, n: nat)
    requires Agreement(es) && n < |es|
    ensures Compatible(es[..n], es[n].row)
  {
  }

  lemma {:induction false} FirstUpstreamFrom(es: seq<KeptRow>, n: nat, id: string, name: string, upstream: string)
    requires n < |es| && FirstUpstream(es[..n] + [es[n]], id, name) == Some(upstream)
    ensures FirstUpstream(es, id, name) == Some(upstream)
  {
    assert es[..n + 1] == es[..n] + [es[n]];
    FirstUpstreamStable(es, n + 1, id, name);
  }

  lemma {:induction false} AgreesNow(es: seq<KeptRow>, e: KeptRow)
    requires Compatible(es, e.row) && e.row.strategy != ORDERED_FALLBACK
    ensures FirstUpstream(es + [e], e.row.accountId, e.row.publicName) == Some(e.row.upstreamId)
  {
    FirstUpstreamSnoc(es, e, e.row.accountId, e.row.publicName);
  }

  /** Rows of one route id come from one route row, so they share its policy. */
  lemma {:induction false} SameRouteSamePolicy(db: Database, x: Row, y: Row)
    requires Integrity(db) && x in SnapshotRows(db) && y in SnapshotRows(db) && x.routeId == y.routeId
    ensures x.strategy == y.strategy && x.publicName == y.publicName && x.routeProtocols == y.routeProtocols
    ensures x.timeoutMs == y.timeoutMs && x.maxRetries == y.maxRetries && x.allowLossy == y.allowLossy
  {
    SnapshotRowsMembers(db);
    var r, b :| r in db.routes && b in db.bindings && Joins(db, r, b) && x == RowOf(db, r, b);
    var q, c :| q in db.routes && c in db.bindings && Joins(db, q, c) && y == RowOf(db, q, c);
    SameRoute(db.routes, r, q);
  }

  /** In a built snapshot, every binding of a route that does not fall back in order goes
      to the upstream model its account's map gives for the route's logical model. */
  lemma {:induction false} ModelMapAgrees(adapters: AdapterRegistry, db: Database, s: RuntimeSnapshot, i: nat,
                                          b: RuntimeBinding)
    requires Integrity(db) && Builds(adapters, SnapshotRows(db)) && IsSnapshotOf(Kept(adapters, SnapshotRows(db)), s)
    requires i < |s.routes| && b in s.routes[i].bindings && s.routes[i].strategy != ORDERED_FALLBACK
    ensures var a := FindAccount(s.accounts, b.accountId);
            a.Some? && Find(a.value.modelMap, s.routes[i].key.model) == Some(b.upstreamId)
  {
    var rows := SnapshotRows(db);
    var es := Kept(adapters, rows);
    var e := BindingComesFromRow(es, s.routes, i, b);
    KeptBindingNames(adapters, rows, e);
    var group := Filter(es, HasKey(Keys(es)[i]));
    assert group[0] in group && group[0] in es;
    SameRouteSamePolicy(db, e.row, group[0].row);
    AgreeingRow(es, e);
    BindingsAreConfigured(adapters, rows, s, i, b);
    assert AccountMatches(es, b.accountId, FindAccount(s.accounts, b.accountId));
  }

  // ---------------------------------------------------------------------------
  // Capability chains.
  // ---------------------------------------------------------------------------

  /** The rows the chain check looks at. */
  predicate Checked(db: Database, k: CapabilityKey) {
    && k in db.capabilities && k.sourceId in db.sources
    && db.capabilities[k].status.Confirmed? && db.capabilities[k].mode.Routable()
  }

  predicate ConfirmedNative(db: Database, k: CapabilityKey) {
    k in db.capabilities && db.capabilities[k].status.Confirmed? && db.capabilities[k].mode.Native?
  }

  /** One confirmed capability is served by an endpoint, directly or through a registered
      adapter over a confirmed native protocol. */
  predicate ChainOk(adapters: AdapterRegistry, db: Database, k: CapabilityKey)
    requires Checked(db, k)
  {
    var c, s := db.capabilities[k], db.sources[k.sourceId];
    && s.endpoints.Decoded?
    && (c.mode.Native? ==> HasEndpoint(s.endpoints.value, k.protocol))
    && (c.mode.Adapter? ==>
          && c.sourceProtocol.Some? && c.adapter.Some?
          && c.adapter.value in adapters
          && adapters[c.adapter.value].from == k.protocol && adapters[c.adapter.value].to == c.sourceProtocol.value
          && ConfirmedNative(db, k.(protocol := c.sourceProtocol.value))
          && HasEndpoint(s.endpoints.value, c.sourceProtocol.value))
  }

  ghost predicate ChainsOk(adapters: AdapterRegistry, db: Database) {
    forall k :: Checked(db, k) ==> ChainOk(adapters, db, k)
  }

  /** Count the complaints about one capability, in the order the source makes them. */
  method ChainErrors(adapters: AdapterRegistry, db: Database, k: CapabilityKey) returns (errors: nat)
    requires Checked(db, k)
    ensures errors == 0 <==> ChainOk(adapters, db, k)
  {
    errors := 0;
    var c, s := db.capabilities[k], db.sources[k.sourceId];
    if s.endpoints.Malformed? {
      return 1;
    }
    var upstream := k.protocol;
    if c.mode.Adapter? {
      if c.sourceProtocol.None? {
        return 1;
      }
      if c.adapter.None? {
        return 1;
      }
      upstream := c.sourceProtocol.value;
      if c.adapter.value in adapters {
        var d := adapters[c.adapter.value];
        if !(d.from == k.protocol && d.to == upstream) {
          errors := errors + 1;
        }
      } else {
        errors := errors + 1;
      }
      if !ConfirmedNative(db, k.(protocol := upstream)) {
        errors := errors + 1;
      }
    }
    if !HasEndpoint(s.endpoints.value, upstream) {
      errors := errors + 1;
    }
  }

  /** The whole-database check before every commit. The source visits the rows in key
      order, which only orders the messages. */
  method ValidateCapabilityChains(adapters: AdapterRegistry, db: Database) returns (ok: bool)
    ensures ok <==> ChainsOk(adapters, db)
  {
    var errors, left := 0, db.capabilities.Keys;
    while left != {}
      invariant left <= db.capabilities.Keys
      invariant errors >= 0
      invariant errors == 0 <==> forall k :: k !in left && Checked(db, k) ==> ChainOk(adapters, db, k)
      decreases left
    {
      var k :| k in left;
      var more := 0;
      if k.sourceId in db.sources && db.capabilities[k].status.Confirmed? && db.capabilities[k].mode.Routable() {
        more := ChainErrors(adapters, db, k);
      }
      left := left - {k};
      errors := errors + more;
    }
    ok := errors == 0;
  }

  predicate IsChainProblem(p: Problem) {
    p in [BadEndpoints, MissingSourceProtocol, NoEndpoint, MissingAdapter, UnknownAdapter, WrongDirection]
  }

  /** A database that passes the chain check gives the builder no broken chain. */
  lemma {:induction false} ChainsDischargeBuilder(adapters: AdapterRegistry, db: Database, row: Row)
    requires ChainsOk(adapters, db) && row in SnapshotRows(db)
    ensures Judge(adapters, row).Fail? ==> !IsChainProblem(Judge(adapters, row).problem)
  {
    SnapshotRowsMembers(db);
    var r, b :| r in db.routes && b in db.bindings && Joins(db, r, b) && row == RowOf(db, r, b);
    var k := BindingCapabilityKey(b);
    assert Checked(db, k);
    assert ChainOk(adapters, db, k);
  }
}
