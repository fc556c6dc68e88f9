/** What holds over every run of admin writes, and what it means at runtime. */
module AdminLaws {
  import opened Base
  import opened Seqs
  import opened Features
  import opened Tables
  import opened Validation
  import opened Snapshot
  import opened SnapshotLaws
  import opened SnapshotContents
  import opened Writes
  import opened ControlPlane
  import Routing
  import RoutingLaws

  /** A write either commits or leaves the tables as they were. */
  ghost predicate Step(adapters: AdapterRegistry, allowed: string -> bool, before: Database, w: Write,
                       after: Database) {
    exists r :: Outcome(adapters, allowed, before, w, after, r)
  }

  ghost predicate Runs(adapters: AdapterRegistry, allowed: string -> bool, states: seq<Database>, writes: seq<Write>) {
    && |states| == |writes| + 1
    && forall i :: 0 <= i < |writes| ==> Step(adapters, allowed, states[i], writes[i], states[i + 1])
  }

  ghost function IsSound(): Database -> bool {
    (db: Database) => Sound(db)
  }

  lemma {:induction false} SoundIgnoresRevision(db: Database, revision: int)
    requires Sound(db)
    ensures IsSound()(db.(revision := revision))
  {
    var tx := db.(revision := revision);
    forall b | b in tx.bindings ensures BindingReferences(tx, b) && b.id < tx.nextBindingId {
      assert BindingReferences(db, b);
    }
    SameBindingsSameFamily(db, tx);
  }

  lemma {:induction false} NextKeepsSound(db: Database, w: Write)
    requires Sound(db) && Admits(db, w)
    ensures IsSound()(Next(db, w))
  {
    WriteKeepsSound(db, w);
    SoundIgnoresRevision(Effect(db, w), db.revision + 1);
  }

  ghost predicate Advanced(adapters: AdapterRegistry, allowed: string -> bool, before: Database, after: Database) {
    after == before || (after.revision == before.revision + 1 && Committable(adapters, allowed, after))
  }

  lemma {:induction false} StepAdvances(adapters: AdapterRegistry, allowed: string -> bool, before: Database, w: Write,
                                        after: Database, r: Option<RuntimeSnapshot>)
    requires Outcome(adapters, allowed, before, w, after, r)
    ensures after == before || (Admits(before, w) && after == Next(before, w))
    ensures Advanced(adapters, allowed, before, after)
  {
    assert Next(before, w).revision == before.revision + 1;
  }

  lemma {:induction false} StepKeepsSound(adapters: AdapterRegistry, allowed: string -> bool, before: Database,
                                          w: Write, after: Database)
    requires Sound(before) && Step(adapters, allowed, before, w, after)
    ensures Sound(after) && Advanced(adapters, allowed, before, after)
  {
    var r :| Outcome(adapters, allowed, before, w, after, r);
    StepAdvances(adapters, allowed, before, w, after, r);
    if after != before {
      NextKeepsSound(before, w);
    }
  }

  /** Over every run of writes from a sound state, every state has one provider family per
      model and one enabled route per model and protocol; every state that differs from the
      first has passed the whole-database check; revisions only grow, one per commit. */
  lemma {:induction false} RunKeepsSound(adapters: AdapterRegistry, allowed: string -> bool, states: seq<Database>,
                                         writes: seq<Write>, n: nat)
    requires Runs(adapters, allowed, states, writes) && Sound(states[0]) && n < |states|
    ensures Sound(states[n])
    ensures || states[n] == states[0]
            || (states[n].revision > states[0].revision && Committable(adapters, allowed, states[n]))
    ensures states[0].revision <= states[n].revision <= states[0].revision + n
  {
    var P := Reached(adapters, allowed, states[0]);
    forall i: nat | i < |writes| && P(i, states[i]) ensures P(i + 1, states[i + 1]) {
      StepIsSound(adapters, allowed, states[i], writes[i], states[i + 1]);
    }
    SoundAtFirst(states[0]);
    RunInduction(states, P, n);
    assert P(n, states[n]);
    assert IsSound()(states[n]);
  }

  lemma {:induction false} SoundAtFirst(db: Database)
    requires Sound(db)
    ensures IsSound()(db)
  {
  }

  /** What holds of the first state and is kept by every step holds of every state. */
  lemma {:induction false} RunInduction(states: seq<Database>, P: (int, Database) -> bool, n: nat)
    requires n < |states| && P(0, states[0])
    requires forall i: nat :: i + 1 < |states| && P(i, states[i]) ==> P(i + 1, states[i + 1])
    ensures P(n, states[n])
  {
    if n > 0 {
      RunInduction(states, P, n - 1);
    }
  }

  ghost function Reached(adapters: AdapterRegistry, allowed: string -> bool, first: Database): (int, Database) -> bool {
    (n: int, db: Database) =>
      && IsSound()(db)
      && (db == first || (db.revision > first.revision && Committable(adapters, allowed, db)))
      && first.revision <= db.revision <= first.revision + n
  }

  lemma {:induction false} StepIsSound(adapters: AdapterRegistry, allowed: string -> bool, before: Database, w: Write,
                                       after: Database)
    requires IsSound()(before) && Step(adapters, allowed, before, w, after)
    ensures IsSound()(after)
    ensures after == before || (after.revision == before.revision + 1 && Committable(adapters, allowed, after))
  {
    StepKeepsSound(adapters, allowed, before, w, after);
  }

  /** So in every state a run has committed, every base URL is allowed, and every confirmed capability of a
      stored source is served: native at an endpoint of its own, or adapted from a confirmed native one. */
  lemma {:induction false} RunKeepsSourcesServable(adapters: AdapterRegistry, allowed: string -> bool,
                                                   states: seq<Database>, writes: seq<Write>, n: nat, id: string,
                                                   k: CapabilityKey)
    requires Runs(adapters, allowed, states, writes) && Sound(states[0]) && n < |states|
    requires states[n] != states[0] && id in states[n].sources
    ensures allowed(states[n].sources[id].baseUrl)
    ensures k in states[n].capabilities && k.sourceId == id && states[n].capabilities[k].status == Confirmed ==>
              && (states[n].capabilities[k].mode == Native ==> Serves(states[n].sources[id], k.protocol))
              && (states[n].capabilities[k].mode == Adapter ==> AdaptsSoundly(adapters, states[n], k))
  {
    RunKeepsSound(adapters, allowed, states, writes, n);
    ChainsAre(adapters, states[n]);
  }

  // ---------------------------------------------------------------------------
  // At runtime.
  // ---------------------------------------------------------------------------

  ghost predicate ComesFrom(db: Database, x: Row, r: RouteRow, b: BindingRow) {
    r in db.routes && b in db.bindings && Joins(db, r, b) && x == RowOf(db, r, b)
  }

  lemma {:induction false} RowOrigin(db: Database, x: Row) returns (r: RouteRow, b: BindingRow)
    requires x in SnapshotRows(db)
    ensures ComesFrom(db, x, r, b)
  {
    SnapshotRowsMembers(db);
    r, b :| r in db.routes && b in db.bindings && Joins(db, r, b) && x == RowOf(db, r, b);
  }

  lemma {:induction false} SameNameSameModel(db: Database, x: Row, r: RouteRow, b: BindingRow, y: Row, q: RouteRow,
                                             c: BindingRow)
    requires UniquePublicNames(db.models) && ComesFrom(db, x, r, b) && ComesFrom(db, y, q, c)
    requires x.publicName == y.publicName
    ensures r.modelId == q.modelId == b.modelId == c.modelId
  {
  }

  lemma {:induction false} KeptLists(adapters: AdapterRegistry, x: Row)
    requires Judge(adapters, x).Keep?
    ensures x.routeProtocols.Decoded? && x.protocol in x.routeProtocols.value
  {
  }

  lemma {:induction false} SameTargetSameRoute(adapters: AdapterRegistry, db: Database, x: Row, y: Row)
    requires Sound(db) && x in SnapshotRows(db) && y in SnapshotRows(db)
    requires Judge(adapters, x).Keep? && Judge(adapters, y).Keep?
    requires x.publicName == y.publicName && x.protocol == y.protocol
    ensures x.routeId == y.routeId
  {
    var r, b := RowOrigin(db, x);
    var q, c := RowOrigin(db, y);
    SameNameSameModel(db, x, r, b, y, q, c);
    KeptLists(adapters, x);
    KeptLists(adapters, y);
    assert SameTarget(r, q, x.protocol);
  }

  /** In a sound state the runtime never has to choose between two routes. */
  lemma {:induction false} RuntimeIsUnambiguous(adapters: AdapterRegistry, db: Database, s: RuntimeSnapshot, i: nat,
                                                j: nat)
    requires Sound(db) && Published(adapters, db, s) && i < j < |s.routes|
    ensures s.routes[i].key.model != s.routes[j].key.model || s.routes[i].key.protocol != s.routes[j].key.protocol
  {
    var es := Kept(adapters, SnapshotRows(db));
    RoutesConserveRows(es, s.routes);
    var g, h := Filter(es, HasKey(Keys(es)[i])), Filter(es, HasKey(Keys(es)[j]));
    assert g[0] in g && h[0] in h;
    if s.routes[i].key.model == s.routes[j].key.model && s.routes[i].key.protocol == s.routes[j].key.protocol {
      SameTargetSameRoute(adapters, db, g[0].row, h[0].row);
    }
  }

  lemma {:induction false} SameModelSamePreset(db: Database, x: Row, y: Row)
    requires Sound(db) && x in SnapshotRows(db) && y in SnapshotRows(db) && x.publicName == y.publicName
    ensures x.presetId == y.presetId
  {
    var r, b := RowOrigin(db, x);
    var q, c := RowOrigin(db, y);
    SameNameSameModel(db, x, r, b, y, q, c);
    assert OneFamilyFor(db, r.modelId);
    assert ActiveFor(b, r.modelId) && ActiveFor(c, r.modelId);
  }

  lemma {:induction false} KeptPreset(adapters: AdapterRegistry, x: Row)
    requires Judge(adapters, x).Keep?
    ensures Judge(adapters, x).binding.providerId == x.presetId
  {
  }

  /** In a sound state all runtime bindings of one public model, across its routes, go to
      one provider family. */
  lemma {:induction false} RuntimeOneFamily(adapters: AdapterRegistry, db: Database, s: RuntimeSnapshot,
                                            i: nat, b: RuntimeBinding, j: nat, c: RuntimeBinding)
    requires Sound(db) && Published(adapters, db, s) && i < |s.routes| && j < |s.routes|
    requires b in s.routes[i].bindings && c in s.routes[j].bindings && s.routes[i].key.model == s.routes[j].key.model
    ensures b.providerId == c.providerId
  {
    var es := Kept(adapters, SnapshotRows(db));
    var e := BindingComesFromRow(es, s.routes, i, b);
    var f := BindingComesFromRow(es, s.routes, j, c);
    KeptPreset(adapters, e.row);
    KeptPreset(adapters, f.row);
    SameModelSamePreset(db, e.row, f.row);
  }

  // ---------------------------------------------------------------------------
  // From the write to the published snapshot.
  // ---------------------------------------------------------------------------

  lemma {:induction false} JoinBindingsIgnoreRevision(db: Database, revision: int, r: RouteRow, bs: seq<BindingRow>)
    ensures JoinBindings(db.(revision := revision), r, bs) == JoinBindings(db, r, bs)
  {
    if bs != [] {
      JoinBindingsIgnoreRevision(db, revision, r, bs[..|bs| - 1]);
    }
  }

  lemma {:induction false} JoinRoutesIgnoreRevision(db: Database, revision: int, rs: seq<RouteRow>)
    ensures JoinRoutes(db.(revision := revision), rs) == JoinRoutes(db, rs)
  {
    if rs != [] {
      JoinRoutesIgnoreRevision(db, revision, rs[..|rs| - 1]);
      JoinBindingsIgnoreRevision(db, revision, rs[|rs| - 1], db.bindings);
    }
  }

  lemma {:induction false} SnapshotRowsIgnoreRevision(db: Database, revision: int)
    ensures SnapshotRows(db.(revision := revision)) == SnapshotRows(db)
  {
    JoinRoutesIgnoreRevision(db, revision, db.routes);
  }

  /** A published state at the next revision is a snapshot of the tables before the bump. */
  lemma {:induction false} PublishedBeforeBump(adapters: AdapterRegistry, allowed: string -> bool, tx: Database,
                                               after: Database, s: RuntimeSnapshot)
    requires after == tx.(revision := after.revision)
    requires Committable(adapters, allowed, after) && Published(adapters, after, s)
    ensures Builds(adapters, SnapshotRows(tx)) && IsSnapshotOf(Kept(adapters, SnapshotRows(tx)), s)
  {
    SnapshotRowsIgnoreRevision(tx, after.revision);
  }

  lemma {:induction false} CommittedTables(adapters: AdapterRegistry, allowed: string -> bool, before: Database,
                                           w: Write,
                                           after: Database, s: RuntimeSnapshot)
    requires Outcome(adapters, allowed, before, w, after, Some(s))
    ensures Admits(before, w) && after == Effect(before, w).(revision := after.revision)
    ensures Committable(adapters, allowed, after) && Published(adapters, after, s)
  {
    assert after == Next(before, w);
  }

  lemma {:induction false} CommittedSnapshot(adapters: AdapterRegistry, allowed: string -> bool, before: Database,
                                             id: string,
                                             input: Routing.RoutingWrite, create: bool, freshId: string,
                                             after: Database, s: RuntimeSnapshot)
    requires Outcome(adapters, allowed, before, WriteRouting(id, input, create, freshId), after, Some(s))
    ensures Routing.RoutingAccepted(before, id, input, create, freshId)
    ensures var rows := SnapshotRows(Routing.RoutingTables(before, id, input, Routing.RouteIdFor(before, id, freshId)));
            Builds(adapters, rows) && IsSnapshotOf(Kept(adapters, rows), s)
  {
    CommittedTables(adapters, allowed, before, WriteRouting(id, input, create, freshId), after, s);
    PublishedBeforeBump(adapters, allowed,
                        Routing.RoutingTables(before, id, input, Routing.RouteIdFor(before, id, freshId)), after, s);
  }

  /** A routing write that answers with a snapshot has published exactly its intent: for each
      protocol, one runtime route iff some line serves it, with the serving lines in order. */
  lemma {:induction false} RoutingWritePublishesIntent(adapters: AdapterRegistry, allowed: string -> bool,
                                                       before: Database, id: string,
                                                       input: Routing.RoutingWrite, create: bool, freshId: string,
                                                       after: Database, s: RuntimeSnapshot, p: Protocol)
    requires Outcome(adapters, allowed, before, WriteRouting(id, input, create, freshId), after, Some(s))
    requires input.enabled
    ensures Routing.SomeLineServes(before, input.lines, p) <==>
              exists r :: r in s.routes && RoutingLaws.Targets(r, input.publicName, p)
    ensures forall r :: r in s.routes && RoutingLaws.Targets(r, input.publicName, p) ==>
              && Map(r.bindings, RoutingLaws.RuntimeLine()) == Filter(input.lines, RoutingLaws.ServesOn(before, p))
              && r.strategy == ORDERED_FALLBACK && !r.allowLossy
              && r.timeoutMs == input.timeoutMs && r.maxRetries == input.maxRetries
  {
    CommittedSnapshot(adapters, allowed, before, id, input, create, freshId, after, s);
    RoutingLaws.CompileToRuntime(adapters, before, id, input, create, freshId, s, p);
  }
}
