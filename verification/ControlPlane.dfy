/**
 The control plane: one object that owns the tables, applies admin writes in
 serializable transactions and hands out a fresh runtime snapshot with every commit.
 */
module ControlPlane {
  import opened Base
  import opened Seqs
  import opened Strings
  import opened Features
  import opened Tables
  import opened Validation
  import opened Snapshot
  import opened SnapshotLaws
  import opened Routing
  import opened Writes
  import Config
  import JsonDiff

  /** The state a write commits: its effect, at the next revision. */
  function Next(db: Database, w: Write): Database {
    Effect(db, w).(revision := db.revision + 1)
  }

  predicate UrlsAllowed(allowed: string -> bool, db: Database) {
    forall s :: s in db.sources ==> allowed(db.sources[s].baseUrl)
  }

  /** What finish_write demands of the whole database before it commits. */
  ghost predicate Committable(adapters: AdapterRegistry, allowed: string -> bool, db: Database) {
    UrlsAllowed(allowed, db) && ChainsOk(adapters, db) && Builds(adapters, SnapshotRows(db))
  }

  ghost predicate Published(adapters: AdapterRegistry, db: Database, s: RuntimeSnapshot) {
    s.revision == db.revision && IsSnapshotOf(Kept(adapters, SnapshotRows(db)), s)
  }

  /** All or nothing: the next state, published, or the state before. */
  ghost predicate Transacted(adapters: AdapterRegistry, allowed: string -> bool, before: Database, next: Database,
                             after: Database, r: Option<RuntimeSnapshot>) {
    match r
    case Some(s) => after == next && Committable(adapters, allowed, next) && Published(adapters, next, s)
    case None => after == before
  }

  /** What is asked of a source before the transaction begins: an allowed base URL, and declared
      protocol capabilities that can be acted on at its endpoints. */
  ghost predicate SourceInputOk(adapters: AdapterRegistry, allowed: string -> bool, id: string, s: SourceInput) {
    && SourceShape(id, s) && allowed(s.row.baseUrl)
    && Config.MatrixOk(adapters, s.capabilities.value, s.row.endpoints.value, [])
  }

  /** The checks of a write that do not look at the tables. */
  ghost predicate InputOk(adapters: AdapterRegistry, allowed: string -> bool, w: Write) {
    match w
    case CreateSource(id, s) => SourceInputOk(adapters, allowed, id, s)
    case UpdateSource(id, s) => SourceInputOk(adapters, allowed, id, s)
    case _ => true
  }

  ghost predicate Admissible(adapters: AdapterRegistry, allowed: string -> bool, db: Database, w: Write) {
    Admits(db, w) && InputOk(adapters, allowed, w)
  }

  /** A write that answers with a snapshot was admissible and committed; one that does not has
      left the tables alone, and where families agree it was inadmissible. */
  ghost predicate Outcome(adapters: AdapterRegistry, allowed: string -> bool, before: Database, w: Write,
                          after: Database, r: Option<RuntimeSnapshot>) {
    && Transacted(adapters, allowed, before, Next(before, w), after, r)
    && (r.Some? ==> Admissible(adapters, allowed, before, w))
    && (OneFamily(before) && Admissible(adapters, allowed, before, w) ==>
          Committable(adapters, allowed, Next(before, w)) ==> r.Some?)
  }

  lemma {:induction false} ChainsIgnoreRevision(adapters: AdapterRegistry, db: Database, revision: int)
    ensures ChainsOk(adapters, db) <==> ChainsOk(adapters, db.(revision := revision))
  {
    var next := db.(revision := revision);
    if ChainsOk(adapters, db) {
      forall k | Checked(next, k) ensures ChainOk(adapters, next, k) {
        assert Checked(db, k);
      }
    }
    if ChainsOk(adapters, next) {
      forall k | Checked(db, k) ensures ChainOk(adapters, db, k) {
        assert Checked(next, k);
      }
    }
  }

  class Admin {
    const adapters: AdapterRegistry
    const allowed: string -> bool
    var db: Database

    constructor (adapters: AdapterRegistry, allowed: string -> bool, db: Database)
      ensures this.adapters == adapters && this.allowed == allowed && this.db == db
    {
      this.adapters, this.allowed, this.db := adapters, allowed, db;
    }

    /** finish_write: validate the whole database, bump the revision, build, and commit or
        roll back. */
    method Commit(tx: Database) returns (r: Option<RuntimeSnapshot>)
      modifies this`db
      ensures Transacted(adapters, allowed, old(db), tx.(revision := tx.revision + 1), db, r)
      ensures Committable(adapters, allowed, tx.(revision := tx.revision + 1)) ==> r.Some?
    {
      var next := tx.(revision := tx.revision + 1);
      ChainsIgnoreRevision(adapters, tx, tx.revision + 1);
      if !UrlsAllowed(allowed, tx) {
        return None;
      }
      var chained := ValidateCapabilityChains(adapters, tx);
      if !chained {
        return None;
      }
      var built := BuildSnapshot(adapters, SnapshotRows(next), next.revision);
      if built.Err? {
        return None;
      }
      db := next;
      r := Some(built.value);
    }

    /** One transaction: the tables after the write's statements, or None where a check
        refused, then the commit. */
    method Finish(ghost w: Write, tx: Option<Database>) returns (r: Option<RuntimeSnapshot>)
      requires tx.Some? ==> Admissible(adapters, allowed, db, w) && tx.value == Effect(db, w)
      requires OneFamily(db) && Admissible(adapters, allowed, db, w) ==> tx.Some?
      modifies this`db
      ensures Outcome(adapters, allowed, old(db), w, db, r)
    {
      if tx.None? {
        return None;
      }
      EffectKeepsRevision(db, w);
      ghost var next := Next(db, w);
      r := Commit(tx.value);
      OutcomeOf(adapters, allowed, old(db), w, next, db, r);
    }

    method Run(w: Write, ok: bool) returns (r: Option<RuntimeSnapshot>)
      requires ok ==> Admissible(adapters, allowed, db, w)
      requires OneFamily(db) && Admissible(adapters, allowed, db, w) ==> ok
      modifies this`db
      ensures Outcome(adapters, allowed, old(db), w, db, r)
    {
      r := Finish(w, if ok then Some(Effect(db, w)) else None);
    }

    method CreateModelBinding(input: BindingRow) returns (r: Option<RuntimeSnapshot>)
      modifies this`db
      ensures Outcome(adapters, allowed, old(db), CreateBinding(input), db, r)
      ensures r.Some? ==>
                db == old(db).(bindings := old(db).bindings + [input.(id := old(db).nextBindingId)],
                              nextBindingId := old(db).nextBindingId + 1,
                              revision := old(db).revision + 1)
    {
      ghost var before := db;
      var ok := CheckCreateBinding(db, input);
      r := Run(CreateBinding(input), ok);
      Commits(adapters, allowed, before, CreateBinding(input), db, r);
    }

    method UpdateModelBinding(id: int, input: BindingRow) returns (r: Option<RuntimeSnapshot>)
      modifies this`db
      ensures Outcome(adapters, allowed, old(db), UpdateBinding(id, input), db, r)
      ensures r.Some? ==>
                db == old(db).(bindings := PutBinding(old(db).bindings, input.(id := id)),
                              revision := old(db).revision + 1)
    {
      ghost var before := db;
      var ok := CheckUpdateBinding(db, id, input);
      r := Run(UpdateBinding(id, input), ok);
      Commits(adapters, allowed, before, UpdateBinding(id, input), db, r);
    }

    method SetModelBindingEnabled(id: int, enabled: bool) returns (r: Option<RuntimeSnapshot>)
      modifies this`db
      ensures Outcome(adapters, allowed, old(db), EnableBinding(id, enabled), db, r)
      ensures r.Some? ==>
                var stored := BindingWithId(old(db).bindings, id);
                && stored.Some?
                && db == old(db).(bindings := PutBinding(old(db).bindings, stored.value.(enabled := enabled)),
                                  revision := old(db).revision + 1)
    {
      var ok := CheckEnableBinding(db, id, enabled);
      r := Run(EnableBinding(id, enabled), ok);
    }

    method DeleteModelBinding(id: int) returns (r: Option<RuntimeSnapshot>)
      modifies this`db
      ensures Outcome(adapters, allowed, old(db), DeleteBinding(id), db, r)
      ensures r.Some? ==>
                db == old(db).(bindings := Filter(old(db).bindings, OtherBinding(id)),
                              revision := old(db).revision + 1)
    {
      var ok := HasBinding(db.bindings, id);
      r := Run(DeleteBinding(id), ok);
    }

    method CreateRouteRow(input: RouteRow) returns (r: Option<RuntimeSnapshot>)
      modifies this`db
      ensures Outcome(adapters, allowed, old(db), CreateRoute(input), db, r)
      ensures r.Some? ==>
                db == old(db).(routes := old(db).routes + [input],
                              revision := old(db).revision + 1)
    {
      var ok := CheckRoute(db, input);
      ok := ok && !HasRoute(db.routes, input.id);
      r := Run(CreateRoute(input), ok);
    }

    method UpdateRouteRow(input: RouteRow) returns (r: Option<RuntimeSnapshot>)
      modifies this`db
      ensures Outcome(adapters, allowed, old(db), UpdateRoute(input), db, r)
      ensures r.Some? ==>
                db == old(db).(routes := PutRoute(old(db).routes, input),
                              revision := old(db).revision + 1)
    {
      var ok := CheckRoute(db, input);
      ok := ok && HasRoute(db.routes, input.id);
      r := Run(UpdateRoute(input), ok);
    }

    method SetRouteEnabled(id: string, enabled: bool) returns (r: Option<RuntimeSnapshot>)
      modifies this`db
      ensures Outcome(adapters, allowed, old(db), EnableRoute(id, enabled), db, r)
      ensures r.Some? ==>
                var stored := RouteWithId(old(db).routes, id);
                && stored.Some?
                && db == old(db).(routes := PutRoute(old(db).routes, stored.value.(enabled := enabled)),
                                  revision := old(db).revision + 1)
    {
      var ok := CheckEnableRoute(db, id, enabled);
      r := Run(EnableRoute(id, enabled), ok);
    }

    method DeleteRouteRow(id: string) returns (r: Option<RuntimeSnapshot>)
      modifies this`db
      ensures Outcome(adapters, allowed, old(db), DeleteRoute(id), db, r)
      ensures r.Some? ==>
                db == old(db).(routes := Filter(old(db).routes, OtherRoute(id)),
                              revision := old(db).revision + 1)
    {
      var ok := HasRoute(db.routes, id);
      r := Run(DeleteRoute(id), ok);
    }

    method WriteModelRouting(id: string, input: RoutingWrite, create: bool,
                             freshRouteId: string) returns (r: Option<RuntimeSnapshot>)
      modifies this`db
      ensures Outcome(adapters, allowed, old(db), WriteRouting(id, input, create, freshRouteId), db, r)
    {
      var tx := CompileChecked(db, id, input, create, freshRouteId);
      r := Finish(WriteRouting(id, input, create, freshRouteId), tx);
    }

    method CreateSourceRow(id: string, source: SourceInput) returns (r: Option<RuntimeSnapshot>)
      modifies this`db
      ensures Outcome(adapters, allowed, old(db), CreateSource(id, source), db, r)
      ensures r.Some? ==>
                db == old(db).(sources := old(db).sources[id := source.row],
                              revision := old(db).revision + 1)
    {
      var ok := ValidateSourceInput(adapters, allowed, id, source);
      ok := ok && id !in db.sources && SourcePreset(source.row) in db.presets;
      r := Run(CreateSource(id, source), ok);
    }

    /** The preset of a stored source never changes. */
    method UpdateSourceRow(id: string, source: SourceInput) returns (r: Option<RuntimeSnapshot>)
      modifies this`db
      ensures Outcome(adapters, allowed, old(db), UpdateSource(id, source), db, r)
      ensures r.Some? ==>
                db == old(db).(sources := old(db).sources[id := source.row],
                              revision := old(db).revision + 1)
    {
      var ok := ValidateSourceInput(adapters, allowed, id, source);
      ok := ok && id in db.sources && SourcePreset(db.sources[id]) == SourcePreset(source.row);
      r := Run(UpdateSource(id, source), ok);
    }

    method SetSourceEnabled(id: string, enabled: bool) returns (r: Option<RuntimeSnapshot>)
      modifies this`db
      ensures Outcome(adapters, allowed, old(db), EnableSource(id, enabled), db, r)
      ensures r.Some? ==>
                && id in old(db).sources
                && db == old(db).(sources := old(db).sources[id := old(db).sources[id].(enabled := enabled)],
                                  revision := old(db).revision + 1)
    {
      var ok := id in db.sources;
      r := Run(EnableSource(id, enabled), ok);
    }

    method DeleteSourceRow(id: string) returns (r: Option<RuntimeSnapshot>)
      modifies this`db
      ensures Outcome(adapters, allowed, old(db), DeleteSource(id), db, r)
    {
      var ok := id in db.sources;
      r := Run(DeleteSource(id), ok);
    }
  }

  lemma {:induction false} OutcomeOf(adapters: AdapterRegistry, allowed: string -> bool, before: Database, w: Write,
                                     next: Database, after: Database, r: Option<RuntimeSnapshot>)
    requires next == Next(before, w) && Admissible(adapters, allowed, before, w)
    requires Transacted(adapters, allowed, before, next, after, r) && (Committable(adapters, allowed, next) ==> r.Some?)
    ensures Outcome(adapters, allowed, before, w, after, r)
  {
  }

  lemma {:induction false} Commits(adapters: AdapterRegistry, allowed: string -> bool, before: Database, w: Write,
                                   after: Database, r: Option<RuntimeSnapshot>)
    requires Outcome(adapters, allowed, before, w, after, r)
    ensures r.Some? ==> after == Effect(before, w).(revision := before.revision + 1)
  {
  }

  lemma {:induction false} EffectKeepsRevision(db: Database, w: Write)
    requires Admits(db, w)
    ensures Effect(db, w).revision == db.revision
  {
  }

  // ---------------------------------------------------------------------------
  // The checks in front of each write. Where the family check is involved, acceptance is
  // sound for every row it may look at, and exact once the stored bindings agree.
  // ---------------------------------------------------------------------------

  method CheckCreateBinding(db: Database, input: BindingRow) returns (ok: bool)
    ensures ok ==> Admits(db, CreateBinding(input))
    ensures OneFamily(db) && Admits(db, CreateBinding(input)) ==> ok
  {
    if !BindingShape(input) {
      return false;
    }
    assert OneFamily(db) ==> OneFamilyFor(db, input.modelId);
    ok := ValidateBindingReference(db, input);
    ok := ok && !LineTaken(db, db.nextBindingId, input);
  }

  method CheckUpdateBinding(db: Database, id: int, input: BindingRow) returns (ok: bool)
    ensures ok ==> Admits(db, UpdateBinding(id, input))
    ensures OneFamily(db) && Admits(db, UpdateBinding(id, input)) ==> ok
  {
    if !BindingShape(input) {
      return false;
    }
    var current := BindingWithId(db.bindings, id);
    if current.None? || !current.value.status.CanTransitionTo(input.status) {
      return false;
    }
    assert OneFamily(db) ==> OneFamilyFor(db, input.modelId);
    ok := ValidateBindingReference(db, input);
    ok := ok && !LineTaken(db, id, input);
  }

  method CheckEnableBinding(db: Database, id: int, enabled: bool) returns (ok: bool)
    ensures ok ==> Admits(db, EnableBinding(id, enabled))
    ensures OneFamily(db) && Admits(db, EnableBinding(id, enabled)) ==> ok
  {
    var existing := BindingWithId(db.bindings, id);
    if existing.None? {
      return false;
    }
    ok := true;
    if enabled {
      assert OneFamily(db) ==> OneFamilyFor(db, existing.value.modelId);
      ok := ValidateBindingReference(db, existing.value.(enabled := true));
    }
  }

  method CompileChecked(db: Database, id: string, input: RoutingWrite, create: bool,
                        freshRouteId: string) returns (r: Option<Database>)
    ensures r.Some? <==> Admits(db, WriteRouting(id, input, create, freshRouteId))
    ensures r.Some? ==> r.value == Effect(db, WriteRouting(id, input, create, freshRouteId))
  {
    var wellFormed := ValidateModelRouting(id, input);
    if !wellFormed {
      return None;
    }
    r := CompileRouting(db, id, input, create, freshRouteId);
  }

  /** `validate_source_input`: a configuration with this one provider is validated as well. */
  method ValidateSourceInput(adapters: AdapterRegistry, allowed: string -> bool, id: string,
                             s: SourceInput) returns (ok: bool)
    ensures ok <==> SourceInputOk(adapters, allowed, id, s)
  {
    if !SourceShape(id, s) || !allowed(s.row.baseUrl) {
      return false;
    }
    var p := Config.ProviderConfig(id, [], s.row.endpoints.value, s.capabilities.value, map[]);
    assert Config.ProviderOk(adapters, p) <==>
           Config.MatrixOk(adapters, s.capabilities.value, s.row.endpoints.value, []);
    var c := Config.GatewayConfig([p], [], []);
    assert Config.ConfigOk(adapters, c) <==> Config.ProviderOk(adapters, p);
    ok := Config.ValidateConfig(adapters, c);
  }

  /** A source is acceptable exactly when it is named, its preset has a version, its settings and
      declarations decode, its base URL is allowed, every endpoint it has is filled in, and every declaration
      can be acted on at those endpoints. */
  lemma {:induction false} SourceInputIff(adapters: AdapterRegistry, allowed: string -> bool, id: string,
                                          s: SourceInput)
    ensures SourceInputOk(adapters, allowed, id, s) <==>
              && !Blank(id) && !Blank(s.row.displayName) && !Blank(s.row.presetId) && s.row.presetVersion >= 1
              && (s.auth.Obj? || s.auth == JsonDiff.Null)
              && allowed(s.row.baseUrl)
              && s.row.endpoints.Decoded?
              && (forall p :: p in s.row.endpoints.value ==> !Blank(s.row.endpoints.value[p]))
              && s.capabilities.Some?
              && forall p :: p in s.capabilities.value ==>
                   Config.Allowed(adapters, s.row.endpoints.value, s.capabilities.value, p)
  {
    if s.capabilities.Some? && s.row.endpoints.Decoded? {
      Config.MatrixOkIff(adapters, s.capabilities.value, s.row.endpoints.value, []);
    }
  }

  method CheckRoute(db: Database, input: RouteRow) returns (ok: bool)
    ensures ok <==>
              RouteShape(input) && RouteAdmitted(db, input.id, input.modelId, input.protocols.value, input.enabled)
  {
    ok := ValidateRouteShape(input);
    if ok {
      ok := ValidateRouteReference(db, input.id, input.modelId, input.protocols.value, input.enabled);
    }
  }

  method CheckEnableRoute(db: Database, id: string, enabled: bool) returns (ok: bool)
    ensures ok <==> Admits(db, EnableRoute(id, enabled))
  {
    var current := RouteWithId(db.routes, id);
    if current.None? {
      return false;
    }
    var route := current.value;
    if !enabled {
      return true;
    }
    if route.protocols.Malformed? {
      return false;
    }
    ok := ValidateRouteReference(db, route.id, route.modelId, route.protocols.value, true);
  }

  /** `validate_route_input_shape`: sorting and deduplicating must not lose a protocol. */
  method ValidateRouteShape(input: RouteRow) returns (ok: bool)
    ensures ok <==> RouteShape(input)
  {
    if Blank(input.id) || Blank(input.modelId) || Blank(input.strategy) || input.protocols.Malformed? {
      return false;
    }
    var protocols := input.protocols.value;
    var unique := Distinct(protocols);
    DistinctLength(protocols);
    ok := protocols != [] && |unique| == |protocols|;
  }

  lemma {:induction false} DistinctLength<T(!new)>(s: seq<T>)
    ensures |Distinct(s)| <= |s|
    ensures |Distinct(s)| == |s| <==> NoDuplicates(s)
  {
    if s != [] {
      var n := |s| - 1;
      DistinctLength(s[..n]);
      assert s == s[..n] + [s[n]];
      NoDuplicatesSnoc(s[..n], s[n]);
    }
  }
}
