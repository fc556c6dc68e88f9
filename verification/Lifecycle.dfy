/**
 Protocol capabilities of source models: the upsert that declares, confirms and
 withdraws them, and the life a capability row can lead.
 */
module Lifecycle {
  import opened Base
  import opened Strings
  import opened Features
  import opened Tables

  datatype Support = UnknownSupport | Supported | NotSupported

  datatype Capability = Capability(
    status: CatalogStatus,
    mode: ProtocolMode,
    sourceProtocol: Option<Protocol>,
    adapter: Option<string>,
    features: map<string, Support>,
    fieldSource: MetadataSource,
    observedAt: int,
    confirmedAt: Option<int>,
    unavailableAt: Option<int>)

  datatype CapabilityInput = CapabilityInput(
    key: CapabilityKey,
    status: CatalogStatus,
    mode: ProtocolMode,
    sourceProtocol: Option<Protocol>,
    adapter: Option<string>,
    features: map<string, Support>,
    fieldSource: MetadataSource,
    observedAt: int)

  type Rows = map<CapabilityKey, Capability>

  datatype Refusal =
    | UnknownConfirmed | BadAdapter | UnexpectedAdapter | BadTransition | SourceNotNative | ConstraintViolated

  // ---------------------------------------------------------------------------
  // The specification.
  // ---------------------------------------------------------------------------

  /** How a protocol may be served: an adapter names a registered direction, nothing else
      names one. */
  predicate ModeOk(adapters: AdapterRegistry, p: Protocol, mode: ProtocolMode, source: Option<Protocol>,
                   adapter: Option<string>) {
    if mode.Adapter? then
      && source.Some? && adapter.Some? && !Blank(adapter.value) && adapter.value in adapters
      && adapters[adapter.value].from == p && adapters[adapter.value].to == source.value
    else source.None? && adapter.None?
  }

  predicate InputOk(adapters: AdapterRegistry, x: CapabilityInput) {
    && !(x.status.Confirmed? && x.mode.UnknownMode?)
    && ModeOk(adapters, x.key.protocol, x.mode, x.sourceProtocol, x.adapter)
  }

  function Lookup(rows: Rows, k: CapabilityKey): Option<Capability> {
    if k in rows then Some(rows[k]) else None
  }

  /** An automatic write that finds the row confirmed and would confirm it again. */
  predicate Absorbed(current: Option<Capability>, x: CapabilityInput) {
    current.Some? && current.value.status.Confirmed? && x.status.Confirmed? && x.fieldSource != UserLayer
  }

  predicate ConfirmedNativeRow(rows: Rows, k: CapabilityKey) {
    k in rows && rows[k].status.Confirmed? && rows[k].mode.Native?
  }

  /** What the database itself demands: the source model exists, and an adapter does not
      translate a protocol into itself. */
  predicate Storable(models: set<SourceModelKey>, x: CapabilityInput) {
    && SourceModelKey(x.key.sourceId, x.key.upstreamId) in models
    && (x.mode.Adapter? ==> x.sourceProtocol != Some(x.key.protocol))
  }

  predicate Accepts(adapters: AdapterRegistry, models: set<SourceModelKey>, rows: Rows, x: CapabilityInput) {
    var current := Lookup(rows, x.key);
    && InputOk(adapters, x)
    && (current.Some? ==> current.value.status.CanTransitionTo(x.status))
    && (Absorbed(current, x) ||
        (Storable(models, x) &&
         (x.mode.Adapter? ==> ConfirmedNativeRow(rows, x.key.(protocol := x.sourceProtocol.value)))))
  }

  /** The row an accepted write leaves. */
  function NextRow(current: Option<Capability>, x: CapabilityInput, now: int): Capability {
    if Absorbed(current, x) then current.value
    else
      var before := if current.Some? then current.value.confirmedAt else None;
      Capability(x.status, x.mode, x.sourceProtocol, x.adapter, x.features, x.fieldSource, x.observedAt,
                 if x.status.Confirmed? && before.None? then Some(now) else before,
                 if x.status.Unavailable? then Some(now) else None)
  }

  /** A write that stores its input: every declared column is the input's, and a confirmation or
      unavailability that the write makes is dated now. */
  ghost predicate Stored(before: Option<Capability>, after: Capability, x: CapabilityInput, now: int) {
    && after.status == x.status && after.mode == x.mode
    && after.sourceProtocol == x.sourceProtocol && after.adapter == x.adapter
    && after.features == x.features && after.fieldSource == x.fieldSource && after.observedAt == x.observedAt
    && (before.Some? && before.value.confirmedAt.Some? ==> after.confirmedAt == before.value.confirmedAt)
    && (!(before.Some? && before.value.confirmedAt.Some?) ==>
          after.confirmedAt == if x.status == Confirmed then Some(now) else None)
    && after.unavailableAt == (if x.status == Unavailable then Some(now) else None)
  }

  /** What an accepted write leaves: the row as it was when an automatic write would confirm a
      confirmed row again, and otherwise its input. */
  ghost predicate Leaves(before: Option<Capability>, after: Capability, x: CapabilityInput, now: int) {
    if before.Some? && before.value.status == Confirmed && x.status == Confirmed && x.fieldSource != UserLayer
    then after == before.value
    else Stored(before, after, x, now)
  }

  /** When a write is accepted, spelled out. */
  lemma {:induction false} AcceptedIff(adapters: AdapterRegistry, models: set<SourceModelKey>, rows: Rows,
                                       x: CapabilityInput)
    ensures Accepts(adapters, models, rows, x) <==>
              && !(x.status == Confirmed && x.mode == UnknownMode)
              && (x.mode == Adapter ==>
                    && x.sourceProtocol.Some? && x.adapter.Some? && !Blank(x.adapter.value)
                    && x.adapter.value in adapters
                    && adapters[x.adapter.value].from == x.key.protocol
                    && adapters[x.adapter.value].to == x.sourceProtocol.value)
              && (x.mode != Adapter ==> x.sourceProtocol == None && x.adapter == None)
              && (x.key in rows && rows[x.key].status == Confirmed ==> x.status != Pending)
              && (x.key in rows && rows[x.key].status == Unavailable ==> x.status != Confirmed)
              && ((&& x.key in rows && rows[x.key].status == Confirmed
                   && x.status == Confirmed && x.fieldSource != UserLayer)
                  || (&& SourceModelKey(x.key.sourceId, x.key.upstreamId) in models
                      && (x.mode == Adapter ==>
                            var source := x.key.(protocol := x.sourceProtocol.value);
                            && source.protocol != x.key.protocol
                            && source in rows && rows[source].status == Confirmed && rows[source].mode == Native)))
  {
  }

  lemma {:induction false} NextRowLeaves(before: Option<Capability>, x: CapabilityInput, now: int)
    ensures Leaves(before, NextRow(before, x, now), x, now)
  {
  }

  // ---------------------------------------------------------------------------
  // The upsert.
  // ---------------------------------------------------------------------------

  method ValidateInput(adapters: AdapterRegistry, x: CapabilityInput) returns (r: Option<Refusal>)
    ensures r.None? <==> InputOk(adapters, x)
  {
    if x.status.Confirmed? && x.mode.UnknownMode? {
      return Some(UnknownConfirmed);
    }
    match x.mode {
      case Adapter =>
        if x.sourceProtocol.None? || x.adapter.None? || Blank(x.adapter.value) || x.adapter.value !in adapters {
          return Some(BadAdapter);
        }
        var d := adapters[x.adapter.value];
        if d.from != x.key.protocol || d.to != x.sourceProtocol.value {
          return Some(BadAdapter);
        }
      case _ =>
        if x.sourceProtocol.Some? || x.adapter.Some? {
          return Some(UnexpectedAdapter);
        }
    }
    return None;
  }

  class CapabilityTable {
    const adapters: AdapterRegistry
    var models: set<SourceModelKey>
    var rows: Rows

    constructor (adapters: AdapterRegistry, models: set<SourceModelKey>)
      ensures this.adapters == adapters && this.models == models && rows == map[]
    {
      this.adapters, this.models, this.rows := adapters, models, map[];
    }

    method Upsert(x: CapabilityInput, now: int) returns (r: Result<Capability, Refusal>)
      modifies this`rows
      ensures r.Ok? <==> Accepts(adapters, models, old(rows), x)
      ensures r.Ok? ==> rows == old(rows)[x.key := NextRow(Lookup(old(rows), x.key), x, now)] && r.value == rows[x.key]
      ensures r.Ok? ==> Leaves(Lookup(old(rows), x.key), r.value, x, now)
      ensures r.Ok? ==> forall k :: k != x.key ==> Lookup(rows, k) == Lookup(old(rows), k)
      ensures r.Err? ==> rows == old(rows)
    {
      NextRowLeaves(Lookup(rows, x.key), x, now);
      var refusal := ValidateInput(adapters, x);
      if refusal.Some? {
        return Err(refusal.value);
      }
      if x.key in rows {
        var status := rows[x.key].status;
        if !status.CanTransitionTo(x.status) {
          return Err(BadTransition);
        }
        if status.Confirmed? && x.status.Confirmed? && x.fieldSource != UserLayer {
          return Ok(rows[x.key]);
        }
      }
      if x.mode.Adapter? {
        var source := x.key.(protocol := x.sourceProtocol.value);
        if !(source in rows && rows[source].status.Confirmed? && rows[source].mode.Native?) {
          return Err(SourceNotNative);
        }
      }
      if SourceModelKey(x.key.sourceId, x.key.upstreamId) !in models
         || (x.mode.Adapter? && x.sourceProtocol == Some(x.key.protocol)) {
        return Err(ConstraintViolated);
      }
      var confirmedAt := if x.status.Confirmed? then Some(now) else None;
      var unavailableAt := if x.status.Unavailable? then Some(now) else None;
      if x.key in rows {
        var stored := rows[x.key].confirmedAt;
        confirmedAt := if x.status.Confirmed? && stored.None? then confirmedAt else stored;
      }
      rows := rows[x.key := Capability(x.status, x.mode, x.sourceProtocol, x.adapter, x.features, x.fieldSource,
                                       x.observedAt, confirmedAt, unavailableAt)];
      r := Ok(rows[x.key]);
    }
  }

  // ---------------------------------------------------------------------------
  // Runs of upserts.
  // ---------------------------------------------------------------------------

  /** What every stored row satisfies. */
  predicate RowOk(adapters: AdapterRegistry, k: CapabilityKey, c: Capability) {
    && (c.status.Confirmed? ==> c.confirmedAt.Some? && !c.mode.UnknownMode?)
    && (c.status.Unavailable? <==> c.unavailableAt.Some?)
    && ModeOk(adapters, k.protocol, c.mode, c.sourceProtocol, c.adapter)
    && c.sourceProtocol != Some(k.protocol)
  }

  ghost predicate RowsOk(adapters: AdapterRegistry, rows: Rows) {
    forall k :: k in rows ==> RowOk(adapters, k, rows[k])
  }

  datatype Event = Event(input: CapabilityInput, now: int)

  /** One call of the upsert, accepted or refused. */
  ghost predicate Step(adapters: AdapterRegistry, models: set<SourceModelKey>, before: Rows, e: Event, after: Rows) {
    if Accepts(adapters, models, before, e.input)
    then after == before[e.input.key := NextRow(Lookup(before, e.input.key), e.input, e.now)]
    else after == before
  }

  ghost predicate Runs(adapters: AdapterRegistry, models: set<SourceModelKey>, states: seq<Rows>, events: seq<Event>) {
    && |states| == |events| + 1
    && forall i :: 0 <= i < |events| ==> Step(adapters, models, states[i], events[i], states[i + 1])
  }

  lemma {:induction false} StepKeepsRows(adapters: AdapterRegistry, models: set<SourceModelKey>, before: Rows,
                                         e: Event, after: Rows)
    requires RowsOk(adapters, before) && Step(adapters, models, before, e, after)
    ensures RowsOk(adapters, after)
  {
    if Accepts(adapters, models, before, e.input) {
      var k := e.input.key;
      if k in before {
        assert RowOk(adapters, k, before[k]);
      }
      assert RowOk(adapters, k, after[k]);
    }
  }

  /** Every row of every reachable table: confirmed rows carry the time they were confirmed,
      exactly the unavailable ones carry the time they went, and a row with an adapter names
      a registered one of its own direction. */
  lemma {:induction false} RunKeepsRows(adapters: AdapterRegistry, models: set<SourceModelKey>, states: seq<Rows>,
                                        events: seq<Event>, n: nat)
    requires Runs(adapters, models, states, events) && RowsOk(adapters, states[0]) && n < |states|
    ensures RowsOk(adapters, states[n])
  {
    if n > 0 {
      RunKeepsRows(adapters, models, states, events, n - 1);
      StepKeepsRows(adapters, models, states[n - 1], events[n - 1], states[n]);
    }
  }

  lemma {:induction false} RowsStay(adapters: AdapterRegistry, models: set<SourceModelKey>, states: seq<Rows>,
                                    events: seq<Event>,
                                    k: CapabilityKey, i: nat, j: nat)
    requires Runs(adapters, models, states, events) && i <= j < |states| && k in states[i]
    ensures k in states[j]
  {
    if i < j {
      RowsStay(adapters, models, states, events, k, i, j - 1);
      assert Step(adapters, models, states[j - 1], events[j - 1], states[j]);
    }
  }

  /** The time of the first confirmation is written once. */
  lemma {:induction false} ConfirmedAtIsFinal(adapters: AdapterRegistry, models: set<SourceModelKey>,
                                              states: seq<Rows>, events: seq<Event>,
                                              k: CapabilityKey, i: nat, j: nat)
    requires Runs(adapters, models, states, events) && i <= j < |states|
    requires k in states[i] && states[i][k].confirmedAt.Some?
    ensures k in states[j] && states[j][k].confirmedAt == states[i][k].confirmedAt
  {
    if i < j {
      ConfirmedAtIsFinal(adapters, models, states, events, k, i, j - 1);
      assert Step(adapters, models, states[j - 1], events[j - 1], states[j]);
    }
  }

  ghost predicate Passes(states: seq<Rows>, k: CapabilityKey, status: CatalogStatus, i: nat, j: nat) {
    exists m :: i < m < j && m < |states| && k in states[m] && states[m][k].status == status
  }

  /** A row that was unavailable and is confirmed has been pending in between. */
  lemma {:induction false} ReconfirmationPassesPending(adapters: AdapterRegistry, models: set<SourceModelKey>,
                                                       states: seq<Rows>, events: seq<Event>,
                                                       k: CapabilityKey, i: nat, j: nat)
    requires Runs(adapters, models, states, events) && i <= j < |states|
    requires k in states[i] && states[i][k].status.Unavailable?
    requires k in states[j] && states[j][k].status.Confirmed?
    ensures Passes(states, k, Pending, i, j)
  {
    if i < j {
      assert Step(adapters, models, states[j - 1], events[j - 1], states[j]);
      RowsStay(adapters, models, states, events, k, i, j - 1);
      match states[j - 1][k].status
      case Pending =>
        assert i < j - 1;
      case Confirmed =>
        ReconfirmationPassesPending(adapters, models, states, events, k, i, j - 1);
        var m :| i < m < j - 1 && m < |states| && k in states[m] && states[m][k].status == Pending;
      case Unavailable =>
    }
  }

  predicate UserWrite(e: Event, k: CapabilityKey) {
    e.input.key == k && e.input.fieldSource == UserLayer
  }

  /** While a row stays confirmed and no user writes it, nothing about it changes. */
  lemma {:induction false} ConfirmedChangesByUserOnly(adapters: AdapterRegistry, models: set<SourceModelKey>,
                                                      states: seq<Rows>, events: seq<Event>,
                                                      k: CapabilityKey, i: nat, j: nat)
    requires Runs(adapters, models, states, events) && i <= j < |states|
    requires forall m :: i <= m <= j ==> k in states[m] && states[m][k].status.Confirmed?
    requires forall m :: i <= m < j ==> !UserWrite(events[m], k)
    ensures states[j][k] == states[i][k]
  {
    if i < j {
      ConfirmedChangesByUserOnly(adapters, models, states, events, k, i, j - 1);
      assert Step(adapters, models, states[j - 1], events[j - 1], states[j]);
      assert !UserWrite(events[j - 1], k);
    }
  }

  /** The row of k is the same in all states from i to j. */
  ghost predicate Stays(states: seq<Rows>, k: CapabilityKey, i: nat, j: nat) {
    j < |states| && forall m :: i <= m <= j ==> Lookup(states[m], k) == Lookup(states[j], k)
  }

  /** The step from m to m + 1 wrote the row that state n holds, and when it did, the source
      protocol of that row was confirmed native. */
  ghost predicate WrittenOverNative(states: seq<Rows>, k: CapabilityKey, m: nat, n: nat) {
    && m < n < |states| && k in states[n]
    && Stays(states, k, m + 1, n)
    && Lookup(states[m], k) != Lookup(states[n], k)
    && ConfirmedNativeRow(states[m], SourceKey(k, states[n][k]))
  }

  /** Every row that has an adapter either has had it since the start, or was written at a step
      at which its source protocol was confirmed native. */
  lemma {:induction false} AdapterRestsOnNative(adapters: AdapterRegistry, models: set<SourceModelKey>,
                                                states: seq<Rows>,
                                                events: seq<Event>, k: CapabilityKey, n: nat)
    requires Runs(adapters, models, states, events) && n < |states|
    requires k in states[n] && states[n][k].mode.Adapter?
    ensures Stays(states, k, 0, n) || exists m: nat :: WrittenOverNative(states, k, m, n)
  {
    if n > 0 {
      assert Step(adapters, models, states[n - 1], events[n - 1], states[n]);
      if Lookup(states[n - 1], k) == Lookup(states[n], k) {
        AdapterRestsOnNative(adapters, models, states, events, k, n - 1);
        if !Stays(states, k, 0, n - 1) {
          var m: nat :| WrittenOverNative(states, k, m, n - 1);
          assert WrittenOverNative(states, k, m, n);
        }
      } else {
        assert WrittenOverNative(states, k, n - 1, n);
      }
    }
  }

  function SourceKey(k: CapabilityKey, c: Capability): CapabilityKey {
    if c.sourceProtocol.Some? then k.(protocol := c.sourceProtocol.value) else k
  }
}
