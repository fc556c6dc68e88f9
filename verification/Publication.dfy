/**
 Publication: snapshots leave the control plane in commit order and reach the live
 cell in any order.
 */
module Publication {
  import opened Base
  import opened Seqs
  import opened Features
  import opened Tables
  import opened Snapshot
  import opened Writes
  import opened ControlPlane

  /** What the live cell holds after a candidate arrives. */
  function Accept(live: RuntimeSnapshot, candidate: RuntimeSnapshot): RuntimeSnapshot {
    if candidate.revision >= live.revision then candidate else live
  }

  class AppState {
    var live: RuntimeSnapshot

    constructor (initial: RuntimeSnapshot)
      ensures live == initial
    {
      live := initial;
    }

    method ReloadSnapshot(candidate: RuntimeSnapshot) returns (accepted: bool)
      modifies this
      ensures live == Accept(old(live), candidate)
      ensures candidate.revision >= old(live).revision ==> accepted && live == candidate
      ensures candidate.revision < old(live).revision ==> !accepted && live == old(live)
      ensures live.revision >= old(live).revision && live.revision >= candidate.revision
    {
      var current := live.revision;
      if candidate.revision >= current {
        live := candidate;
      }
      accepted := candidate.revision >= current;
    }
  }

  // ---------------------------------------------------------------------------
  // The system: tables, snapshots on their way, and the live cell.
  // ---------------------------------------------------------------------------

  datatype System = System(db: Database, pending: multiset<RuntimeSnapshot>, live: RuntimeSnapshot)

  datatype Event =
    | Commit(write: Write, snapshot: RuntimeSnapshot)
    | Load(snapshot: RuntimeSnapshot)
    | Deliver(snapshot: RuntimeSnapshot)
    | Touch(db: Database)

  /** A commit sends its snapshot off, a reload reads one from the tables, a delivery puts
      one into the live cell, and a discovery changes the catalog at the same revision. */
  ghost predicate Step(adapters: AdapterRegistry, allowed: string -> bool, before: System, e: Event, after: System) {
    match e
    case Commit(w, s) =>
      && Outcome(adapters, allowed, before.db, w, after.db, Some(s))
      && after.pending == before.pending + multiset{s} && after.live == before.live
    case Load(s) =>
      Published(adapters, before.db, s) && after == before.(pending := before.pending + multiset{s})
    case Deliver(s) =>
      s in before.pending && after == before.(pending := before.pending - multiset{s}, live := Accept(before.live, s))
    case Touch(db) =>
      db.revision == before.db.revision && after == before.(db := db)
  }

  ghost predicate Runs(adapters: AdapterRegistry, allowed: string -> bool, states: seq<System>, events: seq<Event>) {
    && |states| == |events| + 1
    && forall i :: 0 <= i < |events| ==> Step(adapters, allowed, states[i], events[i], states[i + 1])
  }

  /** Nothing is ahead of the tables, and the newest revision is live or on its way. */
  ghost predicate Tracked(sys: System) {
    && sys.live.revision <= sys.db.revision
    && (forall s :: s in sys.pending ==> s.revision <= sys.db.revision)
    && (sys.live.revision == sys.db.revision || exists s :: s in sys.pending && s.revision == sys.db.revision)
  }

  /** Whatever carries the current revision is the snapshot of the current tables. */
  ghost predicate Faithful(adapters: AdapterRegistry, sys: System) {
    && (sys.live.revision == sys.db.revision ==> Published(adapters, sys.db, sys.live))
    && (forall s :: s in sys.pending && s.revision == sys.db.revision ==> Published(adapters, sys.db, s))
  }

  lemma {:induction false} CommitAdvances(adapters: AdapterRegistry, allowed: string -> bool, before: Database,
                                          w: Write, after: Database, s: RuntimeSnapshot)
    requires Outcome(adapters, allowed, before, w, after, Some(s))
    ensures after.revision == before.revision + 1 && Published(adapters, after, s) && s.revision == after.revision
  {
    assert Next(before, w).revision == before.revision + 1;
  }

  lemma {:induction false} CommitKeepsTracked(before: System, after: System, s: RuntimeSnapshot)
    requires Tracked(before) && after.db.revision == before.db.revision + 1 && s.revision == after.db.revision
    requires after.pending == before.pending + multiset{s} && after.live == before.live
    ensures Tracked(after)
  {
    assert s in after.pending;
  }

  /** While the committed revision stays, the newest one stays live or on its way as long as
      nothing newer than the live snapshot is dropped. */
  lemma {:induction false} OtherKeepsTracked(before: System, after: System)
    requires Tracked(before) && after.db.revision == before.db.revision
    requires before.live.revision <= after.live.revision <= after.db.revision
    requires forall s :: s in after.pending ==> s.revision <= after.db.revision
    requires forall s :: s in before.pending ==> s in after.pending || s.revision <= after.live.revision
    ensures Tracked(after)
  {
    if before.live.revision != before.db.revision {
      var c :| c in before.pending && c.revision == before.db.revision;
      assert c in after.pending || c.revision <= after.live.revision;
    }
  }

  lemma {:induction false} StepKeepsTracked(adapters: AdapterRegistry, allowed: string -> bool, before: System,
                                            e: Event, after: System)
    requires Tracked(before) && Step(adapters, allowed, before, e, after)
    ensures Tracked(after) && before.live.revision <= after.live.revision && before.db.revision <= after.db.revision
  {
    if e.Commit? {
      CommitAdvances(adapters, allowed, before.db, e.write, after.db, e.snapshot);
      CommitKeepsTracked(before, after, e.snapshot);
    } else {
      OtherKeepsTracked(before, after);
    }
  }

  lemma {:induction false} CommitIsFaithful(adapters: AdapterRegistry, before: System, after: System,
                                            s: RuntimeSnapshot)
    requires Tracked(before) && after.db.revision == before.db.revision + 1 && Published(adapters, after.db, s)
    requires after.pending == before.pending + multiset{s} && after.live == before.live
    ensures Faithful(adapters, after)
  {
    forall c | c in after.pending && c.revision == after.db.revision ensures c == s {
    }
  }

  lemma {:induction false} OtherStaysFaithful(adapters: AdapterRegistry, before: System, after: System)
    requires Faithful(adapters, before) && after.db == before.db
    requires after.live == before.live || after.live in before.pending
    requires forall s :: s in after.pending ==> s in before.pending || Published(adapters, before.db, s)
    ensures Faithful(adapters, after)
  {
  }

  lemma {:induction false} StepKeepsFaithful(adapters: AdapterRegistry, allowed: string -> bool, before: System,
                                             e: Event, after: System)
    requires Tracked(before) && Step(adapters, allowed, before, e, after)
    requires e.Commit? || (Faithful(adapters, before) && !e.Touch?)
    ensures Faithful(adapters, after)
  {
    if e.Commit? {
      CommitAdvances(adapters, allowed, before.db, e.write, after.db, e.snapshot);
      CommitIsFaithful(adapters, before, after, e.snapshot);
    } else {
      OtherStaysFaithful(adapters, before, after);
    }
  }

  /** The live revision never decreases, never exceeds the committed one, and equals it once
      nothing is on its way. */
  lemma {:induction false} PublicationConverges(adapters: AdapterRegistry, allowed: string -> bool,
                                                states: seq<System>, events: seq<Event>, i: nat, j: nat)
    requires Runs(adapters, allowed, states, events) && Tracked(states[0]) && i <= j < |states|
    ensures Tracked(states[j])
    ensures states[i].live.revision <= states[j].live.revision <= states[j].db.revision
    ensures states[j].pending == multiset{} ==> states[j].live.revision == states[j].db.revision
    decreases j, j - i
  {
    if j > 0 {
      PublicationConverges(adapters, allowed, states, events, if i < j then i else j - 1, j - 1);
      StepKeepsTracked(adapters, allowed, states[j - 1], events[j - 1], states[j]);
    }
  }

  ghost predicate Untouched(events: seq<Event>, i: nat, j: nat)
    requires i <= j <= |events|
  {
    forall m :: i <= m < j ==> !events[m].Touch?
  }

  ghost function FaithfulTo(adapters: AdapterRegistry): System -> bool {
    (sys: System) => Faithful(adapters, sys)
  }

  ghost predicate Keeps(F: System -> bool, before: System, after: System) {
    F(before) ==> F(after)
  }

  lemma {:induction false} KeptAlong(F: System -> bool, states: seq<System>, i: nat, j: nat)
    requires i <= j < |states| && F(states[i])
    requires forall m :: i <= m < j ==> Keeps(F, states[m], states[m + 1])
    ensures F(states[j])
  {
    if i < j {
      KeptAlong(F, states, i, j - 1);
      assert Keeps(F, states[j - 1], states[j - 1 + 1]);
    }
  }

  lemma {:induction false} StepFaithful(adapters: AdapterRegistry, allowed: string -> bool, before: System, e: Event,
                                        after: System)
    requires Tracked(before) && Step(adapters, allowed, before, e, after) && !e.Touch?
    ensures Keeps(FaithfulTo(adapters), before, after)
    ensures e.Commit? ==> FaithfulTo(adapters)(after)
  {
    if e.Commit? || Faithful(adapters, before) {
      StepKeepsFaithful(adapters, allowed, before, e, after);
    }
  }

  /** When the tables have not changed behind the revision since some commit, then however
      commits, reloads and deliveries interleave, the live snapshot is the snapshot of the
      tables as soon as nothing is on its way. */
  lemma {:induction false} LiveIsCurrent(adapters: AdapterRegistry, allowed: string -> bool, states: seq<System>,
                                         events: seq<Event>, i: nat, j: nat)
    requires Runs(adapters, allowed, states, events) && Tracked(states[0])
    requires i < j < |states| && events[i].Commit? && Untouched(events, i, j)
    requires states[j].pending == multiset{}
    ensures Published(adapters, states[j].db, states[j].live)
  {
    forall m | i <= m < j
      ensures Keeps(FaithfulTo(adapters), states[m], states[m + 1])
      ensures events[m].Commit? ==> FaithfulTo(adapters)(states[m + 1])
    {
      PublicationConverges(adapters, allowed, states, events, m, m);
      StepFaithful(adapters, allowed, states[m], events[m], states[m + 1]);
    }
    KeptAlong(FaithfulTo(adapters), states, i + 1, j);
    PublicationConverges(adapters, allowed, states, events, j, j);
  }

  // ---------------------------------------------------------------------------
  // Order of delivery.
  // ---------------------------------------------------------------------------

  /** The live snapshot after a list of deliveries. */
  function Delivered(live: RuntimeSnapshot, candidates: seq<RuntimeSnapshot>): RuntimeSnapshot {
    if candidates == [] then live
    else
      var n := |candidates| - 1;
      Accept(Delivered(live, candidates[..n]), candidates[n])
  }

  /** A candidate no other delivery can displace for good. */
  ghost predicate IsTop(live: RuntimeSnapshot, candidates: seq<RuntimeSnapshot>, c: RuntimeSnapshot) {
    c in candidates && c.revision >= live.revision && forall d :: d in candidates ==> d.revision <= c.revision
  }

  lemma {:induction false} DeliveredIsTop(live: RuntimeSnapshot, candidates: seq<RuntimeSnapshot>)
    ensures var r := Delivered(live, candidates);
            && live.revision <= r.revision && (forall d :: d in candidates ==> d.revision <= r.revision)
            && (r == live || r in candidates)
            && ((exists d :: d in candidates && d.revision >= live.revision) ==> IsTop(live, candidates, r))
  {
    if candidates != [] {
      var n := |candidates| - 1;
      assert candidates == candidates[..n] + [candidates[n]];
      DeliveredIsTop(live, candidates[..n]);
    }
  }

  lemma {:induction false} TopDeliveredLast(live: RuntimeSnapshot, candidates: seq<RuntimeSnapshot>, c: RuntimeSnapshot)
    returns (order: seq<RuntimeSnapshot>)
    requires IsTop(live, candidates, c)
    ensures multiset(order) == multiset(candidates) && Delivered(live, order) == c
  {
    var i :| 0 <= i < |candidates| && candidates[i] == c;
    var rest := candidates[..i] + candidates[i + 1..];
    order := rest + [c];
    assert candidates == candidates[..i] + [c] + candidates[i + 1..];
    DeliveredIsTop(live, rest);
    assert order[..|rest|] == rest;
  }

  ghost predicate TopsAgree(live: RuntimeSnapshot, candidates: seq<RuntimeSnapshot>) {
    forall a, b :: IsTop(live, candidates, a) && IsTop(live, candidates, b) ==> a == b
  }

  lemma {:induction false} SameTops(live: RuntimeSnapshot, s: seq<RuntimeSnapshot>, t: seq<RuntimeSnapshot>,
                                    c: RuntimeSnapshot)
    requires multiset(s) == multiset(t)
    ensures IsTop(live, s, c) <==> IsTop(live, t, c)
  {
    forall x ensures x in s <==> x in t {
      assert x in s <==> x in multiset(s);
      assert x in t <==> x in multiset(t);
    }
  }

  lemma {:induction false} SameOutcome(live: RuntimeSnapshot, candidates: seq<RuntimeSnapshot>,
                                       order: seq<RuntimeSnapshot>)
    requires TopsAgree(live, candidates) && multiset(order) == multiset(candidates)
    ensures Delivered(live, order) == Delivered(live, candidates)
  {
    DeliveredIsTop(live, candidates);
    DeliveredIsTop(live, order);
    SameTops(live, order, candidates, Delivered(live, order));
    SameTops(live, order, candidates, Delivered(live, candidates));
    forall x ensures x in order <==> x in candidates {
      assert x in order <==> x in multiset(order);
      assert x in candidates <==> x in multiset(candidates);
    }
  }

  ghost predicate OrderIrrelevant(live: RuntimeSnapshot, candidates: seq<RuntimeSnapshot>) {
    forall order :: multiset(order) == multiset(candidates) ==> Delivered(live, order) == Delivered(live, candidates)
  }

  /** The order of delivery is irrelevant exactly when all candidates of the highest revision
      are the same snapshot. */
  lemma {:induction false} OrderIrrelevantIffTopsAgree(live: RuntimeSnapshot, candidates: seq<RuntimeSnapshot>)
    ensures OrderIrrelevant(live, candidates) <==> TopsAgree(live, candidates)
  {
    if TopsAgree(live, candidates) {
      forall order | multiset(order) == multiset(candidates)
        ensures Delivered(live, order) == Delivered(live, candidates)
      {
        SameOutcome(live, candidates, order);
      }
    }
    if OrderIrrelevant(live, candidates) {
      forall a, b | IsTop(live, candidates, a) && IsTop(live, candidates, b) ensures a == b {
        var x := TopDeliveredLast(live, candidates, a);
        var y := TopDeliveredLast(live, candidates, b);
      }
    }
  }

  ghost predicate DistinctRevisions(candidates: seq<RuntimeSnapshot>) {
    forall i, j :: 0 <= i < j < |candidates| ==> candidates[i].revision != candidates[j].revision
  }

  /** So for distinct revisions, as commits give them, order never matters. */
  lemma {:induction false} DistinctRevisionsCommute(live: RuntimeSnapshot, candidates: seq<RuntimeSnapshot>)
    requires DistinctRevisions(candidates)
    ensures OrderIrrelevant(live, candidates)
  {
    forall a, b | IsTop(live, candidates, a) && IsTop(live, candidates, b) ensures a == b {
      var i :| 0 <= i < |candidates| && candidates[i] == a;
      var j :| 0 <= j < |candidates| && candidates[j] == b;
      assert a.revision == b.revision;
    }
    OrderIrrelevantIffTopsAgree(live, candidates);
  }

  // ---------------------------------------------------------------------------
  // Two reloads around a catalog change do cross.
  // ---------------------------------------------------------------------------

  /** Every discovered model has been withdrawn. */
  ghost predicate Withdrawn(db: Database) {
    forall k :: k in db.sourceModels ==> !db.sourceModels[k].availability.Available?
  }

  function EmptySnapshot(revision: int): RuntimeSnapshot {
    RuntimeSnapshot([], [], [], [], revision)
  }

  lemma {:induction false} WithdrawnHasNoRows(db: Database)
    requires Withdrawn(db)
    ensures SnapshotRows(db) == []
  {
    SnapshotRowsMembers(db);
    assert forall x :: x !in SnapshotRows(db);
    SomeMember(SnapshotRows(db));
  }

  lemma {:induction false} SomeMember<T>(s: seq<T>)
    ensures s != [] ==> exists x :: x in s
  {
    if s != [] {
      assert s[0] in s;
    }
  }

  lemma {:induction false} WithdrawnIsEmpty(adapters: AdapterRegistry, db: Database)
    requires Withdrawn(db)
    ensures Published(adapters, db, EmptySnapshot(db.revision))
  {
    WithdrawnHasNoRows(db);
    NoRows(adapters, db.revision);
  }

  lemma {:induction false} NoRows(adapters: AdapterRegistry, revision: int)
    ensures IsSnapshotOf(Kept(adapters, []), EmptySnapshot(revision))
  {
    assert Kept(adapters, []) == [];
    assert ModelsMatch([], []);
    assert SortBy([], ByModelId()) == [];
  }

  /** The system after each step of: load s, change the catalog, load t, deliver both. */
  function Crossing(db: Database, changed: Database, live: RuntimeSnapshot, s: RuntimeSnapshot, t: RuntimeSnapshot,
                    first: RuntimeSnapshot, second: RuntimeSnapshot): seq<System> {
    [System(db, multiset{}, live), System(db, multiset{s}, live), System(changed, multiset{s}, live),
     System(changed, multiset{s, t}, live), System(changed, multiset{second}, Accept(live, first)),
     System(changed, multiset{}, Accept(Accept(live, first), second))]
  }

  function CrossingEvents(changed: Database, s: RuntimeSnapshot, t: RuntimeSnapshot,
                          first: RuntimeSnapshot, second: RuntimeSnapshot): seq<Event> {
    [Load(s), Touch(changed), Load(t), Deliver(first), Deliver(second)]
  }

  ghost function StepBy(adapters: AdapterRegistry, allowed: string -> bool): (System, Event, System) -> bool {
    (x: System, e: Event, y: System) => Step(adapters, allowed, x, e, y)
  }

  lemma {:induction false} TouchStep(adapters: AdapterRegistry, allowed: string -> bool, db: Database,
                                     changed: Database,
                                     live: RuntimeSnapshot, pending: multiset<RuntimeSnapshot>)
    requires changed.revision == db.revision
    ensures StepBy(adapters, allowed)(System(db, pending, live), Touch(changed), System(changed, pending, live))
  {
  }

  lemma {:induction false} LoadStep(adapters: AdapterRegistry, allowed: string -> bool, db: Database,
                                    live: RuntimeSnapshot,
                                    s: RuntimeSnapshot, pending: multiset<RuntimeSnapshot>,
                                    next: multiset<RuntimeSnapshot>)
    requires Published(adapters, db, s) && next == pending + multiset{s}
    ensures StepBy(adapters, allowed)(System(db, pending, live), Load(s), System(db, next, live))
  {
  }

  lemma {:induction false} DeliverStep(adapters: AdapterRegistry, allowed: string -> bool, db: Database,
                                       live: RuntimeSnapshot,
                                       s: RuntimeSnapshot, pending: multiset<RuntimeSnapshot>,
                                       next: multiset<RuntimeSnapshot>)
    requires pending == next + multiset{s}
    ensures StepBy(adapters, allowed)(System(db, pending, live), Deliver(s), System(db, next, Accept(live, s)))
  {
    assert pending - multiset{s} == next;
  }

  lemma {:induction false} CrossingRuns(adapters: AdapterRegistry, allowed: string -> bool, db: Database,
                                        changed: Database,
                                        live: RuntimeSnapshot, s: RuntimeSnapshot, t: RuntimeSnapshot,
                                        first: RuntimeSnapshot, second: RuntimeSnapshot)
    requires changed.revision == db.revision && Published(adapters, db, s) && Published(adapters, changed, t)
    requires (first == s && second == t) || (first == t && second == s)
    ensures Runs(adapters, allowed, Crossing(db, changed, live, s, t, first, second),
                 CrossingEvents(changed, s, t, first, second))
  {
    LoadStep(adapters, allowed, db, live, s, multiset{}, multiset{s});
    TouchStep(adapters, allowed, db, changed, live, multiset{s});
    LoadStep(adapters, allowed, changed, live, t, multiset{s}, multiset{s, t});
    DeliverStep(adapters, allowed, changed, live, first, multiset{s, t}, multiset{second});
    DeliverStep(adapters, allowed, changed, Accept(live, first), second, multiset{second}, multiset{});
    FiveSteps(StepBy(adapters, allowed),
              System(db, multiset{}, live), Load(s), System(db, multiset{s}, live), Touch(changed),
              System(changed, multiset{s}, live), Load(t), System(changed, multiset{s, t}, live), Deliver(first),
              System(changed, multiset{second}, Accept(live, first)), Deliver(second),
              System(changed, multiset{}, Accept(Accept(live, first), second)));
    RunsByStep(adapters, allowed, Crossing(db, changed, live, s, t, first, second),
               CrossingEvents(changed, s, t, first, second));
  }

  ghost predicate StepsBy(P: (System, Event, System) -> bool, states: seq<System>, events: seq<Event>) {
    |states| == |events| + 1 && forall i :: 0 <= i < |events| ==> P(states[i], events[i], states[i + 1])
  }

  lemma {:induction false} FiveSteps(P: (System, Event, System) -> bool, s0: System, e0: Event, s1: System, e1: Event,
                                     s2: System, e2: Event, s3: System, e3: Event, s4: System, e4: Event, s5: System)
    requires P(s0, e0, s1) && P(s1, e1, s2) && P(s2, e2, s3) && P(s3, e3, s4) && P(s4, e4, s5)
    ensures StepsBy(P, [s0, s1, s2, s3, s4, s5], [e0, e1, e2, e3, e4])
  {
    var states, events := [s0, s1, s2, s3, s4, s5], [e0, e1, e2, e3, e4];
    forall i | 0 <= i < |events| ensures P(states[i], events[i], states[i + 1]) {
      assert i == 0 || i == 1 || i == 2 || i == 3 || i == 4;
    }
  }

  lemma {:induction false} RunsByStep(adapters: AdapterRegistry, allowed: string -> bool, states: seq<System>,
                                      events: seq<Event>)
    requires StepsBy(StepBy(adapters, allowed), states, events)
    ensures Runs(adapters, allowed, states, events)
  {
  }

  /** From any database with something to route: a reload, a discovery run that withdraws every
      model, and a second reload leave two snapshots of one revision on their way. Delivered in
      order they leave the empty snapshot live; delivered the other way round, the stale one,
      which is no snapshot of the tables. */
  lemma {:induction false} ReloadsCross(adapters: AdapterRegistry, allowed: string -> bool, db: Database,
                                        changed: Database,
                                        live: RuntimeSnapshot, s: RuntimeSnapshot)
    returns (t: RuntimeSnapshot, inOrder: seq<System>, crossed: seq<System>)
    requires Published(adapters, db, s) && s.routes != [] && live.revision <= db.revision
    requires changed.revision == db.revision && Withdrawn(changed)
    ensures t != s && t.revision == s.revision
    ensures Runs(adapters, allowed, inOrder, CrossingEvents(changed, s, t, s, t))
    ensures Runs(adapters, allowed, crossed, CrossingEvents(changed, s, t, t, s))
    ensures inOrder[0] == crossed[0] == System(db, multiset{}, live)
    ensures inOrder[5] == System(changed, multiset{}, t) && crossed[5] == System(changed, multiset{}, s)
    ensures Published(adapters, changed, t) && !Published(adapters, changed, s)
  {
    t := EmptySnapshot(db.revision);
    WithdrawnIsEmpty(adapters, changed);
    inOrder, crossed := Crossing(db, changed, live, s, t, s, t), Crossing(db, changed, live, s, t, t, s);
    CrossingRuns(adapters, allowed, db, changed, live, s, t, s, t);
    CrossingRuns(adapters, allowed, db, changed, live, s, t, t, s);
    StaleIsNotPublished(adapters, changed, s);
  }

  lemma {:induction false} StaleIsNotPublished(adapters: AdapterRegistry, db: Database, s: RuntimeSnapshot)
    requires Withdrawn(db) && s.routes != []
    ensures !Published(adapters, db, s)
  {
    WithdrawnHasNoRows(db);
    assert Kept(adapters, []) == [];
    assert |Keys([])| == 0;
  }
}
