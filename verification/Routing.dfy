/**
 Model routing: compiling an ordered list of upstream lines into bindings and one
 route, and reading them back as lines.
 */
module Routing {
  import opened Base
  import opened Seqs
  import opened Strings
  import opened Tables
  import opened Validation
  import opened Snapshot

  /** One upstream line: an account's access to one model of one source. */
  datatype Line = Line(sourceId: string, accountId: string, upstreamId: string)

  datatype RoutingWrite = RoutingWrite(
    publicName: string,
    displayName: string,
    enabled: bool,
    lines: seq<Line>,
    timeoutMs: Option<int>,
    maxRetries: Option<int>)

  // ---------------------------------------------------------------------------
  // Protocol lists.
  // ---------------------------------------------------------------------------

  function OneIf(f: Protocol -> bool, p: Protocol): seq<Protocol> {
    if f(p) then [p] else []
  }

  /** The selected protocols in the order of the database enum. */
  function ListedByEnum(f: Protocol -> bool): seq<Protocol> {
    OneIf(f, ChatCompletions) + OneIf(f, Responses) + OneIf(f, Messages)
  }

  /** The selected protocols in the order of their names. */
  function ListedByName(f: Protocol -> bool): seq<Protocol> {
    OneIf(f, Messages) + OneIf(f, ChatCompletions) + OneIf(f, Responses)
  }

  lemma {:induction false} ListedMembers(f: Protocol -> bool)
    ensures forall p :: p in ListedByEnum(f) <==> f(p)
    ensures forall p :: p in ListedByName(f) <==> f(p)
    ensures NoDuplicates(ListedByEnum(f)) && NoDuplicates(ListedByName(f))
  {
    var e, n := ListedByEnum(f), ListedByName(f);
    forall p: Protocol ensures (p in e <==> f(p)) && (p in n <==> f(p)) {
      match p
      case ChatCompletions => assert p in OneIf(f, ChatCompletions) <==> f(p);
      case Responses => assert p in OneIf(f, Responses) <==> f(p);
      case Messages => assert p in OneIf(f, Messages) <==> f(p);
    }
  }

  lemma {:induction false} ListedAgree(f: Protocol -> bool, g: Protocol -> bool)
    requires forall p :: f(p) == g(p)
    ensures ListedByEnum(f) == ListedByEnum(g) && ListedByName(f) == ListedByName(g)
  {
  }

  function ByName(): (Protocol, Protocol) -> bool {
    (p: Protocol, q: Protocol) => NameRank(p) <= NameRank(q)
  }

  function Among(ps: seq<Protocol>): Protocol -> bool {
    (p: Protocol) => p in ps
  }

  lemma {:induction false} SameElementsOnce<T>(s: seq<T>, t: seq<T>)
    requires NoDuplicates(s) && NoDuplicates(t) && forall x :: x in s <==> x in t
    ensures multiset(s) == multiset(t)
  {
    OccursOnce(s);
    OccursOnce(t);
    forall x ensures multiset(s)[x] == multiset(t)[x] {
      assert x in multiset(s) <==> x in s;
      assert x in multiset(t) <==> x in t;
    }
  }

  /** Sorting a duplicate-free protocol list by name lists its members in name order. */
  lemma {:induction false} SortedByName(ps: seq<Protocol>)
    requires NoDuplicates(ps)
    ensures SortBy(ps, ByName()) == ListedByName(Among(ps))
  {
    ListedMembers(Among(ps));
    SameElementsOnce(ListedByName(Among(ps)), ps);
    assert SortedBy(ListedByName(Among(ps)), ByName());
    OnlySorted(ps, ListedByName(Among(ps)));
  }

  lemma {:induction false} OnlySorted(ps: seq<Protocol>, sorted: seq<Protocol>)
    requires multiset(sorted) == multiset(ps) && SortedBy(sorted, ByName())
    ensures SortBy(ps, ByName()) == sorted
  {
    ByNameIsTotal();
    SortByIsPermutation(ps, ByName());
    SortBySorts(ps, ByName());
    SortedPermutationIsUnique(SortBy(ps, ByName()), sorted, ByName());
  }

  lemma {:induction false} ByNameIsTotal()
    ensures TotalPreorder(ByName())
    ensures forall p, q :: ByName()(p, q) && ByName()(q, p) ==> p == q
  {
  }

  // ---------------------------------------------------------------------------
  // What a line offers.
  // ---------------------------------------------------------------------------

  /** The line's source and account are enabled and its model serves the protocol. */
  predicate LineServes(db: Database, line: Line, p: Protocol) {
    var k, m := CapabilityKey(line.sourceId, line.upstreamId, p), SourceModelKey(line.sourceId, line.upstreamId);
    && k in db.capabilities && db.capabilities[k].status.Confirmed? && db.capabilities[k].mode.Routable()
    && m in db.sourceModels && db.sourceModels[m].confirmation.Confirmed? && db.sourceModels[m].availability.Available?
    && line.sourceId in db.sources && db.sources[line.sourceId].enabled
    && line.accountId in db.accounts && db.accounts[line.accountId].sourceId == line.sourceId
    && db.accounts[line.accountId].enabled
  }

  function Serves(db: Database, line: Line): Protocol -> bool {
    (p: Protocol) => LineServes(db, line, p)
  }

  /** The line's confirmed routable protocols, in database order. */
  function LineProtocols(db: Database, line: Line): seq<Protocol> {
    ListedByEnum(Serves(db, line))
  }

  predicate SameCatalog(db: Database, tx: Database) {
    && tx.sources == db.sources && tx.accounts == db.accounts
    && tx.sourceModels == db.sourceModels && tx.capabilities == db.capabilities
  }

  lemma {:induction false} LineProtocolsFromCatalog(db: Database, tx: Database, line: Line)
    requires SameCatalog(db, tx)
    ensures LineProtocols(tx, line) == LineProtocols(db, line)
  {
    ListedAgree(Serves(tx, line), Serves(db, line));
  }

  lemma {:induction false} LineProtocolsMembers(db: Database, line: Line)
    ensures forall p :: p in LineProtocols(db, line) <==> LineServes(db, line, p)
    ensures NoDuplicates(LineProtocols(db, line))
  {
    ListedMembers(Serves(db, line));
  }

  function LineFamily(db: Database, line: Line): Option<string> {
    if line.sourceId in db.sources then Some(db.sources[line.sourceId].presetId) else None
  }

  // ---------------------------------------------------------------------------
  // What the write means.
  // ---------------------------------------------------------------------------

  function LineBinding(modelId: string, line: Line, p: Protocol, position: nat, id: int): BindingRow {
    BindingRow(id, modelId, line.sourceId, line.accountId, line.upstreamId, p, Confirmed, true, 0 - position)
  }

  /** The bindings of one line: one per protocol, all at priority -position. */
  function BindingsFor(modelId: string, line: Line, position: nat, ps: seq<Protocol>,
                       firstId: int): (r: seq<BindingRow>)
    ensures |r| == |ps|
    ensures forall i :: 0 <= i < |ps| ==> r[i] == LineBinding(modelId, line, ps[i], position, firstId + i)
  {
    seq(|ps|, i requires 0 <= i < |ps| => LineBinding(modelId, line, ps[i], position, firstId + i))
  }

  function LineBindings(db: Database, modelId: string, lines: seq<Line>, firstId: int): seq<BindingRow> {
    if lines == [] then []
    else
      var n := |lines| - 1;
      var rest := LineBindings(db, modelId, lines[..n], firstId);
      rest + BindingsFor(modelId, lines[n], n, LineProtocols(db, lines[n]), firstId + |rest|)
  }

  function OnOtherModel(id: string): BindingRow -> bool {
    (b: BindingRow) => b.modelId != id
  }

  function RouteOfOtherModel(id: string): RouteRow -> bool {
    (r: RouteRow) => r.modelId != id
  }

  predicate SomeLineServes(db: Database, lines: seq<Line>, p: Protocol) {
    exists line :: line in lines && LineServes(db, line, p)
  }

  function Served(db: Database, lines: seq<Line>): Protocol -> bool {
    (p: Protocol) => SomeLineServes(db, lines, p)
  }

  /** Every protocol some line serves, in name order. */
  function UnionProtocols(db: Database, lines: seq<Line>): seq<Protocol> {
    ListedByName(Served(db, lines))
  }

  /** The status a write leaves the model in. */
  function NextStatus(current: Option<ModelRow>, lines: seq<Line>): CatalogStatus {
    if lines != [] || current.None? then Confirmed else current.value.status
  }

  /** The tables after compiling an intent, before the commit bumps the revision. */
  function RoutingTables(db: Database, id: string, input: RoutingWrite, routeId: string): Database {
    var current := if id in db.models then Some(db.models[id]) else None;
    var added := LineBindings(db, id, input.lines, db.nextBindingId);
    db.(models := db.models[id := ModelRow(input.publicName, input.displayName, NextStatus(current, input.lines),
                                           input.enabled, input.timeoutMs, input.maxRetries)],
        bindings := Filter(db.bindings, OnOtherModel(id)) + added,
        routes := Filter(db.routes, RouteOfOtherModel(id))
                  + (if input.lines == [] then []
                     else [RouteRow(routeId, id, Decoded(UnionProtocols(db, input.lines)), ORDERED_FALLBACK, false,
                                    true)]),
        nextBindingId := db.nextBindingId + |added|)
  }

  predicate BlankLine(line: Line) {
    Blank(line.sourceId) || Blank(line.accountId) || Blank(line.upstreamId)
  }

  /** `validate_model_routing`. */
  ghost predicate WellFormed(id: string, input: RoutingWrite) {
    && !Blank(id) && !Blank(input.publicName) && !Blank(input.displayName)
    && (input.enabled ==> input.lines != [])
    && (input.timeoutMs.Some? ==> input.timeoutMs.value > 0)
    && (input.maxRetries.Some? ==> input.maxRetries.value >= 0)
    && (forall line :: line in input.lines ==> !BlankLine(line))
    && NoDuplicates(input.lines)
  }

  ghost predicate LinesOneFamily(db: Database, lines: seq<Line>) {
    forall i, j :: 0 <= i < j < |lines| ==> LineFamily(db, lines[i]) == LineFamily(db, lines[j])
  }

  ghost predicate EveryLineServes(db: Database, lines: seq<Line>) {
    forall i :: 0 <= i < |lines| ==> LineProtocols(db, lines[i]) != []
  }

  predicate NameTaken(db: Database, id: string, publicName: string) {
    exists m :: m in db.models && m != id && db.models[m].publicName == publicName
  }

  /** The id the compiled route gets: the model's least route id, or a fresh one. */
  function RouteIdFor(db: Database, id: string, freshId: string): string {
    var ids := set r | r in db.routes && r.modelId == id :: r.id;
    if ids == {} then freshId else SortedKeys(ids)[0]
  }

  predicate RouteIdFree(db: Database, id: string, routeId: string) {
    forall r :: r in db.routes && r.modelId != id ==> r.id != routeId
  }

  /** When the intent compiles. The status transitions and the route check never refuse. */
  ghost predicate RoutingAccepted(db: Database, id: string, input: RoutingWrite, create: bool, freshRouteId: string) {
    && WellFormed(id, input)
    && (create <==> id !in db.models)
    && !NameTaken(db, id, input.publicName)
    && EveryLineServes(db, input.lines)
    && LinesOneFamily(db, input.lines)
    && (input.lines != [] ==> RouteIdFree(db, id, RouteIdFor(db, id, freshRouteId)))
  }

  // ---------------------------------------------------------------------------
  // The checks before the transaction.
  // ---------------------------------------------------------------------------

  method ValidateModelRouting(id: string, input: RoutingWrite) returns (ok: bool)
    ensures ok <==> WellFormed(id, input)
  {
    if Blank(id) || Blank(input.publicName) || Blank(input.displayName) {
      return false;
    }
    var errors := 0;
    if input.enabled && input.lines == [] {
      errors := errors + 1;
    }
    if input.timeoutMs.Some? && input.timeoutMs.value <= 0 {
      errors := errors + 1;
    }
    if input.maxRetries.Some? && input.maxRetries.value < 0 {
      errors := errors + 1;
    }
    var lineErrors := CheckLines(input.lines);
    ok := errors + lineErrors == 0;
  }

  method CheckLines(lines: seq<Line>) returns (errors: nat)
    ensures errors == 0 <==> (forall line :: line in lines ==> !BlankLine(line)) && NoDuplicates(lines)
  {
    errors := 0;
    var seen: set<Line> := {};
    var i := 0;
    while i < |lines|
      invariant 0 <= i <= |lines|
      invariant forall line :: line in seen <==> line in lines[..i]
      invariant errors == 0 <==> (forall line :: line in lines[..i] ==> !BlankLine(line)) && NoDuplicates(lines[..i])
    {
      var line := lines[i];
      assert lines[..i + 1] == lines[..i] + [line];
      NoDuplicatesSnoc(lines[..i], line);
      if BlankLine(line) {
        errors := errors + 1;
      }
      if line in seen {
        errors := errors + 1;
      }
      seen := seen + {line};
      i := i + 1;
    }
    assert lines[..i] == lines;
  }

  lemma {:induction false} NoDuplicatesSnoc<T>(s: seq<T>, x: T)
    ensures NoDuplicates(s + [x]) <==> NoDuplicates(s) && x !in s
  {
    var t := s + [x];
    if NoDuplicates(t) {
      forall i, j | 0 <= i < j < |s| ensures s[i] != s[j] {
        assert t[i] != t[j];
      }
      forall i | 0 <= i < |s| ensures s[i] != x {
        assert t[i] != t[|s|];
      }
    }
  }

  // ---------------------------------------------------------------------------
  // Compiling the lines.
  // ---------------------------------------------------------------------------

  ghost predicate FromLine(db: Database, modelId: string, b: BindingRow, line: Line) {
    && b.modelId == modelId && Active(b)
    && b.sourceId == line.sourceId && b.accountId == line.accountId && b.upstreamId == line.upstreamId
    && LineServes(db, line, b.protocol)
  }

  /** The bindings come from the lines, and cover what they serve. */
  ghost predicate Covers(db: Database, id: string, lines: seq<Line>, bs: seq<BindingRow>) {
    && (forall b :: b in bs ==> exists line :: line in lines && FromLine(db, id, b, line))
    && (forall line, p :: line in lines && LineServes(db, line, p) ==>
          exists b :: b in bs && FromLine(db, id, b, line) && b.protocol == p)
  }

  lemma {:induction false} BindingsForMembers(db: Database, id: string, line: Line, position: nat, firstId: int)
    ensures HoldsEach(db, id, CoveredBy(db, id))(line, position, firstId)
  {
    LineProtocolsMembers(db, line);
    var ps := LineProtocols(db, line);
    var more := BindingsFor(id, line, position, ps, firstId);
    forall b | b in more ensures FromLine(db, id, b, line) && line in [line] {
      var i :| 0 <= i < |more| && more[i] == b;
      assert ps[i] in ps;
    }
    forall p | LineServes(db, line, p) ensures exists b :: b in more && FromLine(db, id, b, line) && b.protocol == p {
      assert p in ps;
      var i :| 0 <= i < |ps| && ps[i] == p;
      assert more[i] in more;
    }
  }

  lemma {:induction false} CoversAppend(db: Database, id: string, lines: seq<Line>, line: Line, bs: seq<BindingRow>,
                                        more: seq<BindingRow>)
    requires Covers(db, id, lines, bs) && Covers(db, id, [line], more)
    ensures Covers(db, id, lines + [line], bs + more)
  {
    forall b | b in bs + more ensures exists l :: l in lines + [line] && FromLine(db, id, b, l) {
      var l :| l in lines + [line] && FromLine(db, id, b, l);
    }
    forall l, p | l in lines + [line] && LineServes(db, l, p)
      ensures exists b :: b in bs + more && FromLine(db, id, b, l) && b.protocol == p
    {
      if l in lines {
        var b :| b in bs && FromLine(db, id, b, l) && b.protocol == p;
        assert b in bs + more;
      } else {
        assert l in [line];
        var b :| b in more && FromLine(db, id, b, l) && b.protocol == p;
        assert b in bs + more;
      }
    }
  }

  ghost predicate LineStep(db: Database, id: string, firstId: int, P: (seq<Line>, seq<BindingRow>) -> bool,
                           lines: seq<Line>, line: Line, bs: seq<BindingRow>) {
    P(lines, bs) ==> P(lines + [line], bs + BindingsFor(id, line, |lines|, LineProtocols(db, line), firstId + |bs|))
  }

  lemma {:induction false} LineBindingsSnoc(db: Database, id: string, lines: seq<Line>, line: Line, firstId: int)
    ensures LineBindings(db, id, lines + [line], firstId)
         == LineBindings(db, id, lines, firstId)
            + BindingsFor(id, line, |lines|, LineProtocols(db, line), firstId + |LineBindings(db, id, lines, firstId)|)
  {
    assert (lines + [line])[..|lines|] == lines;
  }

  /** What holds of no lines and is kept by one more line holds of the compiled bindings. */
  lemma {:induction false} LineInduction(db: Database, id: string, lines: seq<Line>, firstId: int,
                                         P: (seq<Line>, seq<BindingRow>) -> bool)
    requires P([], [])
    requires forall ls, line, bs :: LineStep(db, id, firstId, P, ls, line, bs)
    ensures P(lines, LineBindings(db, id, lines, firstId))
  {
    if lines != [] {
      var init, line := lines[..|lines| - 1], lines[|lines| - 1];
      LineInduction(db, id, init, firstId, P);
      assert LineStep(db, id, firstId, P, init, line, LineBindings(db, id, init, firstId));
      LineBindingsSnoc(db, id, init, line, firstId);
      assert lines == init + [line];
    }
  }

  ghost function CoveredBy(db: Database, id: string): (seq<Line>, seq<BindingRow>) -> bool {
    (lines: seq<Line>, bs: seq<BindingRow>) => Covers(db, id, lines, bs)
  }

  lemma {:induction false} CoveredByAppend(db: Database, id: string, lines: seq<Line>, line: Line, bs: seq<BindingRow>,
                                           more: seq<BindingRow>)
    ensures Appends(CoveredBy(db, id), lines, line, bs, more)
  {
    if Covers(db, id, lines, bs) && Covers(db, id, [line], more) {
      CoversAppend(db, id, lines, line, bs, more);
    }
  }

  /** A property of lines and bindings that passes to appended lists. */
  ghost predicate Appends(P: (seq<Line>, seq<BindingRow>) -> bool, lines: seq<Line>, line: Line, bs: seq<BindingRow>,
                          more: seq<BindingRow>) {
    P(lines, bs) && P([line], more) ==> P(lines + [line], bs + more)
  }

  ghost function HoldsEach(db: Database, id: string, P: (seq<Line>, seq<BindingRow>) -> bool): (Line, nat,
                                                                                                int) -> bool {
    (line: Line, position: nat, f: int) => P([line], BindingsFor(id, line, position, LineProtocols(db, line), f))
  }

  /** What passes to appended lists and holds of every line by itself holds of all of them. */
  lemma {:induction false} LineByLine(db: Database, id: string, lines: seq<Line>, firstId: int,
                                      P: (seq<Line>, seq<BindingRow>) -> bool)
    requires P([], [])
    requires forall ls, line, bs, more :: Appends(P, ls, line, bs, more)
    requires forall line, position, f :: HoldsEach(db, id, P)(line, position, f)
    ensures P(lines, LineBindings(db, id, lines, firstId))
  {
    forall ls, line, bs ensures LineStep(db, id, firstId, P, ls, line, bs) {
      assert HoldsEach(db, id, P)(line, |ls|, firstId + |bs|);
      assert Appends(P, ls, line, bs, BindingsFor(id, line, |ls|, LineProtocols(db, line), firstId + |bs|));
    }
    LineInduction(db, id, lines, firstId, P);
  }

  lemma {:induction false} LineBindingsCovered(db: Database, id: string, lines: seq<Line>, firstId: int)
    ensures CoveredBy(db, id)(lines, LineBindings(db, id, lines, firstId))
  {
    assert CoveredBy(db, id)([], []);
    forall ls, line, bs, more ensures Appends(CoveredBy(db, id), ls, line, bs, more) {
      CoveredByAppend(db, id, ls, line, bs, more);
    }
    forall line, position, f ensures HoldsEach(db, id, CoveredBy(db, id))(line, position, f) {
      BindingsForMembers(db, id, line, position, f);
    }
    LineByLine(db, id, lines, firstId, CoveredBy(db, id));
  }

  lemma {:induction false} LineBindingsMembers(db: Database, id: string, lines: seq<Line>, firstId: int)
    ensures Covers(db, id, lines, LineBindings(db, id, lines, firstId))
  {
    LineBindingsCovered(db, id, lines, firstId);
  }

  /** The transaction's tables before the first line: the model written, its old bindings
      and routes gone. */
  ghost predicate Cleared(db: Database, base: Database, id: string) {
    && SameCatalog(db, base) && base.nextBindingId == db.nextBindingId
    && (forall b :: b in base.bindings ==> b.modelId != id)
    && id in base.models && base.models[id].status.Confirmed? && base.models[id].enabled
  }

  /** The tables with some bindings inserted. */
  function WithBindings(base: Database, firstId: int, bs: seq<BindingRow>): Database {
    base.(bindings := base.bindings + bs, nextBindingId := firstId + |bs|)
  }

  /** The tables after some lines, and the protocols met so far. */
  ghost predicate Compiled(db: Database, base: Database, id: string, done: seq<Line>, tx: Database,
                           protocols: seq<Protocol>) {
    var added := LineBindings(db, id, done, db.nextBindingId);
    && tx == WithBindings(base, db.nextBindingId, added)
    && EveryLineServes(db, done) && LinesOneFamily(db, done)
    && NoDuplicates(protocols) && (forall p :: p in protocols <==> SomeLineServes(db, done, p))
  }

  /** The line belongs to the family of the lines before it. */
  ghost predicate FitsFamily(db: Database, lines: seq<Line>, i: nat)
    requires i < |lines|
  {
    forall j :: 0 <= j < i ==> LineFamily(db, lines[j]) == LineFamily(db, lines[i])
  }

  /** The tables in the middle of line i, with the bindings of its first protocols. */
  ghost predicate MidLine(db: Database, base: Database, id: string, lines: seq<Line>, i: nat, ps: seq<Protocol>,
                          tx: Database) {
    && i < |lines|
    && var added := LineBindings(db, id, lines[..i], db.nextBindingId);
       var more := BindingsFor(id, lines[i], i, ps, db.nextBindingId + |added|);
       tx == WithBindings(base, db.nextBindingId, added + more)
  }

  lemma {:induction false} MidLineMembers(db: Database, base: Database, id: string, lines: seq<Line>, i: nat,
                                          ps: seq<Protocol>, tx: Database)
    requires Cleared(db, base, id) && MidLine(db, base, id, lines, i, ps, tx)
    ensures forall b :: b in tx.bindings && b.modelId == id ==>
              b.sourceId == lines[i].sourceId || exists j :: 0 <= j < i && b.sourceId == lines[j].sourceId
    ensures forall j, p :: 0 <= j < i && LineServes(db, lines[j], p) ==>
              exists b :: b in tx.bindings && ActiveFor(b, id) && b.sourceId == lines[j].sourceId
  {
    var done := lines[..i];
    var added := LineBindings(db, id, done, db.nextBindingId);
    var more := BindingsFor(id, lines[i], i, ps, db.nextBindingId + |added|);
    LineBindingsMembers(db, id, done, db.nextBindingId);
    forall b | b in tx.bindings && b.modelId == id
      ensures b.sourceId == lines[i].sourceId || exists j :: 0 <= j < i && b.sourceId == lines[j].sourceId
    {
      if b in added {
        var line :| line in done && FromLine(db, id, b, line);
        var j :| 0 <= j < i && done[j] == line;
        assert b.sourceId == lines[j].sourceId;
      } else {
        assert b in more;
      }
    }
    forall j, p | 0 <= j < i && LineServes(db, lines[j], p)
      ensures exists b :: b in tx.bindings && ActiveFor(b, id) && b.sourceId == lines[j].sourceId
    {
      assert done[j] in done;
      var b :| b in added && FromLine(db, id, b, done[j]) && b.protocol == p;
      assert b in tx.bindings;
    }
  }

  /** Inside a compilation the binding check is decided by the family alone. */
  lemma {:induction false} BindingDecision(db: Database, base: Database, id: string, lines: seq<Line>, i: nat,
                                           ps: seq<Protocol>,
                                           tx: Database, b: BindingRow)
    requires Cleared(db, base, id) && MidLine(db, base, id, lines, i, ps, tx)
    requires EveryLineServes(db, lines[..i]) && LinesOneFamily(db, lines[..i])
    requires FromLine(db, id, b, lines[i])
    requires ps != [] ==> FitsFamily(db, lines, i)
    ensures OneFamilyFor(tx, id)
    ensures BindingAdmitted(tx, b) <==> FitsFamily(db, lines, i)
  {
    MidLineMembers(db, base, id, lines, i, ps, tx);
    assert BindingReferences(tx, b) && Live(tx, b);
    MidLineOneFamily(db, base, id, lines, i, ps, tx);
    MidLineRivals(db, base, id, lines, i, ps, tx, b);
  }

  lemma {:induction false} MidLineOneFamily(db: Database, base: Database, id: string, lines: seq<Line>, i: nat,
                                            ps: seq<Protocol>, tx: Database)
    requires Cleared(db, base, id) && MidLine(db, base, id, lines, i, ps, tx)
    requires LinesOneFamily(db, lines[..i])
    requires ps != [] ==> FitsFamily(db, lines, i)
    ensures OneFamilyFor(tx, id)
  {
    var done := lines[..i];
    forall a, b | a in tx.bindings && b in tx.bindings && ActiveFor(a, id) && ActiveFor(b, id)
      ensures Family(tx, a) == Family(tx, b)
    {
      var x := LineOfBinding(db, base, id, lines, i, ps, tx, a);
      var y := LineOfBinding(db, base, id, lines, i, ps, tx, b);
      assert x < i && y < i ==> LineFamily(db, done[x]) == LineFamily(db, done[y]);
      assert x < i ==> done[x] == lines[x];
      assert y < i ==> done[y] == lines[y];
    }
  }

  /** The position of the line a binding of the transaction came from. */
  lemma {:induction false} LineOfBinding(db: Database, base: Database, id: string, lines: seq<Line>, i: nat,
                                         ps: seq<Protocol>,
                                         tx: Database, b: BindingRow) returns (j: nat)
    requires Cleared(db, base, id) && MidLine(db, base, id, lines, i, ps, tx)
    requires b in tx.bindings && b.modelId == id
    ensures j <= i && b.sourceId == lines[j].sourceId
    ensures j == i ==> ps != []
  {
    var done := lines[..i];
    var added := LineBindings(db, id, done, db.nextBindingId);
    var more := BindingsFor(id, lines[i], i, ps, db.nextBindingId + |added|);
    if b in added {
      LineBindingsMembers(db, id, done, db.nextBindingId);
      var line :| line in done && FromLine(db, id, b, line);
      var k :| 0 <= k < i && done[k] == line;
      j := k;
    } else {
      assert b in more;
      j := i;
    }
  }

  lemma {:induction false} MidLineRivals(db: Database, base: Database, id: string, lines: seq<Line>, i: nat,
                                         ps: seq<Protocol>,
                                         tx: Database, b: BindingRow)
    requires Cleared(db, base, id) && MidLine(db, base, id, lines, i, ps, tx)
    requires EveryLineServes(db, lines[..i]) && LinesOneFamily(db, lines[..i])
    requires b.modelId == id && b.sourceId == lines[i].sourceId && b.sourceId in db.sources
    ensures FamilyMayPass(tx, b) <==> FitsFamily(db, lines, i)
  {
    var done := lines[..i];
    if FitsFamily(db, lines, i) {
      forall o | o in tx.bindings && Rival(tx, b, o) ensures Family(tx, o) == Family(tx, b) {
        var j := LineOfBinding(db, base, id, lines, i, ps, tx, o);
      }
    }
    if FamilyMayPass(tx, b) {
      forall j | 0 <= j < i ensures LineFamily(db, lines[j]) == LineFamily(db, lines[i]) {
        if lines[j].sourceId != lines[i].sourceId {
          assert done[j] == lines[j];
          LineProtocolsMembers(db, lines[j]);
          assert LineProtocols(db, lines[j])[0] in LineProtocols(db, lines[j]);
          MidLineMembers(db, base, id, lines, i, ps, tx);
          var r :| r in tx.bindings && ActiveFor(r, id) && r.sourceId == lines[j].sourceId;
          assert Rival(tx, b, r);
          var o :| o in tx.bindings && Rival(tx, b, o) && Family(tx, o) == Family(tx, b);
          var k := LineOfBinding(db, base, id, lines, i, ps, tx, o);
          assert k < i;
          assert LineFamily(db, done[k]) == LineFamily(db, done[j]);
        }
      }
    }
  }

  /** The inner loop's state: the first protocols of line i written. */
  ghost predicate LineProgress(db: Database, base: Database, id: string, lines: seq<Line>, i: nat, ps: seq<Protocol>,
                               tx: Database, before: seq<Protocol>, protocols: seq<Protocol>) {
    && MidLine(db, base, id, lines, i, ps, tx)
    && (ps != [] ==> FitsFamily(db, lines, i))
    && Met(before, ps, protocols)
  }

  /** The protocols met, each once: those before and those of the line so far. */
  ghost predicate Met(before: seq<Protocol>, ps: seq<Protocol>, protocols: seq<Protocol>) {
    NoDuplicates(protocols) && forall p :: p in protocols <==> p in before || p in ps
  }

  lemma {:induction false} MetStep(before: seq<Protocol>, ps: seq<Protocol>, j: nat, protocols: seq<Protocol>)
    requires j < |ps| && Met(before, ps[..j], protocols)
    ensures Met(before, ps[..j + 1], if ps[j] in protocols then protocols else protocols + [ps[j]])
  {
    assert ps[..j + 1] == ps[..j] + [ps[j]];
    NoDuplicatesSnoc(protocols, ps[j]);
  }

  method WriteBinding(ghost db: Database, ghost base: Database, id: string, lines: seq<Line>, i: nat,
                      ps: seq<Protocol>, j: nat,
                      tx: Database, ghost before: seq<Protocol>, protocols: seq<Protocol>)
    returns (next: Option<Database>, protocols': seq<Protocol>)
    requires Cleared(db, base, id) && i < |lines| && j < |ps|
    requires EveryLineServes(db, lines[..i]) && LinesOneFamily(db, lines[..i])
    requires LineServes(db, lines[i], ps[j])
    requires LineProgress(db, base, id, lines, i, ps[..j], tx, before, protocols)
    ensures next.Some? <==> FitsFamily(db, lines, i)
    ensures next.Some? ==> LineProgress(db, base, id, lines, i, ps[..j + 1], next.value, before, protocols')
  {
    var line, p := lines[i], ps[j];
    var b := BindingRow(tx.nextBindingId, id, line.sourceId, line.accountId, line.upstreamId, p, Confirmed, true,
                        0 - i);
    BindingDecision(db, base, id, lines, i, ps[..j], tx, b);
    var ok := ValidateBindingReference(tx, b);
    if !ok {
      return None, protocols;
    }
    protocols' := if p in protocols then protocols else protocols + [p];
    MetStep(before, ps, j, protocols);
    MidLineStep(db, base, id, lines, i, ps, j, tx);
    next := Some(tx.(bindings := tx.bindings + [b], nextBindingId := tx.nextBindingId + 1));
  }

  lemma {:induction false} MidLineStep(db: Database, base: Database, id: string, lines: seq<Line>, i: nat,
                                       ps: seq<Protocol>, j: nat, tx: Database)
    requires j < |ps| && MidLine(db, base, id, lines, i, ps[..j], tx)
    ensures MidLine(db, base, id, lines, i, ps[..j + 1],
                    tx.(bindings := tx.bindings + [LineBinding(id, lines[i], ps[j], i, tx.nextBindingId)],
                        nextBindingId := tx.nextBindingId + 1))
  {
    var added := LineBindings(db, id, lines[..i], db.nextBindingId);
    var more := BindingsFor(id, lines[i], i, ps[..j], db.nextBindingId + |added|);
    var more' := BindingsFor(id, lines[i], i, ps[..j + 1], db.nextBindingId + |added|);
    var b := LineBinding(id, lines[i], ps[j], i, tx.nextBindingId);
    assert more' == more + [b];
    AppendIsAssociative(added, more, [b]);
    AppendIsAssociative(base.bindings, added + more, [b]);
  }

  method CompileLine(ghost db: Database, ghost base: Database, id: string, lines: seq<Line>, i: nat, tx: Database,
                     protocols: seq<Protocol>)
    returns (next: Option<Database>, protocols': seq<Protocol>)
    requires Cleared(db, base, id) && i < |lines|
    requires Compiled(db, base, id, lines[..i], tx, protocols)
    ensures next.Some? <==> LineProtocols(db, lines[i]) != [] && FitsFamily(db, lines, i)
    ensures next.Some? ==> Compiled(db, base, id, lines[..i + 1], next.value, protocols')
  {
    LineProtocolsFromCatalog(db, tx, lines[i]);
    LineProtocolsMembers(db, lines[i]);
    var ps := LineProtocols(tx, lines[i]);
    if ps == [] {
      return None, protocols;
    }
    var rows := tx;
    protocols' := protocols;
    StartLine(db, base, id, lines, i, tx, protocols);
    var j := 0;
    while j < |ps|
      invariant 0 <= j <= |ps|
      invariant LineProgress(db, base, id, lines, i, ps[..j], rows, protocols, protocols')
    {
      assert ps[j] in ps;
      var written, met := WriteBinding(db, base, id, lines, i, ps, j, rows, protocols, protocols');
      if written.None? {
        return None, protocols;
      }
      rows, protocols' := written.value, met;
      j := j + 1;
    }
    assert ps[..j] == ps;
    EndLine(db, base, id, lines, i, tx, protocols, rows, protocols');
    next := Some(rows);
  }

  lemma {:induction false} StartLine(db: Database, base: Database, id: string, lines: seq<Line>, i: nat, tx: Database,
                                     protocols: seq<Protocol>)
    requires i < |lines| && Compiled(db, base, id, lines[..i], tx, protocols)
    ensures LineProgress(db, base, id, lines, i, [], tx, protocols, protocols)
  {
    var added := LineBindings(db, id, lines[..i], db.nextBindingId);
    assert added + [] == added;
  }

  lemma {:induction false} EndLine(db: Database, base: Database, id: string, lines: seq<Line>, i: nat, tx: Database,
                                   before: seq<Protocol>,
                                   rows: Database, protocols: seq<Protocol>)
    requires i < |lines| && Compiled(db, base, id, lines[..i], tx, before)
    requires LineProtocols(db, lines[i]) != []
    requires LineProgress(db, base, id, lines, i, LineProtocols(db, lines[i]), rows, before, protocols)
    ensures Compiled(db, base, id, lines[..i + 1], rows, protocols)
  {
    assert lines[..i + 1] == lines[..i] + [lines[i]];
    EndLineBindings(db, base, id, lines, i, rows, LineBindings(db, id, lines[..i + 1], db.nextBindingId));
    EndLineFamily(db, lines, i);
    EndLineProtocols(db, lines, i, before, protocols);
  }

  lemma {:induction false} EndLineBindings(db: Database, base: Database, id: string, lines: seq<Line>, i: nat,
                                           rows: Database,
                                           all: seq<BindingRow>)
    requires i < |lines| && MidLine(db, base, id, lines, i, LineProtocols(db, lines[i]), rows)
    requires all == LineBindings(db, id, lines[..i] + [lines[i]], db.nextBindingId)
    ensures rows == WithBindings(base, db.nextBindingId, all)
  {
    LineBindingsSnoc(db, id, lines[..i], lines[i], db.nextBindingId);
  }

  lemma {:induction false} EndLineFamily(db: Database, lines: seq<Line>, i: nat)
    requires i < |lines| && EveryLineServes(db, lines[..i]) && LinesOneFamily(db, lines[..i])
    requires LineProtocols(db, lines[i]) != [] && FitsFamily(db, lines, i)
    ensures EveryLineServes(db, lines[..i + 1]) && LinesOneFamily(db, lines[..i + 1])
  {
    var done, done' := lines[..i], lines[..i + 1];
    forall a, b | 0 <= a < b < |done'| ensures LineFamily(db, done'[a]) == LineFamily(db, done'[b]) {
      assert b < i ==> LineFamily(db, done[a]) == LineFamily(db, done[b]);
    }
    forall a | 0 <= a < |done'| ensures LineProtocols(db, done'[a]) != [] {
      assert a < i ==> LineProtocols(db, done[a]) != [];
    }
  }

  lemma {:induction false} EndLineProtocols(db: Database, lines: seq<Line>, i: nat, before: seq<Protocol>,
                                            protocols: seq<Protocol>)
    requires i < |lines| && forall p :: p in before <==> SomeLineServes(db, lines[..i], p)
    requires forall p :: p in protocols <==> p in before || p in LineProtocols(db, lines[i])
    ensures forall p :: p in protocols <==> SomeLineServes(db, lines[..i + 1], p)
  {
    LineProtocolsMembers(db, lines[i]);
    assert lines[..i + 1] == lines[..i] + [lines[i]];
    forall p
      ensures SomeLineServes(db, lines[..i + 1], p) <==>
                SomeLineServes(db, lines[..i], p) || LineServes(db, lines[i], p)
    {
      if line :| line in lines[..i + 1] && LineServes(db, line, p) {
      }
    }
  }

  method CompileLines(ghost db: Database, base: Database, id: string, lines: seq<Line>)
    returns (tx: Option<Database>, protocols: seq<Protocol>)
    requires lines != [] ==> Cleared(db, base, id)
    requires base.nextBindingId == db.nextBindingId
    ensures tx.Some? <==> EveryLineServes(db, lines) && LinesOneFamily(db, lines)
    ensures tx.Some? ==> Compiled(db, base, id, lines, tx.value, protocols)
  {
    var rows := base;
    protocols := [];
    StartLines(db, base, id);
    var i := 0;
    while i < |lines|
      invariant 0 <= i <= |lines|
      invariant Compiled(db, base, id, lines[..i], rows, protocols)
    {
      var next, met := CompileLine(db, base, id, lines, i, rows, protocols);
      if next.None? {
        return None, protocols;
      }
      rows, protocols := next.value, met;
      i := i + 1;
    }
    assert lines[..i] == lines;
    tx := Some(rows);
  }

  lemma {:induction false} StartLines(db: Database, base: Database, id: string)
    requires base.nextBindingId == db.nextBindingId
    ensures Compiled(db, base, id, [], base, [])
  {
    assert base.bindings + [] == base.bindings;
  }

  // ---------------------------------------------------------------------------
  // The whole transaction, up to the commit.
  // ---------------------------------------------------------------------------

  /** The sorted list of protocols met is the union, in name order. */
  lemma {:induction false} RouteProtocols(db: Database, lines: seq<Line>, protocols: seq<Protocol>)
    requires NoDuplicates(protocols) && forall p :: p in protocols <==> SomeLineServes(db, lines, p)
    ensures SortBy(protocols, ByName()) == UnionProtocols(db, lines)
    ensures EveryLineServes(db, lines) ==> (protocols == [] <==> lines == [])
  {
    SortedByName(protocols);
    ListedAgree(Among(protocols), Served(db, lines));
    if EveryLineServes(db, lines) && lines != [] {
      LineProtocolsMembers(db, lines[0]);
      var p := LineProtocols(db, lines[0])[0];
      assert p in LineProtocols(db, lines[0]);
      assert lines[0] in lines && LineServes(db, lines[0], p);
      assert SomeLineServes(db, lines, p);
      assert p in protocols;
    }
  }

  /** The compiled route always passes the route check: its protocols are the bound ones,
      and the model has no other route left. */
  lemma {:induction false} CompiledRouteIsAdmitted(db: Database, base: Database, id: string, lines: seq<Line>,
                                                   tx: Database,
                                                   protocols: seq<Protocol>, routeId: string)
    requires Cleared(db, base, id) && Compiled(db, base, id, lines, tx, protocols)
    requires forall r :: r in base.routes ==> r.modelId != id
    ensures RouteAdmitted(tx, routeId, id, UnionProtocols(db, lines), true)
  {
    forall p | p in UnionProtocols(db, lines) ensures !Conflicts(tx, routeId, id, p) && Bound(tx, id, p) {
      ServedIsBound(db, tx, id, lines, base.bindings, p);
    }
  }

  lemma {:induction false} ServedIsBound(db: Database, tx: Database, id: string, lines: seq<Line>,
                                         others: seq<BindingRow>, p: Protocol)
    requires SameCatalog(db, tx) && tx.bindings == others + LineBindings(db, id, lines, db.nextBindingId)
    requires SomeLineServes(db, lines, p)
    ensures Bound(tx, id, p)
  {
    LineBindingsMembers(db, id, lines, db.nextBindingId);
    var line :| line in lines && LineServes(db, line, p);
    var b :| b in LineBindings(db, id, lines, db.nextBindingId) && FromLine(db, id, b, line) && b.protocol == p;
    assert b in tx.bindings;
    assert CatalogRoutable(tx, b);
  }

  /** The tables with the model written and its old bindings and routes deleted. The
      model is enabled for the duration of the transaction. */
  function BaseTables(db: Database, id: string, input: RoutingWrite): Database {
    var current := if id in db.models then Some(db.models[id]) else None;
    db.(models := db.models[id := ModelRow(input.publicName, input.displayName, NextStatus(current, input.lines), true,
                                           input.timeoutMs, input.maxRetries)],
        bindings := Filter(db.bindings, OnOtherModel(id)),
        routes := Filter(db.routes, RouteOfOtherModel(id)))
  }

  method WriteModel(db: Database, id: string, input: RoutingWrite, create: bool) returns (base: Option<Database>)
    ensures base.Some? <==>
              WellFormed(id, input) && (create <==> id !in db.models) && !NameTaken(db, id, input.publicName)
    ensures base.Some? ==> base.value == BaseTables(db, id, input)
  {
    var ok := ValidateModelRouting(id, input);
    if !ok {
      return None;
    }
    var current := if id in db.models then Some(db.models[id]) else None;
    if create != current.None? {
      return None;
    }
    if NameTaken(db, id, input.publicName) {
      return None;
    }
    var next := if input.lines == [] then (if current.Some? then current.value.status else Confirmed) else Confirmed;
    if current.Some? {
      var status := current.value.status;
      if status.Unavailable? && next.Confirmed? {
        assert status.CanTransitionTo(Pending);
        status := Pending;
      }
      assert status.CanTransitionTo(next);
    }
    base := Some(db.(models := db.models[id := ModelRow(input.publicName, input.displayName, next, true,
                                                        input.timeoutMs, input.maxRetries)],
                     bindings := Filter(db.bindings, OnOtherModel(id)),
                     routes := Filter(db.routes, RouteOfOtherModel(id))));
  }

  method WriteRoute(ghost db: Database, ghost base: Database, id: string, ghost lines: seq<Line>, tx: Database,
                    protocols: seq<Protocol>, routeId: string)
    returns (r: Option<Database>)
    requires Compiled(db, base, id, lines, tx, protocols)
    requires lines != [] ==> Cleared(db, base, id)
    requires base.routes == Filter(db.routes, RouteOfOtherModel(id))
    ensures r.Some? <==> (lines != [] ==> RouteIdFree(db, id, routeId))
    ensures r.Some? ==>
              r.value == tx.(routes := tx.routes
                             + (if lines == [] then []
                                else [RouteRow(routeId, id, Decoded(UnionProtocols(db, lines)), ORDERED_FALLBACK,
                                               false, true)]))
  {
    RouteProtocols(db, lines, protocols);
    if protocols == [] {
      assert tx.routes + [] == tx.routes;
      return Some(tx);
    }
    var sorted := SortBy(protocols, ByName());
    CompiledRouteIsAdmitted(db, base, id, lines, tx, protocols, routeId);
    var admitted := ValidateRouteReference(tx, routeId, id, sorted, true);
    assert admitted;
    FreeInBase(db, id, routeId);
    if exists q :: q in tx.routes && q.id == routeId {
      return None;
    }
    r := Some(tx.(routes := tx.routes + [RouteRow(routeId, id, Decoded(sorted), ORDERED_FALLBACK, false, true)]));
  }

  /** Compile an intent into the tables: accepted exactly when the lines serve something
      and share a family; the result is the table picture of the intent. */
  method CompileRouting(db: Database, id: string, input: RoutingWrite, create: bool, freshRouteId: string)
    returns (r: Option<Database>)
    ensures r.Some? <==> RoutingAccepted(db, id, input, create, freshRouteId)
    ensures r.Some? ==> r.value == RoutingTables(db, id, input, RouteIdFor(db, id, freshRouteId))
  {
    var base := WriteModel(db, id, input, create);
    if base.None? {
      return None;
    }
    var routeId := RouteIdFor(db, id, freshRouteId);
    var compiled, protocols := CompileLines(db, base.value, id, input.lines);
    if compiled.None? {
      return None;
    }
    var routed := WriteRoute(db, base.value, id, input.lines, compiled.value, protocols, routeId);
    if routed.None? {
      return None;
    }
    var tx := routed.value;
    FinishedTables(db, id, input, routeId, compiled.value, protocols, tx);
    r := Some(tx.(models := tx.models[id := tx.models[id].(enabled := input.enabled)]));
  }

  lemma {:induction false} FinishedTables(db: Database, id: string, input: RoutingWrite, routeId: string,
                                          compiled: Database,
                                          protocols: seq<Protocol>, tx: Database)
    requires Compiled(db, BaseTables(db, id, input), id, input.lines, compiled, protocols)
    requires tx == compiled.(routes := compiled.routes
                             + (if input.lines == [] then []
                                else [RouteRow(routeId, id, Decoded(UnionProtocols(db, input.lines)),
                                               ORDERED_FALLBACK, false, true)]))
    ensures id in tx.models
    ensures tx.(models := tx.models[id := tx.models[id].(enabled := input.enabled)])
         == RoutingTables(db, id, input, routeId)
  {
    var m := tx.models[id].(enabled := input.enabled);
    assert tx.models[id := m] == db.models[id := m];
  }

  lemma {:induction false} FreeInBase(db: Database, id: string, routeId: string)
    ensures RouteIdFree(db, id, routeId) <==>
              !exists q :: q in Filter(db.routes, RouteOfOtherModel(id)) && q.id == routeId
  {
  }
}
