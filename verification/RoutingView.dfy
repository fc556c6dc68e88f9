/**
 Reading a model's routing back: its bindings, ordered and regrouped into lines.
 */
module RoutingView {
  import opened Base
  import opened Seqs
  import opened Strings
  import opened Tables
  import opened Validation
  import opened Snapshot
  import opened Routing

  datatype LineView = LineView(line: Line, protocols: seq<Protocol>)

  datatype View = View(model: ModelRow, lines: seq<LineView>, protocols: seq<Protocol>, strategy: string)

  // ---------------------------------------------------------------------------
  // The query.
  // ---------------------------------------------------------------------------

  /** The inner joins and the WHERE clause. */
  function Shown(db: Database, id: string): BindingRow -> bool {
    (b: BindingRow) =>
      && b.modelId == id && b.sourceId in db.sources
      && b.accountId in db.accounts && db.accounts[b.accountId].sourceId == b.sourceId
  }

  predicate RouteListing(db: Database, modelId: string, p: Protocol) {
    exists r :: r in db.routes && r.modelId == modelId && r.enabled && Lists(r, p)
  }

  /** The `routable` column. */
  predicate RoutableNow(db: Database, b: BindingRow) {
    && Active(b)
    && b.sourceId in db.sources && db.sources[b.sourceId].enabled
    && b.accountId in db.accounts && db.accounts[b.accountId].enabled
    && CatalogRoutable(db, b)
    && RouteListing(db, b.modelId, b.protocol)
  }

  /** ORDER BY priority DESC, id. */
  function ViewOrder(): (BindingRow, BindingRow) -> bool {
    (a: BindingRow, b: BindingRow) => a.priority > b.priority || (a.priority == b.priority && a.id <= b.id)
  }

  function ViewRows(db: Database, id: string): seq<BindingRow> {
    SortBy(Filter(db.bindings, Shown(db, id)), ViewOrder())
  }

  function LineOf(): BindingRow -> Line {
    (b: BindingRow) => Line(b.sourceId, b.accountId, b.upstreamId)
  }

  function ProtocolOf(): BindingRow -> Protocol {
    (b: BindingRow) => b.protocol
  }

  function RoutableOn(db: Database, line: Line): BindingRow -> bool {
    (b: BindingRow) => LineOf()(b) == line && RoutableNow(db, b)
  }

  function RoutableRow(db: Database): BindingRow -> bool {
    (b: BindingRow) => RoutableNow(db, b)
  }

  function LineKeys(rows: seq<BindingRow>): seq<Line> {
    Distinct(Map(rows, LineOf()))
  }

  /** The protocols of the selected rows, in first-occurrence order. */
  function ProtocolsOf(rows: seq<BindingRow>, p: BindingRow -> bool): seq<Protocol> {
    Distinct(Map(Filter(rows, p), ProtocolOf()))
  }

  function Strategies(db: Database, id: string): set<string> {
    set r | r in db.routes && r.modelId == id :: r.strategy
  }

  /** One entry per line in order of first occurrence, its routable protocols by name. */
  ghost predicate IsViewOf(db: Database, id: string, v: View) {
    var rows := ViewRows(db, id);
    && id in db.models && v.model == db.models[id]
    && |v.lines| == |LineKeys(rows)|
    && (forall i :: 0 <= i < |v.lines| ==>
          v.lines[i] == LineView(LineKeys(rows)[i],
                                 SortBy(ProtocolsOf(rows, RoutableOn(db, LineKeys(rows)[i])), ByName())))
    && v.protocols == SortBy(ProtocolsOf(rows, RoutableRow(db)), ByName())
    && (Strategies(db, id) == {} ==> v.strategy == ORDERED_FALLBACK)
    && (forall s :: Strategies(db, id) == {s} ==> v.strategy == s)
    && (|Strategies(db, id)| > 1 ==> v.strategy == "mixed")
  }

  // ---------------------------------------------------------------------------
  // Regrouping, row by row.
  // ---------------------------------------------------------------------------

  ghost predicate Grouped(db: Database, rows: seq<BindingRow>, lines: seq<LineView>, protocols: seq<Protocol>) {
    && |lines| == |LineKeys(rows)|
    && (forall i :: 0 <= i < |lines| ==>
          lines[i] == LineView(LineKeys(rows)[i], ProtocolsOf(rows, RoutableOn(db, LineKeys(rows)[i]))))
    && protocols == ProtocolsOf(rows, RoutableRow(db))
  }

  lemma {:induction false} LineKeysSnoc(rows: seq<BindingRow>, b: BindingRow)
    ensures LineKeys(rows + [b]) == LineKeys(rows) + if LineOf()(b) in LineKeys(rows) then [] else [LineOf()(b)]
  {
    assert Map(rows + [b], LineOf())[..|rows|] == Map(rows, LineOf());
  }

  lemma {:induction false} ProtocolsOfSnoc(rows: seq<BindingRow>, b: BindingRow, p: BindingRow -> bool)
    ensures ProtocolsOf(rows + [b], p)
         == ProtocolsOf(rows, p) + if p(b) && b.protocol !in ProtocolsOf(rows, p) then [b.protocol] else []
  {
    var kept := Filter(rows, p);
    FilterSnoc(rows, b, p);
    if p(b) {
      assert Map(kept + [b], ProtocolOf())[..|kept|] == Map(kept, ProtocolOf());
    } else {
      assert Filter(rows + [b], p) == kept;
    }
  }

  lemma {:induction false} ProtocolsOfMembers(rows: seq<BindingRow>, p: BindingRow -> bool)
    ensures forall q :: q in ProtocolsOf(rows, p) <==> exists b :: b in rows && p(b) && b.protocol == q
  {
    var kept := Filter(rows, p);
    var all := Map(kept, ProtocolOf());
    forall q ensures q in all <==> exists b :: b in rows && p(b) && b.protocol == q {
      if q in all {
        var i :| 0 <= i < |all| && all[i] == q;
        assert kept[i] in kept;
      }
      if b :| b in rows && p(b) && b.protocol == q {
        assert b in kept;
        var i :| 0 <= i < |kept| && kept[i] == b;
        assert all[i] == q;
      }
    }
  }

  lemma {:induction false} UnseenLine(db: Database, rows: seq<BindingRow>, line: Line)
    requires line !in LineKeys(rows)
    ensures ProtocolsOf(rows, RoutableOn(db, line)) == []
  {
    var all := Map(rows, LineOf());
    forall b | b in rows ensures LineOf()(b) != line {
      var i :| 0 <= i < |rows| && rows[i] == b;
      assert all[i] in all;
    }
    FilterNone(rows, RoutableOn(db, line));
  }

  method FindLine(lines: seq<LineView>, line: Line) returns (index: Option<nat>)
    ensures index.None? ==> forall j :: 0 <= j < |lines| ==> lines[j].line != line
    ensures index.Some? ==> index.value < |lines| && lines[index.value].line == line
  {
    for i := 0 to |lines|
      invariant forall j :: 0 <= j < i ==> lines[j].line != line
    {
      if lines[i].line == line {
        return Some(i);
      }
    }
    return None;
  }

  /** The line's entry, appended when the row is the first of its line. */
  method Locate(ghost db: Database, ghost rows: seq<BindingRow>, lines: seq<LineView>, ghost protocols: seq<Protocol>,
                b: BindingRow)
    returns (lines': seq<LineView>, index: nat)
    requires Grouped(db, rows, lines, protocols)
    ensures |lines'| == |LineKeys(rows + [b])| && index < |lines'| && lines'[index].line == LineOf()(b)
    ensures forall i :: 0 <= i < |lines'| ==>
              var line := LineKeys(rows + [b])[i];
              lines'[i] == LineView(line, ProtocolsOf(rows, RoutableOn(db, line)))
  {
    LineKeysSnoc(rows, b);
    var line := LineOf()(b);
    var found := FindLine(lines, line);
    if found.Some? {
      assert LineKeys(rows)[found.value] == line;
      lines', index := lines, found.value;
    } else {
      UnseenLine(db, rows, line);
      lines', index := lines + [LineView(line, [])], |lines|;
    }
  }

  lemma {:induction false} OtherLineUnchanged(db: Database, rows: seq<BindingRow>, b: BindingRow, line: Line)
    requires LineOf()(b) != line || !RoutableNow(db, b) || b.protocol in ProtocolsOf(rows, RoutableOn(db, line))
    ensures ProtocolsOf(rows + [b], RoutableOn(db, line)) == ProtocolsOf(rows, RoutableOn(db, line))
  {
    ProtocolsOfSnoc(rows, b, RoutableOn(db, line));
  }

  lemma {:induction false} LineProtocolsAreProtocols(db: Database, rows: seq<BindingRow>, line: Line)
    ensures forall q :: q in ProtocolsOf(rows, RoutableOn(db, line)) ==> q in ProtocolsOf(rows, RoutableRow(db))
  {
    ProtocolsOfMembers(rows, RoutableOn(db, line));
    ProtocolsOfMembers(rows, RoutableRow(db));
  }

  method GroupRow(db: Database, ghost rows: seq<BindingRow>, lines: seq<LineView>, protocols: seq<Protocol>,
                  b: BindingRow)
    returns (lines': seq<LineView>, protocols': seq<Protocol>)
    requires Grouped(db, rows, lines, protocols)
    ensures Grouped(db, rows + [b], lines', protocols')
  {
    var index: nat;
    lines', index := Locate(db, rows, lines, protocols, b);
    protocols' := protocols;
    ghost var line, keys := LineOf()(b), LineKeys(rows + [b]);
    ProtocolsOfSnoc(rows, b, RoutableRow(db));
    ProtocolsOfSnoc(rows, b, RoutableOn(db, line));
    LineProtocolsAreProtocols(db, rows, line);
    assert keys[index] == line;
    forall i | 0 <= i < |keys| && i != index
      ensures lines'[i] == LineView(keys[i], ProtocolsOf(rows + [b], RoutableOn(db, keys[i])))
    {
      assert keys[i] != keys[index];
      OtherLineUnchanged(db, rows, b, keys[i]);
    }
    var current := lines'[index];
    if RoutableNow(db, b) && b.protocol !in current.protocols {
      lines' := lines'[index := current.(protocols := current.protocols + [b.protocol])];
      if b.protocol !in protocols {
        protocols' := protocols + [b.protocol];
      }
    }
  }

  method SortLines(lines: seq<LineView>) returns (sorted: seq<LineView>)
    ensures |sorted| == |lines|
    ensures forall i :: 0 <= i < |lines| ==> sorted[i] == LineView(lines[i].line, SortBy(lines[i].protocols, ByName()))
  {
    sorted := lines;
    for i := 0 to |lines|
      invariant |sorted| == |lines|
      invariant forall j :: 0 <= j < i ==> sorted[j] == LineView(lines[j].line, SortBy(lines[j].protocols, ByName()))
      invariant forall j :: i <= j < |lines| ==> sorted[j] == lines[j]
    {
      sorted := sorted[i := LineView(sorted[i].line, SortBy(sorted[i].protocols, ByName()))];
    }
  }

  method FetchModelRouting(db: Database, id: string) returns (r: Option<View>)
    ensures r.Some? <==> id in db.models
    ensures r.Some? ==> IsViewOf(db, id, r.value)
  {
    if id !in db.models {
      return None;
    }
    var strategy := ReadStrategy(Strategies(db, id));
    var lines, protocols := GroupRows(db, ViewRows(db, id));
    protocols := SortBy(protocols, ByName());
    lines := SortLines(lines);
    r := Some(View(db.models[id], lines, protocols, strategy));
  }

  method GroupRows(db: Database, rows: seq<BindingRow>) returns (lines: seq<LineView>, protocols: seq<Protocol>)
    ensures Grouped(db, rows, lines, protocols)
  {
    lines, protocols := [], [];
    var i := 0;
    while i < |rows|
      invariant 0 <= i <= |rows|
      invariant Grouped(db, rows[..i], lines, protocols)
    {
      assert rows[..i + 1] == rows[..i] + [rows[i]];
      lines, protocols := GroupRow(db, rows[..i], lines, protocols, rows[i]);
      i := i + 1;
    }
    assert rows[..i] == rows;
  }

  method ReadStrategy(names: set<string>) returns (strategy: string)
    ensures names == {} ==> strategy == ORDERED_FALLBACK
    ensures forall s :: names == {s} ==> strategy == s
    ensures |names| > 1 ==> strategy == "mixed"
  {
    StrategyChoice(names);
    var strategies := SortedKeys(names);
    strategy := if |strategies| == 0 then ORDERED_FALLBACK else if |strategies| == 1 then strategies[0] else "mixed";
  }

  lemma {:induction false} SortedKeysLength(names: set<string>)
    ensures |SortedKeys(names)| == |names|
    decreases |names|
  {
    if names != {} {
      var keys := SortedKeys(names);
      assert keys[0] in keys;
      SortedKeysLength(names - {keys[0]});
    }
  }

  lemma {:induction false} StrategyChoice(names: set<string>)
    ensures |SortedKeys(names)| == |names|
    ensures names == {} <==> |SortedKeys(names)| == 0
    ensures forall s :: names == {s} ==> SortedKeys(names) == [s]
  {
    SortedKeysLength(names);
    forall s | names == {s} ensures SortedKeys(names) == [s] {
      assert s in names;
      assert SortedKeys(names)[0] in names;
    }
  }

  // ---------------------------------------------------------------------------
  // Round trip.
  // ---------------------------------------------------------------------------

  lemma {:induction false} LineBindingsOrdered(db: Database, id: string, lines: seq<Line>, firstId: int)
    ensures forall b :: b in LineBindings(db, id, lines, firstId) ==>
              -|lines| < b.priority && firstId <= b.id < firstId + |LineBindings(db, id, lines, firstId)|
    ensures SortedBy(LineBindings(db, id, lines, firstId), ViewOrder())
  {
    if lines != [] {
      var n := |lines| - 1;
      LineBindingsOrdered(db, id, lines[..n], firstId);
    }
  }

  lemma {:induction false} DistinctRepeats<T(!new)>(s: seq<T>, t: seq<T>, x: T)
    requires x !in s && t != [] && forall i :: 0 <= i < |t| ==> t[i] == x
    ensures Distinct(s + t) == Distinct(s) + [x]
  {
    var n := |t| - 1;
    assert (s + t)[..|s| + n] == s + t[..n];
    if n == 0 {
      assert s + t[..n] == s;
    } else {
      DistinctRepeats(s, t[..n], x);
    }
  }

  lemma {:induction false} LineKeysRepeat(rows: seq<BindingRow>, more: seq<BindingRow>, line: Line)
    requires line !in LineKeys(rows) && more != []
    requires forall i :: 0 <= i < |more| ==> LineOf()(more[i]) == line
    ensures LineKeys(rows + more) == LineKeys(rows) + [line]
  {
    var s, t := Map(rows, LineOf()), Map(more, LineOf());
    assert Map(rows + more, LineOf()) == s + t;
    DistinctRepeats(s, t, line);
  }

  lemma {:induction false} LineKeysSnocLine(db: Database, id: string, init: seq<Line>, line: Line,
                                            rest: seq<BindingRow>, firstId: int)
    requires LineKeys(rest) == init && line !in init && LineProtocols(db, line) != []
    ensures LineKeys(rest + BindingsFor(id, line, |init|, LineProtocols(db, line), firstId + |rest|)) == init + [line]
  {
    LineKeysRepeat(rest, BindingsFor(id, line, |init|, LineProtocols(db, line), firstId + |rest|), line);
  }

  /** The bindings regroup into the lines they were made from. */
  ghost function Regroups(db: Database): (seq<Line>, seq<BindingRow>) -> bool {
    (lines: seq<Line>, bs: seq<BindingRow>) =>
      NoDuplicates(lines) && EveryLineServes(db, lines) ==> LineKeys(bs) == lines
  }

  lemma {:induction false} RegroupsStep(db: Database, id: string, lines: seq<Line>, line: Line, bs: seq<BindingRow>,
                                        firstId: int)
    ensures LineStep(db, id, firstId, Regroups(db), lines, line, bs)
  {
    var next := lines + [line];
    if NoDuplicates(next) && EveryLineServes(db, next) {
      NoDuplicatesSnoc(lines, line);
      forall i | 0 <= i < |lines| ensures LineProtocols(db, lines[i]) != [] {
        assert next[i] == lines[i];
      }
      assert next[|lines|] == line;
      if LineKeys(bs) == lines {
        LineKeysSnocLine(db, id, lines, line, bs, firstId);
      }
    }
  }

  /** The lines regrouped from the compiled bindings are the input lines, in order. */
  lemma {:induction false} LineKeysOfLineBindings(db: Database, id: string, lines: seq<Line>, firstId: int)
    ensures Regroups(db)(lines, LineBindings(db, id, lines, firstId))
  {
    assert Map<BindingRow, Line>([], LineOf()) == [];
    assert Regroups(db)([], []);
    forall ls, line, bs ensures LineStep(db, id, firstId, Regroups(db), ls, line, bs) {
      RegroupsStep(db, id, ls, line, bs, firstId);
    }
    LineInduction(db, id, lines, firstId, Regroups(db));
  }

  /** The model's rows in the compiled tables are the compiled bindings, already in order. */
  lemma {:induction false} CompiledRows(db: Database, id: string, input: RoutingWrite, routeId: string)
    ensures ViewRows(RoutingTables(db, id, input, routeId), id) == LineBindings(db, id, input.lines, db.nextBindingId)
  {
    var tx := RoutingTables(db, id, input, routeId);
    var added := LineBindings(db, id, input.lines, db.nextBindingId);
    var kept := Filter(db.bindings, OnOtherModel(id));
    FilterAppend(kept, added, Shown(tx, id));
    FilterNone(kept, Shown(tx, id));
    LineBindingsMembers(db, id, input.lines, db.nextBindingId);
    FilterAll(added, Shown(tx, id));
    assert [] + added == added;
    LineBindingsOrdered(db, id, input.lines, db.nextBindingId);
    SortBySortedIsIdentity(added, ViewOrder());
  }

  lemma {:induction false} CompiledRowIsRoutable(db: Database, id: string, input: RoutingWrite, routeId: string,
                                                 b: BindingRow, line: Line)
    requires line in input.lines && FromLine(db, id, b, line)
    ensures RoutableNow(RoutingTables(db, id, input, routeId), b)
  {
    var tx := RoutingTables(db, id, input, routeId);
    assert SomeLineServes(db, input.lines, b.protocol);
    ListedMembers(Served(db, input.lines));
    var r := tx.routes[|tx.routes| - 1];
    assert r in tx.routes && r.modelId == id && r.enabled && Lists(r, b.protocol);
    assert RouteListing(tx, id, b.protocol);
  }

  lemma {:induction false} CompiledLineServes(db: Database, id: string, input: RoutingWrite, routeId: string,
                                              line: Line, p: Protocol)
    requires line in input.lines
    ensures var tx := RoutingTables(db, id, input, routeId);
            LineServes(db, line, p) <==>
            exists b ::
              b in LineBindings(db, id, input.lines, db.nextBindingId) && RoutableOn(tx, line)(b) && b.protocol == p
  {
    var tx := RoutingTables(db, id, input, routeId);
    var rows := LineBindings(db, id, input.lines, db.nextBindingId);
    LineBindingsMembers(db, id, input.lines, db.nextBindingId);
    if b :| b in rows && RoutableOn(tx, line)(b) && b.protocol == p {
      var l :| l in input.lines && FromLine(db, id, b, l);
      assert LineOf()(b) == line && line == Line(b.sourceId, b.accountId, b.upstreamId);
      assert l == Line(l.sourceId, l.accountId, l.upstreamId);
    }
    if LineServes(db, line, p) {
      var b :| b in rows && FromLine(db, id, b, line) && b.protocol == p;
      CompiledRowIsRoutable(db, id, input, routeId, b, line);
      assert line == Line(line.sourceId, line.accountId, line.upstreamId) == LineOf()(b);
      assert RoutableOn(tx, line)(b);
    }
  }

  lemma {:induction false} CompiledLineProtocols(db: Database, id: string, input: RoutingWrite, routeId: string,
                                                 line: Line)
    requires line in input.lines
    ensures var tx := RoutingTables(db, id, input, routeId);
            SortBy(ProtocolsOf(ViewRows(tx, id), RoutableOn(tx, line)), ByName()) == ListedByName(Serves(db, line))
  {
    var tx := RoutingTables(db, id, input, routeId);
    var rows := LineBindings(db, id, input.lines, db.nextBindingId);
    CompiledRows(db, id, input, routeId);
    var ps := ProtocolsOf(rows, RoutableOn(tx, line));
    ProtocolsOfMembers(rows, RoutableOn(tx, line));
    forall p ensures p in ps <==> LineServes(db, line, p) {
      CompiledLineServes(db, id, input, routeId, line, p);
    }
    SortedByName(ps);
    ListedAgree(Among(ps), Serves(db, line));
  }

  lemma {:induction false} ShownIsServed(db: Database, id: string, lines: seq<Line>, b: BindingRow)
    requires b in LineBindings(db, id, lines, db.nextBindingId)
    ensures SomeLineServes(db, lines, b.protocol)
  {
    LineBindingsMembers(db, id, lines, db.nextBindingId);
    var l :| l in lines && FromLine(db, id, b, l);
    assert LineServes(db, l, b.protocol);
  }

  lemma {:induction false} ServedIsShown(db: Database, id: string, input: RoutingWrite, routeId: string, p: Protocol)
    returns (b: BindingRow)
    requires SomeLineServes(db, input.lines, p)
    ensures b in LineBindings(db, id, input.lines, db.nextBindingId) && b.protocol == p
    ensures RoutableNow(RoutingTables(db, id, input, routeId), b)
  {
    LineBindingsMembers(db, id, input.lines, db.nextBindingId);
    var line :| line in input.lines && LineServes(db, line, p);
    b :| b in LineBindings(db, id, input.lines, db.nextBindingId) && FromLine(db, id, b, line) && b.protocol == p;
    CompiledRowIsRoutable(db, id, input, routeId, b, line);
  }

  lemma {:induction false} CompiledProtocols(db: Database, id: string, input: RoutingWrite, routeId: string)
    ensures var tx := RoutingTables(db, id, input, routeId);
            SortBy(ProtocolsOf(ViewRows(tx, id), RoutableRow(tx)), ByName()) == UnionProtocols(db, input.lines)
  {
    var tx := RoutingTables(db, id, input, routeId);
    var rows := LineBindings(db, id, input.lines, db.nextBindingId);
    CompiledRows(db, id, input, routeId);
    var ps := ProtocolsOf(rows, RoutableRow(tx));
    ProtocolsOfMembers(rows, RoutableRow(tx));
    forall p ensures p in ps <==> SomeLineServes(db, input.lines, p) {
      if p in ps {
        var b :| b in rows && RoutableRow(tx)(b) && b.protocol == p;
        ShownIsServed(db, id, input.lines, b);
      }
      if SomeLineServes(db, input.lines, p) {
        var b := ServedIsShown(db, id, input, routeId, p);
        assert RoutableRow(tx)(b);
      }
    }
    SortedByName(ps);
    ListedAgree(Among(ps), Served(db, input.lines));
  }

  lemma {:induction false} CompiledStrategies(db: Database, id: string, input: RoutingWrite, routeId: string)
    ensures Strategies(RoutingTables(db, id, input, routeId),
                       id) == if input.lines == [] then {} else {ORDERED_FALLBACK}
  {
    var tx := RoutingTables(db, id, input, routeId);
    if input.lines != [] {
      var r := tx.routes[|tx.routes| - 1];
      assert r in tx.routes && r.modelId == id && r.strategy == ORDERED_FALLBACK;
      assert ORDERED_FALLBACK in Strategies(tx, id);
    }
  }

  /** Reading back an accepted intent gives its lines in their order, each with the
      protocols it serves, and the ordered-fallback strategy, paused or not. */
  lemma {:induction false} RoutingRoundTrip(db: Database, id: string, input: RoutingWrite, create: bool,
                                            freshRouteId: string, v: View)
    requires RoutingAccepted(db, id, input, create, freshRouteId)
    requires IsViewOf(RoutingTables(db, id, input, RouteIdFor(db, id, freshRouteId)), id, v)
    ensures |v.lines| == |input.lines|
    ensures forall i :: 0 <= i < |v.lines| ==>
              v.lines[i] == LineView(input.lines[i], ListedByName(Serves(db, input.lines[i])))
    ensures v.protocols == UnionProtocols(db, input.lines)
    ensures v.strategy == ORDERED_FALLBACK
    ensures v.model.publicName == input.publicName && v.model.displayName == input.displayName
    ensures v.model.enabled == input.enabled
    ensures v.model.timeoutMs == input.timeoutMs && v.model.maxRetries == input.maxRetries
    ensures v.model.status == if input.lines == [] && id in db.models then db.models[id].status else Confirmed
  {
    var routeId := RouteIdFor(db, id, freshRouteId);
    CompiledRows(db, id, input, routeId);
    LineKeysOfLineBindings(db, id, input.lines, db.nextBindingId);
    forall i | 0 <= i < |v.lines|
      ensures v.lines[i] == LineView(input.lines[i], ListedByName(Serves(db, input.lines[i])))
    {
      CompiledLineProtocols(db, id, input, routeId, input.lines[i]);
    }
    CompiledProtocols(db, id, input, routeId);
    CompiledStrategies(db, id, input, routeId);
  }
}
