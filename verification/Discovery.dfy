/**
 The catalog of one source's models: discovery, user edits and confirmation, each
 one transaction over the stored rows.
 */
module Discovery {
  import opened Base
  import opened Seqs
  import opened Strings
  import opened JsonDiff
  import opened Metadata

  datatype PresetRef = PresetRef(id: string, version: int)

  datatype Row = Row(
    confirmation: CatalogStatus,
    availability: Availability,
    raw: Json,
    meta: Meta,
    preset: Option<PresetRef>,
    firstDiscoveredAt: int,
    lastDiscoveredAt: int,
    confirmedAt: Option<int>,
    unavailableAt: Option<int>)

  /** One model as a discovery reports it. */
  datatype Finding = Finding(
    sourceId: string,
    modelId: string,
    raw: Json,
    upstream: Values,
    matchedPreset: Option<PresetRef>,
    presetValues: Option<Values>,
    discoveredAt: int)

  /** A successful discovery answer for this source. */
  datatype DiscoveryInput = DiscoveryInput(
    accountId: Option<string>,
    raw: Json,
    findings: seq<Finding>,
    httpStatus: int,
    latencyMs: int,
    startedAt: int,
    completedAt: int)

  datatype DiffEntry = DiffEntry(modelId: string, changedFields: seq<string>)

  datatype DiscoveryDiff = DiscoveryDiff(added: seq<DiffEntry>, changed: seq<DiffEntry>, missing: seq<DiffEntry>)

  datatype Confirmation = Confirmation(modelId: string, overrides: Values)

  type Rows = map<string, Row>

  function Lookup(rows: Rows, id: string): Option<Row> {
    if id in rows then Some(rows[id]) else None
  }

  // ---------------------------------------------------------------------------
  // What one discovery does to one row.
  // ---------------------------------------------------------------------------

  predicate ValidFinding(r: Finding) {
    && !Blank(r.sourceId) && !Blank(r.modelId)
    && r.raw.Obj?
    && (r.matchedPreset.Some? <==> r.presetValues.Some?)
    && ValidValues(r.upstream)
    && ValidPreset(r.presetValues)
  }

  /** A finding inserts a pending row or refreshes the stored one; a confirmed row keeps
      its metadata and its preset match. */
  function Refreshed(stored: Option<Row>, r: Finding): Row {
    match stored
    case None =>
      Row(Pending, Available, r.raw, Resolve(r.upstream, r.presetValues), r.matchedPreset,
          r.discoveredAt, r.discoveredAt, None, None)
    case Some(e) =>
      e.(availability := Available,
         raw := r.raw,
         meta := Refresh(e.meta, e.confirmation.Confirmed?, r.upstream, r.presetValues),
         preset := if e.confirmation.Confirmed? then e.preset else r.matchedPreset,
         lastDiscoveredAt := r.discoveredAt,
         unavailableAt := None)
  }

  function Withdrawn(e: Row, at: int): Row {
    if e.availability.NotAvailable? then e else e.(availability := NotAvailable, unavailableAt := Some(at))
  }

  predicate Reports(findings: seq<Finding>, id: string) {
    exists r :: r in findings && r.modelId == id
  }

  ghost predicate DistinctIds(findings: seq<Finding>) {
    forall i, j :: 0 <= i < j < |findings| ==> findings[i].modelId != findings[j].modelId
  }

  /** The row of a model after the discovery, in terms of the row before. */
  ghost predicate Discovered(before: Option<Row>, after: Option<Row>, id: string, input: DiscoveryInput) {
    && (forall r :: r in input.findings && r.modelId == id ==> after == Some(Refreshed(before, r)))
    && (!Reports(input.findings, id) ==>
          after == if before.Some? then Some(Withdrawn(before.value, input.completedAt)) else None)
  }

  /** When the discovery is applied at all. */
  ghost predicate Accepted(id: string, registered: bool, accounts: set<string>, rows: Rows, input: DiscoveryInput) {
    && 200 <= input.httpStatus <= 299
    && input.latencyMs >= 0 && input.startedAt <= input.completedAt
    && input.raw != Null
    && DistinctIds(input.findings)
    && (forall r :: r in input.findings ==> ValidFinding(r) && r.sourceId == id)
    && registered
    && (input.accountId.Some? ==> input.accountId.value in accounts)
    && (forall r :: r in input.findings && r.modelId in rows ==> ValidValues(rows[r.modelId].meta.values))
    && |input.findings| < 0x8000_0000
  }

  function ChangedFields(before: Row, after: Row): seq<string> {
    (if before.raw != after.raw then ["raw_snapshot"] else [])
    + (if before.meta.values != after.meta.values then ["metadata"] else [])
    + (if before.meta.sources != after.meta.sources then ["field_sources"] else [])
    + (if before.preset != after.preset then ["matched_model_preset"] else [])
    + (if before.availability != after.availability then ["availability_status"] else [])
  }

  // The three lists of the diff, as selections from the findings and the stored ids.

  function IsNew(rows: Rows): Finding -> bool {
    (r: Finding) => r.modelId !in rows
  }

  function IsChanged(rows: Rows): Finding -> bool {
    (r: Finding) => r.modelId in rows && ChangedFields(rows[r.modelId], Refreshed(Some(rows[r.modelId]), r)) != []
  }

  function IsWithdrawn(rows: Rows): string -> bool {
    (id: string) => id in rows && !rows[id].availability.NotAvailable?
  }

  function AddedEntry(): Finding -> DiffEntry {
    (r: Finding) => DiffEntry(r.modelId, ["source_model"])
  }

  function ChangedEntry(rows: Rows): Finding -> DiffEntry {
    (r: Finding) => DiffEntry(r.modelId, FindingChanges(rows, r))
  }

  function FindingChanges(rows: Rows, r: Finding): seq<string> {
    if r.modelId in rows then ChangedFields(rows[r.modelId], Refreshed(Some(rows[r.modelId]), r)) else []
  }

  function MissingEntry(): string -> DiffEntry {
    (id: string) => DiffEntry(id, ["availability_status"])
  }

  function ById(): (Finding, Finding) -> bool {
    (l: Finding, r: Finding) => StrLe(l.modelId, r.modelId)
  }

  function ByEntryId(): (DiffEntry, DiffEntry) -> bool {
    (l: DiffEntry, r: DiffEntry) => StrLe(l.modelId, r.modelId)
  }

  function ByText(): (string, string) -> bool {
    (l: string, r: string) => StrLe(l, r)
  }

  function SortFields(): DiffEntry -> DiffEntry {
    (e: DiffEntry) => DiffEntry(e.modelId, SortBy(e.changedFields, ByText()))
  }

  function Tidy(es: seq<DiffEntry>): seq<DiffEntry> {
    Map(SortBy(es, ByEntryId()), SortFields())
  }

  /** The reported diff, read back: which models each list names, in order, and why. */
  ghost predicate ExactDiff(diff: DiscoveryDiff, before: Rows, after: Rows, input: DiscoveryInput) {
    && Ascending(diff.added) && Ascending(diff.changed) && Ascending(diff.missing)
    && (forall id :: Names(diff.added, id) <==> Reports(input.findings, id) && id !in before)
    && (forall id :: Names(diff.changed, id) <==>
          Reports(input.findings, id) && id in before && id in after && ChangedFields(before[id], after[id]) != [])
    && (forall id :: Names(diff.missing, id) <==>
          !Reports(input.findings, id) && id in before && !before[id].availability.NotAvailable?)
    && (forall e :: e in diff.added ==> e.changedFields == ["source_model"])
    && (forall e :: e in diff.changed && e.modelId in before && e.modelId in after ==>
          e.changedFields == SortBy(ChangedFields(before[e.modelId], after[e.modelId]), ByText()))
    && (forall e :: e in diff.missing ==> e.changedFields == ["availability_status"])
  }

  predicate Names(es: seq<DiffEntry>, id: string) {
    exists e :: e in es && e.modelId == id
  }

  ghost predicate Ascending(es: seq<DiffEntry>) {
    forall i, j :: 0 <= i < j < |es| ==> StrLe(es[i].modelId, es[j].modelId) && es[i].modelId != es[j].modelId
  }

  // ---------------------------------------------------------------------------
  // The stored catalog and its transactions.
  // ---------------------------------------------------------------------------

  lemma {:induction false} MapSnoc<T, U>(s: seq<T>, x: T, f: T -> U)
    ensures Map(s + [x], f) == Map(s, f) + [f(x)]
  {
  }

  /** One more element of a list that is filtered and rendered as it is read. */
  lemma {:induction false} SelectSnoc<T(!new), U>(s: seq<T>, i: nat, p: T -> bool, f: T -> U)
    requires i < |s|
    ensures Map(Filter(s[..i + 1], p), f) == Map(Filter(s[..i], p), f) + if p(s[i]) then [f(s[i])] else []
  {
    assert s[..i + 1] == s[..i] + [s[i]];
    FilterSnoc(s[..i], s[i], p);
    if p(s[i]) {
      MapSnoc(Filter(s[..i], p), s[i], f);
    } else {
      assert Filter(s[..i + 1], p) == Filter(s[..i], p);
    }
  }

  /** The findings ordered by id, if no two share one. */
  method SortFindings(findings: seq<Finding>) returns (r: Option<seq<Finding>>)
    ensures r.Some? <==> DistinctIds(findings)
    ensures r.Some? ==> multiset(r.value) == multiset(findings) && StrictlyById(r.value)
  {
    var found := SortBy(findings, ById());
    SortByIsPermutation(findings, ById());
    StrLeIsOrder();
    SortBySorts(findings, ById());
    var i := 1;
    while i < |found|
      invariant 1 <= i
      invariant forall j :: 1 <= j < i && j < |found| ==> found[j - 1].modelId != found[j].modelId
    {
      if found[i - 1].modelId == found[i].modelId {
        DistinctPermutation(findings, found);
        return None;
      }
      i := i + 1;
    }
    forall j, k | 0 <= j < k < |found| ensures found[j].modelId != found[k].modelId {
      assert found[k - 1].modelId != found[k].modelId;
      assert ById()(found[j], found[k - 1]) || j == k - 1;
      assert ById()(found[k - 1], found[k]);
    }
    DistinctPermutation(findings, found);
    return Some(found);
  }

  ghost predicate StrictlyById(found: seq<Finding>) {
    forall i, j :: 0 <= i < j < |found| ==>
      StrLe(found[i].modelId, found[j].modelId) && found[i].modelId != found[j].modelId
  }

  function IdOf(): Finding -> string {
    (r: Finding) => r.modelId
  }

  lemma {:induction false} DistinctPermutation(s: seq<Finding>, t: seq<Finding>)
    requires multiset(s) == multiset(t)
    ensures DistinctIds(s) <==> DistinctIds(t)
  {
    MapPermutation(s, t, IdOf());
    DistinctAsIds(s);
    DistinctAsIds(t);
    OccursOnce(Map(s, IdOf()));
    OccursOnce(Map(t, IdOf()));
  }

  lemma {:induction false} DistinctAsIds(s: seq<Finding>)
    ensures DistinctIds(s) <==> NoDuplicates(Map(s, IdOf()))
  {
    var ids := Map(s, IdOf());
    if NoDuplicates(ids) {
      forall i, j | 0 <= i < j < |s| ensures s[i].modelId != s[j].modelId {
        assert ids[i] != ids[j];
      }
    }
  }

  /** Validate a finding and store it: `refresh_source_model_tx`. */
  method RefreshRow(rows: Rows, r: Finding) returns (result: Option<Rows>)
    ensures result.Some? <==> ValidFinding(r) && (r.modelId in rows ==> ValidValues(rows[r.modelId].meta.values))
    ensures result.Some? ==> result.value == rows[r.modelId := Refreshed(Lookup(rows, r.modelId), r)]
  {
    if !ValidFinding(r) {
      return None;
    }
    var discovered := CatalogMetadata.ResolveLayers(r.upstream, r.presetValues);
    if r.modelId !in rows {
      var meta := Meta(discovered.value.values, discovered.value.fieldSources);
      return Some(rows[r.modelId := Row(Pending, Available, r.raw, meta, r.matchedPreset,
                                        r.discoveredAt, r.discoveredAt, None, None)]);
    }
    var existing := rows[r.modelId];
    var readable := ValidateValues(existing.meta.values);
    if !readable {
      return None;
    }
    var stored := new CatalogMetadata(existing.meta);
    var refreshed := stored.RefreshedPreservingUserFields(existing.confirmation.Confirmed?, r.upstream, r.presetValues);
    var meta := Meta(refreshed.value.values, refreshed.value.fieldSources);
    var preset := if existing.confirmation.Confirmed? then existing.preset else r.matchedPreset;
    result := Some(rows[r.modelId :=
      existing.(availability := Available, raw := r.raw, meta := meta, preset := preset,
                lastDiscoveredAt := r.discoveredAt, unavailableAt := None)]);
  }

  /** Rows after storing a list of findings with distinct ids. */
  ghost predicate Stored(before: Rows, after: Rows, found: seq<Finding>) {
    && (forall j :: 0 <= j < |found| ==>
          Lookup(after, found[j].modelId) == Some(Refreshed(Lookup(before, found[j].modelId), found[j])))
    && (forall m :: !Reports(found, m) ==> Lookup(after, m) == Lookup(before, m))
  }

  ghost predicate Unreported(before: Rows, left: Rows, found: seq<Finding>) {
    && (forall m :: m in left <==> m in before && !Reports(found, m))
    && (forall m :: m in left ==> left[m] == before[m])
  }

  lemma {:induction false} ReportsSnoc(found: seq<Finding>, i: nat, m: string)
    requires i < |found|
    ensures Reports(found[..i + 1], m) <==> Reports(found[..i], m) || found[i].modelId == m
  {
    assert found[..i + 1] == found[..i] + [found[i]];
  }

  lemma {:induction false} StoredStep(before: Rows, tx: Rows, left: Rows, found: seq<Finding>, i: nat)
    requires i < |found| && StrictlyById(found)
    requires Stored(before, tx, found[..i]) && Unreported(before, left, found[..i])
    ensures Lookup(tx, found[i].modelId) == Lookup(before, found[i].modelId)
    ensures var id := found[i].modelId;
            && Stored(before, tx[id := Refreshed(Lookup(before, id), found[i])], found[..i + 1])
            && Unreported(before, left - {id}, found[..i + 1])
  {
    var id := found[i].modelId;
    assert !Reports(found[..i], id);
    forall m ensures Reports(found[..i + 1], m) <==> Reports(found[..i], m) || id == m {
      ReportsSnoc(found, i, m);
    }
    var tx' := tx[id := Refreshed(Lookup(before, id), found[i])];
    var done := found[..i + 1];
    forall j | 0 <= j < |done|
      ensures Lookup(tx', done[j].modelId) == Some(Refreshed(Lookup(before, done[j].modelId), done[j]))
    {
      assert j < i ==> found[..i][j] == done[j];
    }
  }

  /** Store one finding and say what it did to the row that was there. */
  method StoreOne(rows: Rows, previous: Option<Row>, r: Finding)
    returns (next: Option<Rows>, added: seq<DiffEntry>, changed: seq<DiffEntry>)
    requires ValidFinding(r) && previous == Lookup(rows, r.modelId)
    ensures next.Some? <==> (previous.Some? ==> ValidValues(previous.value.meta.values))
    ensures next.Some? ==> next.value == rows[r.modelId := Refreshed(previous, r)]
    ensures next.Some? ==> added == if previous.None? then [DiffEntry(r.modelId, ["source_model"])] else []
    ensures next.Some? ==>
              changed == if previous.Some? && ChangedFields(previous.value, Refreshed(previous, r)) != []
                         then [DiffEntry(r.modelId, ChangedFields(previous.value, Refreshed(previous, r)))] else []
  {
    added, changed := [], [];
    next := RefreshRow(rows, r);
    if next.None? {
      return;
    }
    var current := next.value[r.modelId];
    if previous.None? {
      added := [DiffEntry(r.modelId, ["source_model"])];
    } else {
      var fields := ChangedFields(previous.value, current);
      if fields != [] {
        changed := [DiffEntry(r.modelId, fields)];
      }
    }
  }

  ghost predicate Readable(before: Rows, found: seq<Finding>) {
    forall j :: 0 <= j < |found| && found[j].modelId in before ==> ValidValues(before[found[j].modelId].meta.values)
  }

  lemma {:induction false} ReadableStep(before: Rows, found: seq<Finding>, i: nat)
    requires i < |found|
    ensures Readable(before, found[..i + 1]) <==>
              Readable(before, found[..i])
              && (found[i].modelId in before ==> ValidValues(before[found[i].modelId].meta.values))
    ensures Readable(before, found) ==> Readable(before, found[..i + 1])
  {
    var p, q := found[..i], found[..i + 1];
    assert q == p + [found[i]];
    if Readable(before, q) {
      forall j | 0 <= j < |p| && p[j].modelId in before ensures ValidValues(before[p[j].modelId].meta.values) {
        assert q[j] == p[j];
      }
      assert q[i] == found[i];
    }
  }

  /** The state of the first half after a prefix of the findings. */
  ghost predicate Progress(before: Rows, done: seq<Finding>, rows: Rows, left: Rows, added: seq<DiffEntry>,
                           changed: seq<DiffEntry>) {
    && Stored(before, rows, done) && Unreported(before, left, done)
    && Readable(before, done)
    && added == Map(Filter(done, IsNew(before)), AddedEntry())
    && changed == Map(Filter(done, IsChanged(before)), ChangedEntry(before))
  }

  lemma {:induction false} ProgressStep(before: Rows, found: seq<Finding>, i: nat, rows: Rows, left: Rows,
                     added: seq<DiffEntry>, changed: seq<DiffEntry>)
    requires i < |found| && StrictlyById(found)
    requires Progress(before, found[..i], rows, left, added, changed)
    requires found[i].modelId in before ==> ValidValues(before[found[i].modelId].meta.values)
    ensures var r := found[i];
            Progress(before, found[..i + 1], rows[r.modelId := Refreshed(Lookup(before, r.modelId), r)],
                     left - {r.modelId},
                     added + (if r.modelId !in before then [DiffEntry(r.modelId, ["source_model"])] else []),
                     changed + (if FindingChanges(before, r) == [] then []
                                else [DiffEntry(r.modelId, FindingChanges(before, r))]))
  {
    StoredStep(before, rows, left, found, i);
    ReadableStep(before, found, i);
    SelectSnoc(found, i, IsNew(before), AddedEntry());
    SelectSnoc(found, i, IsChanged(before), ChangedEntry(before));
  }

  method StoreNext(ghost before: Rows, found: seq<Finding>, i: nat, rows: Rows, left: Rows,
                   added: seq<DiffEntry>, changed: seq<DiffEntry>)
    returns (next: Option<Rows>, more: seq<DiffEntry>, diff: seq<DiffEntry>)
    requires i < |found| && StrictlyById(found) && ValidFinding(found[i])
    requires Progress(before, found[..i], rows, left, added, changed)
    ensures next.None? ==> !Readable(before, found)
    ensures next.Some? ==>
              Progress(before, found[..i + 1], next.value, left - {found[i].modelId}, added + more, changed + diff)
  {
    var r := found[i];
    PreviousRow(before, rows, left, found, i);
    var previous := if r.modelId in left then Some(left[r.modelId]) else None;
    next, more, diff := StoreOne(rows, previous, r);
    if next.None? {
      ReadableStep(before, found, i);
    } else {
      ProgressStep(before, found, i, rows, left, added, changed);
    }
  }

  /** First half of a discovery: store each finding, note what is new and what changed. */
  method StoreFindings(before: Rows, found: seq<Finding>)
    returns (tx: Option<Rows>, left: Rows, added: seq<DiffEntry>, changed: seq<DiffEntry>)
    requires StrictlyById(found)
    requires forall j :: 0 <= j < |found| ==> ValidFinding(found[j])
    ensures tx.Some? <==> Readable(before, found)
    ensures tx.Some? ==> Progress(before, found, tx.value, left, added, changed)
  {
    var rows := before;
    left, added, changed := before, [], [];
    var i := 0;
    while i < |found|
      invariant 0 <= i <= |found|
      invariant Progress(before, found[..i], rows, left, added, changed)
    {
      var next, more, diff := StoreNext(before, found, i, rows, left, added, changed);
      if next.None? {
        return None, left, added, changed;
      }
      rows, left, added, changed := next.value, left - {found[i].modelId}, added + more, changed + diff;
      i := i + 1;
    }
    assert found[..i] == found;
    tx := Some(rows);
  }

  lemma {:induction false} PreviousRow(before: Rows, rows: Rows, left: Rows, found: seq<Finding>, i: nat)
    requires i < |found| && StrictlyById(found)
    requires Stored(before, rows, found[..i]) && Unreported(before, left, found[..i])
    ensures Lookup(left, found[i].modelId) == Lookup(before, found[i].modelId) == Lookup(rows, found[i].modelId)
  {
    assert !Reports(found[..i], found[i].modelId);
  }

  /** Rows after withdrawing the listed ids. */
  ghost predicate WithdrawnUpTo(before: Rows, left: Rows, tx: Rows, done: seq<string>, at: int) {
    forall m :: Lookup(tx, m) == if m in left && m in done then Some(Withdrawn(left[m], at)) else Lookup(before, m)
  }

  lemma {:induction false} WithdrawStep(before: Rows, left: Rows, tx: Rows, keys: seq<string>, i: nat, at: int)
    requires i < |keys| && keys[i] in left && keys[i] in before && before[keys[i]] == left[keys[i]]
    requires WithdrawnUpTo(before, left, tx, keys[..i], at)
    ensures WithdrawnUpTo(before, left, tx[keys[i] := Withdrawn(left[keys[i]], at)], keys[..i + 1], at)
    ensures left[keys[i]].availability.NotAvailable? ==> WithdrawnUpTo(before, left, tx, keys[..i + 1], at)
  {
    assert keys[..i + 1] == keys[..i] + [keys[i]];
  }

  /** Second half: withdraw what the source no longer reports. */
  method WithdrawRest(before: Rows, left: Rows, keys: seq<string>, at: int) returns (tx: Rows, missing: seq<DiffEntry>)
    requires forall m :: m in left ==> m in before && before[m] == left[m]
    requires forall m :: m in keys <==> m in left
    ensures WithdrawnUpTo(before, left, tx, keys, at)
    ensures missing == Map(Filter(keys, IsWithdrawn(left)), MissingEntry())
  {
    tx, missing := before, [];
    var i := 0;
    while i < |keys|
      invariant 0 <= i <= |keys|
      invariant WithdrawnUpTo(before, left, tx, keys[..i], at)
      invariant missing == Map(Filter(keys[..i], IsWithdrawn(left)), MissingEntry())
    {
      var m := keys[i];
      assert m in keys;
      SelectSnoc(keys, i, IsWithdrawn(left), MissingEntry());
      WithdrawStep(before, left, tx, keys, i, at);
      var previous := left[m];
      if !previous.availability.NotAvailable? {
        tx := tx[m := previous.(availability := NotAvailable, unavailableAt := Some(at))];
        missing := missing + [DiffEntry(m, ["availability_status"])];
      }
      i := i + 1;
    }
    assert keys[..i] == keys;
  }

  // ---------------------------------------------------------------------------
  // From the lists the procedure builds to the diff they stand for.
  // ---------------------------------------------------------------------------

  function StrictById(): (Finding, Finding) -> bool {
    (l: Finding, r: Finding) => StrLe(l.modelId, r.modelId) && l.modelId != r.modelId
  }

  function StrictText(): (string, string) -> bool {
    (l: string, r: string) => StrLe(l, r) && l != r
  }

  /** Selected findings, rendered: ascending, and naming exactly the selected ids. */
  lemma {:induction false} SelectedFindings(found: seq<Finding>, p: Finding -> bool, f: Finding -> DiffEntry)
    requires StrictlyById(found)
    requires forall r :: f(r).modelId == r.modelId
    ensures var es := Map(Filter(found, p), f);
            && Ascending(es)
            && (forall id :: Names(es, id) <==> exists r :: r in found && p(r) && r.modelId == id)
            && (forall e :: e in es ==> exists r :: r in found && p(r) && e == f(r))
  {
    assert SortedBy(found, StrictById());
    FilterKeepsSorted(found, StrictById(), p);
    var fs := Filter(found, p);
    var es := Map(fs, f);
    forall i, j | 0 <= i < j < |es|
      ensures StrLe(es[i].modelId, es[j].modelId) && es[i].modelId != es[j].modelId
    {
      assert StrictById()(fs[i], fs[j]);
    }
    forall e | e in es ensures exists r :: r in found && p(r) && e == f(r) {
      var i :| 0 <= i < |es| && es[i] == e;
      assert fs[i] in fs;
    }
    forall id ensures Names(es, id) <==> exists r :: r in found && p(r) && r.modelId == id {
      if r :| r in found && p(r) && r.modelId == id {
        assert r in fs;
        var i :| 0 <= i < |fs| && fs[i] == r;
        assert es[i] in es && es[i].modelId == id;
      }
    }
  }

  lemma {:induction false} SelectedIds(keys: seq<string>, p: string -> bool, f: string -> DiffEntry)
    requires StrictlyAscending(keys)
    requires forall k :: f(k).modelId == k
    ensures var es := Map(Filter(keys, p), f);
            && Ascending(es)
            && (forall id :: Names(es, id) <==> id in keys && p(id))
            && (forall e :: e in es ==> e == f(e.modelId))
  {
    assert SortedBy(keys, StrictText());
    FilterKeepsSorted(keys, StrictText(), p);
    var ks := Filter(keys, p);
    var es := Map(ks, f);
    forall i, j | 0 <= i < j < |es|
      ensures StrLe(es[i].modelId, es[j].modelId) && es[i].modelId != es[j].modelId
    {
      assert StrictText()(ks[i], ks[j]);
    }
    forall id ensures Names(es, id) <==> id in keys && p(id) {
      if id in keys && p(id) {
        var i :| 0 <= i < |ks| && ks[i] == id;
        assert es[i] in es && es[i].modelId == id;
      }
    }
  }

  /** Sorting a list that is already ascending only sorts the field names inside. */
  lemma {:induction false} TidyAscending(es: seq<DiffEntry>)
    requires Ascending(es)
    ensures Tidy(es) == Map(es, SortFields())
    ensures Ascending(Tidy(es))
    ensures forall id :: Names(Tidy(es), id) <==> Names(es, id)
    ensures forall e :: e in Tidy(es) ==>
              exists d :: d in es && e == DiffEntry(d.modelId, SortBy(d.changedFields, ByText()))
  {
    SortBySortedIsIdentity(es, ByEntryId());
    var ts := Map(es, SortFields());
    forall id ensures Names(ts, id) <==> Names(es, id) {
      if e :| e in es && e.modelId == id {
        var i :| 0 <= i < |es| && es[i] == e;
        assert ts[i] in ts && ts[i].modelId == id;
      }
    }
  }

  lemma {:induction false} SortOne(x: string)
    ensures SortBy([x], ByText()) == [x]
  {
    SortBySortedIsIdentity([x], ByText());
  }

  lemma {:induction false} AddedIsExact(found: seq<Finding>, before: Rows, added: seq<DiffEntry>)
    requires StrictlyById(found) && added == Map(Filter(found, IsNew(before)), AddedEntry())
    ensures Ascending(Tidy(added))
    ensures forall id :: Names(Tidy(added), id) <==> Reports(found, id) && id !in before
    ensures forall e :: e in Tidy(added) ==> e.changedFields == ["source_model"]
  {
    SelectedFindings(found, IsNew(before), AddedEntry());
    TidyAscending(added);
    SortOne("source_model");
  }

  lemma {:induction false} MissingIsExact(keys: seq<string>, left: Rows, missing: seq<DiffEntry>)
    requires StrictlyAscending(keys) && forall m :: m in keys <==> m in left
    requires missing == Map(Filter(keys, IsWithdrawn(left)), MissingEntry())
    ensures Ascending(Tidy(missing))
    ensures forall id :: Names(Tidy(missing), id) <==> id in left && !left[id].availability.NotAvailable?
    ensures forall e :: e in Tidy(missing) ==> e.changedFields == ["availability_status"]
  {
    SelectedIds(keys, IsWithdrawn(left), MissingEntry());
    TidyAscending(missing);
    SortOne("availability_status");
  }

  lemma {:induction false} ChangedIsExact(found: seq<Finding>, before: Rows, after: Rows, changed: seq<DiffEntry>)
    requires StrictlyById(found) && changed == Map(Filter(found, IsChanged(before)), ChangedEntry(before))
    requires forall r :: r in found ==> Lookup(after, r.modelId) == Some(Refreshed(Lookup(before, r.modelId), r))
    ensures Ascending(Tidy(changed))
    ensures forall id :: Names(Tidy(changed), id) <==>
              Reports(found, id) && id in before && id in after && ChangedFields(before[id], after[id]) != []
    ensures forall e :: e in Tidy(changed) && e.modelId in before && e.modelId in after ==>
              e.changedFields == SortBy(ChangedFields(before[e.modelId], after[e.modelId]), ByText())
  {
    SelectedFindings(found, IsChanged(before), ChangedEntry(before));
    TidyAscending(changed);
    forall r | r in found && r.modelId in before
      ensures r.modelId in after && FindingChanges(before, r) == ChangedFields(before[r.modelId], after[r.modelId])
    {
    }
  }

  /** What the two halves of a discovery add up to. */
  lemma {:induction false} DiscoveryOutcome(input: DiscoveryInput, found: seq<Finding>, before: Rows, mid: Rows,
                                            left: Rows,
                         keys: seq<string>, after: Rows)
    requires multiset(found) == multiset(input.findings) && StrictlyById(found)
    requires Stored(before, mid, found) && Unreported(before, left, found)
    requires (forall m :: m in keys <==> m in left) && WithdrawnUpTo(mid, left, after, keys, input.completedAt)
    ensures forall m :: Discovered(Lookup(before, m), Lookup(after, m), m, input)
    ensures forall r :: r in found ==> Lookup(after, r.modelId) == Some(Refreshed(Lookup(before, r.modelId), r))
    ensures forall m :: Reports(found, m) <==> Reports(input.findings, m)
  {
    SameMembers(found, input.findings);
    forall m ensures Reports(found, m) <==> Reports(input.findings, m) {
    }
    forall r | r in found ensures Lookup(after, r.modelId) == Some(Refreshed(Lookup(before, r.modelId), r)) {
      var j :| 0 <= j < |found| && found[j] == r;
      assert Reports(found, r.modelId);
      assert r.modelId !in left;
    }
    forall m ensures Discovered(Lookup(before, m), Lookup(after, m), m, input) {
      if !Reports(found, m) {
        assert Lookup(mid, m) == Lookup(before, m);
      }
    }
  }

  // ---------------------------------------------------------------------------
  // The catalog as a state machine, row by row.
  // ---------------------------------------------------------------------------

  /** An accepted operation on the catalog. Rejected ones leave it alone. */
  datatype Event =
    | Discover(input: DiscoveryInput)
    | Edit(modelId: string, overrides: Values)
    | Confirm(confirmations: seq<Confirmation>, now: int)

  ghost predicate RowStep(before: Option<Row>, after: Option<Row>, id: string, e: Event) {
    match e
    case Discover(input) => Discovered(before, after, id, input)
    case Edit(modelId, overrides) =>
      if modelId == id
      then before.Some? && after == Some(before.value.(meta := UserOverride(before.value.meta, overrides)))
      else after == before
    case Confirm(cs, now) =>
      && (forall c :: c in cs && c.modelId == id ==>
            before.Some? && after == Some(ConfirmedRow(before.value, c.overrides, now)))
      && ((forall c :: c in cs ==> c.modelId != id) ==> after == before)
  }

  ghost predicate CatalogStep(before: Rows, after: Rows, e: Event) {
    forall m :: RowStep(Lookup(before, m), Lookup(after, m), m, e)
  }

  // ---------------------------------------------------------------------------
  // The catalog object.
  // ---------------------------------------------------------------------------

  ghost predicate DistinctConfirmations(cs: seq<Confirmation>) {
    forall i, j :: 0 <= i < j < |cs| ==> cs[i].modelId != cs[j].modelId
  }

  ghost predicate Confirmable(rows: Rows, c: Confirmation) {
    && c.modelId in rows
    && rows[c.modelId].availability.Available?
    && ValidValues(rows[c.modelId].meta.values)
    && ValidValues(c.overrides)
  }

  function ConfirmedRow(e: Row, overrides: Values, now: int): Row {
    e.(confirmation := Confirmed,
       meta := UserOverride(e.meta, overrides),
       confirmedAt := if e.confirmedAt.Some? then e.confirmedAt else Some(now))
  }

  /** Rows after confirming some of the models, the others untouched. */
  ghost predicate ConfirmedUpTo(before: Rows, after: Rows, done: seq<Confirmation>, now: int) {
    && (forall c :: c in done ==> c.modelId in before)
    && (forall c :: c in done ==> Lookup(after, c.modelId) == Some(ConfirmedRow(before[c.modelId], c.overrides, now)))
    && (forall m :: (forall c :: c in done ==> c.modelId != m) ==> Lookup(after, m) == Lookup(before, m))
  }

  function ByConfirmationId(): (Confirmation, Confirmation) -> bool {
    (l: Confirmation, r: Confirmation) => StrLe(l.modelId, r.modelId)
  }

  // What each operation leaves in a row, column by column.

  /** The metadata a refresh leaves: the user's fields as they were, every other one by precedence. */
  ghost predicate RefreshedMeta(before: Meta, after: Meta, r: Finding) {
    forall f :: At(after, f) == if IsUserField(before, f) then At(before, f) else PreferredCell(r, f)
  }

  function PreferredCell(r: Finding, f: Field): Cell {
    var (value, source) := Preferred(r.upstream, r.presetValues, f);
    Cell(Some(value), Some(source))
  }

  /** The metadata an edit leaves: its values, as the user's, and every other field as it was. */
  ghost predicate EditedMeta(before: Meta, after: Meta, overrides: Values) {
    forall f ::
      At(after, f) == if f in overrides then Cell(Some(overrides[f]), Some(UserLayer)) else At(before, f)
  }

  /** A reported model: available, with the finding's raw snapshot and time; its preset match and
      metadata follow the finding unless the row is confirmed. */
  ghost predicate ReportedRow(before: Option<Row>, after: Row, r: Finding) {
    && after.availability == Available && after.unavailableAt == None
    && after.raw == r.raw && after.lastDiscoveredAt == r.discoveredAt
    && (before.None? ==>
          && after.confirmation == Pending && after.confirmedAt == None && after.firstDiscoveredAt == r.discoveredAt
          && after.preset == r.matchedPreset && RefreshedMeta(Meta(map[], map[]), after.meta, r))
    && (before.Some? ==>
          && after.confirmation == before.value.confirmation && after.confirmedAt == before.value.confirmedAt
          && after.firstDiscoveredAt == before.value.firstDiscoveredAt
          && (before.value.confirmation == Confirmed ==>
                after.preset == before.value.preset && after.meta == before.value.meta)
          && (before.value.confirmation != Confirmed ==>
                after.preset == r.matchedPreset && RefreshedMeta(before.value.meta, after.meta, r)))
  }

  /** A stored model that was not reported: not available, since the discovery if it was before;
      nothing else moves. */
  ghost predicate UnreportedRow(before: Row, after: Row, at: int) {
    && after.availability == NotAvailable
    && after.unavailableAt == (if before.availability == NotAvailable then before.unavailableAt else Some(at))
    && after.raw == before.raw && after.meta == before.meta && after.preset == before.preset
    && after.confirmation == before.confirmation && after.confirmedAt == before.confirmedAt
    && after.firstDiscoveredAt == before.firstDiscoveredAt && after.lastDiscoveredAt == before.lastDiscoveredAt
  }

  /** Every column of every row after a discovery. */
  ghost predicate DiscoveryStores(before: Rows, after: Rows, input: DiscoveryInput) {
    && (forall id :: id in after <==> id in before || Reports(input.findings, id))
    && (forall r :: r in input.findings ==>
          r.modelId in after && ReportedRow(Lookup(before, r.modelId), after[r.modelId], r))
    && (forall id :: id in before && !Reports(input.findings, id) ==>
          id in after && UnreportedRow(before[id], after[id], input.completedAt))
  }

  /** An entry names exactly the columns that differ. */
  ghost predicate NamesColumns(fields: seq<string>, before: Row, after: Row) {
    && ("raw_snapshot" in fields <==> before.raw != after.raw)
    && ("metadata" in fields <==> before.meta.values != after.meta.values)
    && ("field_sources" in fields <==> before.meta.sources != after.meta.sources)
    && ("matched_model_preset" in fields <==> before.preset != after.preset)
    && ("availability_status" in fields <==> before.availability != after.availability)
    && (forall x :: x in fields ==>
          x in {"raw_snapshot", "metadata", "field_sources", "matched_model_preset", "availability_status"})
  }

  /** The five columns a discovery reports on agree. */
  predicate SameColumns(before: Row, after: Row) {
    && before.raw == after.raw && before.meta == after.meta
    && before.preset == after.preset && before.availability == after.availability
  }

  /** A model is reported as changed exactly when a column differs, with the names of those columns. */
  ghost predicate ChangesAreNamed(diff: DiscoveryDiff, before: Rows, after: Rows, input: DiscoveryInput) {
    && (forall id :: Names(diff.changed, id) <==>
          Reports(input.findings, id) && id in before && id in after && !SameColumns(before[id], after[id]))
    && (forall e :: e in diff.changed && e.modelId in before && e.modelId in after ==>
          NamesColumns(e.changedFields, before[e.modelId], after[e.modelId]))
  }

  /** A confirmed model: its first confirmation time stays, its metadata is edited. */
  ghost predicate ConfirmationStores(before: Row, after: Row, overrides: Values, now: int) {
    && after.confirmation == Confirmed && EditedMeta(before.meta, after.meta, overrides)
    && after.confirmedAt == (if before.confirmedAt == None then Some(now) else before.confirmedAt)
    && after.availability == before.availability && after.raw == before.raw && after.preset == before.preset
    && after.firstDiscoveredAt == before.firstDiscoveredAt && after.lastDiscoveredAt == before.lastDiscoveredAt
    && after.unavailableAt == before.unavailableAt
  }

  lemma {:induction false} NewMetaStores(r: Finding)
    requires ValidFinding(r)
    ensures RefreshedMeta(Meta(map[], map[]), Resolve(r.upstream, r.presetValues), r)
  {
    forall f ensures At(Resolve(r.upstream, r.presetValues), f) == PreferredCell(r, f) {
      ResolveIsPerField(r.upstream, r.presetValues, f);
    }
  }

  lemma {:induction false} RefreshedMetaStores(before: Meta, r: Finding)
    requires ValidFinding(r)
    ensures RefreshedMeta(before, Refresh(before, false, r.upstream, r.presetValues), r)
  {
    var after := Refresh(before, false, r.upstream, r.presetValues);
    forall f ensures At(after, f) == if IsUserField(before, f) then At(before, f) else PreferredCell(r, f) {
      RefreshStores(before, false, r.upstream, r.presetValues, f);
    }
  }

  lemma {:induction false} ReportedStores(before: Option<Row>, r: Finding)
    requires ValidFinding(r)
    ensures ReportedRow(before, Refreshed(before, r), r)
  {
    NewMetaStores(r);
    if before.Some? {
      RefreshedMetaStores(before.value.meta, r);
    }
  }

  lemma {:induction false} WithdrawnStores(before: Row, at: int)
    ensures UnreportedRow(before, Withdrawn(before, at), at)
  {
  }

  lemma {:induction false} DiscoveryStoresRows(before: Rows, after: Rows, input: DiscoveryInput)
    requires CatalogStep(before, after, Discover(input)) && forall r :: r in input.findings ==> ValidFinding(r)
    ensures DiscoveryStores(before, after, input)
  {
    forall id ensures RowStep(Lookup(before, id), Lookup(after, id), id, Discover(input)) {
    }
    forall id ensures id in after <==> id in before || Reports(input.findings, id) {
      DiscoveryIsExact(Lookup(before, id), Lookup(after, id), id, input);
    }
    forall r | r in input.findings
      ensures r.modelId in after && ReportedRow(Lookup(before, r.modelId), after[r.modelId], r)
    {
      assert RowStep(Lookup(before, r.modelId), Lookup(after, r.modelId), r.modelId, Discover(input));
      ReportedStores(Lookup(before, r.modelId), r);
    }
    forall id | id in before && !Reports(input.findings, id)
      ensures id in after && UnreportedRow(before[id], after[id], input.completedAt)
    {
      assert RowStep(Lookup(before, id), Lookup(after, id), id, Discover(input));
      WithdrawnStores(before[id], input.completedAt);
    }
  }

  lemma {:induction false} FieldNamesDiffer()
    ensures |"raw_snapshot"| == 12 && |"metadata"| == 8 && |"field_sources"| == 13
    ensures |"matched_model_preset"| == 20 && |"availability_status"| == 19
  {
  }

  lemma {:induction false} ChangedFieldsAreColumns(before: Row, after: Row)
    ensures NamesColumns(ChangedFields(before, after), before, after)
  {
    FieldNamesDiffer();
  }

  lemma {:induction false} NoChangedFields(before: Row, after: Row)
    ensures ChangedFields(before, after) == [] <==> SameColumns(before, after)
  {
  }

  lemma {:induction false} SortedNames(fields: seq<string>, before: Row, after: Row)
    requires NamesColumns(fields, before, after)
    ensures NamesColumns(SortBy(fields, ByText()), before, after)
  {
    SortByIsPermutation(fields, ByText());
  }

  lemma {:induction false} DiffNamesChanges(diff: DiscoveryDiff, before: Rows, after: Rows, input: DiscoveryInput)
    requires ExactDiff(diff, before, after, input)
    ensures ChangesAreNamed(diff, before, after, input)
  {
    forall id | id in before && id in after
      ensures ChangedFields(before[id], after[id]) == [] <==> SameColumns(before[id], after[id])
    {
      NoChangedFields(before[id], after[id]);
    }
    forall e | e in diff.changed && e.modelId in before && e.modelId in after
      ensures NamesColumns(e.changedFields, before[e.modelId], after[e.modelId])
    {
      ChangedFieldsAreColumns(before[e.modelId], after[e.modelId]);
      SortedNames(ChangedFields(before[e.modelId], after[e.modelId]), before[e.modelId], after[e.modelId]);
    }
  }

  lemma {:induction false} EditStores(m: Meta, overrides: Values)
    ensures EditedMeta(m, UserOverride(m, overrides), overrides)
  {
    forall f
      ensures At(UserOverride(m, overrides), f)
           == if f in overrides then Cell(Some(overrides[f]), Some(UserLayer)) else At(m, f)
    {
      OverrideStores(m, overrides, f);
    }
  }

  lemma {:induction false} ConfirmedStores(before: Row, overrides: Values, now: int)
    ensures ConfirmationStores(before, ConfirmedRow(before, overrides, now), overrides, now)
  {
    EditStores(before.meta, overrides);
  }

  class SourceCatalog {
    const id: string
    var registered: bool
    var accounts: set<string>
    var rows: Rows

    constructor (id: string, registered: bool, accounts: set<string>, rows: Rows)
      ensures this.id == id && this.registered == registered && this.accounts == accounts && this.rows == rows
    {
      this.id, this.registered, this.accounts, this.rows := id, registered, accounts, rows;
    }

    /** Apply a successful discovery, all of it or nothing. */
    method ApplyDiscovery(input: DiscoveryInput) returns (r: Result<DiscoveryDiff, CatalogError>)
      modifies this`rows
      ensures r.Ok? <==> old(Accepted(id, registered, accounts, rows, input))
      ensures r.Err? ==> rows == old(rows)
      ensures r.Ok? ==> CatalogStep(old(rows), rows, Discover(input))
      ensures r.Ok? ==> ExactDiff(r.value, old(rows), rows, input)
      ensures r.Ok? ==> DiscoveryStores(old(rows), rows, input)
      ensures r.Ok? ==> ChangesAreNamed(r.value, old(rows), rows, input)
    {
      var checked := CheckInput(id, registered, accounts, input);
      if checked.Err? {
        return Err(checked.error);
      }
      var tx, diff := ComputeDiscovery(rows, checked.value, input);
      if tx.None? {
        return Err(InvalidMetadata);
      }
      if |input.findings| > 0x7fff_ffff {
        return Err(InvalidState);
      }
      DiscoveryStoresRows(rows, tx.value, input);
      DiffNamesChanges(diff, rows, tx.value, input);
      rows := tx.value;
      r := Ok(diff);
    }

    /** A user's edit of one row. */
    method UpdateUserOverrides(modelId: string, overrides: Values) returns (r: Result<Row, CatalogError>)
      modifies this`rows
      ensures r.Ok? <==> modelId in old(rows) && ValidValues(old(rows)[modelId].meta.values) && ValidValues(overrides)
      ensures r.Err? ==> rows == old(rows)
      ensures r.Ok? ==> r.value == old(rows)[modelId].(meta := UserOverride(old(rows)[modelId].meta, overrides))
      ensures r.Ok? ==> rows == old(rows)[modelId := r.value]
      ensures r.Ok? ==> CatalogStep(old(rows), rows, Edit(modelId, overrides))
      ensures r.Ok? ==> EditedMeta(old(rows)[modelId].meta, r.value.meta, overrides)
    {
      if modelId in rows {
        EditStores(rows[modelId].meta, overrides);
      }
      if modelId !in rows {
        return Err(NotFound);
      }
      var existing := rows[modelId];
      var readable := ValidateValues(existing.meta.values);
      if !readable {
        return Err(InvalidMetadata);
      }
      var meta := new CatalogMetadata(existing.meta);
      var ok := meta.ApplyUserOverrides(overrides);
      if !ok {
        return Err(InvalidMetadata);
      }
      var row := existing.(meta := Meta(meta.values, meta.fieldSources));
      rows := rows[modelId := row];
      r := Ok(row);
    }

    /** Confirm a batch of available models, all of them or none. */
    method ConfirmModels(confirmations: seq<Confirmation>, now: int) returns (r: Result<(), CatalogError>)
      modifies this`rows
      ensures r.Ok? <==> confirmations != [] && DistinctConfirmations(confirmations)
                         && forall c :: c in confirmations ==> Confirmable(old(rows), c)
      ensures r.Err? ==> rows == old(rows)
      ensures r.Ok? ==> CatalogStep(old(rows), rows, Confirm(confirmations, now))
      ensures r.Ok? ==>
                forall c :: c in confirmations ==>
                  && c.modelId in old(rows) && c.modelId in rows
                  && ConfirmationStores(old(rows)[c.modelId], rows[c.modelId], c.overrides, now)
    {
      if confirmations == [] {
        return Err(InvalidState);
      }
      var ordered := OrderConfirmations(confirmations);
      if ordered.None? {
        return Err(InvalidState);
      }
      SameMembers(confirmations, ordered.value);
      var tx := ConfirmAll(rows, ordered.value, now);
      if tx.None? {
        return Err(InvalidState);
      }
      ConfirmedIsStep(rows, tx.value, confirmations, ordered.value, now);
      forall c | c in confirmations
        ensures c.modelId in tx.value && ConfirmationStores(rows[c.modelId], tx.value[c.modelId], c.overrides, now)
      {
        assert RowStep(Lookup(rows, c.modelId), Lookup(tx.value, c.modelId), c.modelId, Confirm(confirmations, now));
        ConfirmedStores(rows[c.modelId], c.overrides, now);
      }
      rows := tx.value;
      r := Ok(());
    }
  }

  /** The confirmations ordered by id, if no two share one. */
  method OrderConfirmations(cs: seq<Confirmation>) returns (r: Option<seq<Confirmation>>)
    ensures r.Some? <==> DistinctConfirmations(cs)
    ensures r.Some? ==> multiset(r.value) == multiset(cs) && DistinctConfirmations(r.value)
  {
    var ordered := SortBy(cs, ByConfirmationId());
    SortByIsPermutation(cs, ByConfirmationId());
    StrLeIsOrder();
    SortBySorts(cs, ByConfirmationId());
    DistinctConfirmationsPermute(cs, ordered);
    var i := 1;
    while i < |ordered|
      invariant 1 <= i
      invariant forall j :: 1 <= j < i && j < |ordered| ==> ordered[j - 1].modelId != ordered[j].modelId
    {
      if ordered[i - 1].modelId == ordered[i].modelId {
        return None;
      }
      i := i + 1;
    }
    AdjacentDistinct(ordered);
    r := Some(ordered);
  }

  lemma {:induction false} ConfirmedIsStep(before: Rows, after: Rows, cs: seq<Confirmation>,
                                           ordered: seq<Confirmation>, now: int)
    requires multiset(cs) == multiset(ordered) && ConfirmedUpTo(before, after, ordered, now)
    ensures CatalogStep(before, after, Confirm(cs, now))
  {
    SameMembers(cs, ordered);
    forall m ensures RowStep(Lookup(before, m), Lookup(after, m), m, Confirm(cs, now)) {
      forall c | c in cs && c.modelId == m
        ensures m in before && Lookup(after, m) == Some(ConfirmedRow(before[m], c.overrides, now))
      {
        assert c in ordered;
      }
    }
  }

  /** What is checked before any row is touched. */
  ghost predicate InputAccepted(id: string, registered: bool, accounts: set<string>, input: DiscoveryInput) {
    && 200 <= input.httpStatus <= 299
    && input.latencyMs >= 0 && input.startedAt <= input.completedAt
    && input.raw != Null
    && DistinctIds(input.findings)
    && (forall r :: r in input.findings ==> ValidFinding(r) && r.sourceId == id)
    && registered
    && (input.accountId.Some? ==> input.accountId.value in accounts)
  }

  method CheckInput(id: string, registered: bool, accounts: set<string>, input: DiscoveryInput)
    returns (r: Result<seq<Finding>, CatalogError>)
    ensures r.Ok? <==> InputAccepted(id, registered, accounts, input)
    ensures r.Ok? ==> multiset(r.value) == multiset(input.findings) && StrictlyById(r.value)
    ensures r.Ok? ==> forall j :: 0 <= j < |r.value| ==> ValidFinding(r.value[j])
  {
    if input.httpStatus < 200 || input.httpStatus > 299 {
      return Err(InvalidState);
    }
    if input.latencyMs < 0 || input.completedAt < input.startedAt {
      return Err(InvalidState);
    }
    if input.raw == Null {
      return Err(InvalidMetadata);
    }
    var sorted := SortFindings(input.findings);
    if sorted.None? {
      return Err(InvalidMetadata);
    }
    var found := sorted.value;
    SameMembers(found, input.findings);
    var ok := CheckFindings(found, id);
    if !ok {
      return Err(InvalidState);
    }
    if !registered || (input.accountId.Some? && input.accountId.value !in accounts) {
      return Err(NotFound);
    }
    r := Ok(found);
  }

  method ComputeDiscovery(rows: Rows, found: seq<Finding>, input: DiscoveryInput)
    returns (tx: Option<Rows>, diff: DiscoveryDiff)
    requires multiset(found) == multiset(input.findings) && StrictlyById(found)
    requires forall j :: 0 <= j < |found| ==> ValidFinding(found[j])
    ensures tx.Some? <==>
              forall r :: r in input.findings && r.modelId in rows ==> ValidValues(rows[r.modelId].meta.values)
    ensures tx.Some? ==> forall m :: Discovered(Lookup(rows, m), Lookup(tx.value, m), m, input)
    ensures tx.Some? ==> ExactDiff(diff, rows, tx.value, input)
  {
    var mid, left, added, changed := StoreFindings(rows, found);
    ReadableInput(rows, found, input);
    if mid.None? {
      return None, DiscoveryDiff([], [], []);
    }
    var keys := SortedKeys(left.Keys);
    LeftUntouched(rows, mid.value, left, found);
    var after, missing := WithdrawRest(mid.value, left, keys, input.completedAt);
    DiscoveryOutcome(input, found, rows, mid.value, left, keys, after);
    diff := DiscoveryDiff(Tidy(added), Tidy(changed), Tidy(missing));
    DiffOutcome(input, found, rows, left, keys, after, added, changed, missing);
    tx := Some(after);
  }

  method CheckFindings(found: seq<Finding>, id: string) returns (ok: bool)
    ensures ok <==> forall r :: r in found ==> ValidFinding(r) && r.sourceId == id
  {
    var i := 0;
    while i < |found|
      invariant 0 <= i <= |found|
      invariant forall j :: 0 <= j < i ==> ValidFinding(found[j]) && found[j].sourceId == id
    {
      if !ValidFinding(found[i]) || found[i].sourceId != id {
        assert found[i] in found;
        return false;
      }
      i := i + 1;
    }
    return true;
  }

  lemma {:induction false} ReadableInput(rows: Rows, found: seq<Finding>, input: DiscoveryInput)
    requires multiset(found) == multiset(input.findings)
    ensures Readable(rows, found) <==>
              forall r :: r in input.findings && r.modelId in rows ==> ValidValues(rows[r.modelId].meta.values)
  {
    SameMembers(found, input.findings);
    if Readable(rows, found) {
      forall r | r in input.findings && r.modelId in rows ensures ValidValues(rows[r.modelId].meta.values) {
        assert r in found;
        var j :| 0 <= j < |found| && found[j] == r;
      }
    }
  }

  lemma {:induction false} LeftUntouched(before: Rows, mid: Rows, left: Rows, found: seq<Finding>)
    requires Stored(before, mid, found) && Unreported(before, left, found)
    ensures forall m :: m in left ==> m in mid && mid[m] == left[m]
  {
    forall m | m in left ensures m in mid && mid[m] == left[m] {
      assert Lookup(mid, m) == Lookup(before, m);
    }
  }

  lemma {:induction false} DiffOutcome(input: DiscoveryInput, found: seq<Finding>, before: Rows, left: Rows,
                                       keys: seq<string>, after: Rows,
                    added: seq<DiffEntry>, changed: seq<DiffEntry>, missing: seq<DiffEntry>)
    requires StrictlyById(found) && Unreported(before, left, found)
    requires StrictlyAscending(keys) && forall m :: m in keys <==> m in left
    requires forall m :: Reports(found, m) <==> Reports(input.findings, m)
    requires forall r :: r in found ==> Lookup(after, r.modelId) == Some(Refreshed(Lookup(before, r.modelId), r))
    requires added == Map(Filter(found, IsNew(before)), AddedEntry())
    requires changed == Map(Filter(found, IsChanged(before)), ChangedEntry(before))
    requires missing == Map(Filter(keys, IsWithdrawn(left)), MissingEntry())
    ensures ExactDiff(DiscoveryDiff(Tidy(added), Tidy(changed), Tidy(missing)), before, after, input)
  {
    AddedIsExact(found, before, added);
    ChangedIsExact(found, before, after, changed);
    MissingIsExact(keys, left, missing);
  }

  function ConfirmationId(): Confirmation -> string {
    (c: Confirmation) => c.modelId
  }

  lemma {:induction false} DistinctConfirmationsPermute(s: seq<Confirmation>, t: seq<Confirmation>)
    requires multiset(s) == multiset(t)
    ensures DistinctConfirmations(s) <==> DistinctConfirmations(t)
  {
    MapPermutation(s, t, ConfirmationId());
    ConfirmationsAsIds(s);
    ConfirmationsAsIds(t);
    OccursOnce(Map(s, ConfirmationId()));
    OccursOnce(Map(t, ConfirmationId()));
  }

  lemma {:induction false} ConfirmationsAsIds(s: seq<Confirmation>)
    ensures DistinctConfirmations(s) <==> NoDuplicates(Map(s, ConfirmationId()))
  {
    var ids := Map(s, ConfirmationId());
    if NoDuplicates(ids) {
      forall i, j | 0 <= i < j < |s| ensures s[i].modelId != s[j].modelId {
        assert ids[i] != ids[j];
      }
    }
  }

  lemma {:induction false} AdjacentDistinct(s: seq<Confirmation>)
    requires SortedBy(s, ByConfirmationId())
    requires forall j :: 1 <= j < |s| ==> s[j - 1].modelId != s[j].modelId
    ensures DistinctConfirmations(s)
  {
    StrLeIsOrder();
    forall j, k | 0 <= j < k < |s| ensures s[j].modelId != s[k].modelId {
      assert s[k - 1].modelId != s[k].modelId;
      assert j == k - 1 || ByConfirmationId()(s[j], s[k - 1]);
      assert ByConfirmationId()(s[k - 1], s[k]);
    }
  }

  method ConfirmOne(rows: Rows, c: Confirmation, now: int) returns (next: Option<Rows>)
    ensures next.Some? <==> Confirmable(rows, c)
    ensures next.Some? ==> next.value == rows[c.modelId := ConfirmedRow(rows[c.modelId], c.overrides, now)]
  {
    if c.modelId !in rows || !rows[c.modelId].availability.Available? {
      return None;
    }
    var existing := rows[c.modelId];
    var readable := ValidateValues(existing.meta.values);
    if !readable {
      return None;
    }
    var meta := new CatalogMetadata(existing.meta);
    var ok := meta.ApplyUserOverrides(c.overrides);
    if !ok {
      return None;
    }
    var confirmedAt := if existing.confirmedAt.Some? then existing.confirmedAt else Some(now);
    next := Some(rows[c.modelId := existing.(confirmation := Confirmed,
                                             meta := Meta(meta.values, meta.fieldSources),
                                             confirmedAt := confirmedAt)]);
  }

  lemma {:induction false} ConfirmStep(before: Rows, tx: Rows, cs: seq<Confirmation>, i: nat, now: int)
    requires i < |cs| && DistinctConfirmations(cs) && ConfirmedUpTo(before, tx, cs[..i], now)
    ensures Lookup(tx, cs[i].modelId) == Lookup(before, cs[i].modelId)
    ensures cs[i].modelId in before ==>
              ConfirmedUpTo(before, tx[cs[i].modelId := ConfirmedRow(before[cs[i].modelId], cs[i].overrides, now)],
                            cs[..i + 1], now)
  {
    assert forall c :: c in cs[..i] ==> c.modelId != cs[i].modelId;
    assert cs[..i + 1] == cs[..i] + [cs[i]];
    if cs[i].modelId in before {
      var tx' := tx[cs[i].modelId := ConfirmedRow(before[cs[i].modelId], cs[i].overrides, now)];
      forall m | forall c :: c in cs[..i + 1] ==> c.modelId != m ensures Lookup(tx', m) == Lookup(before, m) {
        assert cs[i] in cs[..i + 1];
        assert forall c :: c in cs[..i] ==> c in cs[..i + 1];
      }
    }
  }

  method ConfirmAll(before: Rows, cs: seq<Confirmation>, now: int) returns (tx: Option<Rows>)
    requires DistinctConfirmations(cs)
    ensures tx.Some? <==> forall c :: c in cs ==> Confirmable(before, c)
    ensures tx.Some? ==> ConfirmedUpTo(before, tx.value, cs, now)
  {
    var rows := before;
    var i := 0;
    while i < |cs|
      invariant 0 <= i <= |cs|
      invariant ConfirmedUpTo(before, rows, cs[..i], now)
      invariant forall j :: 0 <= j < i ==> Confirmable(before, cs[j])
    {
      ConfirmStep(before, rows, cs, i, now);
      var next := ConfirmOne(rows, cs[i], now);
      if next.None? {
        assert cs[i] in cs;
        return None;
      }
      rows := next.value;
      i := i + 1;
    }
    assert cs[..i] == cs;
    tx := Some(rows);
  }

  // ---------------------------------------------------------------------------
  // Laws of one discovery.
  // ---------------------------------------------------------------------------

  /** After a discovery a model is available exactly when it was reported, and no row
      is lost. */
  lemma {:induction false} DiscoveryIsExact(before: Option<Row>, after: Option<Row>, id: string, input: DiscoveryInput)
    requires Discovered(before, after, id, input)
    ensures Reports(input.findings, id) <==> after.Some? && after.value.availability.Available?
    ensures after.Some? <==> before.Some? || Reports(input.findings, id)
  {
    if Reports(input.findings, id) {
      var r :| r in input.findings && r.modelId == id;
      assert after == Some(Refreshed(before, r));
    }
  }

  predicate Unchanged(before: Rows, after: Rows, id: string) {
    id in before && id in after && ChangedFields(before[id], after[id]) == []
  }

  /** Every stored or reported model falls into exactly one of the four classes. */
  lemma {:induction false} DiffPartitions(before: Rows, after: Rows, input: DiscoveryInput, diff: DiscoveryDiff,
                                          id: string)
    requires CatalogStep(before, after, Discover(input)) && ExactDiff(diff, before, after, input)
    ensures id in before || Reports(input.findings, id) <==>
              || Names(diff.added, id) || Names(diff.changed, id)
              || Names(diff.missing, id) || Unchanged(before, after, id)
    ensures !(Names(diff.added, id) && Names(diff.changed, id))
    ensures !(Names(diff.added, id) && Names(diff.missing, id))
    ensures !(Names(diff.added, id) && Unchanged(before, after, id))
    ensures !(Names(diff.changed, id) && Names(diff.missing, id))
    ensures !(Names(diff.changed, id) && Unchanged(before, after, id))
    ensures !(Names(diff.missing, id) && Unchanged(before, after, id))
  {
    assert RowStep(Lookup(before, id), Lookup(after, id), id, Discover(input));
    DiscoveryIsExact(Lookup(before, id), Lookup(after, id), id, input);
    if id in before && !Reports(input.findings, id) {
      assert after[id] == Withdrawn(before[id], input.completedAt);
      if !before[id].availability.NotAvailable? {
        assert ChangedFields(before[id], after[id]) == ["availability_status"];
      } else {
        assert ChangedFields(before[id], after[id]) == [];
      }
    }
  }

  /** The same findings again, at a later time. */
  ghost predicate SameFindings(first: DiscoveryInput, second: DiscoveryInput) {
    && |first.findings| == |second.findings|
    && forall i :: 0 <= i < |first.findings| ==>
         second.findings[i] == first.findings[i].(discoveredAt := second.findings[i].discoveredAt)
  }

  lemma {:induction false} RefreshedAgain(before: Option<Row>, r1: Finding, r2: Finding)
    requires r2 == r1.(discoveredAt := r2.discoveredAt)
    ensures Refreshed(Some(Refreshed(before, r1)), r2) == Refreshed(before, r1).(lastDiscoveredAt := r2.discoveredAt)
  {
    if before.None? {
      RefreshOfResolve(r1.upstream, r1.presetValues);
    } else if !before.value.confirmation.Confirmed? {
      RefreshForgetsHistory(before.value.meta, r1.upstream, r1.presetValues, r1.upstream, r1.presetValues);
    }
  }

  /** Repeating a discovery only moves the last-seen time. */
  lemma {:induction false} RepeatedRow(r0: Option<Row>, r1: Option<Row>, r2: Option<Row>, id: string,
                                       first: DiscoveryInput, second: DiscoveryInput)
    requires SameFindings(first, second)
    requires Discovered(r0, r1, id, first) && Discovered(r1, r2, id, second)
    ensures r1.Some? <==> r2.Some?
    ensures r1.Some? ==> r2.value == r1.value.(lastDiscoveredAt := r2.value.lastDiscoveredAt)
    ensures Reports(first.findings, id) <==> Reports(second.findings, id)
    ensures !Reports(first.findings, id) ==> r2 == r1
    ensures r1.Some? && !Reports(first.findings, id) ==> r1.value.availability.NotAvailable?
  {
    if Reports(first.findings, id) {
      var r :| r in first.findings && r.modelId == id;
      var i :| 0 <= i < |first.findings| && first.findings[i] == r;
      assert second.findings[i] in second.findings && second.findings[i].modelId == id;
      RefreshedAgain(r0, r, second.findings[i]);
    } else {
      forall r | r in second.findings ensures r.modelId != id {
        var i :| 0 <= i < |second.findings| && second.findings[i] == r;
        assert first.findings[i] in first.findings;
      }
    }
  }

  /** Repeating a discovery reports nothing, and leaves every row as it was but for the time it
      was last seen: metadata, field sources, preset match, statuses and all other times. */
  lemma {:induction false} DiscoveryIsIdempotent(rows0: Rows, rows1: Rows, rows2: Rows, first: DiscoveryInput,
                                                 second: DiscoveryInput, diff: DiscoveryDiff)
    requires SameFindings(first, second)
    requires CatalogStep(rows0, rows1, Discover(first)) && CatalogStep(rows1, rows2, Discover(second))
    requires ExactDiff(diff, rows1, rows2, second)
    ensures diff == DiscoveryDiff([], [], [])
    ensures forall id :: id in rows2 <==> id in rows1
    ensures forall id :: id in rows1 ==> rows2[id] == rows1[id].(lastDiscoveredAt := rows2[id].lastDiscoveredAt)
  {
    forall id
      ensures id in rows2 <==> id in rows1
      ensures id in rows1 ==> rows2[id] == rows1[id].(lastDiscoveredAt := rows2[id].lastDiscoveredAt)
    {
      assert RowStep(Lookup(rows0, id), Lookup(rows1, id), id, Discover(first));
      assert RowStep(Lookup(rows1, id), Lookup(rows2, id), id, Discover(second));
      RepeatedRow(Lookup(rows0, id), Lookup(rows1, id), Lookup(rows2, id), id, first, second);
    }
    forall id ensures !Names(diff.added, id) && !Names(diff.changed, id) && !Names(diff.missing, id) {
      assert RowStep(Lookup(rows0, id), Lookup(rows1, id), id, Discover(first));
      assert RowStep(Lookup(rows1, id), Lookup(rows2, id), id, Discover(second));
      RepeatedRow(Lookup(rows0, id), Lookup(rows1, id), Lookup(rows2, id), id, first, second);
      DiscoveryIsExact(Lookup(rows0, id), Lookup(rows1, id), id, first);
    }
    NoNames(diff.added);
    NoNames(diff.changed);
    NoNames(diff.missing);
  }

  lemma {:induction false} NoNames(es: seq<DiffEntry>)
    requires forall id :: !Names(es, id)
    ensures es == []
  {
    if es != [] {
      assert Names(es, es[0].modelId);
    }
  }

  /** An accepted discovery leaves rows that a repetition can read: it is accepted again. */
  lemma {:induction false} RepetitionIsAccepted(id: string, registered: bool, accounts: set<string>, rows0: Rows,
                                                rows1: Rows,
                             first: DiscoveryInput, second: DiscoveryInput)
    requires Accepted(id, registered, accounts, rows0, first)
    requires CatalogStep(rows0, rows1, Discover(first))
    requires SameFindings(first, second)
    requires second.accountId == first.accountId && second.raw == first.raw && second.httpStatus == first.httpStatus
    requires second.latencyMs >= 0 && second.startedAt <= second.completedAt
    ensures Accepted(id, registered, accounts, rows1, second)
  {
    forall i, j | 0 <= i < j < |second.findings| ensures second.findings[i].modelId != second.findings[j].modelId {
      assert first.findings[i].modelId != first.findings[j].modelId;
    }
    forall r | r in second.findings ensures ValidFinding(r) && r.sourceId == id {
      var i :| 0 <= i < |second.findings| && second.findings[i] == r;
      assert first.findings[i] in first.findings;
    }
    forall r | r in second.findings && r.modelId in rows1 ensures ValidValues(rows1[r.modelId].meta.values) {
      var i :| 0 <= i < |second.findings| && second.findings[i] == r;
      var r1 := first.findings[i];
      assert r1 in first.findings;
      assert RowStep(Lookup(rows0, r.modelId), Lookup(rows1, r.modelId), r.modelId, Discover(first));
      RefreshedReadable(Lookup(rows0, r.modelId), r1);
    }
  }

  lemma {:induction false} RefreshedReadable(before: Option<Row>, r: Finding)
    requires ValidFinding(r) && (before.Some? ==> ValidValues(before.value.meta.values))
    ensures ValidValues(Refreshed(before, r).meta.values)
  {
    if before.None? {
      ResolveStaysValid(r.upstream, r.presetValues);
    } else {
      RefreshStaysValid(before.value.meta, before.value.confirmation.Confirmed?, r.upstream, r.presetValues);
    }
  }

  // ---------------------------------------------------------------------------
  // Laws of every run.
  // ---------------------------------------------------------------------------

  /** The states one row goes through in a run of accepted operations. */
  ghost predicate RowRun(states: seq<Option<Row>>, id: string, events: seq<Event>) {
    && |states| == |events| + 1
    && forall i :: 0 <= i < |events| ==> RowStep(states[i], states[i + 1], id, events[i])
  }

  /** The operation is a user's write of this field of this model. */
  ghost predicate UserWrites(e: Event, id: string, f: Field) {
    match e
    case Discover(_) => false
    case Edit(modelId, overrides) => modelId == id && f in overrides
    case Confirm(cs, _) => exists c :: c in cs && c.modelId == id && f in c.overrides
  }

  ghost predicate UserTouches(e: Event, id: string) {
    match e
    case Discover(_) => false
    case Edit(modelId, _) => modelId == id
    case Confirm(cs, _) => exists c :: c in cs && c.modelId == id
  }

  lemma {:induction false} UserFieldStep(before: Option<Row>, after: Option<Row>, id: string, e: Event, f: Field)
    requires RowStep(before, after, id, e) && !UserWrites(e, id, f)
    requires before.Some? && IsUserField(before.value.meta, f)
    ensures after.Some? && At(after.value.meta, f) == At(before.value.meta, f)
  {
    match e
    case Discover(input) =>
      if Reports(input.findings, id) {
        var r :| r in input.findings && r.modelId == id;
        RefreshKeepsUserField(before.value.meta, before.value.confirmation.Confirmed?, r.upstream, r.presetValues, f);
      }
    case Edit(modelId, overrides) =>
      if modelId == id {
        OverrideKeepsUserField(before.value.meta, overrides, f);
      }
    case Confirm(cs, now) =>
      if c :| c in cs && c.modelId == id {
        OverrideKeepsUserField(before.value.meta, c.overrides, f);
      }
  }

  /** A user's value stands until the user writes that field again, whatever is
      discovered, edited or confirmed in between. */
  lemma {:induction false} UserFieldPersists(states: seq<Option<Row>>, id: string, events: seq<Event>, f: Field)
    requires RowRun(states, id, events)
    requires forall e :: e in events ==> !UserWrites(e, id, f)
    requires states[0].Some? && IsUserField(states[0].value.meta, f)
    ensures var last := states[|events|]; last.Some? && At(last.value.meta, f) == At(states[0].value.meta, f)
  {
    if events != [] {
      var n := |events| - 1;
      forall e | e in events[..n] ensures !UserWrites(e, id, f) { assert e in events; }
      UserFieldPersists(states[..n + 1], id, events[..n], f);
      assert events[n] in events;
      UserFieldStep(states[n], states[n + 1], id, events[n], f);
    }
  }

  /** The part of a row that confirmation freezes. */
  function Frozen(r: Row): (CatalogStatus, Meta, Option<PresetRef>, Option<int>) {
    (r.confirmation, r.meta, r.preset, r.confirmedAt)
  }

  lemma {:induction false} ConfirmedStep(before: Option<Row>, after: Option<Row>, id: string, e: Event)
    requires RowStep(before, after, id, e)
    requires before.Some? && before.value.confirmation.Confirmed? && before.value.confirmedAt.Some?
    ensures after.Some? && after.value.confirmation.Confirmed? && after.value.confirmedAt == before.value.confirmedAt
    ensures after.value.preset == before.value.preset
    ensures !UserTouches(e, id) ==> Frozen(after.value) == Frozen(before.value)
  {
    match e
    case Discover(input) =>
      if Reports(input.findings, id) {
        var r :| r in input.findings && r.modelId == id;
        assert after == Some(Refreshed(before, r));
      }
    case Edit(modelId, overrides) =>
    case Confirm(cs, now) =>
      if c :| c in cs && c.modelId == id {
        assert after == Some(ConfirmedRow(before.value, c.overrides, now));
      }
  }

  /** Confirmation is for good: no run undoes it, moves its time or rematches the preset;
      and without a user's hand the metadata does not move either. */
  lemma {:induction false} ConfirmationIsFinal(states: seq<Option<Row>>, id: string, events: seq<Event>)
    requires RowRun(states, id, events)
    requires states[0].Some? && states[0].value.confirmation.Confirmed? && states[0].value.confirmedAt.Some?
    ensures var first, last := states[0].value, states[|events|];
            && last.Some? && last.value.confirmation.Confirmed?
            && last.value.confirmedAt == first.confirmedAt && last.value.preset == first.preset
            && ((forall e :: e in events ==> !UserTouches(e, id)) ==> last.value.meta == first.meta)
  {
    if events != [] {
      var n := |events| - 1;
      ConfirmationIsFinal(states[..n + 1], id, events[..n]);
      ConfirmedStep(states[n], states[n + 1], id, events[n]);
      if forall e :: e in events ==> !UserTouches(e, id) {
        forall e | e in events[..n] ensures !UserTouches(e, id) { assert e in events; }
        assert events[n] in events;
      }
    }
  }
}
