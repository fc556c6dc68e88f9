/**
 Model metadata in layers: user over preset over upstream over unknown, and the
 refresh that rebuilds the lower layers under the user's.
 */
module Metadata {
  import opened Base
  import opened Seqs
  import opened Strings
  import opened JsonDiff

  datatype Field =
    | LogicalModelName | DisplayName
    | ContextWindow | MaxInputTokens | MaxOutputTokens
    | InputModalities | OutputModalities
    | Tools | Thinking | WebSearch | StructuredOutput | Streaming | Usage

  const ALL_FIELDS: seq<Field> :=
    [LogicalModelName, DisplayName, ContextWindow, MaxInputTokens, MaxOutputTokens, InputModalities,
     OutputModalities, Tools, Thinking, WebSearch, StructuredOutput, Streaming, Usage]

  type Values = map<Field, Json>

  /** Stored metadata: a value and its origin per field. */
  datatype Meta = Meta(values: Values, sources: map<Field, MetadataSource>)

  datatype CatalogError =
    | InvalidMetadata
    | InvalidState
    | NotFound

  predicate IsFeature(f: Field) {
    f in [Tools, Thinking, WebSearch, StructuredOutput, Streaming, Usage]
  }

  function UnknownValue(f: Field): Json {
    if IsFeature(f) then Str("unknown") else Null
  }

  predicate IsUnknown(f: Field, v: Json) {
    v == Null || (IsFeature(f) && v == Str("unknown"))
  }

  predicate NonBlankString(v: Json) {
    v.Str? && !Blank(v.s)
  }

  predicate ValidValue(f: Field, v: Json) {
    match f
    case LogicalModelName => v.Null? || NonBlankString(v)
    case DisplayName => v.Null? || NonBlankString(v)
    case ContextWindow => v.Null? || (v.Num? && 0 < v.n < 0x8000_0000_0000_0000)
    case MaxInputTokens => v.Null? || (v.Num? && 0 < v.n < 0x8000_0000_0000_0000)
    case MaxOutputTokens => v.Null? || (v.Num? && 0 < v.n < 0x8000_0000_0000_0000)
    case InputModalities => v.Null? || (v.Arr? && forall x :: x in v.items ==> NonBlankString(x))
    case OutputModalities => v.Null? || (v.Arr? && forall x :: x in v.items ==> NonBlankString(x))
    case _ => v.Str? && v.s in ["supported", "unsupported", "unknown"]
  }

  predicate ValidValues(values: Values) {
    forall f :: f in values ==> ValidValue(f, values[f])
  }

  predicate ValidPreset(preset: Option<Values>) {
    preset.Some? ==> ValidValues(preset.value)
  }

  lemma {:induction false} EveryField(f: Field)
    ensures exists i :: 0 <= i < |ALL_FIELDS| && ALL_FIELDS[i] == f
  {
    match f
    case LogicalModelName => assert ALL_FIELDS[0] == f;
    case DisplayName => assert ALL_FIELDS[1] == f;
    case ContextWindow => assert ALL_FIELDS[2] == f;
    case MaxInputTokens => assert ALL_FIELDS[3] == f;
    case MaxOutputTokens => assert ALL_FIELDS[4] == f;
    case InputModalities => assert ALL_FIELDS[5] == f;
    case OutputModalities => assert ALL_FIELDS[6] == f;
    case Tools => assert ALL_FIELDS[7] == f;
    case Thinking => assert ALL_FIELDS[8] == f;
    case WebSearch => assert ALL_FIELDS[9] == f;
    case StructuredOutput => assert ALL_FIELDS[10] == f;
    case Streaming => assert ALL_FIELDS[11] == f;
    case Usage => assert ALL_FIELDS[12] == f;
  }

  lemma {:induction false} AllFieldsIn(f: Field)
    ensures f in ALL_FIELDS
  {
    EveryField(f);
  }

  lemma {:induction false} EachFieldOnce()
    ensures NoDuplicates(ALL_FIELDS)
  {
    forall i, j | 0 <= i < j < |ALL_FIELDS| ensures ALL_FIELDS[i] != ALL_FIELDS[j] {
      if i < 6 { } else { }
    }
  }

  // ---------------------------------------------------------------------------
  // What the operations mean.
  // ---------------------------------------------------------------------------

  /** A layer writes a field unless it has nothing to say about one that is already known.
      A user's value always wins. */
  predicate Writes(m: Meta, f: Field, v: Json, source: MetadataSource) {
    || !IsUnknown(f, v)
    || source.UserLayer?
    || (f in m.sources && m.sources[f].UnknownLayer?)
  }

  function Origin(f: Field, v: Json, source: MetadataSource): MetadataSource {
    if IsUnknown(f, v) && !source.UserLayer? then UnknownLayer else source
  }

  function WriteField(m: Meta, f: Field, v: Json, source: MetadataSource): Meta {
    if Writes(m, f, v, source) then Meta(m.values[f := v], m.sources[f := Origin(f, v, source)]) else m
  }

  function OverlayOn(m: Meta, layer: Values, source: MetadataSource, fields: seq<Field>): Meta {
    if fields == [] then m
    else
      var n := |fields| - 1;
      var rest := OverlayOn(m, layer, source, fields[..n]);
      if fields[n] in layer then WriteField(rest, fields[n], layer[fields[n]], source) else rest
  }

  /** Lay one layer over stored metadata. */
  function Overlay(m: Meta, layer: Values, source: MetadataSource): Meta {
    OverlayOn(m, layer, source, ALL_FIELDS)
  }

  function UnknownOn(fields: seq<Field>): Meta {
    if fields == [] then Meta(map[], map[])
    else
      var n := |fields| - 1;
      var rest := UnknownOn(fields[..n]);
      Meta(rest.values[fields[n] := UnknownValue(fields[n])], rest.sources[fields[n] := UnknownLayer])
  }

  function UnknownMeta(): Meta {
    UnknownOn(ALL_FIELDS)
  }

  function Resolve(upstream: Values, preset: Option<Values>): Meta {
    var m := Overlay(UnknownMeta(), upstream, UpstreamLayer);
    if preset.Some? then Overlay(m, preset.value, PresetLayer) else m
  }

  function UserOverride(m: Meta, overrides: Values): Meta {
    Overlay(m, overrides, UserLayer)
  }

  predicate IsUserField(m: Meta, f: Field) {
    f in m.sources && m.sources[f].UserLayer? && f in m.values
  }

  function Refresh(m: Meta, confirmed: bool, upstream: Values, preset: Option<Values>): Meta {
    if confirmed then m else PutBack(Resolve(upstream, preset), m)
  }

  function PutBackOn(base: Meta, mine: Meta, fields: seq<Field>): Meta {
    if fields == [] then base
    else
      var n := |fields| - 1;
      var rest := PutBackOn(base, mine, fields[..n]);
      if IsUserField(mine, fields[n])
      then Meta(rest.values[fields[n] := mine.values[fields[n]]], rest.sources[fields[n] := UserLayer])
      else rest
  }

  /** `base` with the user's fields of `mine` put back. */
  function PutBack(base: Meta, mine: Meta): Meta {
    PutBackOn(base, mine, ALL_FIELDS)
  }

  /** One field of stored metadata. */
  datatype Cell = Cell(value: Option<Json>, source: Option<MetadataSource>)

  function At(m: Meta, f: Field): Cell {
    Cell(if f in m.values then Some(m.values[f]) else None,
         if f in m.sources then Some(m.sources[f]) else None)
  }

  function OverlayCell(c: Cell, f: Field, v: Option<Json>, source: MetadataSource): Cell {
    if v.Some? && (!IsUnknown(f, v.value) || source.UserLayer? || c.source == Some(UnknownLayer))
    then Cell(v, Some(Origin(f, v.value, source)))
    else c
  }

  function PutBackCell(base: Cell, mine: Cell): Cell {
    if mine.source == Some(UserLayer) && mine.value.Some? then mine else base
  }

  function Read(layer: Values, f: Field): Option<Json> {
    if f in layer then Some(layer[f]) else None
  }

  lemma {:induction false} WriteFieldAt(m: Meta, g: Field, v: Json, source: MetadataSource, f: Field)
    ensures At(WriteField(m, g, v, source), f)
         == if f == g then OverlayCell(At(m, f), f, Some(v), source) else At(m, f)
  {
  }

  lemma {:induction false} OverlayOnAt(m: Meta, layer: Values, source: MetadataSource, fields: seq<Field>, f: Field)
    requires NoDuplicates(fields)
    ensures At(OverlayOn(m, layer, source, fields), f)
         == if f in fields then OverlayCell(At(m, f), f, Read(layer, f), source) else At(m, f)
  {
    if fields != [] {
      var n := |fields| - 1;
      var g := fields[n];
      assert fields == fields[..n] + [g];
      assert g !in fields[..n];
      OverlayOnAt(m, layer, source, fields[..n], f);
      if g in layer {
        WriteFieldAt(OverlayOn(m, layer, source, fields[..n]), g, layer[g], source, f);
      }
    }
  }

  /** A layer acts on each field by itself. */
  lemma {:induction false} OverlayAt(m: Meta, layer: Values, source: MetadataSource, f: Field)
    ensures At(Overlay(m, layer, source), f) == OverlayCell(At(m, f), f, Read(layer, f), source)
  {
    EachFieldOnce();
    AllFieldsIn(f);
    OverlayOnAt(m, layer, source, ALL_FIELDS, f);
  }

  lemma {:induction false} UnknownOnAt(fields: seq<Field>, f: Field)
    ensures f in fields ==> At(UnknownOn(fields), f) == Cell(Some(UnknownValue(f)), Some(UnknownLayer))
  {
    if fields != [] {
      var n := |fields| - 1;
      assert fields == fields[..n] + [fields[n]];
      UnknownOnAt(fields[..n], f);
    }
  }

  lemma {:induction false} PutBackOnAt(base: Meta, mine: Meta, fields: seq<Field>, f: Field)
    requires NoDuplicates(fields)
    ensures At(PutBackOn(base, mine, fields), f)
         == if f in fields then PutBackCell(At(base, f), At(mine, f)) else At(base, f)
  {
    if fields != [] {
      var n := |fields| - 1;
      assert fields == fields[..n] + [fields[n]];
      PutBackOnAt(base, mine, fields[..n], f);
    }
  }

  lemma {:induction false} PutBackAt(base: Meta, mine: Meta, f: Field)
    ensures At(PutBack(base, mine), f) == PutBackCell(At(base, f), At(mine, f))
  {
    EachFieldOnce();
    AllFieldsIn(f);
    PutBackOnAt(base, mine, ALL_FIELDS, f);
  }

  lemma {:induction false} SameCells(m: Meta, n: Meta)
    requires forall f :: At(m, f) == At(n, f)
    ensures m == n
  {
    forall f ensures f in m.values <==> f in n.values {
      assert At(m, f) == At(n, f);
    }
    forall f ensures f in m.sources <==> f in n.sources {
      assert At(m, f) == At(n, f);
    }
    forall f | f in m.values ensures m.values[f] == n.values[f] {
      assert At(m, f) == At(n, f);
    }
    forall f | f in m.sources ensures m.sources[f] == n.sources[f] {
      assert At(m, f) == At(n, f);
    }
    assert m.values == n.values && m.sources == n.sources;
  }

  // ---------------------------------------------------------------------------
  // The metadata object, updated in place field by field.
  // ---------------------------------------------------------------------------

  method ValidateValues(values: Values) returns (ok: bool)
    ensures ok <==> ValidValues(values)
  {
    for i := 0 to |ALL_FIELDS|
      invariant forall j :: 0 <= j < i && ALL_FIELDS[j] in values ==> ValidValue(ALL_FIELDS[j], values[ALL_FIELDS[j]])
    {
      var f := ALL_FIELDS[i];
      if f in values && !ValidValue(f, values[f]) {
        return false;
      }
    }
    forall f | f in values ensures ValidValue(f, values[f]) { EveryField(f); }
    return true;
  }

  class CatalogMetadata {
    var values: Values
    var fieldSources: map<Field, MetadataSource>

    ghost function View(): Meta
      reads this
    {
      Meta(values, fieldSources)
    }

    constructor (m: Meta)
      ensures View() == m
    {
      values, fieldSources := m.values, m.sources;
    }

    method ApplyValues(layer: Values, source: MetadataSource)
      modifies this
      ensures View() == Overlay(old(View()), layer, source)
      ensures forall f :: At(View(), f) == OverlayCell(old(At(View(), f)), f, Read(layer, f), source)
    {
      ghost var m := View();
      for i := 0 to |ALL_FIELDS|
        invariant View() == OverlayOn(m, layer, source, ALL_FIELDS[..i])
      {
        var f := ALL_FIELDS[i];
        assert ALL_FIELDS[..i + 1][..i] == ALL_FIELDS[..i];
        if f in layer {
          var unknown := IsUnknown(f, layer[f]);
          if !(unknown && !source.UserLayer? && !(f in fieldSources && fieldSources[f].UnknownLayer?)) {
            values := values[f := layer[f]];
            fieldSources := fieldSources[f := if unknown && !source.UserLayer? then UnknownLayer else source];
          }
        }
      }
      assert ALL_FIELDS[..|ALL_FIELDS|] == ALL_FIELDS;
      forall f ensures At(View(), f) == OverlayCell(At(m, f), f, Read(layer, f), source) {
        OverlayAt(m, layer, source, f);
      }
    }

    method ApplyUserOverrides(overrides: Values) returns (ok: bool)
      modifies this
      ensures ok <==> ValidValues(overrides)
      ensures View() == if ok then UserOverride(old(View()), overrides) else old(View())
    {
      ok := ValidateValues(overrides);
      if ok {
        ApplyValues(overrides, UserLayer);
      }
    }

    static method ResolveLayers(upstream: Values, preset: Option<Values>) returns (r: Option<CatalogMetadata>)
      ensures r.Some? <==> ValidValues(upstream) && ValidPreset(preset)
      ensures r.Some? ==> fresh(r.value) && r.value.View() == Resolve(upstream, preset)
    {
      var ok := ValidateValues(upstream);
      if ok && preset.Some? {
        ok := ValidateValues(preset.value);
      }
      if !ok {
        return None;
      }
      var m := new CatalogMetadata(UnknownMeta());
      m.ApplyValues(upstream, UpstreamLayer);
      if preset.Some? {
        m.ApplyValues(preset.value, PresetLayer);
      }
      r := Some(m);
    }

    method RefreshedPreservingUserFields(confirmed: bool, upstream: Values, preset: Option<Values>)
      returns (r: Option<CatalogMetadata>)
      ensures r.Some? <==> confirmed || (ValidValues(upstream) && ValidPreset(preset))
      ensures r.Some? ==> fresh(r.value) && r.value.View() == Refresh(View(), confirmed, upstream, preset)
    {
      if confirmed {
        var same := new CatalogMetadata(Meta(values, fieldSources));
        return Some(same);
      }
      r := ResolveLayers(upstream, preset);
      if r.None? {
        return;
      }
      var m := r.value;
      ghost var mine, base := View(), m.View();
      for i := 0 to |ALL_FIELDS|
        invariant View() == mine
        invariant m.View() == PutBackOn(base, mine, ALL_FIELDS[..i])
      {
        var f := ALL_FIELDS[i];
        assert ALL_FIELDS[..i + 1][..i] == ALL_FIELDS[..i];
        if f in fieldSources && fieldSources[f].UserLayer? && f in values {
          m.values := m.values[f := values[f]];
          m.fieldSources := m.fieldSources[f := UserLayer];
        }
      }
      assert ALL_FIELDS[..|ALL_FIELDS|] == ALL_FIELDS;
    }
  }

  // ---------------------------------------------------------------------------
  // Laws.
  // ---------------------------------------------------------------------------

  predicate Known(layer: Option<Values>, f: Field) {
    layer.Some? && f in layer.value && !IsUnknown(f, layer.value[f])
  }

  /** The documented precedence, stated per field: a known preset value, else a known
      upstream value, else unknown. */
  function Preferred(upstream: Values, preset: Option<Values>, f: Field): (Json, MetadataSource) {
    if Known(preset, f) then (preset.value[f], PresetLayer)
    else if Known(Some(upstream), f) then (upstream[f], UpstreamLayer)
    else (UnknownValue(f), UnknownLayer)
  }

  lemma {:induction false} ResolveAt(upstream: Values, preset: Option<Values>, f: Field)
    ensures At(Resolve(upstream, preset), f) == LayeredCell(upstream, preset, f)
  {
    AllFieldsIn(f);
    UnknownOnAt(ALL_FIELDS, f);
    assert At(UnknownMeta(), f) == Cell(Some(UnknownValue(f)), Some(UnknownLayer));
    OverlayAt(UnknownMeta(), upstream, UpstreamLayer, f);
    if preset.Some? {
      OverlayAt(Overlay(UnknownMeta(), upstream, UpstreamLayer), preset.value, PresetLayer, f);
    }
  }

  /** What the layers say about a field without knowing it: the last to speak decides. */
  function LastWord(upstream: Values, preset: Option<Values>, f: Field): Json {
    if preset.Some? && f in preset.value then preset.value[f]
    else if f in upstream then upstream[f]
    else UnknownValue(f)
  }

  /** The overlays store a known value, or the one value that stands for unknown. */
  predicate Canonical(upstream: Values, preset: Option<Values>, f: Field) {
    Known(preset, f) || Known(Some(upstream), f) || LastWord(upstream, preset, f) == UnknownValue(f)
  }

  function LayeredCell(upstream: Values, preset: Option<Values>, f: Field): Cell {
    var c := OverlayCell(Cell(Some(UnknownValue(f)), Some(UnknownLayer)), f, Read(upstream, f), UpstreamLayer);
    if preset.Some? then OverlayCell(c, f, Read(preset.value, f), PresetLayer) else c
  }

  lemma {:induction false} LayeredCellIff(upstream: Values, preset: Option<Values>, f: Field)
    ensures var (value, source) := Preferred(upstream, preset, f);
            LayeredCell(upstream, preset, f) == Cell(Some(value), Some(source)) <==> Canonical(upstream, preset, f)
  {
  }

  /** The two overlays are the per-field rule exactly where the last word on an unknown field is
      the canonical one. */
  lemma {:induction false} ResolveIsPerFieldIff(upstream: Values, preset: Option<Values>, f: Field)
    ensures var (value, source) := Preferred(upstream, preset, f);
            At(Resolve(upstream, preset), f) == Cell(Some(value), Some(source)) <==> Canonical(upstream, preset, f)
  {
    ResolveAt(upstream, preset, f);
    LayeredCellIff(upstream, preset, f);
  }

  lemma {:induction false} ValidIsCanonical(upstream: Values, preset: Option<Values>, f: Field)
    requires ValidValues(upstream) && ValidPreset(preset)
    ensures Canonical(upstream, preset, f)
  {
    assert f in upstream ==> ValidValue(f, upstream[f]);
    assert preset.Some? && f in preset.value ==> ValidValue(f, preset.value[f]);
  }

  /** For validated layers, the only ones the source lets through, that is every field. */
  lemma {:induction false} ResolveIsPerField(upstream: Values, preset: Option<Values>, f: Field)
    requires ValidValues(upstream) && ValidPreset(preset)
    ensures var (value, source) := Preferred(upstream, preset, f);
            At(Resolve(upstream, preset), f) == Cell(Some(value), Some(source))
  {
    ResolveIsPerFieldIff(upstream, preset, f);
    ValidIsCanonical(upstream, preset, f);
  }

  lemma {:induction false} ResolveHasNoUserField(upstream: Values, preset: Option<Values>, f: Field)
    ensures At(Resolve(upstream, preset), f).source != Some(UserLayer)
  {
    ResolveAt(upstream, preset, f);
  }

  /** On a pending row a refresh forgets every earlier refresh. */
  lemma {:induction false} RefreshForgetsHistory(m: Meta, u1: Values, p1: Option<Values>, u2: Values,
                                                 p2: Option<Values>)
    ensures Refresh(Refresh(m, false, u1, p1), false, u2, p2) == Refresh(m, false, u2, p2)
  {
    var b1, b2 := Resolve(u1, p1), Resolve(u2, p2);
    forall f ensures At(PutBack(b2, PutBack(b1, m)), f) == At(PutBack(b2, m), f) {
      ResolveHasNoUserField(u1, p1, f);
      PutBackAt(b1, m, f);
      PutBackAt(b2, PutBack(b1, m), f);
      PutBackAt(b2, m, f);
    }
    SameCells(PutBack(b2, PutBack(b1, m)), PutBack(b2, m));
  }

  /** Refreshing and editing commute on a pending row: neither undoes the other. */
  lemma {:induction false} RefreshCommutesWithOverrides(m: Meta, overrides: Values, u: Values, p: Option<Values>)
    ensures Refresh(UserOverride(m, overrides), false, u, p) == UserOverride(Refresh(m, false, u, p), overrides)
  {
    var base := Resolve(u, p);
    var l, r := PutBack(base, UserOverride(m, overrides)), UserOverride(PutBack(base, m), overrides);
    forall f ensures At(l, f) == At(r, f) {
      ResolveHasNoUserField(u, p, f);
      OverlayAt(m, overrides, UserLayer, f);
      PutBackAt(base, UserOverride(m, overrides), f);
      PutBackAt(base, m, f);
      OverlayAt(PutBack(base, m), overrides, UserLayer, f);
    }
    SameCells(l, r);
  }

  /** A fresh row refreshed with the discovery that created it does not change. */
  lemma {:induction false} RefreshOfResolve(u: Values, p: Option<Values>)
    ensures Refresh(Resolve(u, p), false, u, p) == Resolve(u, p)
  {
    var base := Resolve(u, p);
    forall f ensures At(PutBack(base, base), f) == At(base, f) {
      PutBackAt(base, base, f);
    }
    SameCells(PutBack(base, base), base);
  }

  lemma {:induction false} RefreshKeepsUserField(m: Meta, confirmed: bool, u: Values, p: Option<Values>, f: Field)
    requires IsUserField(m, f)
    ensures At(Refresh(m, confirmed, u, p), f) == At(m, f)
  {
    PutBackAt(Resolve(u, p), m, f);
  }

  lemma {:induction false} OverrideKeepsUserField(m: Meta, overrides: Values, f: Field)
    requires IsUserField(m, f)
    ensures At(UserOverride(m, overrides), f)
         == Cell(Some(if f in overrides then overrides[f] else m.values[f]), Some(UserLayer))
  {
    OverlayAt(m, overrides, UserLayer, f);
  }

  /** A field whose value, if any, would pass validation. */
  predicate ValidCell(f: Field, c: Cell) {
    c.value.Some? ==> ValidValue(f, c.value.value)
  }

  lemma {:induction false} ValidCells(m: Meta)
    ensures ValidValues(m.values) <==> forall f :: ValidCell(f, At(m, f))
  {
    if forall f :: ValidCell(f, At(m, f)) {
      forall f | f in m.values ensures ValidValue(f, m.values[f]) {
        assert ValidCell(f, At(m, f));
      }
    }
  }

  lemma {:induction false} PreferredIsValid(u: Values, p: Option<Values>, f: Field)
    requires ValidValues(u) && ValidPreset(p)
    ensures ValidValue(f, Preferred(u, p, f).0)
  {
  }

  lemma {:induction false} ResolveStaysValid(u: Values, p: Option<Values>)
    requires ValidValues(u) && ValidPreset(p)
    ensures ValidValues(Resolve(u, p).values)
  {
    forall f ensures ValidCell(f, At(Resolve(u, p), f)) {
      ResolveIsPerField(u, p, f);
      PreferredIsValid(u, p, f);
    }
    ValidCells(Resolve(u, p));
  }

  lemma {:induction false} RefreshStaysValid(m: Meta, confirmed: bool, u: Values, p: Option<Values>)
    requires ValidValues(m.values) && ValidValues(u) && ValidPreset(p)
    ensures ValidValues(Refresh(m, confirmed, u, p).values)
  {
    ValidCells(m);
    var base := Resolve(u, p);
    ResolveStaysValid(u, p);
    ValidCells(base);
    forall f ensures ValidCell(f, At(PutBack(base, m), f)) {
      PutBackAt(base, m, f);
      assert ValidCell(f, At(m, f)) && ValidCell(f, At(base, f));
    }
    ValidCells(PutBack(base, m));
  }

  // ---------------------------------------------------------------------------
  // What an edit and a refresh store, field by field.
  // ---------------------------------------------------------------------------

  /** An edit stores exactly its values, as the user's, and leaves every other field. */
  lemma {:induction false} OverrideStores(m: Meta, overrides: Values, f: Field)
    ensures f in overrides ==> At(UserOverride(m, overrides), f) == Cell(Some(overrides[f]), Some(UserLayer))
    ensures f !in overrides ==> At(UserOverride(m, overrides), f) == At(m, f)
  {
    OverlayAt(m, overrides, UserLayer, f);
  }

  /** A refresh of a pending row keeps the user's fields and gives every other field a known
      preset value, else a known upstream value, else unknown. A confirmed row stays. */
  lemma {:induction false} RefreshStores(m: Meta, confirmed: bool, upstream: Values, preset: Option<Values>, f: Field)
    requires ValidValues(upstream) && ValidPreset(preset)
    ensures confirmed || IsUserField(m, f) ==> At(Refresh(m, confirmed, upstream, preset), f) == At(m, f)
    ensures !confirmed && !IsUserField(m, f) ==>
              var (value, source) := Preferred(upstream, preset, f);
              At(Refresh(m, confirmed, upstream, preset), f) == Cell(Some(value), Some(source))
  {
    PutBackAt(Resolve(upstream, preset), m, f);
    ResolveIsPerField(upstream, preset, f);
  }
}
