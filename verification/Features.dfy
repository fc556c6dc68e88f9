/** Feature support and what an adapter leaves of it. */
module Features {
  import opened Base
  import opened JsonDiff

  datatype FeatureMode = NativeFeature | TranslatedFeature | NoFeature

  /** The eight features, in the order they are intersected and reported. */
  const FEATURES: seq<string> :=
    ["streaming", "tools", "tool_streaming", "thinking", "web_search", "file_search", "vision", "usage"]

  /** One mode per feature. */
  type Capabilities = s: seq<FeatureMode> | |s| == 8 witness seq(8, _ => NoFeature)

  /** A registered protocol adapter. */
  datatype AdapterDefinition = AdapterDefinition(from: Protocol, to: Protocol, features: Capabilities)

  type AdapterRegistry = map<string, AdapterDefinition>

  function DecodeMode(v: Option<Json>): Option<FeatureMode> {
    match v
    case None => Some(NoFeature)
    case Some(Bool(b)) => Some(if b then NativeFeature else NoFeature)
    case Some(Str(s)) =>
      if s == "supported" || s == "native" then Some(NativeFeature)
      else if s == "translated" then Some(TranslatedFeature)
      else if s == "unsupported" || s == "unknown" then Some(NoFeature)
      else None
    case Some(_) => None
  }

  function DecodeModes(column: Json, n: nat): Option<seq<FeatureMode>>
    requires column.Obj? && n <= |FEATURES|
    ensures DecodeModes(column, n).Some? ==> |DecodeModes(column, n).value| == n
  {
    if n == 0 then Some([])
    else
      var rest := DecodeModes(column, n - 1);
      var mode := DecodeMode(Get(column, FEATURES[n - 1]));
      if rest.None? || mode.None? then None else Some(rest.value + [mode.value])
  }

  /** Feature capabilities as the catalog stores them. */
  function CapabilitiesFromCatalog(v: Json): Option<Capabilities> {
    if v.Null? then Some(seq(8, _ => NoFeature))
    else if !v.Obj? then None
    else match DecodeModes(v, 8)
      case None => None
      case Some(modes) => Some(modes)
  }

  /** One feature through an adapter: what is left, and whether that is a degradation. */
  function IntersectMode(source: FeatureMode, adapter: FeatureMode): (FeatureMode, bool) {
    match adapter
    case NoFeature => (NoFeature, !source.NoFeature?)
    case TranslatedFeature => if source.NativeFeature? then (TranslatedFeature, true) else (source, false)
    case NativeFeature => if source.NoFeature? then (NoFeature, false) else (NativeFeature, false)
  }

  datatype Intersection = Intersection(modes: seq<FeatureMode>, degraded: seq<string>)

  function IntersectUpTo(model: Capabilities, adapter: Option<Capabilities>, lossy: bool,
                         n: nat): (r: Result<Intersection, string>)
    requires n <= 8
    ensures r.Ok? ==> |r.value.modes| == n
  {
    if n == 0 then Ok(Intersection([], []))
    else
      match IntersectUpTo(model, adapter, lossy, n - 1)
      case Err(e) => Err(e)
      case Ok(done) =>
        var through := if adapter.Some? then adapter.value[n - 1] else NativeFeature;
        var (mode, degraded) := IntersectMode(model[n - 1], through);
        if degraded && through.NoFeature? && !lossy then Err(FEATURES[n - 1])
        else Ok(Intersection(done.modes + [mode], done.degraded + if degraded then [FEATURES[n - 1]] else []))
  }

  /** The effective capabilities of a model behind an adapter (or none), and the features
      it degrades; an error names the first feature that would be lost without leave. */
  function Intersect(model: Capabilities, adapter: Option<Capabilities>, lossy: bool): Result<Intersection, string> {
    IntersectUpTo(model, adapter, lossy, 8)
  }

  // ---------------------------------------------------------------------------
  // What the intersection means.
  // ---------------------------------------------------------------------------

  function Strength(m: FeatureMode): nat {
    match m
    case NoFeature => 0
    case TranslatedFeature => 1
    case NativeFeature => 2
  }

  /** What the adapter does to feature i; no adapter passes everything through. */
  function Through(adapter: Option<Capabilities>, i: nat): FeatureMode
    requires i < 8
  {
    if adapter.Some? then adapter.value[i] else NativeFeature
  }

  /** Feature i would be lost altogether. */
  predicate Loses(model: Capabilities, adapter: Option<Capabilities>, i: nat)
    requires i < 8
  {
    !model[i].NoFeature? && Through(adapter, i).NoFeature?
  }

  /** It fails exactly when some feature would be lost without leave, and names the first. */
  lemma {:induction false} IntersectFailsIff(model: Capabilities, adapter: Option<Capabilities>, lossy: bool, n: nat)
    requires n <= 8
    ensures IntersectUpTo(model, adapter, lossy, n).Err? <==>
              !lossy && exists i: nat :: i < n && Loses(model, adapter, i)
    ensures IntersectUpTo(model, adapter, lossy, n).Err? ==>
              exists i: nat ::
                && i < n && Loses(model, adapter, i) && IntersectUpTo(model, adapter, lossy, n).error == FEATURES[i]
                && forall j: nat :: j < i ==> !Loses(model, adapter, j)
  {
    if n > 0 {
      IntersectFailsIff(model, adapter, lossy, n - 1);
      if !lossy && Loses(model, adapter, n - 1) && IntersectUpTo(model, adapter, lossy, n - 1).Ok? {
        assert forall j: nat :: j < n - 1 ==> !Loses(model, adapter, j);
      }
    }
  }

  /** Feature by feature the result is the weaker of the two, except that a translated feature
      behind a native pass-through is reported as native. */
  lemma {:induction false} IntersectIsWeakest(model: Capabilities, adapter: Option<Capabilities>, lossy: bool, n: nat,
                                              i: nat)
    requires i < n <= 8 && IntersectUpTo(model, adapter, lossy, n).Ok?
    ensures var mode := IntersectUpTo(model, adapter, lossy, n).value.modes[i];
            var source, through := Strength(model[i]), Strength(Through(adapter, i));
            && (Strength(mode) == (if source <= through then source else through) <==>
                !(model[i].TranslatedFeature? && Through(adapter, i).NativeFeature?))
            && (mode.NoFeature? <==> model[i].NoFeature? || Through(adapter, i).NoFeature?)
  {
    if i < n - 1 {
      IntersectIsWeakest(model, adapter, lossy, n - 1, i);
    }
  }

  lemma {:induction false} FeaturesDiffer(i: nat, j: nat)
    requires i < j < 8
    ensures FEATURES[i] != FEATURES[j]
  {
    assert |FEATURES[0]| == 9 && |FEATURES[1]| == 5 && |FEATURES[2]| == 14 && |FEATURES[3]| == 8;
    assert |FEATURES[4]| == 10 && |FEATURES[5]| == 11 && |FEATURES[6]| == 6 && |FEATURES[7]| == 5;
    assert FEATURES[1][0] == 't' && FEATURES[7][0] == 'u';
  }

  /** The reported degradations are exactly the features that came out weaker. */
  lemma {:induction false} DegradedIsExact(model: Capabilities, adapter: Option<Capabilities>, lossy: bool, n: nat,
                                           i: nat)
    requires i < 8 && n <= 8 && IntersectUpTo(model, adapter, lossy, n).Ok?
    ensures var r := IntersectUpTo(model, adapter, lossy, n).value;
            FEATURES[i] in r.degraded <==> i < n && Strength(r.modes[i]) < Strength(model[i])
  {
    if n > 0 {
      DegradedIsExact(model, adapter, lossy, n - 1, i);
      if i < n - 1 {
        FeaturesDiffer(i, n - 1);
      } else if n - 1 < i {
        FeaturesDiffer(n - 1, i);
      }
    }
  }

  /** Feature by feature: what the model lacks stays lacking, and the rest is what the adapter
      makes of it. */
  lemma {:induction false} IntersectGives(model: Capabilities, adapter: Option<Capabilities>, lossy: bool, n: nat,
                                          i: nat)
    requires i < n <= 8 && IntersectUpTo(model, adapter, lossy, n).Ok?
    ensures IntersectUpTo(model, adapter, lossy, n).value.modes[i]
         == if model[i] == NoFeature then NoFeature else Through(adapter, i)
  {
    if i < n - 1 {
      IntersectGives(model, adapter, lossy, n - 1, i);
    }
  }

  // ---------------------------------------------------------------------------
  // What a stored column means.
  // ---------------------------------------------------------------------------

  /** The values a feature may have in the column. */
  predicate KnownWord(v: Json) {
    || v.Bool?
    || v == Str("supported") || v == Str("native") || v == Str("translated")
    || v == Str("unsupported") || v == Str("unknown")
  }

  /** What the column says about one feature. */
  function CatalogMode(column: Json, name: string): FeatureMode {
    if !column.Obj? || name !in column.fields then NoFeature
    else
      var v := column.fields[name];
      if v == Bool(true) || v == Str("supported") || v == Str("native") then NativeFeature
      else if v == Str("translated") then TranslatedFeature
      else NoFeature
  }

  lemma {:induction false} DecodeModeIs(v: Json)
    ensures DecodeMode(Some(v)).Some? <==> KnownWord(v)
    ensures DecodeMode(Some(v)) == Some(NativeFeature) <==>
              v == Bool(true) || v == Str("supported") || v == Str("native")
    ensures DecodeMode(Some(v)) == Some(TranslatedFeature) <==> v == Str("translated")
  {
    assert |"supported"| == 9 && |"native"| == 6 && |"translated"| == 10 && |"unsupported"| == 11 && |"unknown"| == 7;
  }

  lemma {:induction false} DecodeModesIs(column: Json, n: nat)
    requires column.Obj? && n <= 8
    ensures DecodeModes(column, n).Some? <==>
              forall i :: 0 <= i < n && FEATURES[i] in column.fields ==> KnownWord(column.fields[FEATURES[i]])
    ensures DecodeModes(column, n).Some? ==>
              forall i :: 0 <= i < n ==> DecodeModes(column, n).value[i] == CatalogMode(column, FEATURES[i])
  {
    if n > 0 {
      DecodeModesIs(column, n - 1);
      DecodeFeatureIs(column, FEATURES[n - 1]);
    }
  }

  lemma {:induction false} DecodeFeatureIs(column: Json, name: string)
    requires column.Obj?
    ensures DecodeMode(Get(column, name)).Some? <==> (name in column.fields ==> KnownWord(column.fields[name]))
    ensures DecodeMode(Get(column, name)).Some? ==> DecodeMode(Get(column, name)).value == CatalogMode(column, name)
  {
    if name in column.fields {
      DecodeModeIs(column.fields[name]);
    }
  }

  /** A column decodes exactly when it is null or an object in which every listed feature has one
      of the known values; a feature is then native for `true`, "supported" and "native",
      translated for "translated", and otherwise absent. */
  lemma {:induction false} CatalogIs(column: Json)
    ensures CapabilitiesFromCatalog(column).Some? <==>
              || column == Null
              || (column.Obj? && forall i :: 0 <= i < 8 && FEATURES[i] in column.fields ==>
                    KnownWord(column.fields[FEATURES[i]]))
    ensures CapabilitiesFromCatalog(column).Some? ==>
              forall i :: 0 <= i < 8 ==> CapabilitiesFromCatalog(column).value[i] == CatalogMode(column, FEATURES[i])
  {
    if column.Obj? {
      DecodeModesIs(column, 8);
    }
  }
}
