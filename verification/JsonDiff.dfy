/**
 The structural diff between a source's provider preset snapshot and the latest
 preset, and the patch it stands for.
 */
module JsonDiff {
  import opened Base
  import opened Seqs
  import opened Strings

  datatype Json =
    | Null
    | Bool(b: bool)
    | Num(n: int)
    | Str(s: string)
    | Arr(items: seq<Json>)
    | Obj(fields: map<string, Json>)

  datatype Kind = Added | Changed | Missing

  /** One difference. The path is kept as its list of keys; Render gives the string
      the source stores. */
  datatype Entry = Entry(path: seq<string>, kind: Kind, before: Option<Json>, after: Option<Json>)

  function Get(v: Json, k: string): Option<Json>
    requires v.Obj?
  {
    if k in v.fields then Some(v.fields[k]) else None
  }

  function Under(k: string, es: seq<Entry>): (r: seq<Entry>)
    ensures |r| == |es|
    ensures forall i :: 0 <= i < |es| ==> r[i] == es[i].(path := [k] + es[i].path)
  {
    seq(|es|, i requires 0 <= i < |es| => es[i].(path := [k] + es[i].path))
  }

  /** Both sides are objects: the diff descends instead of reporting a change. */
  predicate Descends(before: Option<Json>, after: Option<Json>) {
    before.Some? && after.Some? && before.value.Obj? && after.value.Obj?
  }

  function LeafDiff(before: Option<Json>, after: Option<Json>): seq<Entry> {
    if before == after then []
    else if before.None? then [Entry([], Added, before, after)]
    else if after.None? then [Entry([], Missing, before, after)]
    else [Entry([], Changed, before, after)]
  }

  /** The differences between two optional values, with paths relative to them. */
  function Diff(before: Option<Json>, after: Option<Json>): seq<Entry>
    decreases before.Some?, if before.Some? then before.value else Null, 1, 0
  {
    if Descends(before, after) then
      DiffFields(before.value, after.value, SortedKeys(before.value.fields.Keys + after.value.fields.Keys))
    else LeafDiff(before, after)
  }

  function DiffFields(b: Json, a: Json, keys: seq<string>): seq<Entry>
    requires b.Obj? && a.Obj?
    decreases true, b, 0, |keys|
  {
    if keys == [] then []
    else
      var n := |keys| - 1;
      DiffFields(b, a, keys[..n]) + Under(keys[n], Diff(Get(b, keys[n]), Get(a, keys[n])))
  }

  /** Replace (or remove, or insert) the value at a path; a path that does not lead
      through objects changes nothing. */
  function PatchAt(v: Option<Json>, path: seq<string>, to: Option<Json>): Option<Json>
    decreases |path|
  {
    if path == [] then to
    else if v.Some? && v.value.Obj? then
      SetField(v.value, path[0], PatchAt(Get(v.value, path[0]), path[1..], to))
    else v
  }

  function SetField(v: Json, k: string, x: Option<Json>): Option<Json>
    requires v.Obj?
  {
    Some(Obj(if x.Some? then v.fields[k := x.value] else v.fields - {k}))
  }

  function Patch(v: Option<Json>, es: seq<Entry>): Option<Json> {
    if es == [] then v
    else
      var n := |es| - 1;
      PatchAt(Patch(v, es[..n]), es[n].path, es[n].after)
  }

  // ---------------------------------------------------------------------------
  // The recursive procedure of the source computes Diff.
  // ---------------------------------------------------------------------------

  function Prefixed(path: seq<string>, es: seq<Entry>): (r: seq<Entry>)
    ensures |r| == |es|
    ensures forall i :: 0 <= i < |es| ==> r[i] == es[i].(path := path + es[i].path)
  {
    seq(|es|, i requires 0 <= i < |es| => es[i].(path := path + es[i].path))
  }

  lemma {:induction false} PrefixedUnder(path: seq<string>, k: string, es: seq<Entry>)
    ensures Prefixed(path + [k], es) == Prefixed(path, Under(k, es))
  {
    forall i | 0 <= i < |es|
      ensures Prefixed(path + [k], es)[i] == Prefixed(path, Under(k, es))[i]
    {
      assert (path + [k]) + es[i].path == path + ([k] + es[i].path);
    }
  }

  lemma {:induction false} PrefixedAppend(path: seq<string>, es: seq<Entry>, fs: seq<Entry>)
    ensures Prefixed(path, es + fs) == Prefixed(path, es) + Prefixed(path, fs)
  {
  }

  lemma {:induction false} DiffFieldsStep(path: seq<string>, b: Json, a: Json, keys: seq<string>, i: nat)
    requires b.Obj? && a.Obj? && i < |keys|
    ensures Prefixed(path, DiffFields(b, a, keys[..i + 1]))
         == Prefixed(path, DiffFields(b, a, keys[..i]))
            + Prefixed(path + [keys[i]], Diff(Get(b, keys[i]), Get(a, keys[i])))
  {
    var inner := Diff(Get(b, keys[i]), Get(a, keys[i]));
    assert keys[..i + 1][..i] == keys[..i];
    PrefixedUnder(path, keys[i], inner);
    PrefixedAppend(path, DiffFields(b, a, keys[..i]), Under(keys[i], inner));
  }

  method DiffJson(path: seq<string>, before: Option<Json>, after: Option<Json>, changes: seq<Entry>)
    returns (result: seq<Entry>)
    ensures result == changes + Prefixed(path, Diff(before, after))
    decreases before.Some?, if before.Some? then before.value else Null, 1
  {
    if before.Some? && after.Some? && before.value.Obj? && after.value.Obj? {
      var keys := SortedKeys(before.value.fields.Keys + after.value.fields.Keys);
      result := DiffObjects(path, before.value, after.value, keys, changes);
      return;
    }
    assert path + [] == path;
    if before.Some? && after.Some? {
      if before.value == after.value {
        result := changes;
      } else {
        result := changes + [Entry(path, Changed, before, after)];
      }
    } else if after.Some? {
      result := changes + [Entry(path, Added, None, after)];
    } else if before.Some? {
      result := changes + [Entry(path, Missing, before, None)];
    } else {
      result := changes;
    }
  }

  /** The object arm of DiffJson: one recursive call per key of either object. */
  method DiffObjects(path: seq<string>, b: Json, a: Json, keys: seq<string>, changes: seq<Entry>)
    returns (result: seq<Entry>)
    requires b.Obj? && a.Obj?
    ensures result == changes + Prefixed(path, DiffFields(b, a, keys))
    decreases true, b, 0
  {
    result := changes;
    ghost var found := [];
    var i := 0;
    while i < |keys|
      invariant 0 <= i <= |keys|
      invariant found == Prefixed(path, DiffFields(b, a, keys[..i]))
      invariant result == changes + found
    {
      var k := keys[i];
      DiffFieldsStep(path, b, a, keys, i);
      result := DiffJson(path + [k], Get(b, k), Get(a, k), result);
      ghost var inner := Prefixed(path + [k], Diff(Get(b, k), Get(a, k)));
      AppendIsAssociative(changes, found, inner);
      found := found + inner;
      i := i + 1;
    }
    assert keys[..i] == keys;
  }

  // ---------------------------------------------------------------------------
  // Patching with the diff turns the old value into the new one.
  // ---------------------------------------------------------------------------

  lemma {:induction false} PatchAppend(v: Option<Json>, es: seq<Entry>, fs: seq<Entry>)
    ensures Patch(v, es + fs) == Patch(Patch(v, es), fs)
  {
    if fs == [] {
      assert es + fs == es;
    } else {
      var n := |fs| - 1;
      assert (es + fs)[..|es| + n] == es + fs[..n];
      PatchAppend(v, es, fs[..n]);
    }
  }

  /** Entries under one key of an object act on that field and leave the object an object. */
  lemma {:induction false} PatchUnder(v: Json, k: string, es: seq<Entry>)
    requires v.Obj?
    ensures Patch(Some(v), Under(k, es)) == SetField(v, k, Patch(Get(v, k), es))
  {
    if es == [] {
      assert SetField(v, k, Get(v, k)) == Some(v) by {
        if k in v.fields {
          assert v.fields[k := v.fields[k]] == v.fields;
        } else {
          assert v.fields - {k} == v.fields;
        }
      }
    } else {
      var n := |es| - 1;
      var us := Under(k, es);
      assert us[..n] == Under(k, es[..n]);
      PatchUnder(v, k, es[..n]);
      var inner := Patch(Get(v, k), es[..n]);
      var w := SetField(v, k, inner).value;
      assert us[n].path[0] == k && us[n].path[1..] == es[n].path;
      assert Get(w, k) == inner;
      var x := PatchAt(inner, es[n].path, es[n].after);
      assert SetField(w, k, x) == SetField(v, k, x) by {
        if x.Some? {
          assert w.fields[k := x.value] == v.fields[k := x.value];
        } else {
          assert w.fields - {k} == v.fields - {k};
        }
      }
    }
  }

  /** The object agrees with a on the keys done and with b elsewhere. */
  ghost predicate Mixes(v: Option<Json>, b: Json, a: Json, done: seq<string>)
    requires b.Obj? && a.Obj?
  {
    && v.Some? && v.value.Obj?
    && forall k :: Get(v.value, k) == if k in done then Get(a, k) else Get(b, k)
  }

  lemma {:induction false} PatchFields(b: Json, a: Json, keys: seq<string>)
    requires b.Obj? && a.Obj? && StrictlyAscending(keys)
    ensures Mixes(Patch(Some(b), DiffFields(b, a, keys)), b, a, keys)
    decreases true, b, 0, |keys|
  {
    if keys != [] {
      var n := |keys| - 1;
      var k := keys[n];
      PatchFields(b, a, keys[..n]);
      var inner := Diff(Get(b, k), Get(a, k));
      PatchAppend(Some(b), DiffFields(b, a, keys[..n]), Under(k, inner));
      var m := Patch(Some(b), DiffFields(b, a, keys[..n])).value;
      PatchUnder(m, k, inner);
      assert k !in keys[..n];
      PatchDiff(Get(b, k), Get(a, k));
      assert keys == keys[..n] + [k];
      MixesStep(m, b, a, keys[..n], k);
    }
  }

  lemma {:induction false} MixesStep(m: Json, b: Json, a: Json, done: seq<string>, k: string)
    requires b.Obj? && a.Obj? && Mixes(Some(m), b, a, done)
    ensures Mixes(SetField(m, k, Get(a, k)), b, a, done + [k])
  {
    var w := SetField(m, k, Get(a, k)).value;
    forall j ensures Get(w, j) == if j in done + [k] then Get(a, j) else Get(b, j) {
      assert j in done + [k] <==> j in done || j == k;
    }
  }

  lemma {:induction false} SameFields(v: Json, w: Json)
    requires v.Obj? && w.Obj? && forall k :: Get(v, k) == Get(w, k)
    ensures v == w
  {
    forall k ensures k in v.fields <==> k in w.fields {
      assert Get(v, k) == Get(w, k);
    }
    forall k | k in v.fields ensures v.fields[k] == w.fields[k] {
      assert Get(v, k) == Get(w, k);
    }
    assert v.fields == w.fields;
  }

  /** Applying the diff of two values to the first gives the second. */
  lemma {:induction false} PatchDiff(before: Option<Json>, after: Option<Json>)
    ensures Patch(before, Diff(before, after)) == after
    decreases before.Some?, if before.Some? then before.value else Null, 2
  {
    if Descends(before, after) {
      PatchObjects(before.value, after.value);
    } else {
      var es := LeafDiff(before, after);
      if es != [] {
        assert es[..0] == [];
      }
    }
  }

  lemma {:induction false} PatchObjects(b: Json, a: Json)
    requires b.Obj? && a.Obj?
    ensures Patch(Some(b), Diff(Some(b), Some(a))) == Some(a)
    decreases true, b, 1
  {
    var keys := SortedKeys(b.fields.Keys + a.fields.Keys);
    PatchFields(b, a, keys);
    var v := Patch(Some(b), DiffFields(b, a, keys)).value;
    forall k ensures Get(v, k) == Get(a, k) {
      assert k in keys <==> k in b.fields || k in a.fields;
    }
    SameFields(v, a);
  }

  /** Nothing is reported exactly when nothing differs. */
  lemma {:induction false} DiffEmptyIffEqual(before: Option<Json>, after: Option<Json>)
    ensures Diff(before, after) == [] <==> before == after
  {
    PatchDiff(before, after);
    if before == after {
      DiffSame(before);
    }
  }

  lemma {:induction false} DiffSame(v: Option<Json>)
    ensures Diff(v, v) == []
    decreases v.Some?, if v.Some? then v.value else Null, 1
  {
    if Descends(v, v) {
      DiffFieldsSame(v.value, SortedKeys(v.value.fields.Keys + v.value.fields.Keys));
    }
  }

  lemma {:induction false} DiffFieldsSame(v: Json, keys: seq<string>)
    requires v.Obj?
    ensures DiffFields(v, v, keys) == []
    decreases true, v, 0, |keys|
  {
    if keys != [] {
      DiffFieldsSame(v, keys[..|keys| - 1]);
      DiffSame(Get(v, keys[|keys| - 1]));
    }
  }

  // ---------------------------------------------------------------------------
  // No reported path runs through another, so the order of the entries is free.
  // ---------------------------------------------------------------------------

  ghost predicate PrefixFree(es: seq<Entry>) {
    && NoDuplicates(es)
    && forall e, f :: e in es && f in es && e != f ==> !(e.path <= f.path)
  }

  lemma {:induction false} FieldPaths(b: Json, a: Json, keys: seq<string>)
    requires b.Obj? && a.Obj?
    ensures forall e :: e in DiffFields(b, a, keys) ==> e.path != [] && e.path[0] in keys
  {
    if keys != [] {
      var n := |keys| - 1;
      FieldPaths(b, a, keys[..n]);
      assert keys == keys[..n] + [keys[n]];
    }
  }

  lemma {:induction false} PrefixFreeUnder(k: string, es: seq<Entry>)
    requires PrefixFree(es)
    ensures PrefixFree(Under(k, es))
  {
    var us := Under(k, es);
    forall i, j | 0 <= i < |us| && 0 <= j < |us| && i != j
      ensures us[i] != us[j] && !(us[i].path <= us[j].path)
    {
      assert us[i].path[1..] == es[i].path && us[j].path[1..] == es[j].path;
      assert es[i] != es[j] && !(es[i].path <= es[j].path);
    }
  }

  lemma {:induction false} DiffFieldsPrefixFree(b: Json, a: Json, keys: seq<string>)
    requires b.Obj? && a.Obj? && StrictlyAscending(keys)
    ensures PrefixFree(DiffFields(b, a, keys))
    decreases true, b, 0, |keys|
  {
    if keys != [] {
      var n := |keys| - 1;
      var k := keys[n];
      var es, fs := DiffFields(b, a, keys[..n]), Under(k, Diff(Get(b, k), Get(a, k)));
      DiffFieldsPrefixFree(b, a, keys[..n]);
      DiffPrefixFree(Get(b, k), Get(a, k));
      PrefixFreeUnder(k, Diff(Get(b, k), Get(a, k)));
      FieldPaths(b, a, keys[..n]);
      assert k !in keys[..n];
      PrefixFreeAppend(es, fs, k);
    }
  }

  lemma {:induction false} PrefixFreeAppend(es: seq<Entry>, fs: seq<Entry>, k: string)
    requires PrefixFree(es) && PrefixFree(fs)
    requires forall e :: e in es ==> e.path != [] && e.path[0] != k
    requires forall f :: f in fs ==> f.path != [] && f.path[0] == k
    ensures PrefixFree(es + fs)
  {
    forall e, f | e in es && f in fs ensures e != f && !(e.path <= f.path) && !(f.path <= e.path) {
      assert e.path[0] != f.path[0];
    }
  }

  /** The paths of a diff are pairwise incomparable: none is a prefix of another. */
  lemma {:induction false} DiffPrefixFree(before: Option<Json>, after: Option<Json>)
    ensures PrefixFree(Diff(before, after))
    decreases before.Some?, if before.Some? then before.value else Null, 1
  {
    if Descends(before, after) {
      DiffFieldsPrefixFree(before.value, after.value,
                           SortedKeys(before.value.fields.Keys + after.value.fields.Keys));
    }
  }

  /** Writes at incomparable paths commute. */
  lemma {:induction false} PatchAtCommutes(v: Option<Json>, p: seq<string>, x: Option<Json>, q: seq<string>,
                                           y: Option<Json>)
    requires !(p <= q) && !(q <= p)
    ensures PatchAt(PatchAt(v, p, x), q, y) == PatchAt(PatchAt(v, q, y), p, x)
    decreases |p|
  {
    if v.Some? && v.value.Obj? {
      var j, k := p[0], q[0];
      var o := v.value;
      var px, qy := PatchAt(Get(o, j), p[1..], x), PatchAt(Get(o, k), q[1..], y);
      var op, oq := SetField(o, j, px).value, SetField(o, k, qy).value;
      if j == k {
        assert p == [k] + p[1..] && q == [k] + q[1..];
        PatchAtCommutes(Get(o, k), p[1..], x, q[1..], y);
        SetFieldTwice(o, k, px, PatchAt(px, q[1..], y));
        SetFieldTwice(o, k, qy, PatchAt(qy, p[1..], x));
      } else {
        assert Get(op, k) == Get(o, k) && Get(oq, j) == Get(o, j);
        SetFieldsCommute(o, j, px, k, qy);
      }
    }
  }

  lemma {:induction false} SetFieldTwice(o: Json, k: string, x: Option<Json>, y: Option<Json>)
    requires o.Obj?
    ensures Get(SetField(o, k, x).value, k) == x
    ensures SetField(SetField(o, k, x).value, k, y) == SetField(o, k, y)
  {
    var f := SetField(o, k, x).value.fields;
    if y.Some? {
      assert f[k := y.value] == o.fields[k := y.value];
    } else {
      assert f - {k} == o.fields - {k};
    }
  }

  lemma {:induction false} SetFieldsCommute(o: Json, j: string, x: Option<Json>, k: string, y: Option<Json>)
    requires o.Obj? && j != k
    ensures SetField(SetField(o, j, x).value, k, y) == SetField(SetField(o, k, y).value, j, x)
  {
    var l := SetField(SetField(o, j, x).value, k, y).value.fields;
    var r := SetField(SetField(o, k, y).value, j, x).value.fields;
    assert l.Keys == r.Keys;
    assert l == r;
  }

  lemma {:induction false} PatchSnoc(v: Option<Json>, es: seq<Entry>, e: Entry)
    ensures Patch(v, es + [e]) == PatchAt(Patch(v, es), e.path, e.after)
  {
    assert (es + [e])[..|es|] == es;
  }

  lemma {:induction false} MoveLast(v: Option<Json>, es: seq<Entry>, e: Entry, fs: seq<Entry>)
    requires forall f :: f in fs ==> !(e.path <= f.path) && !(f.path <= e.path)
    ensures Patch(v, es + [e] + fs) == Patch(v, es + fs + [e])
  {
    if fs == [] {
      assert es + [e] + fs == es + fs + [e];
    } else {
      var n := |fs| - 1;
      var init, f := fs[..n], fs[n];
      assert fs == init + [f];
      MoveLast(v, es, e, init);
      AppendIsAssociative(es + [e], init, [f]);
      AppendIsAssociative(es, init, [f]);
      PatchSnoc(v, es + [e] + init, f);
      PatchSnoc(v, es + init, e);
      PatchSnoc(v, es + init, f);
      PatchSnoc(v, es + fs, e);
      PatchAtCommutes(Patch(v, es + init), e.path, e.after, f.path, f.after);
    }
  }

  lemma {:induction false} Incomparable(es: seq<Entry>, rest: seq<Entry>)
    requires es != [] && PrefixFree(es)
    requires multiset(es[..|es| - 1]) == multiset(rest)
    ensures forall f :: f in rest ==> !(es[|es| - 1].path <= f.path) && !(f.path <= es[|es| - 1].path)
  {
    LastOnlyOnce(es);
    SameMembers(es[..|es| - 1], rest);
  }

  /** Any reordering of pairwise incomparable entries is the same patch. */
  lemma {:induction false} PatchPermutation(v: Option<Json>, es: seq<Entry>, fs: seq<Entry>)
    requires multiset(es) == multiset(fs) && PrefixFree(es)
    ensures Patch(v, es) == Patch(v, fs)
    decreases |es|
  {
    assert |es| == |multiset(es)| == |multiset(fs)| == |fs|;
    if es != [] {
      var n := |es| - 1;
      var e := es[n];
      SameMembers(es, fs);
      assert e in fs;
      var i :| 0 <= i < |fs| && fs[i] == e;
      var l, r := fs[..i], fs[i + 1..];
      RemoveOne(es, fs, i);
      Incomparable(es, l + r);
      LastOnlyOnce(es);
      PatchPermutation(v, es[..n], l + r);
      MoveLast(v, l, e, r);
      assert (l + r + [e])[..n] == l + r;
    }
  }

  lemma {:induction false} LastOnlyOnce(es: seq<Entry>)
    requires es != [] && PrefixFree(es)
    ensures es[|es| - 1] !in es[..|es| - 1]
    ensures PrefixFree(es[..|es| - 1])
  {
  }

  // ---------------------------------------------------------------------------
  // Reading the diff backwards.
  // ---------------------------------------------------------------------------

  function Inverse(e: Entry): Entry {
    Entry(e.path, match e.kind case Added => Missing case Missing => Added case Changed => Changed, e.after, e.before)
  }

  lemma {:induction false} DiffInverse(before: Option<Json>, after: Option<Json>)
    ensures Diff(after, before) == Map(Diff(before, after), Inverse)
    decreases before.Some?, if before.Some? then before.value else Null, 1
  {
    if Descends(before, after) {
      var b, a := before.value, after.value;
      assert b.fields.Keys + a.fields.Keys == a.fields.Keys + b.fields.Keys;
      DiffFieldsInverse(b, a, SortedKeys(b.fields.Keys + a.fields.Keys));
    }
  }

  lemma {:induction false} DiffFieldsInverse(b: Json, a: Json, keys: seq<string>)
    requires b.Obj? && a.Obj?
    ensures DiffFields(a, b, keys) == Map(DiffFields(b, a, keys), Inverse)
    decreases true, b, 0, |keys|
  {
    if keys != [] {
      var n := |keys| - 1;
      DiffFieldsInverse(b, a, keys[..n]);
      DiffInverse(Get(b, keys[n]), Get(a, keys[n]));
      InverseAppend(DiffFields(b, a, keys[..n]), keys[n], Diff(Get(b, keys[n]), Get(a, keys[n])));
    }
  }

  lemma {:induction false} InverseAppend(es: seq<Entry>, k: string, fs: seq<Entry>)
    ensures Map(es + Under(k, fs), Inverse) == Map(es, Inverse) + Under(k, Map(fs, Inverse))
  {
  }

  /** The inverted diff undoes the change. */
  lemma {:induction false} DiffUndo(before: Option<Json>, after: Option<Json>)
    ensures Patch(after, Map(Diff(before, after), Inverse)) == before
  {
    DiffInverse(before, after);
    PatchDiff(after, before);
  }

  // ---------------------------------------------------------------------------
  // What is an entry.
  // ---------------------------------------------------------------------------

  /** The value at a path, if it leads through objects to one. */
  function ValueAt(v: Option<Json>, path: seq<string>): Option<Json>
    decreases |path|
  {
    if path == [] then v
    else if v.Some? && v.value.Obj? && path[0] in v.value.fields then ValueAt(Some(v.value.fields[path[0]]), path[1..])
    else None
  }

  /** Both values are objects at every proper prefix of the path, and at its end they differ and are
      not both objects. */
  predicate Parts(before: Option<Json>, after: Option<Json>, path: seq<string>)
    decreases |path|
  {
    var objects := before.Some? && after.Some? && before.value.Obj? && after.value.Obj?;
    if path == [] then before != after && !objects
    else
      && objects && (path[0] in before.value.fields || path[0] in after.value.fields)
      && Parts(ValueAt(before, path[..1]), ValueAt(after, path[..1]), path[1..])
  }

  lemma {:induction false} FieldEntry(b: Json, a: Json, keys: seq<string>, k: string, e: Entry)
    requires b.Obj? && a.Obj? && k in keys && e in Diff(Get(b, k), Get(a, k))
    ensures e.(path := [k] + e.path) in DiffFields(b, a, keys)
  {
    var n := |keys| - 1;
    var es := Diff(Get(b, keys[n]), Get(a, keys[n]));
    if k == keys[n] {
      var i :| 0 <= i < |es| && es[i] == e;
      assert Under(k, es)[i] == e.(path := [k] + e.path);
    } else {
      FieldEntry(b, a, keys[..n], k, e);
    }
  }

  lemma {:induction false} EntryField(b: Json, a: Json, keys: seq<string>, e: Entry)
    requires b.Obj? && a.Obj? && e in DiffFields(b, a, keys)
    ensures e.path != [] && e.path[0] in keys
    ensures e.(path := e.path[1..]) in Diff(Get(b, e.path[0]), Get(a, e.path[0]))
  {
    var n := |keys| - 1;
    var es := Diff(Get(b, keys[n]), Get(a, keys[n]));
    if e in Under(keys[n], es) {
      var i :| 0 <= i < |es| && Under(keys[n], es)[i] == e;
      assert e.path[1..] == es[i].path;
      assert e.(path := e.path[1..]) == es[i];
    } else {
      EntryField(b, a, keys[..n], e);
    }
  }

  /** The diff holds exactly one kind of entry: at a path where the values part, with the two values
      found there, `added` where there was none before, `missing` where there is none after. */
  lemma {:induction false} DiffIsExact(before: Option<Json>, after: Option<Json>, e: Entry)
    ensures e in Diff(before, after) <==>
              && Parts(before, after, e.path)
              && e.before == ValueAt(before, e.path) && e.after == ValueAt(after, e.path)
              && (e.kind == Added <==> e.before == None) && (e.kind == Missing <==> e.before != None && e.after == None)
    decreases |e.path|
  {
    if Descends(before, after) {
      var b, a := before.value, after.value;
      var keys := SortedKeys(b.fields.Keys + a.fields.Keys);
      if e in Diff(before, after) {
        EntryField(b, a, keys, e);
      }
      if e.path != [] && e.path[0] in keys {
        var k, inner := e.path[0], e.(path := e.path[1..]);
        assert e.path[..1] == [k] && [k] + e.path[1..] == e.path;
        assert ValueAt(before, [k]) == Get(b, k) && ValueAt(after, [k]) == Get(a, k);
        DiffIsExact(Get(b, k), Get(a, k), inner);
        ValueAtField(b, e.path);
        ValueAtField(a, e.path);
        if inner in Diff(Get(b, k), Get(a, k)) {
          FieldEntry(b, a, keys, k, inner);
        }
      }
    } else {
      assert e == Entry(e.path, e.kind, e.before, e.after);
    }
  }

  lemma {:induction false} ValueAtField(v: Json, path: seq<string>)
    requires v.Obj? && path != []
    ensures ValueAt(Some(v), path) == ValueAt(Get(v, path[0]), path[1..])
  {
  }

  // ---------------------------------------------------------------------------
  // The published diff: rendered paths, sorted.
  // ---------------------------------------------------------------------------

  function Render(path: seq<string>): string {
    if path == [] then "$" else Render(path[..|path| - 1]) + "." + path[|path| - 1]
  }

  function ByRenderedPath(): (Entry, Entry) -> bool {
    (l: Entry, r: Entry) => StrLe(Render(l.path), Render(r.path))
  }

  /** The diff a source shows against the latest preset: sorted by rendered path, it
      reports each difference once, and it still patches the snapshot into the preset. */
  method ProviderPresetDiff(snapshot: Json, latest: Json) returns (changes: seq<Entry>)
    ensures multiset(changes) == multiset(Diff(Some(snapshot), Some(latest)))
    ensures SortedBy(changes, ByRenderedPath())
    ensures PrefixFree(changes)
    ensures Patch(Some(snapshot), changes) == Some(latest)
    ensures Patch(Some(latest), Map(changes, Inverse)) == Some(snapshot)
    ensures changes == [] <==> snapshot == latest
  {
    var found := DiffJson([], Some(snapshot), Some(latest), []);
    ghost var es := Diff(Some(snapshot), Some(latest));
    assert found == es by {
      assert Prefixed([], es) == es by {
        forall i | 0 <= i < |es| ensures Prefixed([], es)[i] == es[i] {
          assert [] + es[i].path == es[i].path;
        }
      }
    }
    changes := SortBy(found, ByRenderedPath());
    PresetDiffFacts(Some(snapshot), Some(latest), changes);
    StrLeIsOrder();
    SortBySorts(found, ByRenderedPath());
  }

  /** Sorting the diff of two values changes neither what it patches nor what it undoes. */
  lemma {:induction false} PresetDiffFacts(before: Option<Json>, after: Option<Json>, changes: seq<Entry>)
    requires changes == SortBy(Diff(before, after), ByRenderedPath())
    ensures multiset(changes) == multiset(Diff(before, after))
    ensures PrefixFree(changes)
    ensures Patch(before, changes) == after
    ensures Patch(after, Map(changes, Inverse)) == before
    ensures changes == [] <==> before == after
  {
    var es := Diff(before, after);
    SortByIsPermutation(es, ByRenderedPath());
    DiffPrefixFree(before, after);
    PrefixFreePermutation(es, changes);
    PatchPermutation(before, es, changes);
    PatchDiff(before, after);
    DiffEmptyIffEqual(before, after);
    DiffUndo(before, after);
    DiffInverse(before, after);
    DiffPrefixFree(after, before);
    MapPermutation(es, changes, Inverse);
    PatchPermutation(after, Map(es, Inverse), Map(changes, Inverse));
  }

  lemma {:induction false} PrefixFreePermutation(es: seq<Entry>, fs: seq<Entry>)
    requires multiset(es) == multiset(fs) && PrefixFree(es)
    ensures PrefixFree(fs)
  {
    SameMembers(es, fs);
    OccursOnce(es);
    OccursOnce(fs);
  }

  predicate DotFree(path: seq<string>) {
    forall k :: k in path ==> '.' !in k
  }

  /** Rendered paths tell key lists apart when no key contains a dot. */
  lemma {:induction false} RenderInjective(p: seq<string>, q: seq<string>)
    requires DotFree(p) && DotFree(q) && Render(p) == Render(q)
    ensures p == q
    decreases |p|
  {
    if p != [] && q != [] {
      var m, n := |p| - 1, |q| - 1;
      LastKey(Render(p[..m]), p[m], Render(q[..n]), q[n]);
      RenderInjective(p[..m], q[..n]);
      assert p == p[..m] + [p[m]] && q == q[..n] + [q[n]];
    }
  }

  lemma {:induction false} LastKey(a: string, k: string, b: string, l: string)
    requires a + "." + k == b + "." + l && '.' !in k && '.' !in l
    ensures a == b && k == l
  {
    var s := a + "." + k;
    assert s == b + "." + l;
    assert forall i :: |a| < i < |s| ==> s[i] == k[i - |a| - 1];
    assert forall i :: |b| < i < |s| ==> s[i] == l[i - |b| - 1];
    assert s[|a|] == '.' && s[|b|] == '.';
    assert s[..|a|] == a && s[..|b|] == b;
    assert s[|a| + 1..] == k && s[|b| + 1..] == l;
  }

  /** A key cut at its dots. */
  function Split(k: string): (r: seq<string>)
    ensures r != []
    ensures forall i :: 0 <= i < |r| ==> '.' !in r[i]
  {
    if k == "" then [""]
    else
      var n := |k| - 1;
      var init := Split(k[..n]);
      if k[n] == '.' then init + [""] else init[..|init| - 1] + [init[|init| - 1] + [k[n]]]
  }

  /** A path with every key cut at its dots. */
  function Flat(path: seq<string>): (r: seq<string>)
    ensures forall i :: 0 <= i < |r| ==> '.' !in r[i]
  {
    if path == [] then [] else Flat(path[..|path| - 1]) + Split(path[|path| - 1])
  }

  lemma {:induction false} RenderSnoc(path: seq<string>, k: string)
    ensures Render(path + [k]) == Render(path) + "." + k
  {
    assert (path + [k])[..|path|] == path;
  }

  lemma {:induction false} RenderDot(path: seq<string>, init: seq<string>, text: string)
    requires Render(path + init) == Render(path) + "." + text
    ensures Render(path + (init + [""])) == Render(path) + "." + (text + ".")
  {
    RenderSnoc(path + init, "");
    AppendIsAssociative(path, init, [""]);
    AppendIsAssociative(Render(path) + ".", text, ".");
    assert Render(path + init) + "." + "" == Render(path + init) + ".";
  }

  lemma {:induction false} RenderLetter(path: seq<string>, init: seq<string>, text: string, c: char)
    requires init != [] && Render(path + init) == Render(path) + "." + text
    ensures Render(path + (init[..|init| - 1] + [init[|init| - 1] + [c]])) == Render(path) + "." + (text + [c])
  {
    var front, last := path + init[..|init| - 1], init[|init| - 1];
    assert path + init == front + [last];
    AppendIsAssociative(path, init[..|init| - 1], [last + [c]]);
    RenderSnoc(front, last);
    RenderSnoc(front, last + [c]);
    AppendIsAssociative(Render(front) + ".", last, [c]);
    AppendIsAssociative(Render(path) + ".", text, [c]);
  }

  /** Cutting the last key leaves the rendered path as it is. */
  lemma {:induction false} RenderSplit(path: seq<string>, k: string)
    ensures Render(path + Split(k)) == Render(path) + "." + k
  {
    if k == "" {
      RenderSnoc(path, "");
    } else {
      var n := |k| - 1;
      RenderSplit(path, k[..n]);
      assert k == k[..n] + [k[n]];
      if k[n] == '.' {
        RenderDot(path, Split(k[..n]), k[..n]);
      } else {
        RenderLetter(path, Split(k[..n]), k[..n], k[n]);
      }
    }
  }

  lemma {:induction false} RenderFlat(path: seq<string>)
    ensures Render(Flat(path)) == Render(path)
  {
    if path != [] {
      var n := |path| - 1;
      RenderFlat(path[..n]);
      RenderSplit(Flat(path[..n]), path[n]);
    }
  }

  /** Two paths render alike exactly when they are the same path once every key is cut at its
      dots. */
  lemma {:induction false} RenderEqualIffFlat(p: seq<string>, q: seq<string>)
    ensures Render(p) == Render(q) <==> Flat(p) == Flat(q)
  {
    RenderFlat(p);
    RenderFlat(q);
    if Render(p) == Render(q) {
      RenderInjective(Flat(p), Flat(q));
    }
  }

  /** A field whose value changes is an entry of the diff of two objects. */
  lemma {:induction false} ChangedField(b: Json, a: Json, k: string, e: Entry)
    requires b.Obj? && a.Obj? && (k in b.fields || k in a.fields) && e in Diff(Get(b, k), Get(a, k))
    ensures e.(path := [k] + e.path) in Diff(Some(b), Some(a))
  {
    FieldEntry(b, a, SortedKeys(b.fields.Keys + a.fields.Keys), k, e);
  }

  function Dotted(x: string, y: string, n: int): Json {
    Obj(map[x + "." + y := Num(n), x := Obj(map[y := Num(n)])])
  }

  lemma {:induction false} NestedChange(x: string, y: string, b: Json, a: Json, m: int, n: int)
    requires m != n && b.Obj? && a.Obj?
    requires Get(b, x) == Some(Obj(map[y := Num(m)])) && Get(a, x) == Some(Obj(map[y := Num(n)]))
    ensures Entry([x, y], Changed, Some(Num(m)), Some(Num(n))) in Diff(Some(b), Some(a))
  {
    var leaf := Entry([], Changed, Some(Num(m)), Some(Num(n)));
    ChangedField(Obj(map[y := Num(m)]), Obj(map[y := Num(n)]), y, leaf);
    assert [y] + [] == [y] && [x] + [y] == [x, y];
    ChangedField(b, a, x, leaf.(path := [y]));
  }

  lemma {:induction false} PlainChange(k: string, b: Json, a: Json, m: int, n: int)
    requires m != n && b.Obj? && a.Obj? && Get(b, k) == Some(Num(m)) && Get(a, k) == Some(Num(n))
    ensures Entry([k], Changed, Some(Num(m)), Some(Num(n))) in Diff(Some(b), Some(a))
  {
    ChangedField(b, a, k, Entry([], Changed, Some(Num(m)), Some(Num(n))));
    assert [k] + [] == [k];
  }

  /** The collision is real: for any two keys, two presets that hold a value under the dotted
      key and under the nested keys have a diff with two entries of one rendered path. */
  lemma {:induction false} DiffRendersAlike(x: string, y: string) returns (e: Entry, f: Entry)
    ensures e in Diff(Some(Dotted(x, y, 1)), Some(Dotted(x, y, 2))) && e.path == [x + "." + y]
    ensures f in Diff(Some(Dotted(x, y, 1)), Some(Dotted(x, y, 2))) && f.path == [x, y]
    ensures e != f && Render(e.path) == Render(f.path)
  {
    var b, a, k := Dotted(x, y, 1), Dotted(x, y, 2), x + "." + y;
    assert |k| > |x|;
    PlainChange(k, b, a, 1, 2);
    NestedChange(x, y, b, a, 1, 2);
    e, f := Entry([k], Changed, Some(Num(1)), Some(Num(2))), Entry([x, y], Changed, Some(Num(1)), Some(Num(2)));
    RenderAlike(x, y);
  }

  lemma {:induction false} RenderAlike(x: string, y: string)
    ensures Render([x + "." + y]) == Render([x, y])
  {
    RenderSnoc([], x + "." + y);
    RenderSnoc([], x);
    RenderSnoc([x], y);
    assert [x] + [y] == [x, y] && [] + [x + "." + y] == [x + "." + y] && [] + [x] == [x];
    assert "$" + "." + (x + "." + y) == "$" + "." + x + "." + y;
  }
}
