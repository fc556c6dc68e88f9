/** String order (code point order, as Rust's `str` compares) and ordered key sets. */
module Strings {

  predicate StrLe(a: string, b: string) {
    if a == [] then true
    else if b == [] then false
    else a[0] < b[0] || (a[0] == b[0] && StrLe(a[1..], b[1..]))
  }

  lemma {:induction false} StrLeTotal(a: string, b: string)
    ensures StrLe(a, b) || StrLe(b, a)
  {
    if a != [] && b != [] {
      StrLeTotal(a[1..], b[1..]);
    }
  }

  lemma {:induction false} StrLeTransitive(a: string, b: string, c: string)
    requires StrLe(a, b) && StrLe(b, c)
    ensures StrLe(a, c)
  {
    if a != [] && a[0] == b[0] == c[0] {
      StrLeTransitive(a[1..], b[1..], c[1..]);
    }
  }

  lemma {:induction false} StrLeAntisymmetric(a: string, b: string)
    requires StrLe(a, b) && StrLe(b, a)
    ensures a == b
  {
    if a != [] {
      StrLeAntisymmetric(a[1..], b[1..]);
      assert a == [a[0]] + a[1..] && b == [b[0]] + b[1..];
    }
  }

  lemma {:induction false} StrLeIsOrder()
    ensures forall a, b :: StrLe(a, b) || StrLe(b, a)
    ensures forall a, b, c :: StrLe(a, b) && StrLe(b, c) ==> StrLe(a, c)
    ensures forall a, b :: StrLe(a, b) && StrLe(b, a) ==> a == b
  {
    forall a, b ensures StrLe(a, b) || StrLe(b, a) { StrLeTotal(a, b); }
    forall a, b, c | StrLe(a, b) && StrLe(b, c) ensures StrLe(a, c) { StrLeTransitive(a, b, c); }
    forall a, b | StrLe(a, b) && StrLe(b, a) ensures a == b { StrLeAntisymmetric(a, b); }
  }

  predicate IsLeast(k: string, s: set<string>) {
    k in s && forall j :: j in s ==> StrLe(k, j)
  }

  lemma {:induction false} LeastExists(s: set<string>)
    requires s != {}
    ensures exists k :: IsLeast(k, s)
    decreases |s|
  {
    var x :| x in s;
    StrLeIsOrder();
    if s == {x} {
      assert IsLeast(x, s);
    } else {
      LeastExists(s - {x});
      var m :| IsLeast(m, s - {x});
      assert IsLeast(if StrLe(x, m) then x else m, s);
    }
  }

  lemma {:induction false} LeastUnique(s: set<string>)
    ensures forall k, j :: IsLeast(k, s) && IsLeast(j, s) ==> k == j
  {
    StrLeIsOrder();
  }

  /** The keys of a BTreeMap or BTreeSet, in iteration order. */
  function SortedKeys(s: set<string>): (r: seq<string>)
    ensures forall k :: k in r <==> k in s
    ensures StrictlyAscending(r)
    decreases |s|
  {
    if s == {} then []
    else
      LeastExists(s);
      LeastUnique(s);
      var k :| IsLeast(k, s);
      [k] + SortedKeys(s - {k})
  }

  ghost predicate StrictlyAscending(r: seq<string>) {
    forall i, j :: 0 <= i < j < |r| ==> StrLe(r[i], r[j]) && r[i] != r[j]
  }

  /** White space as `str::trim` sees it: the Unicode White_Space property. */
  predicate IsSpace(c: char) {
    || '\t' <= c <= '\r' || c == ' ' || c == '\U{85}' || c == '\U{A0}' || c == '\U{1680}'
    || '\U{2000}' <= c <= '\U{200A}' || c == '\U{2028}' || c == '\U{2029}' || c == '\U{202F}'
    || c == '\U{205F}' || c == '\U{3000}'
  }

  /** `trim().is_empty()`: nothing but white space. */
  predicate Blank(s: string) {
    forall c :: c in s ==> IsSpace(c)
  }
}
