/** Go's string order (byte-wise on UTF-8, which is code-point order) and the
    sorted key lists that `sort.Strings`, `sort.Slice` by ID and SQL
    `ORDER BY` produce over a set of distinct keys. */
module Order {

  /** a < b on Go strings: lexicographic by code point, a proper prefix first. */
  predicate StrLess(a: string, b: string)
    decreases |a|
  {
    if |a| == 0 then |b| > 0
    else if |b| == 0 then false
    else if a[0] != b[0] then a[0] < b[0]
    else StrLess(a[1..], b[1..])
  }

  lemma {:induction false} StrLessIrreflexive(a: string)
    ensures !StrLess(a, a)
  {
    if |a| > 0 { StrLessIrreflexive(a[1..]); }
  }

  lemma {:induction false} StrLessTransitive(a: string, b: string, c: string)
    requires StrLess(a, b) && StrLess(b, c)
    ensures StrLess(a, c)
  {
    if |a| > 0 && |b| > 0 && |c| > 0 && a[0] == b[0] && b[0] == c[0] {
      StrLessTransitive(a[1..], b[1..], c[1..]);
    }
  }

  lemma {:induction false} StrLessTotal(a: string, b: string)
    requires a != b
    ensures StrLess(a, b) || StrLess(b, a)
  {
    if |a| > 0 && |b| > 0 && a[0] == b[0] {
      assert a == [a[0]] + a[1..] && b == [b[0]] + b[1..];
      StrLessTotal(a[1..], b[1..]);
    }
  }

  lemma StrLessAsymmetric(a: string, b: string)
    requires StrLess(a, b)
    ensures !StrLess(b, a)
  {
    if StrLess(b, a) {
      StrLessTransitive(a, b, a);
      StrLessIrreflexive(a);
    }
  }

  function Elems(s: seq<string>): set<string> {
    set x | x in s
  }

  predicate StrictlySorted(s: seq<string>) {
    forall i, j :: 0 <= i < j < |s| ==> StrLess(s[i], s[j])
  }

  predicate IsMin(m: string, ks: set<string>) {
    m in ks && forall k :: k in ks && k != m ==> StrLess(m, k)
  }

  lemma {:induction false} MinExists(ks: set<string>)
    requires ks != {}
    ensures exists m :: IsMin(m, ks)
    decreases ks
  {
    var x :| x in ks;
    if ks - {x} == {} {
      assert ks == {x};
      assert IsMin(x, ks);
    } else {
      MinExists(ks - {x});
      var m :| IsMin(m, ks - {x});
      if StrLess(m, x) {
        assert IsMin(m, ks);
      } else {
        StrLessTotal(m, x);
        forall k | k in ks && k != x ensures StrLess(x, k) {
          if k != m { StrLessTransitive(x, m, k); }
        }
        assert IsMin(x, ks);
      }
    }
  }

  lemma PrependMin(m: string, rest: seq<string>)
    requires StrictlySorted(rest)
    requires forall x :: x in Elems(rest) ==> StrLess(m, x)
    ensures StrictlySorted([m] + rest)
  {
    var r := [m] + rest;
    forall i, j | 0 <= i < j < |r| ensures StrLess(r[i], r[j]) {
      if i == 0 {
        assert r[j] == rest[j - 1] && r[j] in Elems(rest);
      } else {
        assert r[i] == rest[i - 1] && r[j] == rest[j - 1];
      }
    }
  }

  lemma ElemsCons(m: string, rest: seq<string>)
    ensures Elems([m] + rest) == {m} + Elems(rest)
  {
    var r := [m] + rest;
    forall x | x in Elems(r) ensures x in {m} + Elems(rest) {
      var i :| 0 <= i < |r| && r[i] == x;
      if i > 0 { assert x == rest[i - 1]; }
    }
    forall x | x in Elems(rest) ensures x in Elems(r) {
      var i :| 0 <= i < |rest| && rest[i] == x;
      assert r[i + 1] == x;
    }
  }

  /** The keys of `ks` in ascending order. */
  ghost function SortedIds(ks: set<string>): (r: seq<string>)
    ensures StrictlySorted(r) && Elems(r) == ks
    decreases ks
  {
    if ks == {} then []
    else
      MinExists(ks);
      var m :| IsMin(m, ks);
      var rest := SortedIds(ks - {m});
      assert forall x :: x in Elems(rest) ==> StrLess(m, x) by {
        assert Elems(rest) == ks - {m};
      }
      PrependMin(m, rest);
      ElemsCons(m, rest);
      [m] + rest
  }

  /** A strictly sorted sequence is determined by its elements. */
  lemma {:induction false} SortedUnique(a: seq<string>, b: seq<string>)
    requires StrictlySorted(a) && StrictlySorted(b) && Elems(a) == Elems(b)
    ensures a == b
    decreases |a|
  {
    assert |a| > 0 ==> a[0] in Elems(b);
    assert |b| > 0 ==> b[0] in Elems(a);
    if |a| > 0 && |b| > 0 {
      if a[0] != b[0] {
        assert b[0] in Elems(a) && a[0] in Elems(b);
        var i :| 0 <= i < |a| && a[i] == b[0];
        var j :| 0 <= j < |b| && b[j] == a[0];
        assert StrLess(a[0], b[0]) by { assert i > 0; }
        assert StrLess(b[0], a[0]) by { assert j > 0; }
        StrLessAsymmetric(a[0], b[0]);
      }
      forall x | x in a[1..] ensures x in b[1..] {
        var i :| 1 <= i < |a| && a[i] == x;
        assert StrLess(a[0], x);
        StrLessIrreflexive(x);
        assert x in Elems(a);
        var j :| 0 <= j < |b| && b[j] == x;
        assert j > 0;
      }
      forall x | x in b[1..] ensures x in a[1..] {
        var j :| 1 <= j < |b| && b[j] == x;
        assert StrLess(b[0], x);
        StrLessIrreflexive(x);
        assert x in Elems(b);
        var i :| 0 <= i < |a| && a[i] == x;
        assert i > 0;
      }
      assert Elems(a[1..]) == Elems(b[1..]);
      SortedUnique(a[1..], b[1..]);
      assert a == [a[0]] + a[1..] && b == [b[0]] + b[1..];
    }
  }

  /** A strictly sorted sequence has no repeats, so it is as long as its set. */
  lemma {:induction false} SortedCard(s: seq<string>)
    requires StrictlySorted(s)
    ensures |Elems(s)| == |s|
  {
    if |s| > 0 {
      var rest := s[1..];
      assert StrictlySorted(rest);
      SortedCard(rest);
      assert s == [s[0]] + rest;
      ElemsCons(s[0], rest);
      if s[0] in Elems(rest) {
        var j :| 0 <= j < |rest| && rest[j] == s[0];
        assert StrLess(s[0], s[j + 1]);
        StrLessIrreflexive(s[0]);
        assert false;
      }
    }
  }

  lemma KeysInOrder<V>(m: map<string, V>)
    ensures |SortedIds(m.Keys)| == |m|
    ensures forall i :: 0 <= i < |SortedIds(m.Keys)| ==> SortedIds(m.Keys)[i] in m
  {
    var ids := SortedIds(m.Keys);
    SortedCard(ids);
    assert forall i :: 0 <= i < |ids| ==> ids[i] in Elems(ids);
  }

  /** The values of a map keyed by strings, in ascending key order: what a
      listing sorted by id returns. */
  ghost function SortedValues<V>(m: map<string, V>): (r: seq<V>)
    ensures |r| == |m| == |SortedIds(m.Keys)|
    ensures forall i :: 0 <= i < |r| ==> SortedIds(m.Keys)[i] in m && r[i] == m[SortedIds(m.Keys)[i]]
  {
    KeysInOrder(m);
    var ids := SortedIds(m.Keys);
    seq(|ids|, i requires 0 <= i < |ids| => m[ids[i]])
  }

  /** One more step of collecting the values in key order. */
  lemma SortedValuesSnoc<V>(m: map<string, V>, ids: seq<string>, i: int)
    requires ids == SortedIds(m.Keys) && 0 <= i < |ids|
    ensures ids[i] in m && SortedValues(m)[..i + 1] == SortedValues(m)[..i] + [m[ids[i]]]
  {
    assert SortedValues(m)[..i + 1] == SortedValues(m)[..i] + [SortedValues(m)[i]];
  }

  lemma SortedValuesInMap<V>(m: map<string, V>)
    ensures forall i :: 0 <= i < |SortedValues(m)| ==> SortedValues(m)[i] in m.Values
  {
  }

  /** When every value carries its own key, the listing is strictly ascending
      by that key and lists every key. */
  lemma SortedValuesKeyed<V>(m: map<string, V>, key: V -> string)
    requires forall id :: id in m ==> key(m[id]) == id
    ensures forall i, j :: 0 <= i < j < |SortedValues(m)| ==>
              StrLess(key(SortedValues(m)[i]), key(SortedValues(m)[j]))
    ensures forall id :: id in m <==> exists i :: 0 <= i < |SortedValues(m)| && key(SortedValues(m)[i]) == id
  {
    var ids := SortedIds(m.Keys);
    var r := SortedValues(m);
    assert forall i :: 0 <= i < |r| ==> key(r[i]) == ids[i];
    forall id | id in m
      ensures exists i :: 0 <= i < |r| && key(r[i]) == id
    {
      assert id in Elems(ids);
      var i :| 0 <= i < |ids| && ids[i] == id;
      assert key(r[i]) == id;
    }
  }

  /** Inserts `k` into a strictly sorted sequence that does not hold it. */
  method Insert(ids: seq<string>, k: string) returns (r: seq<string>)
    requires StrictlySorted(ids) && k !in ids
    ensures StrictlySorted(r) && Elems(r) == Elems(ids) + {k} && |r| == |ids| + 1
  {
    var i := 0;
    while i < |ids| && StrLess(ids[i], k)
      invariant 0 <= i <= |ids|
      invariant forall j :: 0 <= j < i ==> StrLess(ids[j], k)
    {
      i := i + 1;
    }
    if i < |ids| {
      StrLessTotal(ids[i], k);
    }
    forall j | i <= j < |ids| ensures StrLess(k, ids[j]) {
      if j > i { StrLessTransitive(k, ids[i], ids[j]); }
    }
    r := ids[..i] + [k] + ids[i..];
    forall a, b | 0 <= a < b < |r| ensures StrLess(r[a], r[b]) {
      if a < i && b > i {
        assert r[a] == ids[a] && r[b] == ids[b - 1];
        StrLessTransitive(r[a], k, r[b]);
      } else if a < i && b == i {
        assert r[a] == ids[a];
      } else if a == i {
        assert r[b] == ids[b - 1];
      } else if a < i {
        assert r[a] == ids[a] && r[b] == ids[b];
      } else {
        assert r[a] == ids[a - 1] && r[b] == ids[b - 1];
      }
    }
    assert Elems(r) == Elems(ids) + {k} by {
      assert ids == ids[..i] + ids[i..];
    }
  }

  /** The keys of `m` collected and sorted, as `sort.Strings` does with the ids
      gathered from a Go map. */
  method SortedKeys<V>(m: map<string, V>) returns (ids: seq<string>)
    ensures ids == SortedIds(m.Keys)
  {
    ids := [];
    var rest := m.Keys;
    while rest != {}
      invariant rest <= m.Keys
      invariant StrictlySorted(ids) && Elems(ids) == m.Keys - rest
      decreases rest
    {
      var k :| k in rest;
      ids := Insert(ids, k);
      rest := rest - {k};
    }
    SortedUnique(ids, SortedIds(m.Keys));
  }
}
