/** The two ways the loaders fill their key tables from a stream of rows:
    last write wins (`m[key] = entry`), and per-key aggregation of a count
    with a tag remembered from an earlier row. A row that is skipped
    contributes `None`. */
module Upsert {
  import opened Wrappers

  /** The table after writing every present pair in order. */
  function Fold<K, V>(m: map<K, V>, items: seq<Option<(K, V)>>): map<K, V>
    decreases |items|
  {
    if |items| == 0 then m
    else
      var before := Fold(m, items[..|items| - 1]);
      match items[|items| - 1]
      case None => before
      case Some(kv) => before[kv.0 := kv.1]
  }

  predicate Writes<K(==), V>(items: seq<Option<(K, V)>>, i: int, k: K) {
    0 <= i < |items| && items[i].Some? && items[i].value.0 == k
  }

  /** A key is in the table iff it was there before or some row writes it. */
  lemma {:induction false} FoldKeys<K, V>(m: map<K, V>, items: seq<Option<(K, V)>>, k: K)
    ensures k in Fold(m, items) <==> k in m || exists i :: Writes(items, i, k)
    decreases |items|
  {
    if |items| > 0 {
      var pre := items[..|items| - 1];
      FoldKeys(m, pre, k);
      if exists i :: Writes(pre, i, k) {
        var i :| Writes(pre, i, k);
        assert Writes(items, i, k);
      }
      if exists i :: Writes(items, i, k) {
        var i :| Writes(items, i, k);
        if i < |items| - 1 {
          assert Writes(pre, i, k);
        }
      }
      if items[|items| - 1].Some? && items[|items| - 1].value.0 == k {
        assert Writes(items, |items| - 1, k);
      }
    }
  }

  /** The value stored for a key is the one the last row writing it gave. */
  lemma {:induction false} FoldLastWins<K, V>(m: map<K, V>, items: seq<Option<(K, V)>>, i: int)
    requires 0 <= i < |items| && items[i].Some?
    requires forall j :: i < j < |items| ==> !Writes(items, j, items[i].value.0)
    ensures items[i].value.0 in Fold(m, items)
    ensures Fold(m, items)[items[i].value.0] == items[i].value.1
    decreases |items|
  {
    if i < |items| - 1 {
      var pre := items[..|items| - 1];
      forall j | i < j < |pre| ensures !Writes(pre, j, items[i].value.0) {
        assert !Writes(items, j, items[i].value.0);
      }
      FoldLastWins(m, pre, i);
      assert !Writes(items, |items| - 1, items[i].value.0);
    }
  }

  /** Every value of a table built from nothing was written by some row. */
  lemma {:induction false} FoldFrom<K, V>(items: seq<Option<(K, V)>>, k: K)
    requires k in Fold(map[], items)
    ensures exists i :: 0 <= i < |items| && items[i] == Some((k, Fold(map[], items)[k]))
    decreases |items|
  {
    var last := |items| - 1;
    var pre := items[..last];
    if items[last].Some? && items[last].value.0 == k {
      assert items[last] == Some((k, Fold(map[], items)[k]));
    } else {
      FoldFrom(pre, k);
      var i :| 0 <= i < |pre| && pre[i] == Some((k, Fold(map[], pre)[k]));
      assert items[i] == pre[i];
    }
  }

  /** A key no row writes keeps its earlier value. */
  lemma {:induction false} FoldUntouched<K, V>(m: map<K, V>, items: seq<Option<(K, V)>>, k: K)
    requires k in m
    requires forall j :: 0 <= j < |items| ==> !Writes(items, j, k)
    ensures k in Fold(m, items) && Fold(m, items)[k] == m[k]
    decreases |items|
  {
    if |items| > 0 {
      var pre := items[..|items| - 1];
      forall j | 0 <= j < |pre| ensures !Writes(pre, j, k) {
        assert !Writes(items, j, k);
      }
      FoldUntouched(m, pre, k);
      assert !Writes(items, |items| - 1, k);
    }
  }

  /** Writing one row into a table: the key takes the row's value. */
  function Put<K, V>(m: map<K, V>, item: Option<(K, V)>): map<K, V> {
    if item.Some? then m[item.value.0 := item.value.1] else m
  }

  /** Whether writing one row overwrites a key already in the table. */
  function Collides<K, V>(m: map<K, V>, item: Option<(K, V)>): nat {
    if item.Some? && item.value.0 in m then 1 else 0
  }

  /** Appending one row to the rows already written. */
  lemma FoldAppend<K, V>(m: map<K, V>, done: seq<Option<(K, V)>>, item: Option<(K, V)>)
    ensures Fold(m, done + [item]) == Put(Fold(m, done), item)
    ensures Collisions(m, done + [item]) == Collisions(m, done) + Collides(Fold(m, done), item)
  {
    assert (done + [item])[..|done|] == done;
  }

  /** One more row: the table and the collision count it leads to. */
  lemma FoldSnoc<K, V>(m: map<K, V>, items: seq<Option<(K, V)>>, i: int)
    requires 0 <= i < |items|
    ensures Fold(m, items[..i + 1]) == Put(Fold(m, items[..i]), items[i])
    ensures Collisions(m, items[..i + 1]) == Collisions(m, items[..i]) + Collides(Fold(m, items[..i]), items[i])
  {
    assert items[..i + 1][..i] == items[..i];
  }

  /** A property every earlier value and every written value has, every value
      of the table has. */
  lemma {:induction false} FoldPreserves<K, V>(m: map<K, V>, items: seq<Option<(K, V)>>, P: V -> bool)
    requires forall k :: k in m ==> P(m[k])
    requires forall i :: 0 <= i < |items| && items[i].Some? ==> P(items[i].value.1)
    ensures forall k :: k in Fold(m, items) ==> P(Fold(m, items)[k])
    decreases |items|
  {
    if |items| > 0 {
      FoldPreserves(m, items[..|items| - 1], P);
    }
  }

  /** The number of rows that write something. */
  function Present<K, V>(items: seq<Option<(K, V)>>): nat
    decreases |items|
  {
    if |items| == 0 then 0
    else Present(items[..|items| - 1]) + (if items[|items| - 1].Some? then 1 else 0)
  }

  /** The number of rows that overwrite a key already in the table. */
  function Collisions<K, V>(m: map<K, V>, items: seq<Option<(K, V)>>): nat
    decreases |items|
  {
    if |items| == 0 then 0
    else
      var pre := items[..|items| - 1];
      Collisions(m, pre)
      + (if items[|items| - 1].Some? && items[|items| - 1].value.0 in Fold(m, pre) then 1 else 0)
  }

  /** Every written row either adds a key or is counted as a collision. */
  lemma {:induction false} CollisionsAccount<K, V>(m: map<K, V>, items: seq<Option<(K, V)>>)
    ensures |Fold(m, items)| + Collisions(m, items) == |m| + Present(items)
    decreases |items|
  {
    if |items| > 0 {
      CollisionsAccount(m, items[..|items| - 1]);
    }
  }

  // ---- aggregation ----

  /** The running aggregate of one key: a summed count and a remembered tag. */
  datatype Tally = Tally(total: int, tag: string)

  /** How the tag of a key is chosen: the first row's, or the first non-empty one. */
  datatype TagRule = FirstSeen | FirstNonEmpty

  function Step<K>(m: map<K, Tally>, k: K, count: int, tag: string, rule: TagRule): map<K, Tally> {
    if k !in m then m[k := Tally(count, tag)]
    else
      var t := m[k];
      var newTag := if rule == FirstNonEmpty && t.tag == "" then tag else t.tag;
      m[k := Tally(t.total + count, newTag)]
  }

  /** The aggregates after every present row, in order. */
  function Aggregate<K>(items: seq<Option<(K, int, string)>>, rule: TagRule): map<K, Tally>
    decreases |items|
  {
    if |items| == 0 then map[]
    else
      var before := Aggregate(items[..|items| - 1], rule);
      match items[|items| - 1]
      case None => before
      case Some(row) => Step(before, row.0, row.1, row.2, rule)
  }

  /** One more row: skipped when it counts nothing, one Step otherwise. */
  lemma AggregateAppend<K>(items: seq<Option<(K, int, string)>>, item: Option<(K, int, string)>, rule: TagRule)
    ensures Aggregate(items + [item], rule) ==
              if item.None? then Aggregate(items, rule)
              else Step(Aggregate(items, rule), item.value.0, item.value.1, item.value.2, rule)
  {
    assert (items + [item])[..|items|] == items;
  }

  predicate Counts<K(==)>(items: seq<Option<(K, int, string)>>, i: int, k: K) {
    0 <= i < |items| && items[i].Some? && items[i].value.0 == k
  }

  /** The sum of the counts the rows give for key k. */
  function TotalFor<K(==)>(items: seq<Option<(K, int, string)>>, k: K): int
    decreases |items|
  {
    if |items| == 0 then 0
    else
      TotalFor(items[..|items| - 1], k)
      + (if Counts(items, |items| - 1, k) then items[|items| - 1].value.1 else 0)
  }

  /** The tag the rule picks for k among the rows: the first row's tag, or the
      first non-empty tag ("" if there is none). */
  function TagFor<K(==)>(items: seq<Option<(K, int, string)>>, k: K, rule: TagRule): string
    decreases |items|
  {
    if |items| == 0 then ""
    else if Counts(items, 0, k) && (rule == FirstSeen || items[0].value.2 != "") then items[0].value.2
    else TagFor(items[1..], k, rule)
  }

  lemma {:induction false} TagForSnoc<K>(items: seq<Option<(K, int, string)>>, k: K, rule: TagRule)
    requires |items| > 0
    ensures var pre := items[..|items| - 1];
            TagFor(items, k, rule) ==
              if TagFor(pre, k, rule) == "" && !(rule == FirstSeen && exists i :: Counts(pre, i, k))
                 && Counts(items, |items| - 1, k)
              then items[|items| - 1].value.2
              else TagFor(pre, k, rule)
    decreases |items|
  {
    var pre := items[..|items| - 1];
    if |items| > 1 {
      assert items[1..][..|items[1..]| - 1] == pre[1..];
      TagForSnoc(items[1..], k, rule);
      assert items[1..][|items[1..]| - 1] == items[|items| - 1];
      assert pre[0] == items[0];
      if exists i :: Counts(pre[1..], i, k) {
        var i :| Counts(pre[1..], i, k);
        assert Counts(pre, i + 1, k);
      }
      if exists i :: Counts(pre, i, k) {
        var i :| Counts(pre, i, k);
        if i > 0 { assert Counts(pre[1..], i - 1, k); }
      }
    } else {
      assert pre == [];
    }
  }

  /** Aggregation keeps, for every key seen, the sum of its counts and the tag
      the rule picks; keys no row names are absent. */
  lemma {:induction false} AggregateSpec<K>(items: seq<Option<(K, int, string)>>, rule: TagRule, k: K)
    ensures k in Aggregate(items, rule) <==> exists i :: Counts(items, i, k)
    ensures k in Aggregate(items, rule) ==> Aggregate(items, rule)[k].total == TotalFor(items, k)
    ensures k in Aggregate(items, rule) ==> Aggregate(items, rule)[k].tag == TagFor(items, k, rule)
    decreases |items|
  {
    if |items| > 0 {
      var pre := items[..|items| - 1];
      var last := |items| - 1;
      AggregateSpec(pre, rule, k);
      TagForSnoc(items, k, rule);
      if exists i :: Counts(pre, i, k) {
        var i :| Counts(pre, i, k);
        assert Counts(items, i, k);
      }
      if exists i :: Counts(items, i, k) {
        var i :| Counts(items, i, k);
        if i < last { assert Counts(pre, i, k); }
      }
      if k !in Aggregate(pre, rule) && Counts(items, last, k) && rule == FirstSeen {
        assert TagFor(pre, k, rule) == "" by { TagForAbsent(pre, k, rule); }
      }
      if k !in Aggregate(pre, rule) {
        TagForAbsent(pre, k, rule);
        TotalForAbsent(pre, k);
      }
    }
  }

  lemma {:induction false} TagForAbsent<K>(items: seq<Option<(K, int, string)>>, k: K, rule: TagRule)
    requires forall i :: !Counts(items, i, k)
    ensures TagFor(items, k, rule) == ""
    decreases |items|
  {
    if |items| > 0 {
      assert !Counts(items, 0, k);
      assert forall i :: Counts(items[1..], i, k) ==> Counts(items, i + 1, k);
      TagForAbsent(items[1..], k, rule);
    }
  }

  lemma {:induction false} TotalForAbsent<K>(items: seq<Option<(K, int, string)>>, k: K)
    requires forall i :: !Counts(items, i, k)
    ensures TotalFor(items, k) == 0
    decreases |items|
  {
    if |items| > 0 {
      var pre := items[..|items| - 1];
      assert forall i :: Counts(pre, i, k) ==> Counts(items, i, k);
      TotalForAbsent(pre, k);
    }
  }
}
