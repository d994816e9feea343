/** What the source-file parsers of pkg/importer share: reading the header,
    picking columns out of it, and the two record loops — one that stores an
    entry per row, last row winning, and one that sums a count per key and
    then turns every key's total into an entry. Each parser supplies what one
    row contributes. */
module ImportRows {
  import opened Wrappers
  import opened Text
  import opened Csv
  import opened Upsert
  import Dict

  /** Why a parser gives up: the header could not be read, or a column it
      needs is not in the header. */
  datatype ParseError = HeaderUnreadable | MissingColumn(column: string)

  type Entries = map<string, Dict.Entry>

  // ---- header ----

  /** The header, when the first read gave one. */
  function HeaderOf(input: seq<Read>): (h: Result<seq<string>, ParseError>)
    ensures h.Err? <==> |input| == 0 || input[0].Unreadable?
    ensures h.Err? ==> h.error == HeaderUnreadable
    ensures h.Ok? ==> h.value == input[0].fields
  {
    if |input| == 0 || input[0].Unreadable? then Err(HeaderUnreadable) else Ok(input[0].fields)
  }

  /** The records after the header. */
  function Records(input: seq<Read>): seq<Read> {
    if |input| == 0 then [] else input[1..]
  }

  /** The last position whose (normalised) header name satisfies p. A column
      index map built from the header keeps, for each name, its last
      position, so this is the index the map gives a qualifying name; where
      several names qualify, any of their indices would do. */
  function LastIndex(keys: seq<string>, p: string -> bool): (r: Option<nat>)
    ensures r.None? <==> forall i :: 0 <= i < |keys| ==> !p(keys[i])
    ensures r.Some? ==> r.value < |keys| && p(keys[r.value])
                        && forall j :: r.value < j < |keys| ==> !p(keys[j])
    decreases |keys|
  {
    if |keys| == 0 then None
    else if p(keys[|keys| - 1]) then Some(|keys| - 1)
    else LastIndex(keys[..|keys| - 1], p)
  }

  /** `colIdx[name]`: the last position of exactly `name`. */
  function ColumnNamed(keys: seq<string>, name: string): (r: Option<nat>)
    ensures r.None? <==> name !in keys
    ensures r.Some? ==> r.value < |keys| && keys[r.value] == name && name !in keys[r.value + 1..]
  {
    var r := LastIndex(keys, k => k == name);
    assert r.None? ==> name !in keys;
    assert r.Some? ==> forall j :: r.value < j < |keys| ==> keys[j] != name;
    assert r.Some? ==> name !in keys[r.value + 1..] by {
      if r.Some? {
        var tail := keys[r.value + 1..];
        forall j | 0 <= j < |tail| ensures tail[j] != name {
          assert tail[j] == keys[r.value + 1 + j];
        }
      }
    }
    r
  }

  /** A header name trimmed and lower-cased, as the INSEE first-name and
      census parsers key their columns. */
  function LowerKey(h: string): string {
    TrimSpace(ToLower(h))
  }

  /** A header name trimmed and upper-cased, as the INSEE surname and
      commune parsers key their columns. */
  function UpperKey(h: string): string {
    TrimSpace(ToUpper(h))
  }

  /** The header names as a parser keys them. */
  function KeysOf(header: seq<string>, f: string -> string): (keys: seq<string>)
    ensures |keys| == |header| && forall i :: 0 <= i < |header| ==> keys[i] == f(header[i])
  {
    seq(|header|, i requires 0 <= i < |header| => f(header[i]))
  }

  /** The trimmed cell at an optional column, when the record reaches it. */
  function CellAt(record: seq<string>, col: Option<nat>): (c: Option<string>)
    ensures c.Some? <==> col.Some? && col.value < |record|
    ensures c.Some? ==> c.value == TrimSpace(record[col.value])
  {
    if col.Some? && col.value < |record| then Some(TrimSpace(record[col.value])) else None
  }

  // ---- last-row-wins loop ----

  /** What each record writes; an unreadable record writes nothing. */
  function RowItems(rows: seq<Read>, row: seq<string> -> Option<(string, Dict.Entry)>)
    : (items: seq<Option<(string, Dict.Entry)>>)
    ensures |items| == |rows|
    ensures forall i :: 0 <= i < |rows| ==> items[i] == (if rows[i].Row? then row(rows[i].fields) else None)
  {
    seq(|rows|, i requires 0 <= i < |rows| => if rows[i].Row? then row(rows[i].fields) else None)
  }

  /** The record loop: `entries[key] = entry` for every record that yields
      one; unreadable records are skipped. */
  method FoldRows(rows: seq<Read>, row: seq<string> -> Option<(string, Dict.Entry)>) returns (entries: Entries)
    ensures entries == Fold(map[], RowItems(rows, row))
  {
    ghost var items := RowItems(rows, row);
    entries := map[];
    for i := 0 to |rows|
      invariant entries == Fold(map[], items[..i])
    {
      FoldSnoc(map[], items, i);
      if rows[i].Unreadable? {
        continue;
      }
      var kv := row(rows[i].fields);
      if kv.Some? {
        entries := entries[kv.value.0 := kv.value.1];
      }
    }
    assert items[..|rows|] == items;
  }

  /** A key is stored iff some readable record yields it, and its entry is
      the one such a record yields. */
  lemma RowsStored(rows: seq<Read>, row: seq<string> -> Option<(string, Dict.Entry)>, k: string)
    ensures k in Fold(map[], RowItems(rows, row)) <==>
              exists i :: 0 <= i < |rows| && rows[i].Row? && row(rows[i].fields).Some? && row(rows[i].fields).value.0 == k
    ensures k in Fold(map[], RowItems(rows, row)) ==>
              exists i :: 0 <= i < |rows| && rows[i].Row? && row(rows[i].fields) == Some((k, Fold(map[], RowItems(rows, row))[k]))
  {
    var items := RowItems(rows, row);
    FoldKeys(map[], items, k);
    if k in Fold(map[], items) {
      FoldFrom(items, k);
      var i :| 0 <= i < |items| && items[i] == Some((k, Fold(map[], items)[k]));
      assert rows[i].Row?;
    }
    if exists i :: 0 <= i < |rows| && rows[i].Row? && row(rows[i].fields).Some? && row(rows[i].fields).value.0 == k {
      var i :| 0 <= i < |rows| && rows[i].Row? && row(rows[i].fields).Some? && row(rows[i].fields).value.0 == k;
      assert Writes(items, i, k);
    }
  }

  /** The last record yielding a key decides its entry. */
  lemma RowsLastWins(rows: seq<Read>, row: seq<string> -> Option<(string, Dict.Entry)>, i: int)
    requires 0 <= i < |rows| && rows[i].Row? && row(rows[i].fields).Some?
    requires forall j :: i < j < |rows| && rows[j].Row? && row(rows[j].fields).Some? ==>
               row(rows[j].fields).value.0 != row(rows[i].fields).value.0
    ensures var kv := row(rows[i].fields).value;
            kv.0 in Fold(map[], RowItems(rows, row)) && Fold(map[], RowItems(rows, row))[kv.0] == kv.1
  {
    var items := RowItems(rows, row);
    forall j | i < j < |items| ensures !Writes(items, j, items[i].value.0) {
    }
    FoldLastWins(map[], items, i);
  }

  // ---- aggregating loop ----

  /** What each record counts: a key, a count and a tag. */
  function TallyItems(rows: seq<Read>, row: seq<string> -> Option<(string, int, string)>)
    : (items: seq<Option<(string, int, string)>>)
    ensures |items| == |rows|
    ensures forall i :: 0 <= i < |rows| ==> items[i] == (if rows[i].Row? then row(rows[i].fields) else None)
  {
    seq(|rows|, i requires 0 <= i < |rows| => if rows[i].Row? then row(rows[i].fields) else None)
  }

  /** The aggregation loop: adds every record's count to its key's total and
      keeps the tag the rule picks. */
  method AggregateRows(rows: seq<Read>, row: seq<string> -> Option<(string, int, string)>, rule: TagRule)
    returns (agg: map<string, Tally>)
    ensures agg == Aggregate(TallyItems(rows, row), rule)
  {
    ghost var items := TallyItems(rows, row);
    agg := map[];
    for i := 0 to |rows|
      invariant agg == Aggregate(items[..i], rule)
    {
      assert items[..i + 1][..i] == items[..i];
      if rows[i].Unreadable? {
        continue;
      }
      var t := row(rows[i].fields);
      if t.Some? {
        agg := AddTally(agg, t.value.0, t.value.1, t.value.2, rule);
      }
    }
    assert items[..|rows|] == items;
  }

  /** One count added in place: a new key starts its tally, a known key adds
      to its total and may take the tag. */
  method AddTally(agg: map<string, Tally>, k: string, count: int, tag: string, rule: TagRule)
    returns (agg': map<string, Tally>)
    ensures agg' == Step(agg, k, count, tag, rule)
  {
    if k in agg {
      var t := agg[k];
      var newTag := t.tag;
      if rule == FirstNonEmpty && tag != "" && t.tag == "" {
        newTag := tag;
      }
      agg' := agg[k := Tally(t.total + count, newTag)];
    } else {
      agg' := agg[k := Tally(count, tag)];
    }
  }

  /** The final loop: one entry per aggregated key, its metadata made from
      the key's tally. */
  method BuildEntries(agg: map<string, Tally>, meta: Tally -> map<string, string>) returns (entries: Entries)
    ensures entries == EntriesOf(agg, meta)
  {
    entries := map[];
    var rest := agg.Keys;
    while rest != {}
      invariant rest <= agg.Keys
      invariant entries.Keys == agg.Keys - rest
      invariant forall k :: k in entries ==> entries[k] == Dict.Entry(Some(meta(agg[k])))
      decreases rest
    {
      var k :| k in rest;
      entries := entries[k := Dict.Entry(Some(meta(agg[k])))];
      rest := rest - {k};
    }
    assert entries == EntriesOf(agg, meta);
  }

  /** The entries made from aggregates. */
  function EntriesOf(agg: map<string, Tally>, meta: Tally -> map<string, string>): (entries: Entries)
    ensures entries.Keys == agg.Keys
    ensures forall k :: k in agg ==> entries[k] == Dict.Entry(Some(meta(agg[k])))
  {
    map k | k in agg :: Dict.Entry(Some(meta(agg[k])))
  }

  /** An aggregated key is stored iff some readable record counts it; its
      total is the sum of those records' counts and its tag the one the rule
      picks. */
  lemma TalliesStored(rows: seq<Read>, row: seq<string> -> Option<(string, int, string)>, rule: TagRule, k: string)
    ensures var items := TallyItems(rows, row);
            (k in Aggregate(items, rule) <==>
               exists i :: 0 <= i < |rows| && rows[i].Row? && row(rows[i].fields).Some? && row(rows[i].fields).value.0 == k)
            && (k in Aggregate(items, rule) ==>
                  Aggregate(items, rule)[k] == Tally(TotalFor(items, k), TagFor(items, k, rule)))
  {
    var items := TallyItems(rows, row);
    AggregateSpec(items, rule, k);
    if exists i :: Counts(items, i, k) {
      var i :| Counts(items, i, k);
      assert rows[i].Row?;
    }
    if exists i :: 0 <= i < |rows| && rows[i].Row? && row(rows[i].fields).Some? && row(rows[i].fields).value.0 == k {
      var i :| 0 <= i < |rows| && rows[i].Row? && row(rows[i].fields).Some? && row(rows[i].fields).value.0 == k;
      assert Counts(items, i, k);
    }
  }
}
