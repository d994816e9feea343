/** The INSEE surnames parser (pkg/importer/adapter_insee_patronymes.go,
    parseINSEEPatronymes): one entry per normalized surname, its counts
    summed over all rows. */
module InseePatronymes {
  import opened Wrappers
  import opened Text
  import opened Csv
  import opened Normalize
  import opened Upsert
  import opened ImportRows
  import Dict

  datatype Columns = Columns(name: nat, nombre: Option<nat>)

  /** A header naming the surname: it mentions NOM but not NOMBRE. */
  predicate IsNameKey(k: string) { Contains(k, "NOM") && !Contains(k, "NOMBRE") }

  /** A header naming the count: it mentions NOMBRE or FREQ. */
  predicate IsCountKey(k: string) { Contains(k, "NOMBRE") || Contains(k, "FREQ") }

  /** The header resolved on trimmed upper-cased names: the surname column,
      falling back to the first column, and the count column if any. */
  function ColumnsOf(header: seq<string>): (c: Columns)
    ensures var keys := KeysOf(header, UpperKey);
            (c.name == 0 && forall i :: 0 <= i < |keys| ==> !IsNameKey(keys[i]))
            || (c.name < |keys| && IsNameKey(keys[c.name]))
    ensures var keys := KeysOf(header, UpperKey);
            c.nombre == LastIndex(keys, IsCountKey)
  {
    var keys := KeysOf(header, UpperKey);
    Columns(LastIndex(keys, IsNameKey).GetOr(0), LastIndex(keys, IsCountKey))
  }

  /** The count a record gives: the count column scanned as an integer, 0
      when there is none, the record lacks it or it does not scan. */
  function CountOf(c: Columns, record: seq<string>): int {
    if CellAt(record, c.nombre).Some? then ScanInt(CellAt(record, c.nombre).value) else 0
  }

  /** What one record counts: nothing for a record too short for the name
      column or an empty name; otherwise the normalized name and its count. */
  function Row(c: Columns, record: seq<string>): (r: Option<(string, int, string)>)
    ensures r.Some? <==> c.name < |record| && TrimSpace(record[c.name]) != ""
    ensures r.Some? ==> r.value == (LowercaseAsciiOf(TrimSpace(record[c.name])), CountOf(c, record), "")
  {
    if c.name >= |record| then None
    else
      var name := TrimSpace(record[c.name]);
      if name == "" then None else Some((LowercaseAsciiOf(name), CountOf(c, record), ""))
  }

  function RowFn(c: Columns): seq<string> -> Option<(string, int, string)> {
    record => Row(c, record)
  }

  /** A surname's metadata: its total in decimal when positive. */
  function Meta(t: Tally): (m: map<string, string>)
    ensures m.Keys <= {"frequency"}
    ensures "frequency" in m <==> t.total > 0
    ensures "frequency" in m && t.total <= Int64Max ==> ScanInt(m["frequency"]) == t.total
  {
    assert 0 < t.total <= Int64Max ==> ScanInt(Decimal(t.total)) == t.total by {
      if 0 < t.total <= Int64Max {
        ScanDecimalRoundTrip(t.total);
      }
    }
    if t.total > 0 then map["frequency" := Decimal(t.total)] else map[]
  }

  /** Only an unreadable header is an error. */
  function ParseOf(input: seq<Read>): Result<Entries, ParseError> {
    match HeaderOf(input)
    case Err(e) => Err(e)
    case Ok(header) =>
      var c := ColumnsOf(header);
      Ok(EntriesOf(Aggregate(TallyItems(Records(input), RowFn(c)), FirstSeen), Meta))
  }

  /** parseINSEEPatronymes: the header, the columns, the aggregation loop,
      then the loop building the entries. */
  method Parse(input: seq<Read>) returns (r: Result<Entries, ParseError>)
    ensures r == ParseOf(input)
  {
    var header := HeaderOf(input);
    if header.Err? {
      return Err(header.error);
    }
    var c := ColumnsOf(header.value);
    var agg := AggregateRows(Records(input), RowFn(c), FirstSeen);
    var entries := BuildEntries(agg, Meta);
    return Ok(entries);
  }

  /** Parsing fails only on an unreadable header. */
  lemma FailsOnlyOnHeader(input: seq<Read>)
    ensures ParseOf(input).Err? <==> |input| == 0 || input[0].Unreadable?
  {
  }

  /** A surname is stored iff some record counts it; its frequency is the
      sum of those records' counts when positive. */
  lemma SurnamesStored(input: seq<Read>, k: string)
    requires ParseOf(input).Ok?
    ensures var c := ColumnsOf(input[0].fields);
            var rows := Records(input);
            var items := TallyItems(rows, RowFn(c));
            var entries := ParseOf(input).value;
            (k in entries <==> exists i :: 0 <= i < |rows| && rows[i].Row? && Row(c, rows[i].fields).Some?
                                             && Row(c, rows[i].fields).value.0 == k)
            && (k in entries ==>
                  entries[k].metadata.Some?
                  && ("frequency" in entries[k].metadata.value <==> TotalFor(items, k) > 0)
                  && ("frequency" in entries[k].metadata.value && TotalFor(items, k) <= Int64Max ==>
                        ScanInt(entries[k].metadata.value["frequency"]) == TotalFor(items, k)))
  {
    var c := ColumnsOf(input[0].fields);
    TalliesStored(Records(input), RowFn(c), FirstSeen, k);
  }
}
