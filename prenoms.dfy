/** The INSEE first-names parser (pkg/importer/adapter_insee_prenoms.go,
    parseINSEEPrenoms): one entry per normalized first name, its births
    summed over all rows and its sex taken from the first row that gives
    one. */
module InseePrenoms {
  import opened Wrappers
  import opened Text
  import opened Csv
  import opened Normalize
  import opened Upsert
  import opened ImportRows
  import Dict

  /** The columns read, and the header's width: the CSV reader rejects every
      record whose width differs from the first record's. */
  datatype Columns = Columns(name: nat, sexe: Option<nat>, nombre: Option<nat>, width: nat)

  /** The header resolved on trimmed lower-cased names; "preusuel" is
      required, "sexe" and "nombre" optional. */
  function ColumnsOf(header: seq<string>): (r: Result<Columns, ParseError>)
    ensures var keys := KeysOf(header, LowerKey);
            r.Err? <==> "preusuel" !in keys
    ensures r.Err? ==> r.error == MissingColumn("preusuel")
    ensures var keys := KeysOf(header, LowerKey);
            r.Ok? ==> r.value.width == |header| && r.value.name < |header| && keys[r.value.name] == "preusuel"
                      && r.value.sexe == ColumnNamed(keys, "sexe") && r.value.nombre == ColumnNamed(keys, "nombre")
  {
    var keys := KeysOf(header, LowerKey);
    var name := ColumnNamed(keys, "preusuel");
    if name.None? then Err(MissingColumn("preusuel"))
    else Ok(Columns(name.value, ColumnNamed(keys, "sexe"), ColumnNamed(keys, "nombre"), |header|))
  }

  /** The count a record gives: the births column scanned as an integer, 0
      when the record lacks it or it does not scan. */
  function CountOf(c: Columns, record: seq<string>): int {
    if CellAt(record, c.nombre).Some? then ScanInt(CellAt(record, c.nombre).value) else 0
  }

  /** What one record counts: nothing for a record of the wrong width, an
      empty name or the "_PRENOMS_RARES" bucket (up to case); otherwise the
      normalized name, the births and the trimmed sex ("" without one). */
  function Row(c: Columns, record: seq<string>): (r: Option<(string, int, string)>)
    ensures r.Some? <==> |record| == c.width && c.name < |record| && TrimSpace(record[c.name]) != ""
                         && !EqualFold(TrimSpace(record[c.name]), "_prenoms_rares")
    ensures r.Some? ==> r.value.0 == LowercaseAsciiOf(TrimSpace(record[c.name]))
                        && r.value.1 == CountOf(c, record)
                        && (CellAt(record, c.sexe).Some? ==> r.value.2 == CellAt(record, c.sexe).value)
                        && (CellAt(record, c.sexe).None? ==> r.value.2 == "")
  {
    if |record| != c.width || c.name >= |record| then None
    else
      var name := TrimSpace(record[c.name]);
      if name == "" || EqualFold(name, "_prenoms_rares") then None
      else
        var sexe := if CellAt(record, c.sexe).Some? then CellAt(record, c.sexe).value else "";
        Some((LowercaseAsciiOf(name), CountOf(c, record), sexe))
  }

  function RowFn(c: Columns): seq<string> -> Option<(string, int, string)> {
    record => Row(c, record)
  }

  /** A first name's metadata: its sex when one was seen, its total births
      in decimal when positive. */
  function Meta(t: Tally): (m: map<string, string>)
    ensures m.Keys <= {"sexe", "frequency"}
    ensures "sexe" in m <==> t.tag != ""
    ensures "sexe" in m ==> m["sexe"] == t.tag
    ensures "frequency" in m <==> t.total > 0
    ensures "frequency" in m && t.total <= Int64Max ==> ScanInt(m["frequency"]) == t.total
  {
    assert 0 < t.total <= Int64Max ==> ScanInt(Decimal(t.total)) == t.total by {
      if 0 < t.total <= Int64Max {
        ScanDecimalRoundTrip(t.total);
      }
    }
    var sexe: map<string, string> := if t.tag != "" then map["sexe" := t.tag] else map[];
    if t.total > 0 then sexe["frequency" := Decimal(t.total)] else sexe
  }

  function ParseOf(input: seq<Read>): Result<Entries, ParseError> {
    match HeaderOf(input)
    case Err(e) => Err(e)
    case Ok(header) =>
      match ColumnsOf(header)
      case Err(e) => Err(e)
      case Ok(c) => Ok(EntriesOf(Aggregate(TallyItems(Records(input), RowFn(c)), FirstNonEmpty), Meta))
  }

  /** parseINSEEPrenoms: the header, the columns, the aggregation loop, then
      the loop building the entries. */
  method Parse(input: seq<Read>) returns (r: Result<Entries, ParseError>)
    ensures r == ParseOf(input)
  {
    var header := HeaderOf(input);
    if header.Err? {
      return Err(header.error);
    }
    var c := ColumnsOf(header.value);
    if c.Err? {
      return Err(c.error);
    }
    var agg := AggregateRows(Records(input), RowFn(c.value), FirstNonEmpty);
    var entries := BuildEntries(agg, Meta);
    return Ok(entries);
  }

  /** A first name is stored iff some record counts it; its frequency is the
      sum of those records' births when positive, and its sex the first
      non-empty sex among them. */
  lemma NamesStored(input: seq<Read>, k: string)
    requires ParseOf(input).Ok?
    ensures var c := ColumnsOf(input[0].fields).value;
            var rows := Records(input);
            var items := TallyItems(rows, RowFn(c));
            var entries := ParseOf(input).value;
            (k in entries <==> exists i :: 0 <= i < |rows| && rows[i].Row? && Row(c, rows[i].fields).Some?
                                             && Row(c, rows[i].fields).value.0 == k)
            && (k in entries ==>
                  entries[k].metadata.Some?
                  && ("frequency" in entries[k].metadata.value <==> TotalFor(items, k) > 0)
                  && ("frequency" in entries[k].metadata.value && TotalFor(items, k) <= Int64Max ==>
                        ScanInt(entries[k].metadata.value["frequency"]) == TotalFor(items, k))
                  && ("sexe" in entries[k].metadata.value <==> TagFor(items, k, FirstNonEmpty) != ""))
  {
    var c := ColumnsOf(input[0].fields).value;
    TalliesStored(Records(input), RowFn(c), FirstNonEmpty, k);
  }
}
