/** The US census surnames parser
    (pkg/importer/adapter_census_surnames.go, parseCensusSurnames): surnames
    keyed by their normalized form, with rank and count as metadata. */
module CensusSurnames {
  import opened Wrappers
  import opened Text
  import opened Csv
  import opened Normalize
  import opened Upsert
  import opened ImportRows
  import Dict

  datatype Columns = Columns(name: nat, rank: nat, count: nat)

  /** The header resolved on trimmed lower-cased names: "name" is required;
      a missing "rank" or "count" column reads as column 0. */
  function ColumnsOf(header: seq<string>): (r: Result<Columns, ParseError>)
    ensures var keys := KeysOf(header, LowerKey);
            r.Err? <==> "name" !in keys
    ensures r.Err? ==> r.error == MissingColumn("name")
    ensures var keys := KeysOf(header, LowerKey);
            r.Ok? ==> r.value.name < |keys| && keys[r.value.name] == "name"
                      && ("rank" !in keys ==> r.value.rank == 0)
                      && ("rank" in keys ==> r.value.rank < |keys| && keys[r.value.rank] == "rank")
                      && ("count" !in keys ==> r.value.count == 0)
                      && ("count" in keys ==> r.value.count < |keys| && keys[r.value.count] == "count")
  {
    var keys := KeysOf(header, LowerKey);
    var name := ColumnNamed(keys, "name");
    if name.None? then Err(MissingColumn("name"))
    else Ok(Columns(name.value, ColumnNamed(keys, "rank").GetOr(0), ColumnNamed(keys, "count").GetOr(0)))
  }

  /** What one record stores: nothing for a record too short for the name
      column or an empty name; otherwise the normalized name with "rank" and
      "frequency" copied from the columns the record reaches. */
  function Row(c: Columns, record: seq<string>): (r: Option<(string, Dict.Entry)>)
    ensures r.Some? <==> c.name < |record| && TrimSpace(record[c.name]) != ""
    ensures r.Some? ==> r.value.0 == LowercaseAsciiOf(TrimSpace(record[c.name]))
    ensures r.Some? ==> var m := r.value.1.metadata;
                        m.Some? && m.value.Keys <= {"rank", "frequency"}
                        && ("rank" in m.value <==> c.rank < |record|)
                        && ("rank" in m.value ==> m.value["rank"] == TrimSpace(record[c.rank]))
                        && ("frequency" in m.value <==> c.count < |record|)
                        && ("frequency" in m.value ==> m.value["frequency"] == TrimSpace(record[c.count]))
  {
    if c.name >= |record| then None
    else
      var name := TrimSpace(record[c.name]);
      if name == "" then None
      else
        var rank: map<string, string> := if c.rank < |record| then map["rank" := TrimSpace(record[c.rank])] else map[];
        var meta := if c.count < |record| then rank["frequency" := TrimSpace(record[c.count])] else rank;
        Some((LowercaseAsciiOf(name), Dict.Entry(Some(meta))))
  }

  function RowFn(c: Columns): seq<string> -> Option<(string, Dict.Entry)> {
    record => Row(c, record)
  }

  function ParseOf(input: seq<Read>): Result<Entries, ParseError> {
    match HeaderOf(input)
    case Err(e) => Err(e)
    case Ok(header) =>
      match ColumnsOf(header)
      case Err(e) => Err(e)
      case Ok(c) => Ok(Fold(map[], RowItems(Records(input), RowFn(c))))
  }

  /** parseCensusSurnames: the header, the columns, then the record loop. */
  method Parse(input: seq<Read>) returns (r: Result<Entries, ParseError>)
    ensures r == ParseOf(input)
  {
    var header := HeaderOf(input);
    if header.Err? {
      return Err(header.error);
    }
    var c := ColumnsOf(header.value);
    if c.Err? {
      return Err(c.error);
    }
    var entries := FoldRows(Records(input), RowFn(c.value));
    return Ok(entries);
  }

  /** The last record naming a surname decides its metadata. */
  lemma LastRecordWins(input: seq<Read>, i: int)
    requires ParseOf(input).Ok?
    requires var rows := Records(input); var c := ColumnsOf(input[0].fields).value;
             0 <= i < |rows| && rows[i].Row? && Row(c, rows[i].fields).Some?
             && forall j :: i < j < |rows| && rows[j].Row? && Row(c, rows[j].fields).Some? ==>
                  Row(c, rows[j].fields).value.0 != Row(c, rows[i].fields).value.0
    ensures var c := ColumnsOf(input[0].fields).value;
            var kv := Row(c, Records(input)[i].fields).value;
            kv.0 in ParseOf(input).value && ParseOf(input).value[kv.0] == kv.1
  {
    var c := ColumnsOf(input[0].fields).value;
    RowsLastWins(Records(input), RowFn(c), i);
  }
}
