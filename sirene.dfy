/** The SIRENE legal-units parser (pkg/importer/adapter_sirene.go,
    parseSIRENE): active legal units keyed by their normalized name. */
module Sirene {
  import opened Wrappers
  import opened Text
  import opened Csv
  import opened Normalize
  import opened Upsert
  import opened ImportRows
  import Dict

  /** The columns the parser reads, each absent when the header lacks it. */
  datatype Columns = Columns(denom: Option<nat>, denomUsuel: Option<nat>, etat: Option<nat>, siren: Option<nat>)

  /** The header resolved: trimmed names; an error when neither
      denomination column is present. */
  function ColumnsOf(header: seq<string>): (r: Result<Columns, ParseError>)
    ensures var keys := KeysOf(header, TrimSpace);
            r.Err? <==> "denominationUniteLegale" !in keys && "denominationUsuelleUniteLegale" !in keys
    ensures r.Err? ==> r.error == MissingColumn("denominationUniteLegale")
    ensures var keys := KeysOf(header, TrimSpace);
            r.Ok? ==> r.value == Columns(ColumnNamed(keys, "denominationUniteLegale"),
                                         ColumnNamed(keys, "denominationUsuelleUniteLegale"),
                                         ColumnNamed(keys, "etatAdministratifUniteLegale"),
                                         ColumnNamed(keys, "siren"))
  {
    var keys := KeysOf(header, TrimSpace);
    var denom := ColumnNamed(keys, "denominationUniteLegale");
    var usuel := ColumnNamed(keys, "denominationUsuelleUniteLegale");
    if denom.None? && usuel.None? then Err(MissingColumn("denominationUniteLegale"))
    else Ok(Columns(denom, usuel, ColumnNamed(keys, "etatAdministratifUniteLegale"), ColumnNamed(keys, "siren")))
  }

  /** A row is kept unless it has an administrative state other than "A". */
  predicate Active(c: Columns, record: seq<string>) {
    CellAt(record, c.etat).None? || CellAt(record, c.etat).value == "A"
  }

  /** The name: the legal denomination, or the usual one when that is empty. */
  function NameOf(c: Columns, record: seq<string>): (name: string)
    ensures CellAt(record, c.denom).Some? && CellAt(record, c.denom).value != "" ==> name == CellAt(record, c.denom).value
    ensures (CellAt(record, c.denom).None? || CellAt(record, c.denom).value == "") ==>
              name == CellAt(record, c.denomUsuel).GetOr("")
  {
    var denom := CellAt(record, c.denom).GetOr("");
    if denom != "" then denom else CellAt(record, c.denomUsuel).GetOr("")
  }

  /** What one record stores: nothing for an inactive unit or one without a
      name; otherwise the normalized name with the siren as metadata when the
      record has that column. */
  function Row(c: Columns, record: seq<string>): (r: Option<(string, Dict.Entry)>)
    ensures r.Some? <==> Active(c, record) && NameOf(c, record) != ""
    ensures r.Some? ==> r.value.0 == LowercaseAsciiOf(NameOf(c, record))
    ensures r.Some? ==> r.value.1.metadata.Some?
                        && r.value.1.metadata.value.Keys <= {"siren"}
                        && ("siren" in r.value.1.metadata.value <==> CellAt(record, c.siren).Some?)
                        && ("siren" in r.value.1.metadata.value ==>
                              r.value.1.metadata.value["siren"] == CellAt(record, c.siren).value)
  {
    if !Active(c, record) then None
    else
      var name := NameOf(c, record);
      if name == "" then None
      else
        var meta: map<string, string> := if CellAt(record, c.siren).Some? then map["siren" := CellAt(record, c.siren).value] else map[];
        Some((LowercaseAsciiOf(name), Dict.Entry(Some(meta))))
  }

  function RowFn(c: Columns): seq<string> -> Option<(string, Dict.Entry)> {
    record => Row(c, record)
  }

  /** parseSIRENE as a value. */
  function ParseOf(input: seq<Read>): Result<Entries, ParseError> {
    match HeaderOf(input)
    case Err(e) => Err(e)
    case Ok(header) =>
      match ColumnsOf(header)
      case Err(e) => Err(e)
      case Ok(c) => Ok(Fold(map[], RowItems(Records(input), RowFn(c))))
  }

  /** parseSIRENE: the header, the columns, then the record loop. */
  method Parse(input: seq<Read>) returns (r: Result<Entries, ParseError>)
    ensures r == ParseOf(input)
  {
    var header := HeaderOf(input);
    if header.Err? {
      return Err(header.error);
    }
    var c := ColumnsOf(header.value);
    if c.Err? {
      return Err(c.error);
    }
    var entries := FoldRows(Records(input), RowFn(c.value));
    return Ok(entries);
  }

  /** Every stored entry comes from an active record with a name, under that
      name normalized. */
  lemma StoredFromActiveRows(input: seq<Read>, k: string)
    requires ParseOf(input).Ok? && k in ParseOf(input).value
    ensures var c := ColumnsOf(input[0].fields).value;
            var rows := Records(input);
            exists i :: 0 <= i < |rows| && rows[i].Row? && Active(c, rows[i].fields)
                        && NameOf(c, rows[i].fields) != "" && k == LowercaseAsciiOf(NameOf(c, rows[i].fields))
                        && Row(c, rows[i].fields) == Some((k, ParseOf(input).value[k]))
  {
    var c := ColumnsOf(input[0].fields).value;
    RowsStored(Records(input), RowFn(c), k);
  }
}
