/** The INSEE commune list parser (pkg/importer/adapter_insee_communes.go,
    parseINSEECommunes): communes keyed by their normalized name. */
module InseeCommunes {
  import opened Wrappers
  import opened Text
  import opened Csv
  import opened Normalize
  import opened Upsert
  import opened ImportRows
  import Dict

  datatype Columns = Columns(libelle: nat, dep: Option<nat>, com: Option<nat>, typecom: Option<nat>)

  predicate IsNameHeader(k: string) {
    k == "LIBELLE" || k == "NCC" || k == "NCCENR"
  }

  /** The header resolved on trimmed upper-cased names: the name column is
      one of LIBELLE, NCC, NCCENR, and its absence is an error. */
  function ColumnsOf(header: seq<string>): (r: Result<Columns, ParseError>)
    ensures var keys := KeysOf(header, UpperKey);
            r.Err? <==> forall i :: 0 <= i < |keys| ==> !IsNameHeader(keys[i])
    ensures r.Err? ==> r.error == MissingColumn("LIBELLE")
    ensures var keys := KeysOf(header, UpperKey);
            r.Ok? ==> r.value.libelle < |keys| && IsNameHeader(keys[r.value.libelle])
                      && r.value.dep == ColumnNamed(keys, "DEP") && r.value.com == ColumnNamed(keys, "COM")
                      && r.value.typecom == ColumnNamed(keys, "TYPECOM")
  {
    var keys := KeysOf(header, UpperKey);
    var libelle := LastIndex(keys, IsNameHeader);
    if libelle.None? then Err(MissingColumn("LIBELLE"))
    else Ok(Columns(libelle.value, ColumnNamed(keys, "DEP"), ColumnNamed(keys, "COM"), ColumnNamed(keys, "TYPECOM")))
  }

  /** A record is a commune unless it has a non-empty type other than "COM". */
  predicate IsCommune(c: Columns, record: seq<string>) {
    CellAt(record, c.typecom).None? || CellAt(record, c.typecom).value == "" || CellAt(record, c.typecom).value == "COM"
  }

  /** What one record stores: nothing for another kind of territory, a
      record too short for the name column or an empty name; otherwise the
      normalized name with "departement" and "code_commune" for the columns
      the record has. */
  function Row(c: Columns, record: seq<string>): (r: Option<(string, Dict.Entry)>)
    ensures r.Some? <==> IsCommune(c, record) && c.libelle < |record| && TrimSpace(record[c.libelle]) != ""
    ensures r.Some? ==> r.value.0 == LowercaseAsciiOf(TrimSpace(record[c.libelle]))
    ensures r.Some? ==> var m := r.value.1.metadata;
                        m.Some? && m.value.Keys <= {"departement", "code_commune"}
                        && ("departement" in m.value <==> CellAt(record, c.dep).Some?)
                        && ("departement" in m.value ==> m.value["departement"] == CellAt(record, c.dep).value)
                        && ("code_commune" in m.value <==> CellAt(record, c.com).Some?)
                        && ("code_commune" in m.value ==> m.value["code_commune"] == CellAt(record, c.com).value)
  {
    if !IsCommune(c, record) || c.libelle >= |record| then None
    else
      var name := TrimSpace(record[c.libelle]);
      if name == "" then None
      else
        var dep: map<string, string> := if CellAt(record, c.dep).Some? then map["departement" := CellAt(record, c.dep).value] else map[];
        var meta := if CellAt(record, c.com).Some? then dep["code_commune" := CellAt(record, c.com).value] else dep;
        Some((LowercaseAsciiOf(name), Dict.Entry(Some(meta))))
  }

  function RowFn(c: Columns): seq<string> -> Option<(string, Dict.Entry)> {
    record => Row(c, record)
  }

  function ParseOf(input: seq<Read>): Result<Entries, ParseError> {
    match HeaderOf(input)
    case Err(e) => Err(e)
    case Ok(header) =>
      match ColumnsOf(header)
      case Err(e) => Err(e)
      case Ok(c) => Ok(Fold(map[], RowItems(Records(input), RowFn(c))))
  }

  /** parseINSEECommunes: the header, the columns, then the record loop. */
  method Parse(input: seq<Read>) returns (r: Result<Entries, ParseError>)
    ensures r == ParseOf(input)
  {
    var header := HeaderOf(input);
    if header.Err? {
      return Err(header.error);
    }
    var c := ColumnsOf(header.value);
    if c.Err? {
      return Err(c.error);
    }
    var entries := FoldRows(Records(input), RowFn(c.value));
    return Ok(entries);
  }

  /** Every stored entry comes from a commune record. */
  lemma StoredFromCommunes(input: seq<Read>, k: string)
    requires ParseOf(input).Ok? && k in ParseOf(input).value
    ensures var c := ColumnsOf(input[0].fields).value;
            var rows := Records(input);
            exists i :: 0 <= i < |rows| && rows[i].Row? && IsCommune(c, rows[i].fields)
                        && Row(c, rows[i].fields) == Some((k, ParseOf(input).value[k]))
  {
    var c := ColumnsOf(input[0].fields).value;
    var rows := Records(input);
    RowsStored(rows, RowFn(c), k);
    var i :| 0 <= i < |rows| && rows[i].Row? && RowFn(c)(rows[i].fields) == Some((k, ParseOf(input).value[k]));
    assert Row(c, rows[i].fields).Some?;
  }
}
