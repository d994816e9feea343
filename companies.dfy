/** The Companies House basic-company-data parser
    (pkg/importer/adapter_companies_house.go, parseCompaniesHouse): active
    companies keyed by their normalized name. */
module CompaniesHouse {
  import opened Wrappers
  import opened Text
  import opened Csv
  import opened Normalize
  import opened Upsert
  import opened ImportRows
  import Dict

  datatype Columns = Columns(name: nat, status: Option<nat>, number: Option<nat>)

  predicate IsNameKey(k: string) { EqualFold(k, "companyname") }
  predicate IsStatusKey(k: string) { EqualFold(k, "companystatus") }
  predicate IsNumberKey(k: string) { EqualFold(k, "companynumber") }

  lemma ExactNameFolds()
    ensures IsNameKey("CompanyName")
  {
    var s, t := "CompanyName", "companyname";
    forall i | 0 <= i < |s| ensures FoldChar(s[i]) == FoldChar(t[i]) {
    }
  }

  /** The header resolved on trimmed names: "CompanyName" exactly, else any
      name equal to it up to case; status and number columns are matched up
      to case. No name column is an error. */
  function ColumnsOf(header: seq<string>): (r: Result<Columns, ParseError>)
    ensures var keys := KeysOf(header, TrimSpace);
            r.Err? <==> forall i :: 0 <= i < |keys| ==> !IsNameKey(keys[i])
    ensures r.Err? ==> r.error == MissingColumn("CompanyName")
    ensures var keys := KeysOf(header, TrimSpace);
            r.Ok? ==> r.value.name < |header| && IsNameKey(keys[r.value.name])
                      && ("CompanyName" in keys ==> keys[r.value.name] == "CompanyName")
    ensures var keys := KeysOf(header, TrimSpace);
            r.Ok? ==> r.value.status == LastIndex(keys, IsStatusKey)
                      && r.value.number == LastIndex(keys, IsNumberKey)
  {
    var keys := KeysOf(header, TrimSpace);
    var exact := ColumnNamed(keys, "CompanyName");
    var name := if exact.Some? then exact else LastIndex(keys, IsNameKey);
    assert exact.Some? ==> IsNameKey(keys[exact.value]) by {
      ExactNameFolds();
    }
    if name.None? then Err(MissingColumn("CompanyName"))
    else Ok(Columns(name.value, LastIndex(keys, IsStatusKey), LastIndex(keys, IsNumberKey)))
  }

  /** A company is kept unless it has a status other than "Active" up to case. */
  predicate Active(c: Columns, record: seq<string>) {
    CellAt(record, c.status).None? || EqualFold(CellAt(record, c.status).value, "Active")
  }

  /** What one record stores: nothing for an inactive company, a record too
      short for the name column or an empty name; otherwise the normalized
      name, with the company number when the record has that column. */
  function Row(c: Columns, record: seq<string>): (r: Option<(string, Dict.Entry)>)
    ensures r.Some? <==> Active(c, record) && c.name < |record| && TrimSpace(record[c.name]) != ""
    ensures r.Some? ==> r.value.0 == LowercaseAsciiOf(TrimSpace(record[c.name]))
    ensures r.Some? ==> r.value.1.metadata.Some?
                        && r.value.1.metadata.value.Keys <= {"company_number"}
                        && ("company_number" in r.value.1.metadata.value <==> CellAt(record, c.number).Some?)
                        && ("company_number" in r.value.1.metadata.value ==>
                              r.value.1.metadata.value["company_number"] == CellAt(record, c.number).value)
  {
    if !Active(c, record) || c.name >= |record| then None
    else
      var name := TrimSpace(record[c.name]);
      if name == "" then None
      else
        var meta: map<string, string> :=
          if CellAt(record, c.number).Some? then map["company_number" := CellAt(record, c.number).value] else map[];
        Some((LowercaseAsciiOf(name), Dict.Entry(Some(meta))))
  }

  function RowFn(c: Columns): seq<string> -> Option<(string, Dict.Entry)> {
    record => Row(c, record)
  }

  function ParseOf(input: seq<Read>): Result<Entries, ParseError> {
    match HeaderOf(input)
    case Err(e) => Err(e)
    case Ok(header) =>
      match ColumnsOf(header)
      case Err(e) => Err(e)
      case Ok(c) => Ok(Fold(map[], RowItems(Records(input), RowFn(c))))
  }

  /** parseCompaniesHouse: the header, the columns, then the record loop. */
  method Parse(input: seq<Read>) returns (r: Result<Entries, ParseError>)
    ensures r == ParseOf(input)
  {
    var header := HeaderOf(input);
    if header.Err? {
      return Err(header.error);
    }
    var c := ColumnsOf(header.value);
    if c.Err? {
      return Err(c.error);
    }
    var entries := FoldRows(Records(input), RowFn(c.value));
    return Ok(entries);
  }

  /** Without a status column nothing is filtered: every record with a name
      is stored under its normalized name. */
  lemma NoStatusKeepsAll(input: seq<Read>, i: int)
    requires ParseOf(input).Ok?
    requires ColumnsOf(input[0].fields).value.status.None?
    requires var rows := Records(input); var c := ColumnsOf(input[0].fields).value;
             0 <= i < |rows| && rows[i].Row? && c.name < |rows[i].fields| && TrimSpace(rows[i].fields[c.name]) != ""
    ensures var c := ColumnsOf(input[0].fields).value;
            LowercaseAsciiOf(TrimSpace(Records(input)[i].fields[c.name])) in ParseOf(input).value
  {
    var c := ColumnsOf(input[0].fields).value;
    var rows := Records(input);
    RowsStored(rows, RowFn(c), LowercaseAsciiOf(TrimSpace(rows[i].fields[c.name])));
  }
}
