/** The manifest schema of a dictionary and its loading rules
    (pkg/dict/manifest.go). Reading the file and decoding its YAML are outside
    the model: `LoadManifest` receives their outcome. */
module DictManifest {
  import opened Wrappers

  datatype PatternSpec = PatternSpec(name: string, regex: string, validator: string)

  datatype FormatSpec = FormatSpec(
    delimiter: string,
    encoding: string,
    hasHeader: bool,
    keyColumn: string,
    normalize: string)

  datatype MetadataColumn = MetadataColumn(name: string, column: string)

  datatype Manifest = Manifest(
    id: string,
    version: string,
    jurisdiction: string,
    entityType: string,
    source: string,
    sourceUrl: string,
    license: string,
    dataFile: string,
    importMethod: string,
    format: FormatSpec,
    metadataCols: seq<MetadataColumn>,
    patterns: seq<PatternSpec>)

  /** What reading and decoding manifest.yaml produced. */
  datatype ManifestFile = ReadFailed | ParseFailed | Decoded(m: Manifest)

  datatype ManifestError = ReadError | ParseError | MissingId

  const DefaultDataFile: string := "data.csv"

  /** LoadManifest: read and parse errors pass through, a manifest without an id
      is refused, and a missing data_file defaults to data.csv. */
  function LoadManifest(file: ManifestFile): (r: Result<Manifest, ManifestError>)
    ensures file == ReadFailed <==> r == Err(ReadError)
    ensures file == ParseFailed <==> r == Err(ParseError)
    ensures r == Err(MissingId) <==> file.Decoded? && file.m.id == ""
    ensures r.Ok? ==> file.Decoded? && r.value.id == file.m.id != ""
    ensures r.Ok? ==> r.value.dataFile == (if file.m.dataFile == "" then DefaultDataFile else file.m.dataFile)
    ensures r.Ok? ==> r.value.dataFile != ""
    ensures r.Ok? ==> r.value == file.m.(dataFile := r.value.dataFile)
  {
    match file
    case ReadFailed => Err(ReadError)
    case ParseFailed => Err(ParseError)
    case Decoded(m) =>
      if m.id == "" then Err(MissingId)
      else if m.dataFile == "" then Ok(m.(dataFile := DefaultDataFile))
      else Ok(m)
  }
}
