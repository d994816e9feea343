/** One dictionary: its manifest, its key table and how it classifies a term
    (pkg/dict/dict.go). The directory it is loaded from is given as a value:
    the manifest outcome, the state of data.gob, and the read outcomes of each
    data file by name. */
module Dict {
  import opened Wrappers
  import opened Text
  import opened DictManifest
  import opened Normalize
  import opened Pattern
  import opened Upsert
  import opened Csv

  /** A dictionary entry; `None` metadata is Go's nil map. */
  datatype Entry = Entry(metadata: Option<map<string, string>>)

  datatype Dictionary = Dictionary(
    manifest: Manifest,
    entries: map<string, Entry>,
    normalizer: Normalizer,
    patterns: Option<seq<CompiledPattern>>)

  /** data.gob: absent, present but unreadable, or decoded. */
  datatype GobFile = NoGob | GobBroken | GobEntries(entries: map<string, Entry>)

  datatype DictDir = DictDir(
    manifestFile: ManifestFile,
    gob: GobFile,
    files: map<string, seq<Read>>)

  datatype DataError =
    | PatternsFailed(cause: CompileError)
    | GobFailed
    | OpenFailed
    | UnsupportedEncoding(encoding: string)
    | HeaderUnreadable
    | KeyColumnMissing(column: string)
    | RowUnreadable

  datatype LoadError =
    | ManifestFailed(cause: ManifestError)
    | DictFailed(id: string, reason: DataError)

  /** The result of loadCSV: the key table and how many rows overwrote a key. */
  datatype CsvTable = CsvTable(entries: map<string, Entry>, collisions: nat)

  // ---- lookup and classification ----

  /** NormalizeTerm: the dictionary's own normalizer. */
  function NormalizeTerm(d: Dictionary, term: string): string {
    Apply(d.normalizer, term)
  }

  /** Lookup: the entry stored under the normalized term, if any. */
  function Lookup(d: Dictionary, term: string): (r: Option<Entry>)
    ensures r.Some? <==> NormalizeTerm(d, term) in d.entries
    ensures r.Some? ==> r.value == d.entries[NormalizeTerm(d, term)]
  {
    var key := NormalizeTerm(d, term);
    if key in d.entries then Some(d.entries[key]) else None
  }

  /** Classify: a pattern dictionary answers with the matching pattern's name as
      the only metadata; any other dictionary looks the term up. */
  function Classify(d: Dictionary, term: string): (r: Option<Entry>)
    ensures d.patterns.Some? ==> (r.Some? <==> MatchOf(d.patterns.value, term).1)
    ensures d.patterns.Some? && r.Some? ==>
              r.value.metadata == Some(map["pattern" := MatchOf(d.patterns.value, term).0])
    ensures d.patterns.None? ==> r == Lookup(d, term)
  {
    match d.patterns
    case Some(ps) =>
      var (name, ok) := MatchOf(ps, term);
      if ok then Some(Entry(Some(map["pattern" := name]))) else None
    case None => Lookup(d, term)
  }

  // ---- loadCSV ----

  /** isUTF8: with dashes removed and case ignored, the name is "utf8" or empty. */
  function IsUtf8Name(enc: string): (r: bool)
    ensures var e := RemoveAll(enc, '-');
            r <==> e == [] || (|e| == 4 && e[0] in "uU" && e[1] in "tT" && e[2] in "fF" && e[3] == '8')
  {
    var e := ToLower(RemoveAll(enc, '-'));
    assert |e| == 4 ==> (e == "utf8" <==> e[0] == 'u' && e[1] == 't' && e[2] == 'f' && e[3] == '8');
    e == "utf8" || e == ""
  }

  /** The header with every name trimmed. */
  function TrimmedHeader(h: seq<string>): (r: seq<string>)
    ensures |r| == |h| && forall i :: 0 <= i < |h| ==> r[i] == TrimSpace(h[i])
  {
    seq(|h|, i requires 0 <= i < |h| => TrimSpace(h[i]))
  }

  /** The first position of `col` in the header. */
  function ColumnIndex(header: seq<string>, col: string): (r: Option<nat>)
    ensures r.Some? ==> r.value < |header| && header[r.value] == col && col !in header[..r.value]
    ensures r.None? <==> col !in header
  {
    if |header| == 0 then None
    else if header[0] == col then Some(0)
    else match ColumnIndex(header[1..], col)
      case None => None
      case Some(i) =>
        assert header[..i + 1] == [header[0]] + header[1..][..i];
        Some(i + 1)
  }

  /** The key column: the first header position of key_column when one is set
      and there is a header, column 0 otherwise. */
  function KeyIndex(keyColumn: string, header: Option<seq<string>>): (r: Result<nat, DataError>)
    ensures r.Err? <==> keyColumn != "" && header.Some? && keyColumn !in header.value
    ensures r.Err? ==> r.error == KeyColumnMissing(keyColumn)
    ensures r.Ok? && keyColumn != "" && header.Some? ==> r.value < |header.value| && header.value[r.value] == keyColumn
    ensures r.Ok? && (keyColumn == "" || header.None?) ==> r.value == 0
  {
    if keyColumn != "" && header.Some? then
      match ColumnIndex(header.value, keyColumn)
      case None => Err(KeyColumnMissing(keyColumn))
      case Some(i) => Ok(i)
    else Ok(0)
  }

  /** Each metadata column resolved against the header, or skipped. */
  function MetaItems(cols: seq<MetadataColumn>, header: Option<seq<string>>): seq<Option<(string, nat)>> {
    seq(|cols|, i requires 0 <= i < |cols| =>
      if header.None? then None
      else match ColumnIndex(header.value, cols[i].column)
        case None => None
        case Some(j) => Some((cols[i].name, j)))
  }

  /** metaIdx: logical name to column; a later column with the same name wins. */
  function MetaIndex(cols: seq<MetadataColumn>, header: Option<seq<string>>): map<string, nat> {
    Fold(map[], MetaItems(cols, header))
  }

  /** The metadata of one row: nil when no metadata column resolved, otherwise
      the trimmed value of every resolved column the row reaches. */
  function MetadataOf(record: seq<string>, metaIdx: map<string, nat>): (r: Option<map<string, string>>)
    ensures r.Some? <==> |metaIdx| > 0
    ensures r.Some? ==> forall name :: name in r.value <==> name in metaIdx && metaIdx[name] < |record|
  {
    if |metaIdx| == 0 then None
    else Some(map name | name in metaIdx && metaIdx[name] < |record| :: TrimSpace(record[metaIdx[name]]))
  }

  /** What one row writes: nothing when the key column is out of range or the
      normalized trimmed key is empty. */
  function RowEntry(record: seq<string>, keyIdx: nat, metaIdx: map<string, nat>, n: Normalizer): Option<(string, Entry)> {
    if keyIdx >= |record| then None
    else
      var key := Apply(n, TrimSpace(record[keyIdx]));
      if key == "" then None else Some((key, Entry(MetadataOf(record, metaIdx))))
  }

  function RowItems(rows: seq<Read>, keyIdx: nat, metaIdx: map<string, nat>, n: Normalizer): (r: seq<Option<(string, Entry)>>)
    ensures |r| == |rows|
  {
    seq(|rows|, i requires 0 <= i < |rows| =>
      if rows[i].Row? then RowEntry(rows[i].fields, keyIdx, metaIdx, n) else None)
  }

  function HeaderOf(hasHeader: bool, input: seq<Read>): Option<seq<string>> {
    if hasHeader && |input| > 0 && input[0].Row? then Some(TrimmedHeader(input[0].fields)) else None
  }

  function DataRows(hasHeader: bool, input: seq<Read>): seq<Read> {
    if hasHeader && |input| > 0 then input[1..] else input
  }

  /** loadCSV as a value. `knownCharset` says which encodings the charset
      index resolves. */
  function LoadCsvOf(m: Manifest, n: Normalizer, input: seq<Read>, knownCharset: string -> bool): Result<CsvTable, DataError> {
    var enc := m.format.encoding;
    if enc != "" && !IsUtf8Name(enc) && !knownCharset(enc) then Err(UnsupportedEncoding(enc))
    else if m.format.hasHeader && (|input| == 0 || input[0].Unreadable?) then Err(HeaderUnreadable)
    else
      var header := HeaderOf(m.format.hasHeader, input);
      var rows := DataRows(m.format.hasHeader, input);
      match KeyIndex(m.format.keyColumn, header)
      case Err(e) => Err(e)
      case Ok(keyIdx) =>
        if AnyUnreadable(rows) then Err(RowUnreadable)
        else
          var items := RowItems(rows, keyIdx, MetaIndex(m.metadataCols, header), n);
          Ok(CsvTable(Fold(map[], items), Collisions(map[], items)))
  }

  /** Trims every header name in place. */
  method TrimHeader(h: seq<string>) returns (t: seq<string>)
    ensures t == TrimmedHeader(h)
  {
    t := h;
    for i := 0 to |t|
      invariant |t| == |h|
      invariant forall j :: 0 <= j < i ==> t[j] == TrimSpace(h[j])
      invariant forall j :: i <= j < |h| ==> t[j] == h[j]
    {
      t := t[i := TrimSpace(t[i])];
    }
  }

  /** The header scan: the first position holding `col`. */
  method FindColumn(header: seq<string>, col: string) returns (r: Option<nat>)
    ensures r == ColumnIndex(header, col)
  {
    r := None;
    for i := 0 to |header|
      invariant col !in header[..i]
    {
      if header[i] == col {
        r := Some(i);
        break;
      }
      assert header[..i + 1] == header[..i] + [header[i]];
    }
    if r.None? {
      assert header[..|header|] == header;
    }
  }

  /** Resolves every metadata column against the header. */
  method ResolveMetadata(cols: seq<MetadataColumn>, header: Option<seq<string>>) returns (metaIdx: map<string, nat>)
    ensures metaIdx == MetaIndex(cols, header)
  {
    ghost var items := MetaItems(cols, header);
    metaIdx := map[];
    for i := 0 to |cols|
      invariant metaIdx == Fold(map[], items[..i])
    {
      assert items[..i + 1][..i] == items[..i];
      if header.Some? {
        var idx := FindColumn(header.value, cols[i].column);
        if idx.Some? {
          metaIdx := metaIdx[cols[i].name := idx.value];
        }
      }
    }
    assert items[..|cols|] == items;
  }

  /** Builds one row's metadata by walking the resolved columns. */
  method BuildMetadata(record: seq<string>, metaIdx: map<string, nat>) returns (md: Option<map<string, string>>)
    ensures md == MetadataOf(record, metaIdx)
  {
    if |metaIdx| == 0 {
      return None;
    }
    var m: map<string, string> := map[];
    var rest := metaIdx.Keys;
    while rest != {}
      invariant rest <= metaIdx.Keys
      invariant forall name :: name in m <==> name in metaIdx && name !in rest && metaIdx[name] < |record|
      invariant forall name :: name in m ==> m[name] == TrimSpace(record[metaIdx[name]])
      decreases rest
    {
      var name :| name in rest;
      var idx := metaIdx[name];
      if idx < |record| {
        m := m[name := TrimSpace(record[idx])];
      }
      rest := rest - {name};
    }
    md := Some(m);
    assert m == MetadataOf(record, metaIdx).value;
  }

  /** One row of the loop: the key cell trimmed and normalized, the metadata
      built, or nothing for a row to skip. */
  method ReadRow(record: seq<string>, keyIdx: nat, metaIdx: map<string, nat>, n: Normalizer)
    returns (kv: Option<(string, Entry)>)
    ensures kv == RowEntry(record, keyIdx, metaIdx, n)
  {
    if keyIdx >= |record| {
      return None;
    }
    var key := Apply(n, TrimSpace(record[keyIdx]));
    if key == "" {
      return None;
    }
    var md := BuildMetadata(record, metaIdx);
    return Some((key, Entry(md)));
  }

  /** One more readable row adds its own outcome to the rows read so far. */
  lemma RowItemsSnoc(rows: seq<Read>, keyIdx: nat, metaIdx: map<string, nat>, n: Normalizer, i: int)
    requires 0 <= i < |rows| && rows[i].Row?
    requires !AnyUnreadable(rows[..i])
    ensures RowItems(rows[..i + 1], keyIdx, metaIdx, n)
              == RowItems(rows[..i], keyIdx, metaIdx, n) + [RowEntry(rows[i].fields, keyIdx, metaIdx, n)]
    ensures !AnyUnreadable(rows[..i + 1])
  {
    assert rows[..i + 1] == rows[..i] + [rows[i]];
  }

  /** One more readable row puts its entry into the table and counts a
      collision when its key was already there. */
  lemma FillStep(rows: seq<Read>, keyIdx: nat, metaIdx: map<string, nat>, n: Normalizer, i: int)
    requires 0 <= i < |rows| && rows[i].Row?
    requires !AnyUnreadable(rows[..i])
    ensures !AnyUnreadable(rows[..i + 1])
    ensures var kv := RowEntry(rows[i].fields, keyIdx, metaIdx, n);
            var done := RowItems(rows[..i], keyIdx, metaIdx, n);
            Fold(map[], RowItems(rows[..i + 1], keyIdx, metaIdx, n)) == Put(Fold(map[], done), kv)
            && Collisions(map[], RowItems(rows[..i + 1], keyIdx, metaIdx, n))
               == Collisions(map[], done) + Collides(Fold(map[], done), kv)
  {
    RowItemsSnoc(rows, keyIdx, metaIdx, n, i);
    FoldAppend(map[], RowItems(rows[..i], keyIdx, metaIdx, n), RowEntry(rows[i].fields, keyIdx, metaIdx, n));
  }

  /** An unreadable row anywhere makes the rows unreadable. */
  lemma UnreadableAt(rows: seq<Read>, i: int)
    requires 0 <= i < |rows| && rows[i].Unreadable?
    ensures AnyUnreadable(rows)
  {
  }

  /** The row loop of loadCSV: stops at the first unreadable row. */
  method FillEntries(rows: seq<Read>, keyIdx: nat, metaIdx: map<string, nat>, n: Normalizer)
    returns (r: Result<CsvTable, DataError>)
    ensures AnyUnreadable(rows) ==> r == Err(RowUnreadable)
    ensures !AnyUnreadable(rows) ==>
              r == Ok(CsvTable(Fold(map[], RowItems(rows, keyIdx, metaIdx, n)),
                               Collisions(map[], RowItems(rows, keyIdx, metaIdx, n))))
  {
    var entries: map<string, Entry> := map[];
    var collisions := 0;
    for i := 0 to |rows|
      invariant !AnyUnreadable(rows[..i])
      invariant entries == Fold(map[], RowItems(rows[..i], keyIdx, metaIdx, n))
      invariant collisions == Collisions(map[], RowItems(rows[..i], keyIdx, metaIdx, n))
    {
      if rows[i].Unreadable? {
        UnreadableAt(rows, i);
        return Err(RowUnreadable);
      }
      var kv := ReadRow(rows[i].fields, keyIdx, metaIdx, n);
      FillStep(rows, keyIdx, metaIdx, n, i);
      collisions := collisions + Collides(entries, kv);
      entries := Put(entries, kv);
    }
    assert rows[..|rows|] == rows;
    return Ok(CsvTable(entries, collisions));
  }

  /** loadCSV: encoding check, header, key and metadata columns, then the rows. */
  method LoadCsv(m: Manifest, n: Normalizer, input: seq<Read>, knownCharset: string -> bool)
    returns (r: Result<CsvTable, DataError>)
    ensures r == LoadCsvOf(m, n, input, knownCharset)
  {
    var enc := m.format.encoding;
    if enc != "" && !IsUtf8Name(enc) && !knownCharset(enc) {
      return Err(UnsupportedEncoding(enc));
    }
    var header: Option<seq<string>> := None;
    var rows := input;
    if m.format.hasHeader {
      if |input| == 0 || input[0].Unreadable? {
        return Err(HeaderUnreadable);
      }
      var trimmed := TrimHeader(input[0].fields);
      header := Some(trimmed);
      rows := input[1..];
    }
    var keyIdx := 0;
    if m.format.keyColumn != "" && header.Some? {
      var found := FindColumn(header.value, m.format.keyColumn);
      if found.None? {
        return Err(KeyColumnMissing(m.format.keyColumn));
      }
      keyIdx := found.value;
    }
    var metaIdx := ResolveMetadata(m.metadataCols, header);
    r := FillEntries(rows, keyIdx, metaIdx, n);
  }

  // ---- LoadDictionary ----

  /** LoadDictionary as a value: the manifest first; a pattern dictionary
      compiles its patterns and has no entries; otherwise data.gob, when
      present, is the only source, and the CSV data file is read only without
      it. */
  function DictionaryOf(dir: DictDir, compile: RegexCompiler, knownCharset: string -> bool): (r: Result<Dictionary, LoadError>)
    ensures dir.manifestFile.Decoded? && dir.manifestFile.m.id == "" ==> r == Err(ManifestFailed(MissingId))
    ensures r.Ok? ==> LoadManifest(dir.manifestFile) == Ok(r.value.manifest)
    ensures r.Ok? ==> r.value.normalizer == GetNormalizer(r.value.manifest.format.normalize)
    ensures r.Ok? ==> (r.value.patterns.Some? <==> r.value.manifest.importMethod == "pattern")
    ensures r.Ok? && r.value.patterns.Some? ==> r.value.entries == map[] && |r.value.patterns.value| > 0
    ensures r.Err? && r.error.DictFailed? ==>
              LoadManifest(dir.manifestFile).Ok? && r.error.id == LoadManifest(dir.manifestFile).value.id
  {
    match LoadManifest(dir.manifestFile)
    case Err(e) => Err(ManifestFailed(e))
    case Ok(m) =>
      var n := GetNormalizer(m.format.normalize);
      if m.importMethod == "pattern" then
        match CompileAll(m.patterns, compile)
        case Err(e) => Err(DictFailed(m.id, PatternsFailed(e)))
        case Ok(ps) => Ok(Dictionary(m, map[], n, Some(ps)))
      else if dir.gob.GobBroken? then Err(DictFailed(m.id, GobFailed))
      else if dir.gob.GobEntries? then Ok(Dictionary(m, dir.gob.entries, n, None))
      else if m.dataFile !in dir.files then Err(DictFailed(m.id, OpenFailed))
      else match LoadCsvOf(m, n, dir.files[m.dataFile], knownCharset)
        case Err(e) => Err(DictFailed(m.id, e))
        case Ok(t) => Ok(Dictionary(m, t.entries, n, None))
  }

  /** LoadDictionary. */
  method LoadDictionary(dir: DictDir, compile: RegexCompiler, knownCharset: string -> bool)
    returns (r: Result<Dictionary, LoadError>)
    ensures r == DictionaryOf(dir, compile, knownCharset)
  {
    var mr := LoadManifest(dir.manifestFile);
    if mr.Err? {
      return Err(ManifestFailed(mr.error));
    }
    var m := mr.value;
    var n := GetNormalizer(m.format.normalize);
    if m.importMethod == "pattern" {
      var pm := CompilePatterns(m.patterns, compile);
      if pm.Err? {
        return Err(DictFailed(m.id, PatternsFailed(pm.error)));
      }
      return Ok(Dictionary(m, map[], n, Some(pm.value)));
    }
    if dir.gob != NoGob {
      if dir.gob.GobBroken? {
        return Err(DictFailed(m.id, GobFailed));
      }
      return Ok(Dictionary(m, dir.gob.entries, n, None));
    }
    if m.dataFile !in dir.files {
      return Err(DictFailed(m.id, OpenFailed));
    }
    var t := LoadCsv(m, n, dir.files[m.dataFile], knownCharset);
    if t.Err? {
      return Err(DictFailed(m.id, t.error));
    }
    return Ok(Dictionary(m, t.value.entries, n, None));
  }

  // ---- properties of loading ----

  /** With data.gob present, the CSV data file plays no part. */
  lemma GobTakesPriority(dir: DictDir, files: map<string, seq<Read>>, compile: RegexCompiler, knownCharset: string -> bool)
    requires dir.gob != NoGob
    ensures DictionaryOf(dir, compile, knownCharset) == DictionaryOf(dir.(files := files), compile, knownCharset)
  {
  }

  /** The keys loaded from CSV rows: each one is the normalized, trimmed key
      cell of some row that reaches the key column, and is never empty. */
  lemma {:induction false} CsvKeys(rows: seq<Read>, keyIdx: nat, metaIdx: map<string, nat>, n: Normalizer, k: string)
    ensures k in Fold(map[], RowItems(rows, keyIdx, metaIdx, n)) <==>
              exists i :: 0 <= i < |rows| && rows[i].Row? && keyIdx < |rows[i].fields|
                          && k != "" && k == Apply(n, TrimSpace(rows[i].fields[keyIdx]))
  {
    var items := RowItems(rows, keyIdx, metaIdx, n);
    FoldKeys(map[], items, k);
    if exists i :: Writes(items, i, k) {
      var i :| Writes(items, i, k);
      assert rows[i].Row? && keyIdx < |rows[i].fields|;
    }
    if exists i :: 0 <= i < |rows| && rows[i].Row? && keyIdx < |rows[i].fields|
                   && k != "" && k == Apply(n, TrimSpace(rows[i].fields[keyIdx])) {
      var i :| 0 <= i < |rows| && rows[i].Row? && keyIdx < |rows[i].fields|
               && k != "" && k == Apply(n, TrimSpace(rows[i].fields[keyIdx]));
      assert Writes(items, i, k);
    }
  }

  /** For a repeated key the last row that writes it supplies the entry. */
  lemma LastRowWins(rows: seq<Read>, keyIdx: nat, metaIdx: map<string, nat>, n: Normalizer, i: int)
    requires 0 <= i < |rows| && rows[i].Row?
    requires RowEntry(rows[i].fields, keyIdx, metaIdx, n).Some?
    requires forall j :: i < j < |rows| && rows[j].Row? ==>
               RowEntry(rows[j].fields, keyIdx, metaIdx, n).None?
               || RowEntry(rows[j].fields, keyIdx, metaIdx, n).value.0 != RowEntry(rows[i].fields, keyIdx, metaIdx, n).value.0
    ensures var kv := RowEntry(rows[i].fields, keyIdx, metaIdx, n).value;
            kv.0 in Fold(map[], RowItems(rows, keyIdx, metaIdx, n))
            && Fold(map[], RowItems(rows, keyIdx, metaIdx, n))[kv.0] == kv.1
            && kv.1.metadata == MetadataOf(rows[i].fields, metaIdx)
  {
    FoldLastWins(map[], RowItems(rows, keyIdx, metaIdx, n), i);
  }

  predicate MetadataShaped(e: Entry, metaIdx: map<string, nat>) {
    (e.metadata.Some? <==> |metaIdx| > 0)
    && (e.metadata.Some? ==> forall name :: name in e.metadata.value ==> name in metaIdx)
  }

  /** Every loaded entry has metadata iff some metadata column resolved, and
      only under resolved names. */
  lemma CsvMetadataShape(rows: seq<Read>, keyIdx: nat, metaIdx: map<string, nat>, n: Normalizer)
    ensures var t := Fold(map[], RowItems(rows, keyIdx, metaIdx, n));
            forall k :: k in t ==> MetadataShaped(t[k], metaIdx)
  {
    FoldPreserves(map[], RowItems(rows, keyIdx, metaIdx, n), e => MetadataShaped(e, metaIdx));
  }

  /** Unresolvable metadata columns are dropped: a name is resolved iff some
      column of that name appears in the header. */
  lemma {:induction false} MetaIndexKeys(cols: seq<MetadataColumn>, header: Option<seq<string>>, name: string)
    ensures name in MetaIndex(cols, header) <==>
              header.Some? && exists i :: 0 <= i < |cols| && cols[i].name == name && cols[i].column in header.value
  {
    var items := MetaItems(cols, header);
    FoldKeys(map[], items, name);
    if exists i :: Writes(items, i, name) {
      var i :| Writes(items, i, name);
      assert cols[i].name == name && cols[i].column in header.value;
    }
    if header.Some? && exists i :: 0 <= i < |cols| && cols[i].name == name && cols[i].column in header.value {
      var i :| 0 <= i < |cols| && cols[i].name == name && cols[i].column in header.value;
      assert Writes(items, i, name);
    }
  }

  /** A dictionary loaded from CSV finds every stored key by looking the key
      itself up, because every normalizer is idempotent. */
  lemma StoredKeysFindThemselves(dir: DictDir, compile: RegexCompiler, knownCharset: string -> bool, k: string)
    requires DictionaryOf(dir, compile, knownCharset).Ok?
    requires dir.gob == NoGob
    requires k in DictionaryOf(dir, compile, knownCharset).value.entries
    ensures var d := DictionaryOf(dir, compile, knownCharset).value;
            Lookup(d, k) == Some(d.entries[k]) && Classify(d, k) == Lookup(d, k)
  {
    var d := DictionaryOf(dir, compile, knownCharset).value;
    var m := d.manifest;
    assert LoadManifest(dir.manifestFile) == Ok(m);
    assert m.importMethod != "pattern" && m.dataFile in dir.files;
    var input := dir.files[m.dataFile];
    var t := LoadCsvOf(m, d.normalizer, input, knownCharset);
    assert t.Ok? && d.entries == t.value.entries;
    var header := HeaderOf(m.format.hasHeader, input);
    var rows := DataRows(m.format.hasHeader, input);
    var keyIdx := KeyIndex(m.format.keyColumn, header).value;
    var items := RowItems(rows, keyIdx, MetaIndex(m.metadataCols, header), d.normalizer);
    assert d.entries == Fold(map[], items);
    CsvKeys(rows, keyIdx, MetaIndex(m.metadataCols, header), d.normalizer, k);
    var i :| 0 <= i < |rows| && rows[i].Row? && keyIdx < |rows[i].fields|
             && k != "" && k == Apply(d.normalizer, TrimSpace(rows[i].fields[keyIdx]));
    ApplyIdempotent(d.normalizer, TrimSpace(rows[i].fields[keyIdx]));
  }

  /** Collision count plus distinct keys is the number of rows that wrote. */
  lemma CsvCollisions(m: Manifest, n: Normalizer, input: seq<Read>, knownCharset: string -> bool)
    requires LoadCsvOf(m, n, input, knownCharset).Ok?
    ensures var t := LoadCsvOf(m, n, input, knownCharset).value;
            var header := HeaderOf(m.format.hasHeader, input);
            var items := RowItems(DataRows(m.format.hasHeader, input),
                                  KeyIndex(m.format.keyColumn, header).value,
                                  MetaIndex(m.metadataCols, header), n);
            |t.entries| + t.collisions == Present(items)
  {
    var header := HeaderOf(m.format.hasHeader, input);
    var items := RowItems(DataRows(m.format.hasHeader, input),
                          KeyIndex(m.format.keyColumn, header).value,
                          MetaIndex(m.metadataCols, header), n);
    CollisionsAccount(map[], items);
  }
}
