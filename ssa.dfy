/** The SSA baby-names importer's parsing (pkg/importer/adapter_ssa_babynames.go,
    the file and line loops of Import): every yobYYYY.txt file of the
    archive is read line by line as Name,Sex,Count, and counts are summed per
    normalized name across all years. */
module SsaBabyNames {
  import opened Wrappers
  import opened Text
  import opened Normalize
  import opened Upsert
  import opened ImportRows
  import Dict

  /** An unpacked file: its base name and its lines, or None when it could
      not be opened. */
  datatype SourceFile = SourceFile(base: string, lines: Option<seq<string>>)

  /** Only the yearly files are read. */
  predicate IsYearFile(base: string) {
    HasPrefix(base, "yob") && HasSuffix(base, ".txt")
  }

  /** The count field: trimmed, then scanned as an integer. */
  function CountField(field: string): int {
    ScanInt(TrimSpace(field))
  }

  /** What one line counts: nothing unless it splits into three parts at
      commas; otherwise the normalized trimmed name (empty names included),
      the scanned count and the trimmed sex. */
  function LineItem(line: string): Option<(string, int, string)> {
    var parts := SplitN(line, ',', 3);
    if |parts| != 3 then None
    else Some((LowercaseAsciiOf(TrimSpace(parts[0])), CountField(parts[2]), TrimSpace(parts[1])))
  }

  function LineItems(lines: seq<string>): (items: seq<Option<(string, int, string)>>)
    ensures |items| == |lines| && forall j :: 0 <= j < |lines| ==> items[j] == LineItem(lines[j])
  {
    seq(|lines|, j requires 0 <= j < |lines| => LineItem(lines[j]))
  }

  /** What a file contributes: its lines' items if it is a yearly file that
      opened, nothing otherwise. */
  function FileItems(f: SourceFile): seq<Option<(string, int, string)>> {
    if IsYearFile(f.base) && f.lines.Some? then LineItems(f.lines.value) else []
  }

  /** The chunks one after another. */
  function Concat<T>(chunks: seq<seq<T>>): seq<T>
    decreases |chunks|
  {
    if |chunks| == 0 then [] else Concat(chunks[..|chunks| - 1]) + chunks[|chunks| - 1]
  }

  /** Position n of the concatenation is some position of some chunk. */
  lemma {:induction false} ConcatIndex<T>(chunks: seq<seq<T>>, n: int) returns (i: int, j: int)
    requires 0 <= n < |Concat(chunks)|
    ensures 0 <= i < |chunks| && 0 <= j < |chunks[i]| && Concat(chunks)[n] == chunks[i][j]
    decreases |chunks|
  {
    var pre := chunks[..|chunks| - 1];
    var a, b := Concat(pre), chunks[|chunks| - 1];
    if n < |a| {
      i, j := ConcatIndex(pre, n);
      assert (a + b)[n] == a[n];
    } else {
      i, j := |chunks| - 1, n - |a|;
      assert (a + b)[n] == b[j];
    }
  }

  /** Every position of every chunk is a position of the concatenation. */
  lemma {:induction false} ConcatPos<T>(chunks: seq<seq<T>>, i: int, j: int) returns (n: int)
    requires 0 <= i < |chunks| && 0 <= j < |chunks[i]|
    ensures 0 <= n < |Concat(chunks)| && Concat(chunks)[n] == chunks[i][j]
    decreases |chunks|
  {
    var pre := chunks[..|chunks| - 1];
    var a, b := Concat(pre), chunks[|chunks| - 1];
    if i < |chunks| - 1 {
      assert pre[i] == chunks[i];
      n := ConcatPos(pre, i, j);
      assert (a + b)[n] == a[n];
    } else {
      n := |a| + j;
      assert (a + b)[n] == b[j];
    }
  }

  /** Every file's items, in archive order. */
  function SsaItems(files: seq<SourceFile>): seq<Option<(string, int, string)>> {
    Concat(seq(|files|, i requires 0 <= i < |files| => FileItems(files[i])))
  }

  lemma SsaItemsSnoc(files: seq<SourceFile>, i: int)
    requires 0 <= i < |files|
    ensures SsaItems(files[..i + 1]) == SsaItems(files[..i]) + FileItems(files[i])
  {
    var c := seq(i + 1, x requires 0 <= x < i + 1 => FileItems(files[..i + 1][x]));
    assert c[..i] == seq(i, x requires 0 <= x < i => FileItems(files[..i][x]));
  }

  /** A name's metadata: its total births in decimal, and its sex when the
      first line naming it gave one. */
  function Meta(t: Tally): (m: map<string, string>)
    ensures "frequency" in m && m.Keys <= {"frequency", "sex"}
    ensures t.total <= Int64Min || Int64Max < t.total || ScanInt(m["frequency"]) == t.total
    ensures "sex" in m <==> t.tag != ""
    ensures "sex" in m ==> m["sex"] == t.tag
  {
    assert Int64Min <= t.total <= Int64Max ==> ScanInt(Decimal(t.total)) == t.total by {
      if Int64Min <= t.total <= Int64Max {
        ScanDecimalRoundTrip(t.total);
      }
    }
    var freq := map["frequency" := Decimal(t.total)];
    if t.tag != "" then freq["sex" := t.tag] else freq
  }

  function EntriesOfFiles(files: seq<SourceFile>): Entries {
    EntriesOf(Aggregate(SsaItems(files), FirstSeen), Meta)
  }

  lemma LineItemsSnoc(before: seq<Option<(string, int, string)>>, lines: seq<string>, j: int)
    requires 0 <= j < |lines|
    ensures before + LineItems(lines[..j + 1]) == (before + LineItems(lines[..j])) + [LineItem(lines[j])]
  {
    assert LineItems(lines[..j + 1]) == LineItems(lines[..j]) + [LineItem(lines[j])];
  }

  /** The scanner loop over one file's lines: adds every three-part line's
      count to its name, the first line naming it fixing its sex. */
  method AddLines(agg: map<string, Tally>, lines: seq<string>, ghost before: seq<Option<(string, int, string)>>)
    returns (agg': map<string, Tally>)
    requires agg == Aggregate(before, FirstSeen)
    ensures agg' == Aggregate(before + LineItems(lines), FirstSeen)
  {
    agg' := agg;
    assert before + LineItems(lines[..0]) == before;
    for j := 0 to |lines|
      invariant agg' == Aggregate(before + LineItems(lines[..j]), FirstSeen)
    {
      var item := LineItem(lines[j]);
      LineItemsSnoc(before, lines, j);
      AggregateAppend(before + LineItems(lines[..j]), item, FirstSeen);
      if item.None? {
        continue;
      }
      agg' := AddTally(agg', item.value.0, item.value.1, item.value.2, FirstSeen);
    }
    assert lines[..|lines|] == lines;
  }

  /** The loop over the archive's files, then the loop building the entries. */
  method ParseFiles(files: seq<SourceFile>) returns (entries: Entries)
    ensures entries == EntriesOfFiles(files)
  {
    var agg: map<string, Tally> := map[];
    for i := 0 to |files|
      invariant agg == Aggregate(SsaItems(files[..i]), FirstSeen)
    {
      SsaItemsSnoc(files, i);
      var f := files[i];
      if !IsYearFile(f.base) || f.lines.None? {
        assert SsaItems(files[..i]) + [] == SsaItems(files[..i]);
        continue;
      }
      agg := AddLines(agg, f.lines.value, SsaItems(files[..i]));
    }
    assert files[..|files|] == files;
    entries := BuildEntries(agg, Meta);
  }

  /** Line j of file i is a yearly file's line naming k. */
  predicate NamesAt(files: seq<SourceFile>, i: int, j: int, k: string) {
    0 <= i < |files| && IsYearFile(files[i].base) && files[i].lines.Some?
    && 0 <= j < |files[i].lines.value| && LineItem(files[i].lines.value[j]).Some?
    && LineItem(files[i].lines.value[j]).value.0 == k
  }

  /** Some line of some yearly file names k. */
  ghost predicate Names(files: seq<SourceFile>, k: string) {
    exists i, j :: NamesAt(files, i, j, k)
  }

  /** The file and line that produced position n of SsaItems(files). */
  lemma CountedIsNamed(files: seq<SourceFile>, n: int, k: string) returns (i: int, j: int)
    requires Counts(SsaItems(files), n, k)
    ensures NamesAt(files, i, j, k)
  {
    var chunks := seq(|files|, x requires 0 <= x < |files| => FileItems(files[x]));
    i, j := ConcatIndex(chunks, n);
    assert chunks[i] == FileItems(files[i]);
  }

  /** The position in SsaItems(files) of line j of file i. */
  lemma NamedIsCounted(files: seq<SourceFile>, i: int, j: int, k: string) returns (n: int)
    requires NamesAt(files, i, j, k)
    ensures Counts(SsaItems(files), n, k)
  {
    var chunks := seq(|files|, x requires 0 <= x < |files| => FileItems(files[x]));
    assert chunks[i] == FileItems(files[i]) == LineItems(files[i].lines.value);
    n := ConcatPos(chunks, i, j);
  }

  lemma SsaItemsCount(files: seq<SourceFile>, k: string)
    ensures (exists n :: Counts(SsaItems(files), n, k)) <==> Names(files, k)
  {
    if exists n :: Counts(SsaItems(files), n, k) {
      var n :| Counts(SsaItems(files), n, k);
      var i, j := CountedIsNamed(files, n, k);
    }
    if Names(files, k) {
      var i, j :| NamesAt(files, i, j, k);
      var n := NamedIsCounted(files, i, j, k);
    }
  }

  /** A name is stored iff some line of a yearly file names it; its frequency
      reads back as the sum of its counts, and its sex is the first line's. */
  lemma NamesStored(files: seq<SourceFile>, k: string)
    ensures var entries := EntriesOfFiles(files);
            var items := SsaItems(files);
            (k in entries <==> Names(files, k))
            && (k in entries ==>
                  entries[k].metadata.Some?
                  && (TotalFor(items, k) <= Int64Min || Int64Max < TotalFor(items, k)
                      || ScanInt(entries[k].metadata.value["frequency"]) == TotalFor(items, k))
                  && ("sex" in entries[k].metadata.value <==> TagFor(items, k, FirstSeen) != ""))
  {
    AggregateSpec(SsaItems(files), FirstSeen, k);
    SsaItemsCount(files, k);
  }
}
