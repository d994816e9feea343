/** The registry of loaded dictionaries and the classification queries it
    serves (pkg/dict/registry.go). The dictionaries directory is given as a
    value: its listing, or None when it cannot be read. */
module DictRegistry {
  import opened Wrappers
  import opened Order
  import opened Normalize
  import opened DictManifest
  import opened Dict
  import opened Pattern

  /** A single dictionary hit for a classified term. */
  datatype Match = Match(
    dictId: string,
    jurisdiction: string,
    entityType: string,
    metadata: Option<map<string, string>>)

  datatype ClassifyResult = ClassifyResult(term: string, normalized: string, matches: seq<Match>)

  /** Optional filters; an empty list does not filter. */
  datatype ClassifyOptions = ClassifyOptions(
    jurisdictions: seq<string>,
    types: seq<string>,
    dicts: seq<string>)

  /** The public metadata of a loaded dictionary. */
  datatype DictInfo = DictInfo(
    id: string,
    version: string,
    jurisdiction: string,
    entityType: string,
    source: string,
    sourceUrl: string,
    license: string,
    entries: nat)

  /** One entry of the dictionaries directory: its name, whether it is a
      directory, whether it holds a manifest.yaml, and its contents. */
  datatype DirEntry = DirEntry(name: string, isDir: bool, hasManifest: bool, dir: DictDir)

  datatype RegistryError = ListFailed | DictionaryFailed(name: string, cause: LoadError)

  /** Every dictionary is stored under its own manifest id. */
  ghost predicate KeyedById(dicts: map<string, Dictionary>) {
    forall id :: id in dicts ==> dicts[id].manifest.id == id
  }

  // ---- Load ----

  /** What loading one dictionary directory gives. */
  type Loader = DictDir -> Result<Dictionary, LoadError>

  /** The loader Load uses: LoadDictionary with the given regex compiler and
      charset table. The scan below is stated for any loader. */
  function LoaderOf(compile: RegexCompiler, knownCharset: string -> bool): Loader {
    dir => DictionaryOf(dir, compile, knownCharset)
  }

  /** The table Load builds from the listing, scanning it from position 0 on
      top of `acc`: entries that are not directories or have no manifest are
      skipped, the first dictionary that fails to load aborts the scan, and a
      later dictionary with the same id replaces an earlier one. */
  function LoadEntries(entries: seq<DirEntry>, acc: map<string, Dictionary>, load: Loader): (r: Result<map<string, Dictionary>, RegistryError>)
    ensures KeyedById(acc) && r.Ok? ==> KeyedById(r.value)
    ensures r.Ok? ==> acc.Keys <= r.value.Keys
    ensures r.Err? ==> r.error.DictionaryFailed?
    decreases |entries|
  {
    if |entries| == 0 then Ok(acc)
    else
      var e := entries[0];
      if !e.isDir || !e.hasManifest then LoadEntries(entries[1..], acc, load)
      else match load(e.dir)
        case Err(cause) => Err(DictionaryFailed(e.name, cause))
        case Ok(d) => LoadEntries(entries[1..], acc[d.manifest.id := d], load)
  }

  /** Load, as a value: a listing failure or a dictionary failure is an error,
      otherwise the new table holds exactly what the listing loads. */
  function LoadAllOf(listing: Option<seq<DirEntry>>, compile: RegexCompiler, knownCharset: string -> bool)
    : (r: Result<map<string, Dictionary>, RegistryError>)
    ensures listing.None? <==> r == Err(ListFailed)
    ensures r.Ok? ==> KeyedById(r.value)
  {
    match listing
    case None => Err(ListFailed)
    case Some(entries) => LoadEntries(entries, map[], LoaderOf(compile, knownCharset))
  }

  /** A directory entry Load loads: a directory holding a manifest. */
  predicate Loadable(e: DirEntry) {
    e.isDir && e.hasManifest
  }

  /** Entry i is a loadable entry whose dictionary fails to load. */
  predicate FailsAt(entries: seq<DirEntry>, load: Loader, i: int) {
    0 <= i < |entries| && Loadable(entries[i]) && load(entries[i].dir).Err?
  }

  /** The first entry, when it does not fail, leaves the scan of the rest on
      top of the table it produces. */
  lemma LoadEntriesStep(entries: seq<DirEntry>, acc: map<string, Dictionary>, load: Loader)
    requires |entries| > 0 && !FailsAt(entries, load, 0)
    ensures var e := entries[0];
            var acc' := if !Loadable(e) then acc else acc[load(e.dir).value.manifest.id := load(e.dir).value];
            LoadEntries(entries, acc, load) == LoadEntries(entries[1..], acc', load)
  {
  }

  /** Entry i is a loadable entry whose dictionary loads with this id. */
  predicate LoadsIdAt(entries: seq<DirEntry>, load: Loader, i: int, id: string) {
    0 <= i < |entries| && Loadable(entries[i]) && load(entries[i].dir).Ok? && load(entries[i].dir).value.manifest.id == id
  }

  /** The ids a scan stores are the ones already there and those of the
      dictionaries loaded from loadable entries. */
  lemma {:induction false} LoadEntriesKeys(entries: seq<DirEntry>, acc: map<string, Dictionary>,
                                           load: Loader, id: string)
    requires LoadEntries(entries, acc, load).Ok?
    ensures id in LoadEntries(entries, acc, load).value <==> id in acc || exists i :: LoadsIdAt(entries, load, i, id)
    decreases |entries|
  {
    if |entries| > 0 {
      var e, rest := entries[0], entries[1..];
      var acc' := if !Loadable(e) then acc else acc[load(e.dir).value.manifest.id := load(e.dir).value];
      assert !FailsAt(entries, load, 0);
      LoadEntriesStep(entries, acc, load);
      LoadEntriesKeys(rest, acc', load, id);
      if id in acc' && id !in acc {
        assert LoadsIdAt(entries, load, 0, id);
      }
      if exists i :: LoadsIdAt(rest, load, i, id) {
        var i :| LoadsIdAt(rest, load, i, id);
        assert LoadsIdAt(entries, load, i + 1, id);
      }
      if exists i :: LoadsIdAt(entries, load, i, id) {
        var i :| LoadsIdAt(entries, load, i, id);
        if i > 0 {
          assert LoadsIdAt(rest, load, i - 1, id);
        } else {
          assert entries[i] == e && load(e.dir).value.manifest.id == id;
        }
      }
    }
  }

  /** A scan fails exactly when some loadable entry's dictionary fails. */
  lemma {:induction false} LoadEntriesFails(entries: seq<DirEntry>, acc: map<string, Dictionary>, load: Loader)
    ensures LoadEntries(entries, acc, load).Err? <==> exists i :: FailsAt(entries, load, i)
    decreases |entries|
  {
    if |entries| > 0 && !FailsAt(entries, load, 0) {
      var e, rest := entries[0], entries[1..];
      var acc' := if !Loadable(e) then acc else acc[load(e.dir).value.manifest.id := load(e.dir).value];
      LoadEntriesStep(entries, acc, load);
      LoadEntriesFails(rest, acc', load);
      if exists i :: FailsAt(rest, load, i) {
        var i :| FailsAt(rest, load, i);
        assert FailsAt(entries, load, i + 1);
      }
      if exists i :: FailsAt(entries, load, i) {
        var i :| FailsAt(entries, load, i);
        assert FailsAt(rest, load, i - 1);
      }
    }
  }

  /** A failed scan reports the first loadable entry whose dictionary fails. */
  lemma {:induction false} LoadEntriesFirstFailure(entries: seq<DirEntry>, acc: map<string, Dictionary>, load: Loader)
    requires LoadEntries(entries, acc, load).Err?
    ensures exists i :: FailsAt(entries, load, i)
                        && LoadEntries(entries, acc, load).error
                           == DictionaryFailed(entries[i].name, load(entries[i].dir).error)
                        && forall j :: 0 <= j < i ==> !FailsAt(entries, load, j)
    decreases |entries|
  {
    if FailsAt(entries, load, 0) {
      assert LoadEntries(entries, acc, load).error == DictionaryFailed(entries[0].name, load(entries[0].dir).error);
    } else {
      var e, rest := entries[0], entries[1..];
      var acc' := if !Loadable(e) then acc else acc[load(e.dir).value.manifest.id := load(e.dir).value];
      LoadEntriesStep(entries, acc, load);
      LoadEntriesFirstFailure(rest, acc', load);
      var i :| FailsAt(rest, load, i)
               && LoadEntries(rest, acc', load).error == DictionaryFailed(rest[i].name, load(rest[i].dir).error)
               && forall j :: 0 <= j < i ==> !FailsAt(rest, load, j);
      assert FailsAt(entries, load, i + 1) && entries[i + 1] == rest[i];
      forall j | 0 <= j < i + 1
        ensures !FailsAt(entries, load, j)
      {
        if j > 0 {
          assert entries[j] == rest[j - 1];
        }
      }
    }
  }

  // ---- Classify ----

  /** Whether a dictionary passes the filters: no options admit everything,
      and each non-empty list must contain the dictionary's value. */
  predicate Admits(opts: Option<ClassifyOptions>, m: Manifest) {
    opts.None? ||
    ((|opts.value.jurisdictions| == 0 || m.jurisdiction in opts.value.jurisdictions) &&
     (|opts.value.types| == 0 || m.entityType in opts.value.types) &&
     (|opts.value.dicts| == 0 || m.id in opts.value.dicts))
  }

  function MatchFor(d: Dictionary, e: Entry): Match {
    Match(d.manifest.id, d.manifest.jurisdiction, d.manifest.entityType, e.metadata)
  }

  /** The match a dictionary contributes to a query, if any. */
  function Hit(d: Dictionary, term: string, opts: Option<ClassifyOptions>): (r: Option<Match>)
    ensures r.Some? <==> Admits(opts, d.manifest) && Dict.Classify(d, term).Some?
    ensures r.Some? ==> r.value.dictId == d.manifest.id && r.value.jurisdiction == d.manifest.jurisdiction
                        && r.value.entityType == d.manifest.entityType
                        && r.value.metadata == Dict.Classify(d, term).value.metadata
  {
    if !Admits(opts, d.manifest) then None
    else match Dict.Classify(d, term)
      case None => None
      case Some(e) => Some(MatchFor(d, e))
  }

  /** The matches of the dictionaries visited in the order of `ids`. */
  function MatchesOver(dicts: map<string, Dictionary>, ids: seq<string>, term: string,
                       opts: Option<ClassifyOptions>): seq<Match>
    requires forall i :: 0 <= i < |ids| ==> ids[i] in dicts
    decreases |ids|
  {
    if |ids| == 0 then []
    else
      var before := MatchesOver(dicts, ids[..|ids| - 1], term, opts);
      match Hit(dicts[ids[|ids| - 1]], term, opts)
      case None => before
      case Some(m) => before + [m]
  }

  /** The normalized form a query reports while visiting `ids`: the first
      non-empty normalization among the dictionaries that hit, "" if none. */
  function NormalizedOver(dicts: map<string, Dictionary>, ids: seq<string>, term: string,
                          opts: Option<ClassifyOptions>): string
    requires forall i :: 0 <= i < |ids| ==> ids[i] in dicts
    decreases |ids|
  {
    if |ids| == 0 then ""
    else
      var before := NormalizedOver(dicts, ids[..|ids| - 1], term, opts);
      var d := dicts[ids[|ids| - 1]];
      if before == "" && Hit(d, term, opts).Some? then NormalizeTerm(d, term) else before
  }

  /** Classify, as a value: the dictionaries are visited in ascending id
      order, and without a non-empty normalization from a hit the term is
      reported with NormalizeLowercaseASCII. */
  ghost function ClassifyOf(dicts: map<string, Dictionary>, term: string, opts: Option<ClassifyOptions>): (r: ClassifyResult)
    ensures r.term == term
  {
    var ids := SortedIds(dicts.Keys);
    var nrm := NormalizedOver(dicts, ids, term, opts);
    ClassifyResult(term, if nrm == "" then LowercaseAsciiOf(term) else nrm, MatchesOver(dicts, ids, term, opts))
  }

  /** Visiting one more dictionary appends its match, if it hits. */
  lemma MatchesOverSnoc(dicts: map<string, Dictionary>, ids: seq<string>, term: string,
                        opts: Option<ClassifyOptions>)
    requires |ids| > 0 && forall i :: 0 <= i < |ids| ==> ids[i] in dicts
    ensures var before := MatchesOver(dicts, ids[..|ids| - 1], term, opts);
            var hit := Hit(dicts[ids[|ids| - 1]], term, opts);
            MatchesOver(dicts, ids, term, opts) == if hit.Some? then before + [hit.value] else before
  {
  }

  /** Every match comes from a dictionary in `ids` that hits. */
  lemma {:induction false} MatchesFromHits(dicts: map<string, Dictionary>, ids: seq<string>, term: string,
                                           opts: Option<ClassifyOptions>)
    requires forall i :: 0 <= i < |ids| ==> ids[i] in dicts
    ensures forall k :: 0 <= k < |MatchesOver(dicts, ids, term, opts)| ==>
              exists i :: 0 <= i < |ids| && Hit(dicts[ids[i]], term, opts) == Some(MatchesOver(dicts, ids, term, opts)[k])
    decreases |ids|
  {
    if |ids| > 0 {
      var pre := ids[..|ids| - 1];
      var last := Hit(dicts[ids[|ids| - 1]], term, opts);
      MatchesFromHits(dicts, pre, term, opts);
      MatchesOverSnoc(dicts, ids, term, opts);
      var ms := MatchesOver(dicts, ids, term, opts);
      var before := MatchesOver(dicts, pre, term, opts);
      forall k | 0 <= k < |ms|
        ensures exists i :: 0 <= i < |ids| && Hit(dicts[ids[i]], term, opts) == Some(ms[k])
      {
        if k < |before| {
          var i :| 0 <= i < |pre| && Hit(dicts[pre[i]], term, opts) == Some(before[k]);
          assert ids[i] == pre[i] && ms[k] == before[k];
        } else {
          assert last == Some(ms[k]);
        }
      }
    } else {
      assert MatchesOver(dicts, ids, term, opts) == [];
    }
  }

  /** Every dictionary in `ids` that hits gives a match. */
  lemma {:induction false} HitsInMatches(dicts: map<string, Dictionary>, ids: seq<string>, term: string,
                                         opts: Option<ClassifyOptions>)
    requires forall i :: 0 <= i < |ids| ==> ids[i] in dicts
    ensures forall i :: 0 <= i < |ids| && Hit(dicts[ids[i]], term, opts).Some? ==>
              Hit(dicts[ids[i]], term, opts).value in MatchesOver(dicts, ids, term, opts)
    decreases |ids|
  {
    if |ids| > 0 {
      var pre := ids[..|ids| - 1];
      HitsInMatches(dicts, pre, term, opts);
      MatchesOverSnoc(dicts, ids, term, opts);
      var ms := MatchesOver(dicts, ids, term, opts);
      var before := MatchesOver(dicts, pre, term, opts);
      forall i | 0 <= i < |ids| && Hit(dicts[ids[i]], term, opts).Some?
        ensures Hit(dicts[ids[i]], term, opts).value in ms
      {
        if i < |pre| {
          assert ids[i] == pre[i];
          var k :| 0 <= k < |before| && before[k] == Hit(dicts[pre[i]], term, opts).value;
          assert ms[k] == before[k];
        }
      }
    }
  }

  /** Over ids in ascending order, with each dictionary under its own id, the
      matches come in ascending dictionary-id order. */
  lemma {:induction false} MatchesOverSorted(dicts: map<string, Dictionary>, ids: seq<string>, term: string,
                                             opts: Option<ClassifyOptions>)
    requires forall i :: 0 <= i < |ids| ==> ids[i] in dicts
    requires KeyedById(dicts)
    requires StrictlySorted(ids)
    ensures forall k, l :: 0 <= k < l < |MatchesOver(dicts, ids, term, opts)| ==>
              StrLess(MatchesOver(dicts, ids, term, opts)[k].dictId, MatchesOver(dicts, ids, term, opts)[l].dictId)
    decreases |ids|
  {
    if |ids| > 0 {
      var pre := ids[..|ids| - 1];
      var last := ids[|ids| - 1];
      assert StrictlySorted(pre);
      MatchesOverSorted(dicts, pre, term, opts);
      MatchesFromHits(dicts, pre, term, opts);
      HitsInMatches(dicts, pre, term, opts);
      var ms := MatchesOver(dicts, ids, term, opts);
      var before := MatchesOver(dicts, pre, term, opts);
      if Hit(dicts[last], term, opts).Some? {
        assert ms == before + [Hit(dicts[last], term, opts).value];
        assert ms[|ms| - 1].dictId == last;
        forall k | 0 <= k < |before| ensures StrLess(before[k].dictId, last) {
          var i :| 0 <= i < |pre| && Hit(dicts[pre[i]], term, opts) == Some(before[k]);
          assert before[k].dictId == pre[i];
          assert StrLess(ids[i], ids[|ids| - 1]);
        }
      }
    }
  }

  /** Classify reports its matches in ascending dictionary-id order. */
  lemma ClassifyAscending(dicts: map<string, Dictionary>, term: string, opts: Option<ClassifyOptions>)
    requires KeyedById(dicts)
    ensures var ms := ClassifyOf(dicts, term, opts).matches;
            forall k, l :: 0 <= k < l < |ms| ==> StrLess(ms[k].dictId, ms[l].dictId)
  {
    MatchesOverSorted(dicts, SortedIds(dicts.Keys), term, opts);
  }

  /** A dictionary named by a match passes the filters and classifies the term. */
  lemma MatchedDictionaryHits(dicts: map<string, Dictionary>, term: string, opts: Option<ClassifyOptions>, id: string)
    requires KeyedById(dicts)
    requires id in dicts
    ensures (exists k :: 0 <= k < |ClassifyOf(dicts, term, opts).matches| && ClassifyOf(dicts, term, opts).matches[k].dictId == id)
            ==> Admits(opts, dicts[id].manifest) && Dict.Classify(dicts[id], term).Some?
  {
    var ids := SortedIds(dicts.Keys);
    var ms := ClassifyOf(dicts, term, opts).matches;
    KeysInOrder(dicts);
    assert ms == MatchesOver(dicts, ids, term, opts);
    if exists k :: 0 <= k < |ms| && ms[k].dictId == id {
      var k :| 0 <= k < |ms| && ms[k].dictId == id;
      MatchesFromHits(dicts, ids, term, opts);
      var i :| 0 <= i < |ids| && Hit(dicts[ids[i]], term, opts) == Some(ms[k]);
      assert ids[i] == id;
    }
  }

  /** A loaded dictionary that passes the filters and classifies the term is
      named by a match. */
  lemma HittingDictionaryMatched(dicts: map<string, Dictionary>, term: string, opts: Option<ClassifyOptions>, id: string)
    requires KeyedById(dicts)
    requires id in dicts
    requires Admits(opts, dicts[id].manifest) && Dict.Classify(dicts[id], term).Some?
    ensures exists k :: 0 <= k < |ClassifyOf(dicts, term, opts).matches| && ClassifyOf(dicts, term, opts).matches[k].dictId == id
  {
    var ids := SortedIds(dicts.Keys);
    var ms := ClassifyOf(dicts, term, opts).matches;
    KeysInOrder(dicts);
    assert ms == MatchesOver(dicts, ids, term, opts);
    HitsInMatches(dicts, ids, term, opts);
    assert id in Elems(ids);
    var j :| 0 <= j < |ids| && ids[j] == id;
    assert Hit(dicts[ids[j]], term, opts).Some?;
    var k :| 0 <= k < |ms| && ms[k] == Hit(dicts[ids[j]], term, opts).value;
    assert ms[k].dictId == id;
  }

  /** A loaded dictionary appears among the matches iff it passes the filters
      and classifies the term. */
  lemma ClassifyMatches(dicts: map<string, Dictionary>, term: string, opts: Option<ClassifyOptions>, id: string)
    requires KeyedById(dicts)
    requires id in dicts
    ensures (exists k :: 0 <= k < |ClassifyOf(dicts, term, opts).matches| && ClassifyOf(dicts, term, opts).matches[k].dictId == id)
            <==> Admits(opts, dicts[id].manifest) && Dict.Classify(dicts[id], term).Some?
  {
    MatchedDictionaryHits(dicts, term, opts, id);
    if Admits(opts, dicts[id].manifest) && Dict.Classify(dicts[id], term).Some? {
      HittingDictionaryMatched(dicts, term, opts, id);
    }
  }

  /** A match naming a loaded dictionary carries that dictionary's manifest
      fields and the metadata of the entry it classified the term to. */
  lemma ClassifyMatchFields(dicts: map<string, Dictionary>, term: string, opts: Option<ClassifyOptions>, id: string)
    requires KeyedById(dicts)
    requires id in dicts
    ensures forall k :: 0 <= k < |ClassifyOf(dicts, term, opts).matches| && ClassifyOf(dicts, term, opts).matches[k].dictId == id ==>
              Dict.Classify(dicts[id], term).Some?
              && ClassifyOf(dicts, term, opts).matches[k] == MatchFor(dicts[id], Dict.Classify(dicts[id], term).value)
  {
    var ids := SortedIds(dicts.Keys);
    var ms := ClassifyOf(dicts, term, opts).matches;
    KeysInOrder(dicts);
    assert ms == MatchesOver(dicts, ids, term, opts);
    MatchesFromHits(dicts, ids, term, opts);
    forall k | 0 <= k < |ms| && ms[k].dictId == id
      ensures Dict.Classify(dicts[id], term).Some? && ms[k] == MatchFor(dicts[id], Dict.Classify(dicts[id], term).value)
    {
      var i :| 0 <= i < |ids| && Hit(dicts[ids[i]], term, opts) == Some(ms[k]);
      assert ids[i] == id;
    }
  }

  /** No hit among the ids leaves the normalization empty. */
  lemma {:induction false} NormalizedNoHit(dicts: map<string, Dictionary>, ids: seq<string>, term: string,
                                           opts: Option<ClassifyOptions>)
    requires forall i :: 0 <= i < |ids| ==> ids[i] in dicts
    requires forall i :: 0 <= i < |ids| ==> Hit(dicts[ids[i]], term, opts).None?
    ensures NormalizedOver(dicts, ids, term, opts) == ""
    decreases |ids|
  {
    if |ids| > 0 {
      NormalizedNoHit(dicts, ids[..|ids| - 1], term, opts);
    }
  }

  /** Once the normalization is non-empty, later dictionaries do not change it. */
  lemma {:induction false} NormalizedSticks(dicts: map<string, Dictionary>, ids: seq<string>, n: nat,
                                            term: string, opts: Option<ClassifyOptions>)
    requires forall i :: 0 <= i < |ids| ==> ids[i] in dicts
    requires n <= |ids|
    requires NormalizedOver(dicts, ids[..n], term, opts) != ""
    ensures NormalizedOver(dicts, ids, term, opts) == NormalizedOver(dicts, ids[..n], term, opts)
    decreases |ids| - n
  {
    if n < |ids| {
      assert ids[..n + 1][..n] == ids[..n];
      NormalizedSticks(dicts, ids, n + 1, term, opts);
    } else {
      assert ids[..n] == ids;
    }
  }

  /** Whether position f holds the first dictionary that hits. */
  predicate FirstHit(dicts: map<string, Dictionary>, ids: seq<string>, f: int, term: string,
                     opts: Option<ClassifyOptions>)
    requires forall i :: 0 <= i < |ids| ==> ids[i] in dicts
  {
    0 <= f < |ids| && Hit(dicts[ids[f]], term, opts).Some?
    && forall i :: 0 <= i < f ==> Hit(dicts[ids[i]], term, opts).None?
  }

  /** When the first dictionary that hits normalizes the term to something
      non-empty, that is the normalized form. */
  lemma NormalizedFirstHit(dicts: map<string, Dictionary>, ids: seq<string>, f: int, term: string,
                           opts: Option<ClassifyOptions>)
    requires forall i :: 0 <= i < |ids| ==> ids[i] in dicts
    requires FirstHit(dicts, ids, f, term, opts)
    requires NormalizeTerm(dicts[ids[f]], term) != ""
    ensures NormalizedOver(dicts, ids, term, opts) == NormalizeTerm(dicts[ids[f]], term)
  {
    var pre := ids[..f];
    assert forall i :: 0 <= i < |pre| ==> pre[i] == ids[i];
    NormalizedNoHit(dicts, pre, term, opts);
    assert ids[..f + 1][..f] == pre;
    assert NormalizedOver(dicts, ids[..f + 1], term, opts) == NormalizeTerm(dicts[ids[f]], term);
    NormalizedSticks(dicts, ids, f + 1, term, opts);
  }

  /** With no dictionary hitting, Classify reports NormalizeLowercaseASCII of
      the term. */
  lemma ClassifyNormalizedNoHit(dicts: map<string, Dictionary>, term: string, opts: Option<ClassifyOptions>)
    requires forall id :: id in dicts ==> Hit(dicts[id], term, opts).None?
    ensures ClassifyOf(dicts, term, opts).normalized == LowercaseAsciiOf(term)
    ensures ClassifyOf(dicts, term, opts).matches == []
  {
    var ids := SortedIds(dicts.Keys);
    assert forall i :: 0 <= i < |ids| ==> ids[i] in Elems(ids);
    NormalizedNoHit(dicts, ids, term, opts);
    MatchesFromHits(dicts, ids, term, opts);
    HitsInMatches(dicts, ids, term, opts);
    var ms := MatchesOver(dicts, ids, term, opts);
    if |ms| > 0 {
      var i :| 0 <= i < |ids| && Hit(dicts[ids[i]], term, opts) == Some(ms[0]);
      assert false;
    }
  }

  /** Classify reports the normalization of the first dictionary, in id
      order, that hits, when that is non-empty. */
  lemma ClassifyNormalizedFirst(dicts: map<string, Dictionary>, term: string, opts: Option<ClassifyOptions>, f: int)
    requires forall i :: 0 <= i < |SortedIds(dicts.Keys)| ==> SortedIds(dicts.Keys)[i] in dicts
    requires FirstHit(dicts, SortedIds(dicts.Keys), f, term, opts)
    requires NormalizeTerm(dicts[SortedIds(dicts.Keys)[f]], term) != ""
    ensures ClassifyOf(dicts, term, opts).normalized == NormalizeTerm(dicts[SortedIds(dicts.Keys)[f]], term)
  {
    NormalizedFirstHit(dicts, SortedIds(dicts.Keys), f, term, opts);
  }

  /** One more dictionary visited by Classify. */
  lemma ClassifyStep(dicts: map<string, Dictionary>, ids: seq<string>, i: int, term: string,
                     opts: Option<ClassifyOptions>)
    requires forall k :: 0 <= k < |ids| ==> ids[k] in dicts
    requires 0 <= i < |ids|
    ensures var h := Hit(dicts[ids[i]], term, opts);
            MatchesOver(dicts, ids[..i + 1], term, opts)
              == MatchesOver(dicts, ids[..i], term, opts) + (if h.Some? then [h.value] else [])
    ensures var h := Hit(dicts[ids[i]], term, opts);
            var before := NormalizedOver(dicts, ids[..i], term, opts);
            NormalizedOver(dicts, ids[..i + 1], term, opts)
              == if before == "" && h.Some? then NormalizeTerm(dicts[ids[i]], term) else before
  {
    assert ids[..i + 1][..i] == ids[..i];
  }

  // ---- listing ----

  function InfoOf(d: Dictionary): (info: DictInfo)
    ensures info.id == d.manifest.id && info.entries == |d.entries|
  {
    DictInfo(d.manifest.id, d.manifest.version, d.manifest.jurisdiction, d.manifest.entityType,
             d.manifest.source, d.manifest.sourceUrl, d.manifest.license, |d.entries|)
  }

  /** The infos of the dictionaries named by `ids`, in that order. */
  function Infos(dicts: map<string, Dictionary>, ids: seq<string>): (infos: seq<DictInfo>)
    requires forall i :: 0 <= i < |ids| ==> ids[i] in dicts
    ensures |infos| == |ids| && forall i :: 0 <= i < |ids| ==> infos[i] == InfoOf(dicts[ids[i]])
  {
    seq(|ids|, i requires 0 <= i < |ids| => InfoOf(dicts[ids[i]]))
  }

  /** Under KeyedById, the infos listed for sorted ids carry those ids. */
  lemma InfosCarryIds(dicts: map<string, Dictionary>, ids: seq<string>)
    requires forall i :: 0 <= i < |ids| ==> ids[i] in dicts
    requires KeyedById(dicts)
    ensures forall i :: 0 <= i < |ids| ==> Infos(dicts, ids)[i].id == ids[i]
  {
  }

  lemma ListSorted(dicts: map<string, Dictionary>)
    requires KeyedById(dicts)
    ensures var ids := SortedIds(dicts.Keys);
            (forall i :: 0 <= i < |ids| ==> ids[i] in dicts) &&
            forall i, j :: 0 <= i < j < |ids| ==> StrLess(Infos(dicts, ids)[i].id, Infos(dicts, ids)[j].id)
  {
    var ids := SortedIds(dicts.Keys);
    KeysInOrder(dicts);
    InfosCarryIds(dicts, ids);
  }

  lemma ListCovers(dicts: map<string, Dictionary>)
    requires KeyedById(dicts)
    ensures var ids := SortedIds(dicts.Keys);
            (forall i :: 0 <= i < |ids| ==> ids[i] in dicts) &&
            forall id :: id in dicts <==> exists i :: 0 <= i < |ids| && Infos(dicts, ids)[i].id == id
  {
    var ids := SortedIds(dicts.Keys);
    KeysInOrder(dicts);
    InfosCarryIds(dicts, ids);
    forall id | id in dicts
      ensures exists i :: 0 <= i < |ids| && Infos(dicts, ids)[i].id == id
    {
      assert id in Elems(ids);
      var i :| 0 <= i < |ids| && ids[i] == id;
      assert Infos(dicts, ids)[i].id == id;
    }
  }

  /** ListDicts, as a value: one info per dictionary, in ascending id order. */
  ghost function ListOf(dicts: map<string, Dictionary>): (infos: seq<DictInfo>)
    ensures |infos| == |dicts|
    ensures KeyedById(dicts) ==> forall i, j :: 0 <= i < j < |infos| ==> StrLess(infos[i].id, infos[j].id)
    ensures |infos| == |SortedIds(dicts.Keys)|
    ensures forall i :: 0 <= i < |infos| ==> infos[i] == InfoOf(dicts[SortedIds(dicts.Keys)[i]])
    ensures KeyedById(dicts) ==> forall id :: id in dicts <==> exists i :: 0 <= i < |infos| && infos[i].id == id
  {
    KeysInOrder(dicts);
    if KeyedById(dicts) then
      ListSorted(dicts);
      ListCovers(dicts);
      Infos(dicts, SortedIds(dicts.Keys))
    else
      Infos(dicts, SortedIds(dicts.Keys))
  }

  /** The sum of the entry counts of a listing. */
  function SumEntries(infos: seq<DictInfo>): nat
    decreases |infos|
  {
    if |infos| == 0 then 0 else SumEntries(infos[..|infos| - 1]) + infos[|infos| - 1].entries
  }

  lemma InfosSnoc(dicts: map<string, Dictionary>, ids: seq<string>, i: int)
    requires forall k :: 0 <= k < |ids| ==> ids[k] in dicts
    requires 0 <= i < |ids|
    ensures Infos(dicts, ids[..i + 1]) == Infos(dicts, ids[..i]) + [InfoOf(dicts[ids[i]])]
  {
  }

  lemma SumEntriesSnoc(infos: seq<DictInfo>, i: int)
    requires 0 <= i < |infos|
    ensures SumEntries(infos[..i + 1]) == SumEntries(infos[..i]) + infos[i].entries
  {
    assert infos[..i + 1][..i] == infos[..i];
  }

  /** One more dictionary of the listing adds its entry count to the sum. */
  lemma TotalStep(dicts: map<string, Dictionary>, ids: seq<string>, i: int)
    requires ids == SortedIds(dicts.Keys) && 0 <= i < |ids|
    ensures ids[i] in dicts && i < |ListOf(dicts)|
    ensures SumEntries(ListOf(dicts)[..i + 1]) == SumEntries(ListOf(dicts)[..i]) + |dicts[ids[i]].entries|
  {
    SumEntriesSnoc(ListOf(dicts), i);
  }

  /** The registry: the loaded dictionaries by id. The read-write lock that
      guards the table in the source is left out; every operation here is
      atomic. */
  class Registry {
    var dicts: map<string, Dictionary>

    ghost predicate Valid()
      reads this
    {
      KeyedById(dicts)
    }

    /** NewRegistry: an empty registry. */
    constructor ()
      ensures dicts == map[]
      ensures Valid()
    {
      dicts := map[];
    }

    /** Load: scans the listing and replaces the table only when every
      dictionary loads; on any error the table is left as it was. */
    method Load(listing: Option<seq<DirEntry>>, compile: RegexCompiler, knownCharset: string -> bool)
      returns (err: Option<RegistryError>)
      requires Valid()
      modifies this
      ensures Valid()
      ensures err.None? <==> LoadAllOf(listing, compile, knownCharset).Ok?
      ensures err.Some? ==> err.value == LoadAllOf(listing, compile, knownCharset).error && dicts == old(dicts)
      ensures err.None? ==> dicts == LoadAllOf(listing, compile, knownCharset).value
    {
      if listing.None? {
        return Some(ListFailed);
      }
      var entries := listing.value;
      ghost var load := LoaderOf(compile, knownCharset);
      var newDicts: map<string, Dictionary> := map[];
      for i := 0 to |entries|
        invariant KeyedById(newDicts)
        invariant dicts == old(dicts)
        invariant LoadEntries(entries, map[], load) == LoadEntries(entries[i..], newDicts, load)
      {
        assert entries[i..][1..] == entries[i + 1..];
        var e := entries[i];
        if !e.isDir || !e.hasManifest {
          continue;
        }
        var d := LoadDictionary(e.dir, compile, knownCharset);
        if d.Err? {
          return Some(DictionaryFailed(e.name, d.error));
        }
        newDicts := newDicts[d.value.manifest.id := d.value];
      }
      assert entries[|entries|..] == [];
      dicts := newDicts;
      return None;
    }

    /** Classify: the query over every loaded dictionary, in ascending id order. */
    method Classify(term: string, opts: Option<ClassifyOptions>) returns (result: ClassifyResult)
      ensures result == ClassifyOf(dicts, term, opts)
    {
      var ids := SortedKeys(dicts);
      var matches: seq<Match> := [];
      var normalized := "";
      for i := 0 to |ids|
        invariant matches == MatchesOver(dicts, ids[..i], term, opts)
        invariant normalized == NormalizedOver(dicts, ids[..i], term, opts)
      {
        ClassifyStep(dicts, ids, i, term, opts);
        var d := dicts[ids[i]];
        var admitted := Filter(opts, d.manifest);
        if admitted {
          var entry := Dict.Classify(d, term);
          if entry.Some? {
            if normalized == "" {
              normalized := NormalizeTerm(d, term);
            }
            matches := matches + [MatchFor(d, entry.value)];
          }
        }
      }
      assert ids[..|ids|] == ids;
      if normalized == "" {
        normalized := LowercaseAsciiOf(term);
      }
      return ClassifyResult(term, normalized, matches);
    }

    /** ListDicts: the infos of the loaded dictionaries, sorted by id. */
    method ListDicts() returns (infos: seq<DictInfo>)
      ensures infos == ListOf(dicts)
    {
      var ids := SortedKeys(dicts);
      KeysInOrder(dicts);
      infos := [];
      for i := 0 to |ids|
        invariant infos == Infos(dicts, ids[..i])
      {
        InfosSnoc(dicts, ids, i);
        infos := infos + [InfoOf(dicts[ids[i]])];
      }
      assert ids[..|ids|] == ids;
    }

    /** DictCount: as many as ListDicts lists. */
    function DictCount(): (n: nat)
      reads this
      ensures n == |ListOf(dicts)|
    {
      |dicts|
    }

    /** TotalEntries: the entry counts of the listed dictionaries, summed. */
    method TotalEntries() returns (total: nat)
      ensures total == SumEntries(ListOf(dicts))
      ensures dicts == map[] ==> total == 0
    {
      var ids := SortedKeys(dicts);
      total := 0;
      for i := 0 to |ids|
        invariant total == SumEntries(ListOf(dicts)[..i])
      {
        TotalStep(dicts, ids, i);
        total := total + |dicts[ids[i]].entries|;
      }
      assert ListOf(dicts)[..|ids|] == ListOf(dicts);
    }
  }

  /** The three filters of Classify, each through contains. */
  method Filter(opts: Option<ClassifyOptions>, m: Manifest) returns (admitted: bool)
    ensures admitted == Admits(opts, m)
  {
    if opts.None? {
      return true;
    }
    var o := opts.value;
    if |o.jurisdictions| > 0 {
      var c := Contains(o.jurisdictions, m.jurisdiction);
      if !c { return false; }
    }
    if |o.types| > 0 {
      var c := Contains(o.types, m.entityType);
      if !c { return false; }
    }
    if |o.dicts| > 0 {
      var c := Contains(o.dicts, m.id);
      if !c { return false; }
    }
    return true;
  }

  /** contains: whether the slice holds s. */
  method Contains(slice: seq<string>, s: string) returns (r: bool)
    ensures r <==> s in slice
  {
    for i := 0 to |slice|
      invariant s !in slice[..i]
    {
      if slice[i] == s {
        return true;
      }
    }
    assert slice[..|slice|] == slice;
    return false;
  }
}
