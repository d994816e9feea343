/** The import-sources table (pkg/importer/sourcedb.go): one row per adapter
    id holding the URL to download from and the result of the last
    availability check. The SQLite table is modelled as a map from
    adapter id to row; the clock is a parameter. */
module SourceDb {
  import opened Wrappers
  import opened Order
  import opened Adapters

  /** A row of import_sources; the nullable columns are options. */
  datatype Source = Source(adapterId: string, dictId: string, description: string, sourceUrl: string,
                           license: string, lastCheck: Option<int>, lastStatus: Option<int>,
                           lastError: Option<string>, updatedAt: int)

  type Rows = map<string, Source>

  /** Every row is stored under its own adapter id (the primary key). */
  ghost predicate RowsKeyed(rows: Rows) {
    forall id :: id in rows ==> rows[id].adapterId == id
  }

  /** The row Seed inserts for an adapter: its defaults, never checked. */
  function SeedRow(a: Adapter, now: int): (s: Source)
    ensures s.adapterId == a.id && s.sourceUrl == a.defaultUrl && s.updatedAt == now
    ensures s.lastCheck.None? && s.lastStatus.None? && s.lastError.None?
  {
    Source(a.id, a.dictId, a.description, a.defaultUrl, a.license, None, None, None, now)
  }

  /** INSERT OR IGNORE for each adapter in turn. */
  function SeedOf(rows: Rows, adapters: seq<Adapter>, now: int): Rows
    decreases |adapters|
  {
    if |adapters| == 0 then rows
    else
      var before := SeedOf(rows, adapters[..|adapters| - 1], now);
      var a := adapters[|adapters| - 1];
      if a.id in before then before else before[a.id := SeedRow(a, now)]
  }

  /** The first adapter in the list with the given id. */
  predicate FirstWithId(adapters: seq<Adapter>, i: int, id: string) {
    0 <= i < |adapters| && adapters[i].id == id && forall j :: 0 <= j < i ==> adapters[j].id != id
  }

  /** Seeding stores exactly the existing ids and the adapters' ids. */
  lemma {:induction false} SeedKeys(rows: Rows, adapters: seq<Adapter>, now: int, id: string)
    ensures id in SeedOf(rows, adapters, now) <==> id in rows || exists i :: 0 <= i < |adapters| && adapters[i].id == id
    decreases |adapters|
  {
    if |adapters| > 0 {
      var pre := adapters[..|adapters| - 1];
      SeedKeys(rows, pre, now, id);
      if exists i :: 0 <= i < |pre| && pre[i].id == id {
        var i :| 0 <= i < |pre| && pre[i].id == id;
        assert adapters[i].id == id;
      }
      if exists i :: 0 <= i < |adapters| && adapters[i].id == id {
        var i :| 0 <= i < |adapters| && adapters[i].id == id;
        if i < |pre| { assert pre[i].id == id; }
      }
    }
  }

  /** Seeding never overwrites an existing row. */
  lemma {:induction false} SeedKeeps(rows: Rows, adapters: seq<Adapter>, now: int, id: string)
    requires id in rows
    ensures id in SeedOf(rows, adapters, now) && SeedOf(rows, adapters, now)[id] == rows[id]
    decreases |adapters|
  {
    if |adapters| > 0 {
      SeedKeeps(rows, adapters[..|adapters| - 1], now, id);
    }
  }

  /** A newly seeded row is the row of the first adapter carrying its id. */
  lemma {:induction false} SeedFirst(rows: Rows, adapters: seq<Adapter>, now: int, id: string) returns (i: int)
    requires id !in rows && id in SeedOf(rows, adapters, now)
    ensures FirstWithId(adapters, i, id) && SeedOf(rows, adapters, now)[id] == SeedRow(adapters[i], now)
    decreases |adapters|
  {
    var pre := adapters[..|adapters| - 1];
    var last := |adapters| - 1;
    if id in SeedOf(rows, pre, now) {
      i := SeedFirst(rows, pre, now, id);
      assert forall j :: 0 <= j < i ==> pre[j] == adapters[j];
    } else {
      SeedKeys(rows, pre, now, id);
      assert forall j :: 0 <= j < last ==> adapters[j].id != id by {
        forall j | 0 <= j < last ensures adapters[j].id != id {
          assert pre[j] == adapters[j];
        }
      }
      i := last;
    }
  }

  /** Seeding twice with the same adapters changes nothing the second time. */
  lemma SeedIdempotent(rows: Rows, adapters: seq<Adapter>, t1: int, t2: int)
    ensures SeedOf(SeedOf(rows, adapters, t1), adapters, t2) == SeedOf(rows, adapters, t1)
  {
    var once := SeedOf(rows, adapters, t1);
    forall id ensures id in SeedOf(once, adapters, t2) <==> id in once {
      SeedKeys(once, adapters, t2, id);
      SeedKeys(rows, adapters, t1, id);
    }
    forall id | id in once ensures SeedOf(once, adapters, t2)[id] == once[id] {
      SeedKeeps(once, adapters, t2, id);
    }
  }

  /** Seeding keeps rows keyed by their ids. */
  lemma {:induction false} SeedKeyed(rows: Rows, adapters: seq<Adapter>, now: int)
    requires RowsKeyed(rows)
    ensures RowsKeyed(SeedOf(rows, adapters, now))
    decreases |adapters|
  {
    if |adapters| > 0 {
      SeedKeyed(rows, adapters[..|adapters| - 1], now);
    }
  }

  /** UPDATE ... SET source_url, updated_at: None when no row matched. */
  function SetUrlOf(rows: Rows, id: string, url: string, now: int): (r: Option<Rows>)
    ensures r.Some? <==> id in rows
  {
    if id in rows then Some(rows[id := rows[id].(sourceUrl := url, updatedAt := now)]) else None
  }

  /** UPDATE ... SET last_check, last_status, last_error: an empty message is
      stored as NULL, and an unknown id matches no row. */
  function CheckedOf(rows: Rows, id: string, status: int, checkErr: string, now: int): Rows {
    if id in rows then
      rows[id := rows[id].(lastCheck := Some(now), lastStatus := Some(status),
                           lastError := if checkErr == "" then None else Some(checkErr))]
    else rows
  }

  /** The message GetURL fails with when no row matches. */
  function NoRow(id: string): string {
    "get url for " + id + ": sql: no rows in result set"
  }

  /** GetURL, as a value. */
  function UrlOf(rows: Rows, id: string): (r: Result<string, string>)
    ensures r.Ok? <==> id in rows
    ensures r.Ok? ==> r.value == rows[id].sourceUrl
    ensures r.Err? ==> r.error == NoRow(id)
  {
    if id in rows then Ok(rows[id].sourceUrl) else Err(NoRow(id))
  }

  /** After SetURL succeeds, GetURL returns the new URL, and every other row
      is untouched. */
  lemma SetThenGet(rows: Rows, id: string, url: string, now: int)
    requires id in rows
    ensures UrlOf(SetUrlOf(rows, id, url, now).value, id) == Ok(url)
    ensures forall other :: other != id ==> UrlOf(SetUrlOf(rows, id, url, now).value, other) == UrlOf(rows, other)
  {
  }

  /** A check touches only the check columns of its own row. */
  lemma CheckKeepsRest(rows: Rows, id: string, status: int, checkErr: string, now: int)
    requires id in rows
    ensures var after := CheckedOf(rows, id, status, checkErr, now);
            after.Keys == rows.Keys
            && after[id].lastStatus == Some(status) && after[id].lastCheck == Some(now)
            && (after[id].lastError.None? <==> checkErr == "")
            && after[id].(lastCheck := rows[id].lastCheck, lastStatus := rows[id].lastStatus,
                          lastError := rows[id].lastError) == rows[id]
            && forall other :: other in rows && other != id ==> after[other] == rows[other]
  {
  }

  /** ListSources, as a value: every row once, in ascending id order. */
  ghost function ListOf(rows: Rows): (r: seq<Source>)
    ensures |r| == |rows|
    ensures forall i :: 0 <= i < |r| ==> r[i] in rows.Values
    ensures RowsKeyed(rows) ==> forall i, j :: 0 <= i < j < |r| ==> StrLess(r[i].adapterId, r[j].adapterId)
    ensures RowsKeyed(rows) ==> forall id :: id in rows <==> exists i :: 0 <= i < |r| && r[i].adapterId == id
  {
    SortedValuesInMap(rows);
    if RowsKeyed(rows) then
      SortedValuesKeyed(rows, (s: Source) => s.adapterId);
      SortedValues(rows)
    else
      SortedValues(rows)
  }

  lemma ListOfSorted(rows: Rows)
    ensures ListOf(rows) == SortedValues(rows)
  {
  }

  /** The table behind an open database handle. */
  class SourceDB {
    var rows: Rows

    ghost predicate Valid()
      reads this
    {
      RowsKeyed(rows)
    }

    /** OpenSourceDB on a new file: the table exists and is empty. */
    constructor ()
      ensures rows == map[] && Valid()
    {
      rows := map[];
    }

    /** Seed: inserts a default row per adapter, leaving existing rows (and
        so manual URL overrides) alone. */
    method Seed(adapters: seq<Adapter>, now: int)
      requires Valid()
      modifies this
      ensures rows == SeedOf(old(rows), adapters, now)
      ensures Valid()
    {
      ghost var start := rows;
      for i := 0 to |adapters|
        invariant rows == SeedOf(start, adapters[..i], now)
      {
        assert adapters[..i + 1][..i] == adapters[..i];
        var a := adapters[i];
        if a.id !in rows {
          rows := rows[a.id := SeedRow(a, now)];
        }
      }
      assert adapters[..|adapters|] == adapters;
      SeedKeyed(start, adapters, now);
    }

    /** GetURL: the stored URL, or an error when the id has no row. */
    function GetURL(id: string): (r: Result<string, string>)
      reads this
      ensures r == UrlOf(rows, id)
    {
      if id in rows then Ok(rows[id].sourceUrl) else Err(NoRow(id))
    }

    /** SetURL: updates the URL and its timestamp; an error, and no change,
        when the id has no row. */
    method SetURL(id: string, url: string, now: int) returns (err: Option<string>)
      requires Valid()
      modifies this
      ensures err.None? <==> SetUrlOf(old(rows), id, url, now).Some?
      ensures err.None? ==> rows == SetUrlOf(old(rows), id, url, now).value
      ensures err.Some? ==> rows == old(rows) && err.value == "adapter " + id + " not found in import_sources"
      ensures Valid()
    {
      if id !in rows {
        return Some("adapter " + id + " not found in import_sources");
      }
      rows := rows[id := rows[id].(sourceUrl := url, updatedAt := now)];
      return None;
    }

    /** UpdateCheck: records a check result; an unknown id is not an error. */
    method UpdateCheck(id: string, status: int, checkErr: string, now: int) returns (err: Option<string>)
      requires Valid()
      modifies this
      ensures err.None? && rows == CheckedOf(old(rows), id, status, checkErr, now)
      ensures Valid()
    {
      var lastError: Option<string> := None;
      if checkErr != "" {
        lastError := Some(checkErr);
      }
      if id in rows {
        rows := rows[id := rows[id].(lastCheck := Some(now), lastStatus := Some(status), lastError := lastError)];
      }
      return None;
    }

    /** ListSources: the rows appended one by one in adapter_id order. */
    method ListSources() returns (sources: seq<Source>)
      ensures sources == ListOf(rows)
    {
      var ids := SortedKeys(rows);
      sources := [];
      for i := 0 to |ids|
        invariant sources == SortedValues(rows)[..i]
      {
        SortedValuesSnoc(rows, ids, i);
        sources := sources + [rows[ids[i]]];
      }
      assert sources == SortedValues(rows);
      ListOfSorted(rows);
    }
  }
}
