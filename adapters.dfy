/** The import-source registry (pkg/importer/adapter.go): adapters stored by
    their id, looked up by id, and listed in id order. */
module Adapters {
  import opened Wrappers
  import opened Order

  /** What the registry knows of an adapter: its descriptive methods. The
      Import method, which downloads and converts, is outside this model. */
  datatype Adapter = Adapter(id: string, dictId: string, description: string, defaultUrl: string, license: string)

  /** Every adapter is stored under its own id. */
  ghost predicate KeyedById(adapters: map<string, Adapter>) {
    forall id :: id in adapters ==> adapters[id].id == id
  }

  /** All, as a value: the stored adapters in ascending id order. */
  ghost function AllOf(adapters: map<string, Adapter>): (r: seq<Adapter>)
    ensures |r| == |adapters|
    ensures forall i :: 0 <= i < |r| ==> r[i] in adapters.Values
    ensures KeyedById(adapters) ==> forall i, j :: 0 <= i < j < |r| ==> StrLess(r[i].id, r[j].id)
    ensures KeyedById(adapters) ==> forall id :: id in adapters <==> exists i :: 0 <= i < |r| && r[i].id == id
  {
    SortedValuesInMap(adapters);
    if KeyedById(adapters) then
      SortedValuesKeyed(adapters, (a: Adapter) => a.id);
      SortedValues(adapters)
    else
      SortedValues(adapters)
  }

  lemma AllOfSorted(adapters: map<string, Adapter>)
    ensures AllOf(adapters) == SortedValues(adapters)
  {
  }

  /** The message Get fails with: the id in double quotes. */
  function UnknownSource(id: string): string {
    "unknown import source: \"" + id + "\""
  }

  /** The process-wide adapter table. The lock guarding it in the source is
      left out; every operation here is atomic. */
  class AdapterRegistry {
    var adapters: map<string, Adapter>

    ghost predicate Valid()
      reads this
    {
      KeyedById(adapters)
    }

    constructor ()
      ensures adapters == map[] && Valid()
    {
      adapters := map[];
    }

    /** Register: stores the adapter under its id, replacing an adapter
        already registered with that id. */
    method Register(a: Adapter)
      requires Valid()
      modifies this
      ensures adapters == old(adapters)[a.id := a]
      ensures Valid()
    {
      adapters := adapters[a.id := a];
    }

    /** Get: the adapter registered under id, or an error naming the id. */
    function Get(id: string): (r: Result<Adapter, string>)
      reads this
      ensures r.Ok? <==> id in adapters
      ensures r.Ok? ==> r.value == adapters[id]
      ensures r.Err? ==> r.error == UnknownSource(id)
    {
      if id in adapters then Ok(adapters[id]) else Err(UnknownSource(id))
    }

    /** All: the registered adapters collected and sorted by id. */
    method All() returns (r: seq<Adapter>)
      ensures r == AllOf(adapters)
    {
      var ids := SortedKeys(adapters);
      r := [];
      for i := 0 to |ids|
        invariant r == SortedValues(adapters)[..i]
      {
        SortedValuesSnoc(adapters, ids, i);
        r := r + [adapters[ids[i]]];
      }
      assert r == SortedValues(adapters);
      AllOfSorted(adapters);
    }
  }

  /** After registering, All lists the new adapter. */
  lemma RegisterThenAllLists(adapters: map<string, Adapter>, a: Adapter)
    requires KeyedById(adapters)
    ensures var after := AllOf(adapters[a.id := a]);
            exists i :: 0 <= i < |after| && after[i] == a
  {
    var m := adapters[a.id := a];
    assert KeyedById(m);
    var after := AllOf(m);
    assert a.id in m;
    var i :| 0 <= i < |after| && after[i].id == a.id;
    assert after[i] in m.Values;
    var k :| k in m && m[k] == after[i];
    assert k == a.id;
  }

  /** Registering a new id lengthens All by one; re-registering an id
      leaves its length alone. */
  lemma RegisterThenAllLength(adapters: map<string, Adapter>, a: Adapter)
    ensures |AllOf(adapters[a.id := a])| == if a.id in adapters then |adapters| else |adapters| + 1
  {
    var m := adapters[a.id := a];
    if a.id !in adapters {
      assert m.Keys == adapters.Keys + {a.id};
    } else {
      assert m.Keys == adapters.Keys;
    }
  }
}
