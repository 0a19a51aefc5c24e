/**
 * A Python dict with string keys: a finite map together with the order in
 * which its keys were first inserted, which is the order .items() visits.
 */
module OrderedDict {

  datatype Dict<V> = Dict(keys: seq<string>, entries: map<string, V>) {

    /** The keys listed once each, and exactly the keys of the map. */
    ghost predicate Valid() {
      && (forall i, j :: 0 <= i < j < |keys| ==> keys[i] != keys[j])
      && (forall k :: k in entries <==> k in keys)
    }

    /**
     * `d[k] = v`: the map gains or overwrites `k`; a new key goes to the
     * end of the order and an existing key keeps its place.
     */
    function Put(k: string, v: V): (d: Dict<V>)
      ensures d.entries == entries[k := v]
      ensures keys <= d.keys
      ensures |d.keys| == if k in entries then |keys| else |keys| + 1
      ensures k !in entries ==> d.keys[|keys|] == k
      ensures Valid() ==> d.Valid()
    {
      if k in entries then Dict(keys, entries[k := v]) else Dict(keys + [k], entries[k := v])
    }
  }

  function Empty<V>(): (d: Dict<V>)
    ensures d.Valid() && d.keys == [] && d.entries == map[]
  {
    Dict([], map[])
  }
}
