/** A JavaScript `Map` with string keys: a finite map together with the sequence of
    its keys in insertion order, which is the order `keys()`, `values()` and
    `entries()` iterate in. */
module OrderedMap {

  datatype OMap<V> = OMap(keys: seq<string>, entries: map<string, V>)
  {
    /** Every key occurs once in `keys`, and `keys` lists exactly the mapped keys. */
    predicate Valid()
    {
      && (forall i, j :: 0 <= i < j < |keys| ==> keys[i] != keys[j])
      && entries.Keys == set k | k in keys
    }

    /** `map.has(k)` */
    predicate Has(k: string)
    {
      k in entries
    }

    /** `map.set(k, v)`: a new key goes to the end, an existing key keeps its place. */
    function Set(k: string, v: V): (r: OMap<V>)
      ensures r.entries == entries[k := v]
      ensures r.keys == if k in entries then keys else keys + [k]
    {
      if k in entries then OMap(keys, entries[k := v]) else OMap(keys + [k], entries[k := v])
    }

    /** `Array.from(map.values())`: the values in insertion order of their keys. */
    function Values(): (r: seq<V>)
      requires Valid()
      ensures |r| == |keys|
      ensures forall i :: 0 <= i < |keys| ==> r[i] == entries[keys[i]]
    {
      seq(|keys|, i requires 0 <= i < |keys| => entries[keys[i]])
    }
  }

  /** `map.set` keeps a map well formed. */
  lemma SetValid<V>(m: OMap<V>, k: string, v: V)
    requires m.Valid()
    ensures m.Set(k, v).Valid()
  {
  }

  /** Setting a key twice leaves only the second value, at the key's first place. */
  lemma SetTwice<V>(m: OMap<V>, k: string, v1: V, v2: V)
    ensures m.Set(k, v1).Set(k, v2) == m.Set(k, v2)
  {
    assert m.entries[k := v1][k := v2] == m.entries[k := v2];
  }

  /** `new Map()` */
  function Empty<V>(): (r: OMap<V>)
    ensures r.Valid() && r.keys == [] && r.entries == map[]
  {
    OMap([], map[])
  }
}
