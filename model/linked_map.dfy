/** java.util.LinkedHashMap as a value: the keys in insertion order plus the
    key-to-value map. `put` on a key already present replaces the value and
    keeps the key's original position; a new key goes to the end. */
module LinkedMaps {
  import opened Common

  datatype LinkedMap<K(==,!new), V> = LinkedMap(keys: seq<K>, entries: map<K, V>) {

    /** Every key once, and exactly the keys of the map. */
    predicate Valid() {
      Distinct(keys) && (forall k :: k in keys ==> k in entries) && (forall k :: k in entries ==> k in keys)
    }

    function Size(): nat { |keys| }

    /** `get`: the value, or null when the key is absent. */
    function Get(k: K): (r: Option<V>)
      ensures r.Some? <==> k in entries
      ensures r.Some? ==> r.value == entries[k]
    {
      if k in entries then Some(entries[k]) else None
    }

    /** `put`: insertion order is kept, an existing key keeps its place. */
    function Put(k: K, v: V): (r: LinkedMap<K, V>)
      requires Valid()
      ensures r.Valid()
      ensures r.Get(k) == Some(v)
      ensures forall k' :: k' != k ==> r.Get(k') == Get(k')
      ensures keys <= r.keys
      ensures k in entries ==> r.keys == keys
      ensures k !in entries ==> r.keys == keys + [k]
    {
      if k in entries then LinkedMap(keys, entries[k := v])
      else LinkedMap(keys + [k], entries[k := v])
    }

    /** `merge(k, v, (old, new) -> old)`: a key already present keeps its value. */
    function PutIfAbsent(k: K, v: V): (r: LinkedMap<K, V>)
      requires Valid()
      ensures r.Valid()
      ensures k in entries ==> r == this
      ensures k !in entries ==> r == Put(k, v)
    {
      if k in entries then this else Put(k, v)
    }

    /** `values()`, in key order. */
    function Values(): (r: seq<V>)
      requires Valid()
      ensures |r| == |keys|
      ensures forall i :: 0 <= i < |keys| ==> r[i] == entries[keys[i]]
    {
      ValuesOf(keys, entries)
    }
  }

  /** The values stored under `ks`, in order. */
  function ValuesOf<K(==,!new), V>(ks: seq<K>, m: map<K, V>): (r: seq<V>)
    requires forall k :: k in ks ==> k in m
    ensures |r| == |ks|
    ensures forall i :: 0 <= i < |ks| ==> r[i] == m[ks[i]]
  {
    if ks == [] then [] else [m[ks[0]]] + ValuesOf(ks[1..], m)
  }

  function Empty<K(==,!new), V>(): (r: LinkedMap<K, V>)
    ensures r.Valid() && r.keys == [] && r.entries == map[]
  {
    LinkedMap([], map[])
  }
}
