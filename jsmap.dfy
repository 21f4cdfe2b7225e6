/** A JavaScript `Map` as the weather service uses it: `get`, `set`, and
    iteration in the order in which keys were first set. */
module JsMap {
  import opened Wrappers
  import Sequences

  datatype OrderedMap<K(==, !new), V> = OrderedMap(keys: seq<K>, entries: map<K, V>)
  {
    /** `keys` lists every key of `entries` once, in insertion order. */
    ghost predicate Valid() {
      (forall k :: k in entries <==> k in keys) && Sequences.Distinct(keys)
    }

    function Get(k: K): (r: Option<V>)
      ensures r.Some? <==> k in entries
      ensures r.Some? ==> r.value == entries[k]
    {
      if k in entries then Some(entries[k]) else None
    }

    /** `map.set(k, v)`: a new key goes to the end of the iteration order, an
        existing key keeps its place and gets the new value. */
    function Set(k: K, v: V): (m: OrderedMap<K, V>)
      requires Valid()
      ensures m.Valid()
      ensures m.keys == if k in entries then keys else keys + [k]
      ensures m.entries == entries[k := v]
    {
      OrderedMap(if k in entries then keys else keys + [k], entries[k := v])
    }
  }

  /** `new Map()` */
  function Empty<K(==, !new), V>(): (m: OrderedMap<K, V>)
    ensures m.Valid() && m.keys == [] && m.entries == map[]
  {
    OrderedMap([], map[])
  }
}
