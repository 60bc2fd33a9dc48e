/** A JavaScript `Map` keyed by strings: its entries, and its keys in insertion
    order, which is the order `entries()` lists them in. */
module OrderedMaps {
  import opened Grouping

  datatype OrderedMap<V> = OrderedMap(keys: seq<string>, values: map<string, V>)
  {
    /** The listed keys are exactly the stored ones. */
    ghost predicate Valid()
    {
      forall k :: k in values <==> k in keys
    }

    /** `m.get(k) || fallback`, for object values (which are never falsy). */
    function GetOr(k: string, fallback: V): V
    {
      if k in values then values[k] else fallback
    }

    /** `m.set(k, v)`: a new key is listed last, an existing key keeps its place. */
    function Set(k: string, v: V): (m: OrderedMap<V>)
      requires Valid()
      ensures m.Valid()
      ensures m.keys == if k in keys then keys else keys + [k]
      ensures m.values == values[k := v]
    {
      OrderedMap(if k in keys then keys else keys + [k], values[k := v])
    }

    /** `set` never lists a key twice. */
    lemma SetKeepsDistinct(k: string, v: V)
      requires Valid() && Distinct(keys)
      ensures Distinct(Set(k, v).keys)
    {
    }
  }

  /** `new Map()`. */
  function Empty<V>(): (m: OrderedMap<V>)
    ensures m.Valid() && m.keys == []
  {
    OrderedMap([], map[])
  }
}
