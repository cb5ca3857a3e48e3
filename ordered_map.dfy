/** Python's insertion-ordered `dict`. */
module OrderedMaps {

  /** The entries of a dict and its keys in insertion order. */
  datatype OrderedMap<K(==,!new), V> = OrderedMap(keys: seq<K>, values: map<K, V>) {

    /** Every key is listed once, and exactly the keys of `values` are listed. */
    ghost predicate Valid() {
      && (forall i, j :: 0 <= i < j < |keys| ==> keys[i] != keys[j])
      && (forall k :: k in values <==> k in keys)
    }

    /** `d[k] = v`: a key already present keeps its position, a new key goes last. */
    function Put(k: K, v: V): (m: OrderedMap<K, V>)
      requires Valid()
      ensures m.Valid()
    {
      OrderedMap(if k in values then keys else keys + [k], values[k := v])
    }
  }

  function Empty<K(==,!new), V>(): (m: OrderedMap<K, V>)
    ensures m.Valid()
  {
    OrderedMap([], map[])
  }
}
