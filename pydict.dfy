/**
 * Python's dict keeps its keys in insertion order, and the scanner depends on
 * that order: the linker walks a file's scopes in the order they were first
 * seen, and a later edge write overwrites an earlier one. A `Dict` is a map
 * together with the order in which its keys were first inserted.
 */
module PyDict {
  import opened Seqs

  datatype Dict<K(==, !new), V> = Dict(keys: seq<K>, items: map<K, V>) {

    /** The key order lists every key of the map exactly once. */
    ghost predicate Valid() {
      && Distinct(keys)
      && (forall k :: k in items <==> k in keys)
    }

    /** `d[k] = v`: a new key goes to the end, an existing key keeps its place. */
    function Put(k: K, v: V): (d: Dict<K, V>)
      ensures Valid() ==> d.Valid()
      ensures d.items == items[k := v]
      ensures k in items ==> d.keys == keys
      ensures k !in items ==> d.keys == keys + [k]
    {
      if k in items then Dict(keys, items[k := v]) else Dict(keys + [k], items[k := v])
    }

    /** `d.setdefault(k, v)`: only inserts when the key is absent. */
    function SetDefault(k: K, v: V): (d: Dict<K, V>)
      ensures Valid() ==> d.Valid()
      ensures k in d.items && (k in items ==> d == this)
      ensures k !in items ==> d == Put(k, v)
    {
      if k in items then this else Put(k, v)
    }

    function Size(): nat {
      |keys|
    }
  }

  function Empty<K(==, !new), V>(): (d: Dict<K, V>)
    ensures d.Valid() && d.keys == [] && d.items == map[]
  {
    Dict([], map[])
  }
}
