/** Python's `dict`: a finite map that also remembers the order in which its keys were first inserted. */
module PyDict {

  datatype Dict<K, V> = Dict(keys: seq<K>, at: map<K, V>) {

    /** Every key of the map occurs exactly once in the order. */
    ghost predicate Valid() {
      && (forall k | k in keys :: k in at)
      && (forall k | k in at :: k in keys)
      && (forall i, j :: 0 <= i < j < |keys| ==> keys[i] != keys[j])
    }
  }

  function Empty<K, V>(): (d: Dict<K, V>)
    ensures d.Valid()
  {
    Dict([], map[])
  }

  /** `d[k] = v`: a new key goes to the end, an existing key keeps its place. */
  function Put<K(==), V>(d: Dict<K, V>, k: K, v: V): (r: Dict<K, V>)
    ensures r.at == d.at[k := v]
    ensures d.keys <= r.keys
  {
    Dict(if k in d.at then d.keys else d.keys + [k], d.at[k := v])
  }

  lemma PutValid<K, V>(d: Dict<K, V>, k: K, v: V)
    requires d.Valid()
    ensures Put(d, k, v).Valid()
  {
    var r := Put(d, k, v);
    forall x | x in r.at
      ensures x in r.keys
    {
      if x == k && k !in d.at {
        assert r.keys[|d.keys|] == k;
      } else {
        assert x in d.keys;
      }
    }
  }

  /** `d.get(k)` with a default. */
  function GetOr<K(==), V>(d: Dict<K, V>, k: K, default: V): V {
    if k in d.at then d.at[k] else default
  }
}
