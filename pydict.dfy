/**
 * A Python `dict`: a key/value map together with the order in which keys were
 * first inserted. Assigning to an existing key keeps its position, a new key
 * goes to the end, and `del` removes the key from the order.
 */
module PyDict {

  datatype Dict<K, V> = Dict(keys: seq<K>, entries: map<K, V>)

  predicate Distinct<K(==,!new)>(s: seq<K>) {
    forall i, j :: 0 <= i < j < |s| ==> s[i] != s[j]
  }

  /** The order lists every key exactly once. */
  ghost predicate Valid<K(!new), V>(d: Dict<K, V>) {
    Distinct(d.keys) && (forall k :: k in d.entries <==> k in d.keys)
  }

  type PDict<K(==,!new), V> = d: Dict<K, V> | Valid(d) witness Dict([], map[])

  function Empty<K(==,!new), V>(): (r: PDict<K, V>)
    ensures r.keys == [] && r.entries == map[]
  {
    Dict([], map[])
  }

  /** `d[k] = v` */
  function Set<K(==,!new), V>(d: PDict<K, V>, k: K, v: V): (r: PDict<K, V>)
    ensures r.entries == d.entries[k := v]
    ensures |r.keys| == if k in d.entries then |d.keys| else |d.keys| + 1
  {
    if k in d.entries then Dict(d.keys, d.entries[k := v])
    else
      var r := Dict(d.keys + [k], d.entries[k := v]);
      assert forall i :: 0 <= i < |d.keys| ==> d.keys[i] in d.entries;
      r
  }

  /** `d[k] = v` keeps the key order, appending a new key at the end. */
  lemma SetKeys<K(!new), V>(d: PDict<K, V>, k: K, v: V)
    ensures k in d.entries ==> Set(d, k, v).keys == d.keys
    ensures k !in d.entries ==> Set(d, k, v).keys == d.keys + [k]
  {
  }

  /** The keys of `s` other than `k`, in their order. */
  function Without<K(==,!new)>(s: seq<K>, k: K): (r: seq<K>)
    ensures forall x :: x in r <==> x in s && x != k
    ensures Distinct(s) ==> Distinct(r)
    ensures |r| <= |s|
  {
    if s == [] then []
    else if s[|s| - 1] == k then Without(s[..|s| - 1], k)
    else
      var r := Without(s[..|s| - 1], k) + [s[|s| - 1]];
      assert forall x :: x in s[..|s| - 1] ==> x in s;
      assert Distinct(s) ==> s[|s| - 1] !in s[..|s| - 1];
      r
  }

  /** `del d[k]` (only called for a key that is present; harmless otherwise). */
  function Remove<K(==,!new), V>(d: PDict<K, V>, k: K): (r: PDict<K, V>)
    ensures r.entries == map x | x in d.entries && x != k :: d.entries[x]
    ensures r.keys == Without(d.keys, k)
  {
    Dict(Without(d.keys, k), map x | x in d.entries && x != k :: d.entries[x])
  }

  /** `list(d.values())`, in key order. */
  function Values<K(==,!new), V>(d: PDict<K, V>): (r: seq<V>)
    ensures |r| == |d.keys|
    ensures forall i :: 0 <= i < |d.keys| ==> r[i] == d.entries[d.keys[i]]
  {
    seq(|d.keys|, i requires 0 <= i < |d.keys| => d.entries[d.keys[i]])
  }
}
