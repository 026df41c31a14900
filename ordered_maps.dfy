/**
 * A Python dict: a finite map that remembers the order in which its keys
 * were first inserted. Assigning to a key that is already present changes
 * its value and leaves its position alone.
 */
module OrderedMaps {

  datatype OrderedMap<K, V> = OrderedMap(keys: seq<K>, entries: map<K, V>)

  /** No element occurs twice. */
  ghost predicate NoDuplicates<T>(s: seq<T>) {
    forall i, j :: 0 <= i < j < |s| ==> s[i] != s[j]
  }

  /** The key sequence lists each key of the map exactly once. */
  ghost predicate Valid<K, V>(d: OrderedMap<K, V>) {
    NoDuplicates(d.keys) &&
    (forall k :: k in d.keys ==> k in d.entries) &&
    (forall k :: k in d.entries ==> k in d.keys)
  }

  function Empty<K, V>(): (d: OrderedMap<K, V>)
    ensures Valid(d) && d.keys == [] && d.entries == map[]
  {
    OrderedMap([], map[])
  }

  /** `d[k] = v`: a new key goes to the end, an existing key keeps its place. */
  function Put<K, V>(d: OrderedMap<K, V>, k: K, v: V): (d': OrderedMap<K, V>)
    ensures Valid(d) ==> Valid(d')
    ensures d'.entries == d.entries[k := v]
    ensures k in d.entries ==> d'.keys == d.keys
    ensures k !in d.entries ==> d'.keys == d.keys + [k]
  {
    if k in d.entries then OrderedMap(d.keys, d.entries[k := v])
    else OrderedMap(d.keys + [k], d.entries[k := v])
  }

  /**
   * `d.items()`: every key of `d` exactly once, in insertion order, each
   * with its value.
   */
  function Items<K, V>(d: OrderedMap<K, V>): (s: seq<(K, V)>)
    requires Valid(d)
    ensures |s| == |d.keys|
    ensures forall i :: 0 <= i < |s| ==> s[i].0 == d.keys[i]
    ensures forall k :: k in d.entries ==> exists i :: 0 <= i < |s| && s[i].0 == k
    ensures forall i, j :: 0 <= i < j < |s| ==> s[i].0 != s[j].0
    ensures forall i :: 0 <= i < |s| ==> s[i].0 in d.entries && s[i].1 == d.entries[s[i].0]
  {
    var s := seq(|d.keys|, i requires 0 <= i < |d.keys| => (d.keys[i], d.entries[d.keys[i]]));
    assert forall k :: k in d.entries ==> exists i :: 0 <= i < |s| && s[i].0 == k by {
      forall k | k in d.entries
        ensures exists i :: 0 <= i < |s| && s[i].0 == k
      {
        var i :| 0 <= i < |d.keys| && d.keys[i] == k;
        assert s[i].0 == k;
      }
    }
    s
  }

  /** Assigning twice to the same key is assigning once, with the second value. */
  lemma PutPut<K, V>(d: OrderedMap<K, V>, k: K, v: V, w: V)
    ensures Put(Put(d, k, v), k, w) == Put(d, k, w)
  {
  }
}
