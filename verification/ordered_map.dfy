/** An insertion-ordered dictionary: JavaScript's `Map`, and a plain object with string keys,
    whose `values()` / `Object.values` enumerate in first-insertion order. */
module OrderedMap {
  import opened Base

  datatype Entry<K, V> = Entry(key: K, value: V)

  /** Entries in insertion order; a well-formed map never repeats a key. */
  type OMap<K, V> = seq<Entry<K, V>>

  predicate UniqueKeys<K(==), V>(m: OMap<K, V>) {
    forall i, j :: 0 <= i < j < |m| ==> m[i].key != m[j].key
  }

  function Keys<K, V>(m: OMap<K, V>): set<K> {
    set i | 0 <= i < |m| :: m[i].key
  }

  /** The position of `k`, if present. */
  function Find<K(==), V>(m: OMap<K, V>, k: K): (r: Option<nat>)
    ensures r.None? <==> forall i :: 0 <= i < |m| ==> m[i].key != k
    ensures r.Some? ==> r.value < |m| && m[r.value].key == k
    ensures r.Some? ==> forall i :: 0 <= i < r.value ==> m[i].key != k
    decreases |m|
  {
    if |m| == 0 then None
    else if m[0].key == k then Some(0)
    else
      match Find(m[1..], k)
      case None => None
      case Some(i) => Some(i + 1)
  }

  /** `map.get(k)`. */
  function Get<K(==), V>(m: OMap<K, V>, k: K): Option<V> {
    match Find(m, k)
    case None => None
    case Some(i) => Some(m[i].value)
  }

  /** `map.set(k, v)`: replaces the value in place, or appends a new entry at the end. */
  function Put<K(==), V>(m: OMap<K, V>, k: K, v: V): (r: OMap<K, V>)
    ensures Get(r, k) == Some(v)
  {
    match Find(m, k)
    case None =>
      var r := m + [Entry(k, v)];
      assert r[|m|].key == k;
      assert forall j :: 0 <= j < |m| ==> r[j].key != k;
      assert Find(r, k) == Some(|m|);
      r
    case Some(i) =>
      var r := m[i := Entry(k, v)];
      assert r[i].key == k;
      assert forall j :: 0 <= j < i ==> r[j].key != k;
      assert Find(r, k) == Some(i);
      r
  }

  /** `Array.from(map.values())`. */
  function Values<K, V>(m: OMap<K, V>): (r: seq<V>)
    ensures |r| == |m|
  {
    seq(|m|, i requires 0 <= i < |m| => m[i].value)
  }

  /** Setting one key leaves every other key's value unchanged. */
  lemma PutOther<K, V>(m: OMap<K, V>, k: K, v: V, k2: K)
    requires UniqueKeys(m)
    requires k2 != k
    ensures Get(Put(m, k, v), k2) == Get(m, k2)
  {
    var r := Put(m, k, v);
    match Find(m, k2)
    case None =>
      assert forall i :: 0 <= i < |r| ==> r[i].key != k2;
    case Some(j) =>
      assert r[j] == m[j];
      assert Find(r, k2) == Some(j);
  }

  /** Setting a key keeps keys unique, keeps every other entry where it was, and grows the map
      only when the key was new. */
  lemma PutShape<K, V>(m: OMap<K, V>, k: K, v: V)
    requires UniqueKeys(m)
    ensures UniqueKeys(Put(m, k, v))
    ensures |Put(m, k, v)| == if Find(m, k).Some? then |m| else |m| + 1
    ensures Keys(Put(m, k, v)) == Keys(m) + {k}
  {
    var r := Put(m, k, v);
    match Find(m, k)
    case None =>
      assert r[|m|] == Entry(k, v);
      assert forall i :: 0 <= i < |m| ==> r[i] == m[i];
    case Some(i) =>
      assert forall j :: 0 <= j < |m| && j != i ==> r[j] == m[j];
      assert r[i].key == m[i].key;
  }
}
