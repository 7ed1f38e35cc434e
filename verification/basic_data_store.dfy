/**
  The unbounded strong-reference store: a plain map from key to `BasicValueHolder`.
  Its meaning is the reference map `Contents`, from each key to the value its holder
  reads; the other stores are compared against it.
 */
module BasicDataStore {
  import opened Wrappers
  import opened ValueHolder

  datatype Store<K, V> = Store(cacheMap: map<K, Holder<V>>)

  /** Every holder this store creates is a basic (strong) one. */
  ghost predicate Valid<K, V>(s: Store<K, V>)
  {
    forall k | k in s.cacheMap :: s.cacheMap[k].Basic?
  }

  /** A new store maps nothing. */
  function New<K, V>(): (s: Store<K, V>)
    ensures s.cacheMap == map[] && Valid(s)
  {
    Store(map[])
  }

  /** The reference map: each key to the value its holder reads. */
  function Contents<K, V>(s: Store<K, V>): (c: map<K, Option<V>>)
    ensures c.Keys == s.cacheMap.Keys
    ensures forall k | k in c :: c[k] == Read(s.cacheMap[k])
  {
    map k | k in s.cacheMap :: Read(s.cacheMap[k])
  }

  /** `get(key)`: the mapped holder, or null; the store is not touched. */
  function Get<K, V>(s: Store<K, V>, k: K): (r: Option<Holder<V>>)
    ensures r.Some? <==> k in s.cacheMap
    ensures r.Some? ==> r.value == s.cacheMap[k] && Read(r.value) == Contents(s)[k]
  {
    if k in s.cacheMap then Some(s.cacheMap[k]) else None
  }

  /** `put(key, value)`: map `k` to a fresh basic holder of `v` (null accepted), replacing any earlier one. */
  function Put<K, V>(s: Store<K, V>, k: K, v: Option<V>): (r: Store<K, V>)
    ensures r.cacheMap.Keys == s.cacheMap.Keys + {k}
    ensures r.cacheMap[k].Basic? && Read(r.cacheMap[k]) == v
    ensures forall j | j in s.cacheMap && j != k :: r.cacheMap[j] == s.cacheMap[j]
    ensures Valid(s) ==> Valid(r)
  {
    Store(s.cacheMap[k := NewBasic(v)])
  }

  /** `remove(key)`: unmap `k` and return the holder it had, or null. */
  function Remove<K, V>(s: Store<K, V>, k: K): (r: (Store<K, V>, Option<Holder<V>>))
    ensures r.1 == Get(s, k)
    ensures r.0.cacheMap.Keys == s.cacheMap.Keys - {k}
    ensures forall j | j in r.0.cacheMap :: r.0.cacheMap[j] == s.cacheMap[j]
    ensures Valid(s) ==> Valid(r.0)
  {
    (Store(s.cacheMap - {k}), Get(s, k))
  }

  /** `clear()`: unmap every key. */
  function Clear<K, V>(s: Store<K, V>): (r: Store<K, V>)
    ensures r == New()
  {
    Store(map[])
  }

  /** `put` is the reference map update, and `get` on the key reads exactly the value put. */
  lemma PutRefinesMap<K, V>(s: Store<K, V>, k: K, v: Option<V>)
    ensures Contents(Put(s, k, v)) == Contents(s)[k := v]
    ensures Get(Put(s, k, v), k).Some? && Read(Get(Put(s, k, v), k).value) == v
  {
  }

  /** `remove` is the reference map deletion, and the key reads null afterwards. */
  lemma RemoveRefinesMap<K, V>(s: Store<K, V>, k: K)
    ensures Contents(Remove(s, k).0) == Contents(s) - {k}
    ensures Get(Remove(s, k).0, k) == None
  {
  }

  /** A second `put` on a key overwrites the first; the store is as if only the second happened. */
  lemma PutOverwrites<K, V>(s: Store<K, V>, k: K, v1: Option<V>, v2: Option<V>)
    ensures Put(Put(s, k, v1), k, v2) == Put(s, k, v2)
  {
    assert Put(Put(s, k, v1), k, v2).cacheMap == Put(s, k, v2).cacheMap;
  }

  /** `put` and `remove` on one key leave every other key's `get` unchanged. */
  lemma OthersUnchanged<K, V>(s: Store<K, V>, k: K, j: K, v: Option<V>)
    requires j != k
    ensures Get(Put(s, k, v), j) == Get(s, j)
    ensures Get(Remove(s, k).0, j) == Get(s, j)
  {
  }

  /** After `clear`, every `get` is null. */
  lemma ClearMisses<K, V>(s: Store<K, V>, k: K)
    ensures Get(Clear(s), k) == None
    ensures Contents(Clear(s)) == map[]
  {
  }
}
