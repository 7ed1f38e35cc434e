/**
  The weak-reference store: the same map as the basic store, but each value sits in a
  `WeakRefValueHolder`. The collector is an environment step (`Reclaim`) that clears one
  holder's referent and never touches the map. The store stays an approximation of the
  basic store that saw the same operations: same keys, and each key reads the basic
  value or null.
 */
module WeakRefDataStore {
  import opened Wrappers
  import opened ValueHolder
  import BasicDataStore

  datatype Store<K, V> = Store(cacheMap: map<K, Holder<V>>)

  /** Every holder this store creates is a weak one. */
  ghost predicate Valid<K, V>(s: Store<K, V>)
  {
    forall k | k in s.cacheMap :: s.cacheMap[k].WeakRef?
  }

  /** A new store maps nothing. */
  function New<K, V>(): (s: Store<K, V>)
    ensures s.cacheMap == map[] && Valid(s)
  {
    Store(map[])
  }

  /** `get(key)`: the mapped holder, or null; a reclaimed key still yields its (now empty) holder. */
  function Get<K, V>(s: Store<K, V>, k: K): (r: Option<Holder<V>>)
    ensures r.Some? <==> k in s.cacheMap
    ensures r.Some? ==> r.value == s.cacheMap[k]
  {
    if k in s.cacheMap then Some(s.cacheMap[k]) else None
  }

  /** `put(key, value)`: map `k` to a fresh weak holder of `v`, which reads `v` until reclaimed. */
  function Put<K, V>(s: Store<K, V>, k: K, v: Option<V>): (r: Store<K, V>)
    ensures r.cacheMap.Keys == s.cacheMap.Keys + {k}
    ensures r.cacheMap[k].WeakRef? && Read(r.cacheMap[k]) == v
    ensures v == None <==> r.cacheMap[k].reference == None
    ensures forall j | j in s.cacheMap && j != k :: r.cacheMap[j] == s.cacheMap[j]
    ensures Valid(s) ==> Valid(r)
  {
    Store(s.cacheMap[k := NewWeak(v)])
  }

  /** `remove(key)` as the source writes it: a lookup that returns the mapped holder and deletes nothing. */
  function RemoveAsWritten<K, V>(s: Store<K, V>, k: K): (r: (Store<K, V>, Option<Holder<V>>))
    ensures r.1.Some? <==> k in s.cacheMap
    ensures r.1.Some? ==> r.1.value == s.cacheMap[k]
    ensures r.0.cacheMap == s.cacheMap
  {
    (s, Get(s, k))
  }

  /** `remove(key)` as the `DataStore` contract intends: unmap `k` and return the holder it had. */
  function Remove<K, V>(s: Store<K, V>, k: K): (r: (Store<K, V>, Option<Holder<V>>))
    ensures r.1.Some? <==> k in s.cacheMap
    ensures r.1.Some? ==> r.1.value == s.cacheMap[k]
    ensures r.0.cacheMap.Keys == s.cacheMap.Keys - {k}
    ensures forall j | j in r.0.cacheMap :: r.0.cacheMap[j] == s.cacheMap[j]
    ensures Valid(s) ==> Valid(r.0)
  {
    (Store(s.cacheMap - {k}), Get(s, k))
  }

  /** `clear()`: unmap every key. */
  function Clear<K, V>(s: Store<K, V>): (r: Store<K, V>)
    ensures r == New()
  {
    Store(map[])
  }

  /**
    The collector clears the referent of the holder mapped at `k`, if any. Which key it
    picks is the environment's choice; the map and every other holder stay as they were.
   */
  function Reclaim<K, V>(s: Store<K, V>, k: K): (r: Store<K, V>)
    ensures r.cacheMap.Keys == s.cacheMap.Keys
    ensures forall j | j in s.cacheMap && j != k :: r.cacheMap[j] == s.cacheMap[j]
    ensures k in s.cacheMap && s.cacheMap[k].WeakRef? ==> Read(r.cacheMap[k]) == None
    ensures k in s.cacheMap ==> Read(r.cacheMap[k]) in {Read(s.cacheMap[k]), None}
    ensures Valid(s) ==> Valid(r)
  {
    if k in s.cacheMap then Store(s.cacheMap[k := ValueHolder.Reclaim(s.cacheMap[k])]) else s
  }

  /** The collector running over the keys in `ks`, one after another. */
  function ReclaimAll<K, V>(s: Store<K, V>, ks: seq<K>): Store<K, V>
    decreases |ks|
  {
    if |ks| == 0 then s else ReclaimAll(Reclaim(s, ks[0]), ks[1..])
  }

  /**
    The weak store `w` approximates the basic store `b`: both map the same keys, every
    holder of `w` is weak, and each key reads in `w` either what it reads in `b` or null;
    a key whose basic value is null reads null.
   */
  ghost predicate Approximates<K, V>(w: Store<K, V>, b: BasicDataStore.Store<K, V>)
  {
    && Valid(w)
    && w.cacheMap.Keys == b.cacheMap.Keys
    && (forall k | k in w.cacheMap ::
          Read(w.cacheMap[k]) == Read(b.cacheMap[k]) || Read(w.cacheMap[k]) == None)
  }

  /** Two new stores approximate each other, and every operation keeps the approximation. */
  lemma OperationsApproximate<K, V>(w: Store<K, V>, b: BasicDataStore.Store<K, V>, k: K, v: Option<V>)
    requires Approximates(w, b)
    ensures Approximates(New<K, V>(), BasicDataStore.New<K, V>())
    ensures Approximates(Put(w, k, v), BasicDataStore.Put(b, k, v))
    ensures Approximates(Remove(w, k).0, BasicDataStore.Remove(b, k).0)
    ensures Approximates(Clear(w), BasicDataStore.Clear(b))
    ensures Approximates(Reclaim(w, k), b)
    ensures Get(w, k).Some? == BasicDataStore.Get(b, k).Some?
  {
  }

  /**
    Any amount of collection keeps the approximation: the mapping survives, and every key
    reads its basic value or null, never any other value.
   */
  lemma {:induction false} ReclaimAllApproximates<K, V>(w: Store<K, V>, b: BasicDataStore.Store<K, V>, ks: seq<K>)
    requires Approximates(w, b)
    ensures Approximates(ReclaimAll(w, ks), b)
    ensures ReclaimAll(w, ks).cacheMap.Keys == w.cacheMap.Keys
    decreases |ks|
  {
    if |ks| > 0 {
      OperationsApproximate(w, b, ks[0], None);
      ReclaimAllApproximates(Reclaim(w, ks[0]), b, ks[1..]);
    }
  }

  /**
    Any amount of collection leaves a weak holder's key mapped, reading what it read
    before or null.
   */
  lemma {:induction false} ReclaimAllReads<K, V>(s: Store<K, V>, k: K, ks: seq<K>)
    requires k in s.cacheMap && s.cacheMap[k].WeakRef?
    ensures k in ReclaimAll(s, ks).cacheMap
    ensures Read(ReclaimAll(s, ks).cacheMap[k]) in {Read(s.cacheMap[k]), None}
    decreases |ks|
  {
    if |ks| > 0 {
      var w := Reclaim(s, ks[0]);
      if ks[0] == k {
        StaysNull(w, k, ks[1..]);
      } else {
        ReclaimAllReads(w, k, ks[1..]);
      }
    }
  }

  /**
    After `put(k, v)` and any collection, `get(k)` still returns a holder (the key stays
    mapped), and that holder reads `v` or null; for a null `v` it reads null.
   */
  lemma PutThenReclaims<K, V>(s: Store<K, V>, k: K, v: Option<V>, ks: seq<K>)
    ensures Get(ReclaimAll(Put(s, k, v), ks), k).Some?
    ensures Read(Get(ReclaimAll(Put(s, k, v), ks), k).value) in {v, None}
    ensures v == None ==> Read(Get(ReclaimAll(Put(s, k, v), ks), k).value) == None
  {
    ReclaimAllReads(Put(s, k, v), k, ks);
  }

  /** Once a key reads null, further collection keeps it mapped and null. */
  lemma {:induction false} StaysNull<K, V>(s: Store<K, V>, k: K, ks: seq<K>)
    requires k in s.cacheMap && Read(s.cacheMap[k]) == None
    ensures k in ReclaimAll(s, ks).cacheMap && Read(ReclaimAll(s, ks).cacheMap[k]) == None
    decreases |ks|
  {
    if |ks| > 0 {
      StaysNull(Reclaim(s, ks[0]), k, ks[1..]);
    }
  }

  /** The source's `remove` deletes nothing: afterwards `get` still finds the holder it returned. */
  lemma RemoveAsWrittenKeeps<K, V>(s: Store<K, V>, k: K)
    ensures Get(RemoveAsWritten(s, k).0, k) == RemoveAsWritten(s, k).1
    ensures k in s.cacheMap ==> Get(RemoveAsWritten(s, k).0, k).Some?
  {
  }

  /**
    The source's `remove` breaks the approximation of the basic store: on a mapped key
    the basic store forgets it and the weak store does not. The corrected `Remove` keeps
    it (`OperationsApproximate`), and afterwards `get` is null.
   */
  lemma RemoveAsWrittenDiverges<K, V>(w: Store<K, V>, b: BasicDataStore.Store<K, V>, k: K)
    requires Approximates(w, b) && k in w.cacheMap
    ensures !Approximates(RemoveAsWritten(w, k).0, BasicDataStore.Remove(b, k).0)
    ensures Get(RemoveAsWritten(w, k).0, k).Some?
    ensures Get(Remove(w, k).0, k) == None
  {
  }

  /** After `clear`, every `get` is null. */
  lemma ClearMisses<K, V>(s: Store<K, V>, k: K)
    ensures Get(Clear(s), k) == None
  {
  }
}
