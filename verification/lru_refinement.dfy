/**
  The linked LRU store refines the abstract one: reading the list off the links gives the
  abstract recency order, and every pointer operation moves the abstract state exactly as
  the abstract operation does. The properties proved in `LruSpec` therefore hold of the
  linked store, and the link invariant (`Linked`) is preserved by every operation.
 */
module LruRefinement {
  import opened Wrappers
  import opened ValueHolder
  import opened Recency
  import LruSpec
  import opened LruDataStore

  /** The abstract store a linked store stands for: the list read off its links, its holders, its counters. */
  function Abs<K, V>(s: Store<K, V>): (a: LruSpec.Lru<K, V>)
    ensures a.holders.Keys == s.cacheMap.Keys && a.size == s.size && a.capacity == s.capacity
  {
    LruSpec.Lru(Traverse(s), Holders(s.cacheMap), s.size, s.capacity)
  }

  /** A linked store is valid when its links are consistent and the abstract store is valid. */
  ghost predicate Valid<K, V>(s: Store<K, V>)
  {
    Linked(s) && LruSpec.Valid(Abs(s))
  }

  /** The abstract view of a `put` outcome. */
  function AbsResult<K, V>(r: Result<Store<K, V>, Fault>): Result<LruSpec.Lru<K, V>, Fault>
  {
    match r
    case Success(s) => Success(Abs(s))
    case Failure(e) => Failure(e)
  }

  /** Consistent links make the abstract store well formed. */
  lemma LinkedWellFormed<K, V>(s: Store<K, V>)
    requires Linked(s)
    ensures LruSpec.WellFormed(Abs(s))
  {
  }

  /** Holders are read through the map only, so relinking never changes them. */
  lemma SameHolders<K, V>(m: map<K, Entry<K, V>>, m': map<K, Entry<K, V>>)
    requires SameNodes(m, m')
    ensures Holders(m') == Holders(m)
  {
  }

  /** A new store stands for the abstract empty store and its links are consistent. */
  lemma NewRefines<K, V>(capacity: int)
    ensures Linked(New<K, V>(capacity))
    ensures Abs(New<K, V>(capacity)) == LruSpec.Empty(capacity)
    ensures capacity >= 0 ==> Valid(New<K, V>(capacity))
  {
    TraverseThreads(New<K, V>(capacity), []);
  }

  /** `get` refines the abstract `get`: same answer, promoted order, consistent links. */
  lemma GetRefines<K, V>(s: Store<K, V>, k: K)
    requires Linked(s)
    ensures Linked(Get(s, k).0)
    ensures Abs(Get(s, k).0) == LruSpec.Get(Abs(s), k).0
    ensures Get(s, k).1 == LruSpec.Get(Abs(s), k).1
  {
    if k in s.cacheMap {
      var o := Traverse(s);
      var r := MoveToFirst(s, k);
      MoveToFirstThreads(s, o, k);
      TraverseThreads(r, Promote(o, k));
      SameHolders(s.cacheMap, r.cacheMap);
    }
  }

  /** `put` refines the abstract `put`: it faults in the same case, and otherwise lands in the abstract result. */
  lemma PutRefines<K, V>(s: Store<K, V>, k: K, v: Option<V>)
    requires Linked(s)
    ensures AbsResult(Put(s, k, v)) == LruSpec.Put(Abs(s), k, v)
    ensures Put(s, k, v).Success? ==> Linked(Put(s, k, v).value)
  {
    if k in s.cacheMap {
      PutUpdateRefines(s, k, v);
    } else if s.size < s.capacity {
      PutInsertRefines(s, k, v);
    } else if s.last.Some? {
      PutEvictRefines(s, k, v);
    } else {
      assert Traverse(s) == [] by {
        LinksConsistent(s, Traverse(s));
      }
    }
  }

  /** The holders after `k` is mapped to a node holding `h`. */
  lemma HoldersInsert<K, V>(m: map<K, Entry<K, V>>, m': map<K, Entry<K, V>>, k: K, h: Holder<V>)
    requires m'.Keys == m.Keys + {k} && m'[k].holder == h
    requires forall j | j in m' && j != k :: m'[j].holder == m[j].holder
    ensures Holders(m') == Holders(m)[k := h]
  {
  }

  /** The holders after unmapping `k`. */
  lemma HoldersRemove<K, V>(m: map<K, Entry<K, V>>, m': map<K, Entry<K, V>>, k: K)
    requires m'.Keys == m.Keys - {k}
    requires forall j | j in m' :: m'[j].holder == m[j].holder
    ensures Holders(m') == Holders(m) - {k}
  {
  }

  lemma PutUpdateRefines<K, V>(s: Store<K, V>, k: K, v: Option<V>)
    requires Linked(s) && k in s.cacheMap
    ensures Put(s, k, v).Success? && LruSpec.Put(Abs(s), k, v).Success?
    ensures Linked(Put(s, k, v).value)
    ensures Abs(Put(s, k, v).value) == LruSpec.Put(Abs(s), k, v).value
  {
    var o := Traverse(s);
    var h := NewBasic(v);
    var s1 := s.(cacheMap := s.cacheMap[k := s.cacheMap[k].(holder := h)]);
    UpdateThreads(s, o, k, h);
    MoveToFirstThreads(s1, o, k);
    var r := MoveToFirst(s1, k);
    assert Put(s, k, v) == Success(r);
    TraverseThreads(r, Promote(o, k));
    SameHolders(s1.cacheMap, r.cacheMap);
    HoldersInsert(s.cacheMap, s1.cacheMap, k, h);
  }

  /** Linking a fresh node at the head stands for prepending its key and mapping its holder. */
  lemma LinkNewRefines<K, V>(s: Store<K, V>, o: seq<K>, k: K, v: Option<V>)
    requires Threads(s, o) && k !in s.cacheMap
    ensures Linked(LinkNew(s, k, v))
    ensures Abs(LinkNew(s, k, v)) == LruSpec.Lru([k] + o, Holders(s.cacheMap)[k := NewBasic(v)], s.size + 1, s.capacity)
  {
    var r := LinkNew(s, k, v);
    InsertThreads(s, o, k, v);
    TraverseThreads(r, [k] + o);
    HoldersInsert(s.cacheMap, r.cacheMap, k, NewBasic(v));
  }

  lemma PutInsertRefines<K, V>(s: Store<K, V>, k: K, v: Option<V>)
    requires Linked(s) && k !in s.cacheMap && s.size < s.capacity
    ensures Put(s, k, v).Success? && LruSpec.Put(Abs(s), k, v).Success?
    ensures Linked(Put(s, k, v).value)
    ensures Abs(Put(s, k, v).value) == LruSpec.Put(Abs(s), k, v).value
  {
    assert Put(s, k, v) == Success(LinkNew(s, k, v));
    LinkNewRefines(s, Traverse(s), k, v);
  }

  lemma PutEvictRefines<K, V>(s: Store<K, V>, k: K, v: Option<V>)
    requires Linked(s) && k !in s.cacheMap && s.size >= s.capacity && s.last.Some?
    ensures Put(s, k, v).Success? && LruSpec.Put(Abs(s), k, v).Success?
    ensures Linked(Put(s, k, v).value)
    ensures Abs(Put(s, k, v).value) == LruSpec.Put(Abs(s), k, v).value
  {
    var o := Traverse(s);
    assert |o| > 0;
    EvictLinks(s, o, k, v);
    PutInsertShape(s, k, v);
    LruSpec.PutEvictShape(Abs(s), k, v);
  }

  /** Evicting the tail node and linking a fresh one at the head: the order loses its tail and gains the key. */
  lemma EvictLinks<K, V>(s: Store<K, V>, o: seq<K>, k: K, v: Option<V>)
    requires Threads(s, o) && |o| > 0 && k !in s.cacheMap
    ensures var r := LinkNew(Evict(s), k, v);
      && Linked(r)
      && Abs(r) == LruSpec.Lru([k] + o[..|o| - 1], (Holders(s.cacheMap) - {o[|o| - 1]})[k := NewBasic(v)], s.size, s.capacity)
  {
    var s1 := Evict(s);
    EvictThreads(s, o);
    HoldersRemove(s.cacheMap, s1.cacheMap, o[|o| - 1]);
    LinkNewRefines(s1, o[..|o| - 1], k, v);
  }

  /** `remove` refines the abstract `remove`: same holder returned, the key spliced out of the order. */
  lemma RemoveRefines<K, V>(s: Store<K, V>, k: K)
    requires Linked(s)
    ensures Linked(Remove(s, k).0)
    ensures Abs(Remove(s, k).0) == LruSpec.Remove(Abs(s), k).0
    ensures Remove(s, k).1 == LruSpec.Remove(Abs(s), k).1
  {
    if k in s.cacheMap {
      var o := Traverse(s);
      var r := Remove(s, k).0;
      RemoveThreads(s, o, k);
      TraverseThreads(r, Without(o, k));
      HoldersRemove(s.cacheMap, r.cacheMap, k);
    }
  }

  /** Both versions of `clear` refine their abstract counterparts. */
  lemma ClearRefines<K, V>(s: Store<K, V>)
    ensures Linked(Clear(s)) && Abs(Clear(s)) == LruSpec.Clear(Abs(s))
    ensures Linked(ClearAsWritten(s)) && Abs(ClearAsWritten(s)) == LruSpec.ClearAsWritten(Abs(s))
  {
    TraverseThreads(Clear(s), []);
    TraverseThreads(ClearAsWritten(s), []);
  }

  // ---------------------------------------------------------------------------
  // The abstract properties, read back on the linked store

  /**
    With capacity at least one, `put` on a valid linked store never dereferences a null
    `last` and leaves map size == list length == size <= capacity.
   */
  lemma PutKeepsBound<K, V>(s: Store<K, V>, k: K, v: Option<V>)
    requires Valid(s) && s.capacity >= 1
    ensures Put(s, k, v).Success?
    ensures var r := Put(s, k, v).value;
      Valid(r) && |r.cacheMap| == |Traverse(r)| == r.size <= r.capacity
  {
    PutRefines(s, k, v);
    LruSpec.PutPreservesValid(Abs(s), k, v);
    LruSpec.ValidCounts(Abs(Put(s, k, v).value));
  }

  /**
    Inserting a new key when `size >= capacity` evicts exactly the tail node, from the
    map and from the list, and links the new key at the head of what remains.
   */
  lemma PutEvictsLast<K, V>(s: Store<K, V>, k: K, v: Option<V>)
    requires Linked(s) && k !in s.cacheMap && s.size >= s.capacity && s.cacheMap != map[]
    ensures s.last.Some?
    ensures Put(s, k, v).Success?
    ensures var r := Put(s, k, v).value;
      && r.cacheMap.Keys == s.cacheMap.Keys - {s.last.value} + {k}
      && Traverse(r) == [k] + Without(Traverse(s), s.last.value)
      && r.size == s.size
  {
    var o := Traverse(s);
    assert |o| > 0 by {
      var x :| x in s.cacheMap;
      assert x in o;
    }
    var victim := o[|o| - 1];
    assert s.last == Some(victim) && Without(o, victim) == o[..|o| - 1] by {
      WithoutLast(o);
    }
    PutEvictsPrefix(s, k, v);
  }

  /** The eviction branch of `put` on the linked store, read off the abstract one. */
  lemma PutEvictsPrefix<K, V>(s: Store<K, V>, k: K, v: Option<V>)
    requires Linked(s) && k !in s.cacheMap && s.size >= s.capacity && s.last.Some?
    requires |Traverse(s)| > 0 && s.last == Some(Traverse(s)[|Traverse(s)| - 1])
    ensures Put(s, k, v).Success?
    ensures var r := Put(s, k, v).value; var o := Traverse(s);
      && Traverse(r) == [k] + o[..|o| - 1]
      && r.cacheMap.Keys == s.cacheMap.Keys - {s.last.value} + {k}
      && r.size == s.size
  {
    var a := Abs(s);
    var o := a.order;
    LruSpec.PutEvictShape(a, k, v);
    PutEvictRefines(s, k, v);
    assert Abs(Put(s, k, v).value).holders.Keys == (a.holders - {o[|o| - 1]})[k := NewBasic(v)].Keys;
  }

  /**
    After `put(k, v)` the key heads the list and reads `v`; updating a present key
    changes neither `size` nor the other keys and their holders.
   */
  lemma PutHeads<K, V>(s: Store<K, V>, k: K, v: Option<V>)
    requires Linked(s) && Put(s, k, v).Success?
    ensures var r := Put(s, k, v).value;
      && Traverse(r)[0] == k && r.first == Some(k)
      && Read(r.cacheMap[k].holder) == v
    ensures k in s.cacheMap ==> var r := Put(s, k, v).value;
      && r.size == s.size && r.cacheMap.Keys == s.cacheMap.Keys
      && Without(Traverse(r), k) == Without(Traverse(s), k)
  {
    PutRefines(s, k, v);
    if k in s.cacheMap {
      PromoteShape(Traverse(s), k);
    }
  }

  /**
    `get` on a hit returns the key's holder and moves the key to the head with the
    relative order of every other key unchanged; on a miss it returns null and changes nothing.
   */
  lemma GetPromotesKey<K, V>(s: Store<K, V>, k: K)
    requires Linked(s)
    ensures Get(s, k).1 == if k in s.cacheMap then Some(s.cacheMap[k].holder) else None
    ensures k !in s.cacheMap ==> Get(s, k).0 == s
    ensures k in s.cacheMap ==> var r := Get(s, k).0;
      && Traverse(r)[0] == k
      && |Traverse(r)| == |Traverse(s)|
      && Without(Traverse(r), k) == Without(Traverse(s), k)
  {
    GetRefines(s, k);
    if k in s.cacheMap {
      LruSpec.GetPromotes(Abs(s), k);
    }
  }

  /** Promotion is idempotent: `get` on the key that is already `first` leaves the store untouched. */
  lemma GetFirstIdempotent<K, V>(s: Store<K, V>, k: K)
    requires s.first == Some(k) && k in s.cacheMap
    ensures Get(s, k).0 == s
  {
  }

  /**
    `remove` on a present key unlinks it (head, tail or interior), unmaps it, returns its
    holder and decrements `size`; on an absent key it returns null and changes nothing.
    The remaining keys keep their relative order.
   */
  lemma RemoveUnlinks<K, V>(s: Store<K, V>, k: K)
    requires Valid(s)
    ensures var (r, h) := Remove(s, k);
      && Valid(r)
      && k !in r.cacheMap
      && Traverse(r) == Without(Traverse(s), k)
      && h == (if k in s.cacheMap then Some(s.cacheMap[k].holder) else None)
      && r.size == (if k in s.cacheMap then s.size - 1 else s.size)
      && (r.first == None <==> r.cacheMap == map[])
  {
    var r := Remove(s, k).0;
    RemoveRefines(s, k);
    assert Valid(r) by {
      LruSpec.RemovePreservesValid(Abs(s), k);
    }
    if k !in s.cacheMap {
      WithoutAbsent(Traverse(s), k);
    }
    assert r.first == None <==> r.cacheMap == map[] by {
      var o := Traverse(r);
      if r.cacheMap != map[] {
        var x :| x in r.cacheMap;
        assert x in o;
      }
    }
  }

  /** `get` keeps a linked store valid. */
  lemma GetKeepsValid<K, V>(s: Store<K, V>, k: K)
    requires Valid(s)
    ensures Valid(Get(s, k).0)
  {
    GetRefines(s, k);
    LruSpec.GetPreservesValid(Abs(s), k);
  }

  /** The corrected `clear` leaves a valid, empty linked store. */
  lemma ClearKeepsValid<K, V>(s: Store<K, V>)
    requires s.capacity >= 0
    ensures Valid(Clear(s)) && Traverse(Clear(s)) == []
  {
    ClearRefines(s);
  }

  /**
    The source's `clear` leaves `size` stale: on a full store with capacity at least one,
    clearing and then putting any key dereferences the null `last`.
   */
  lemma ClearAsWrittenBreaksPut<K, V>(s: Store<K, V>, k: K, v: Option<V>)
    requires Valid(s) && s.size == s.capacity
    ensures ClearAsWritten(s).cacheMap == map[]
    ensures Put(ClearAsWritten(s), k, v) == Failure(NullPointerException)
  {
  }

  /** After the corrected `clear`, every key misses and a `put` succeeds whenever capacity admits an entry. */
  lemma ClearThenPut<K, V>(s: Store<K, V>, k: K, v: Option<V>)
    requires s.capacity >= 1
    ensures forall j :: Get(Clear(s), j).1 == None
    ensures Put(Clear(s), k, v).Success?
    ensures Valid(Put(Clear(s), k, v).value)
  {
    ClearRefines(s);
    NewRefines<K, V>(s.capacity);
    PutKeepsBound(Clear(s), k, v);
  }
}
