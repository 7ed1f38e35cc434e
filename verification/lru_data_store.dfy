/**
  The LRU store as the source builds it: a map from key to `LRUEntry` node, the nodes
  threaded on a doubly linked list by `preEntry`/`nextEntry`, with `first` the most and
  `last` the least recently used node. A reference to a node is written as the node's key
  (`None` is null), so the pointer updates of the source become map updates here.
 */
module LruDataStore {
  import opened Wrappers
  import opened ValueHolder
  import opened Recency

  /** An `LRUEntry`: its key, its holder and the keys of the nodes before and after it. */
  datatype Entry<K, V> = Entry(key: K, holder: Holder<V>, preEntry: Option<K>, nextEntry: Option<K>)

  datatype Store<K, V> = Store(
    cacheMap: map<K, Entry<K, V>>,
    first: Option<K>,
    last: Option<K>,
    capacity: int,
    size: int)

  /** `new LRUDataStore(capacity)`. */
  function New<K, V>(capacity: int): (s: Store<K, V>)
    ensures s.cacheMap == map[] && s.size == 0 && s.capacity == capacity
    ensures Threads(s, [])
  {
    Store(map[], None, None, capacity, 0)
  }

  /** The map without its links: which key holds which holder. */
  function Holders<K, V>(m: map<K, Entry<K, V>>): (h: map<K, Holder<V>>)
    ensures h.Keys == m.Keys
    ensures forall k | k in m :: h[k] == m[k].holder
  {
    map k | k in m :: m[k].holder
  }

  /** Two maps hold the same nodes (keys and holders) whatever their links. */
  ghost predicate SameNodes<K, V>(m: map<K, Entry<K, V>>, m': map<K, Entry<K, V>>)
  {
    && m'.Keys == m.Keys
    && (forall k | k in m :: m'[k].key == m[k].key && m'[k].holder == m[k].holder)
  }

  /** `node.nextEntry = to`. A key outside the map names no live node, and nothing changes. */
  function SetNext<K, V>(m: map<K, Entry<K, V>>, node: K, to: Option<K>): (r: map<K, Entry<K, V>>)
    ensures SameNodes(m, r)
    ensures forall k | k in m && k != node :: r[k] == m[k]
    ensures node in m ==> r[node].nextEntry == to && r[node].preEntry == m[node].preEntry
  {
    if node in m then m[node := m[node].(nextEntry := to)] else m
  }

  /** `node.preEntry = to`. */
  function SetPrev<K, V>(m: map<K, Entry<K, V>>, node: K, to: Option<K>): (r: map<K, Entry<K, V>>)
    ensures SameNodes(m, r)
    ensures forall k | k in m && k != node :: r[k] == m[k]
    ensures node in m ==> r[node].preEntry == to && r[node].nextEntry == m[node].nextEntry
  {
    if node in m then m[node := m[node].(preEntry := to)] else m
  }

  /** The `preEntry` field of a node; a key outside the map names no node and reads as null. */
  function PrevOf<K, V>(m: map<K, Entry<K, V>>, node: K): Option<K>
  {
    if node in m then m[node].preEntry else None
  }

  /**
    The neighbour repair shared by `moveToFirst` and `remove`: the node before `k` now
    points forward to the node after it, and that one back to the node before.
   */
  function Unlink<K, V>(m: map<K, Entry<K, V>>, k: K): (r: map<K, Entry<K, V>>)
    requires k in m
    ensures SameNodes(m, r)
  {
    var m1 := if m[k].preEntry.Some? then SetNext(m, m[k].preEntry.value, m[k].nextEntry) else m;
    if m1[k].nextEntry.Some? then SetPrev(m1, m1[k].nextEntry.value, m1[k].preEntry) else m1
  }

  /** `moveToFirst(entry)`: relink the node of `k` at the head of the list. */
  function MoveToFirst<K, V>(s: Store<K, V>, k: K): (r: Store<K, V>)
    requires k in s.cacheMap
    ensures SameNodes(s.cacheMap, r.cacheMap)
    ensures r.first == Some(k)
    ensures r.size == s.size && r.capacity == s.capacity
  {
    if s.first == Some(k) then s
    else
      var m2 := Unlink(s.cacheMap, k);
      var last1 := if s.last == Some(k) then m2[k].preEntry else s.last;
      if s.first.None? || last1.None? then
        s.(cacheMap := m2, first := Some(k), last := Some(k))
      else
        var m3 := SetNext(m2, k, s.first);
        var m4 := SetPrev(m3, s.first.value, Some(k));
        var m5 := SetPrev(m4, k, None);
        s.(cacheMap := m5, first := Some(k), last := last1)
  }

  /**
    `removeLast()`: step `last` back one node and cut the list there. The caller deletes
    the old tail from the map afterwards; in the source the map deletion comes first, but
    the node object keeps its `preEntry`, and here that field is read through the map.
   */
  function RemoveLast<K, V>(s: Store<K, V>): (r: Store<K, V>)
    ensures SameNodes(s.cacheMap, r.cacheMap)
    ensures r.size == s.size && r.capacity == s.capacity
  {
    if s.last.None? then s
    else
      var last1 := PrevOf(s.cacheMap, s.last.value);
      if last1.None? then s.(last := None, first := None)
      else s.(last := last1, cacheMap := SetNext(s.cacheMap, last1.value, None))
  }

  /** The eviction branch of `put`: unmap and unlink the tail node, `size--`. */
  function Evict<K, V>(s: Store<K, V>): (r: Store<K, V>)
    requires s.last.Some?
    ensures r.cacheMap.Keys == s.cacheMap.Keys - {s.last.value}
    ensures forall j | j in r.cacheMap :: r.cacheMap[j].holder == s.cacheMap[j].holder && r.cacheMap[j].key == s.cacheMap[j].key
    ensures r.size == s.size - 1 && r.capacity == s.capacity
  {
    var victim := s.last.value;
    var s1 := RemoveLast(s);
    s1.(cacheMap := s1.cacheMap - {victim}, size := s1.size - 1)
  }

  /** The insertion branch of `put`: map a fresh node for `k`, move it to the head, `size++`. */
  function LinkNew<K, V>(s: Store<K, V>, k: K, v: Option<V>): (r: Store<K, V>)
    requires k !in s.cacheMap
    ensures r.cacheMap.Keys == s.cacheMap.Keys + {k}
    ensures r.cacheMap[k].holder == NewBasic(v)
    ensures forall j | j in s.cacheMap :: r.cacheMap[j].holder == s.cacheMap[j].holder
    ensures r.first == Some(k) && r.size == s.size + 1 && r.capacity == s.capacity
  {
    var s2 := s.(cacheMap := s.cacheMap[k := Entry(k, NewBasic(v), None, None)]);
    var s3 := MoveToFirst(s2, k);
    s3.(size := s3.size + 1)
  }

  /** `get(key)`: on a hit, promote the node and return its holder; on a miss, null. */
  function Get<K, V>(s: Store<K, V>, k: K): (r: (Store<K, V>, Option<Holder<V>>))
    ensures r.1.Some? <==> k in s.cacheMap
    ensures k in s.cacheMap ==> r.1 == Some(s.cacheMap[k].holder) && r.0.first == Some(k)
    ensures k !in s.cacheMap ==> r.0 == s
    ensures SameNodes(s.cacheMap, r.0.cacheMap) && r.0.size == s.size && r.0.capacity == s.capacity
  {
    if k in s.cacheMap then
      var s1 := MoveToFirst(s, k);
      (s1, Some(s1.cacheMap[k].holder))
    else (s, None)
  }

  /**
    `put(key, value)`. An absent key: when `size >= capacity` the tail is evicted first,
    which dereferences `last` and faults when it is null; then a fresh node is mapped,
    moved to the head, and `size++`. A present key: new holder, then promotion.
   */
  function Put<K, V>(s: Store<K, V>, k: K, v: Option<V>): (r: Result<Store<K, V>, Fault>)
    ensures r.Failure? <==> k !in s.cacheMap && s.size >= s.capacity && s.last.None?
    ensures r.Success? ==> && k in r.value.cacheMap && Read(r.value.cacheMap[k].holder) == v
                           && r.value.first == Some(k) && r.value.capacity == s.capacity
    ensures r.Success? ==> && r.value.cacheMap.Keys <= s.cacheMap.Keys + {k}
                           && (forall j | j in r.value.cacheMap && j != k :: r.value.cacheMap[j].holder == s.cacheMap[j].holder)
    ensures r.Success? && k in s.cacheMap ==> r.value.size == s.size && r.value.cacheMap.Keys == s.cacheMap.Keys
  {
    if k !in s.cacheMap then
      if s.size >= s.capacity && s.last.None? then Failure(NullPointerException)
      else
        var s1 := if s.size >= s.capacity then Evict(s) else s;
        Success(LinkNew(s1, k, v))
    else
      var s1 := s.(cacheMap := s.cacheMap[k := s.cacheMap[k].(holder := NewBasic(v))]);
      Success(MoveToFirst(s1, k))
  }

  /**
    With capacity 0 the first insertion already takes the eviction branch, and `last` is
    null: `put` on a new store of capacity 0 faults.
   */
  lemma ZeroCapacityFaults<K, V>(k: K, v: Option<V>)
    ensures Put(New<K, V>(0), k, v) == Failure(NullPointerException)
  {
  }

  /**
    `size` never passes `capacity`, whatever the links, the stale `size` left by the
    source's `clear` included: `put` increments it only below capacity or right after an
    eviction decremented it, and no other operation raises it. So the Java `long` counter
    cannot overflow.
   */
  lemma SizeStaysBounded<K, V>(s: Store<K, V>, k: K, v: Option<V>)
    requires s.size <= s.capacity
    ensures Put(s, k, v).Success? ==> Put(s, k, v).value.size <= s.capacity
    ensures Get(s, k).0.size <= s.capacity
    ensures Remove(s, k).0.size <= s.capacity
    ensures ClearAsWritten(s).size <= s.capacity
  {
  }

  /** The insertion branch of `put`, evicting first when the store is full. */
  lemma PutInsertShape<K, V>(s: Store<K, V>, k: K, v: Option<V>)
    requires k !in s.cacheMap && s.last.Some?
    ensures Put(s, k, v) == Success(LinkNew(if s.size >= s.capacity then Evict(s) else s, k, v))
  {
  }

  /**
    `remove(key)`: unlink the node from wherever it sits, repairing `first` and `last`
    when it was the head or the tail, `size--`, unmap it and return its holder; null
    and no change for an absent key.
   */
  function Remove<K, V>(s: Store<K, V>, k: K): (r: (Store<K, V>, Option<Holder<V>>))
    ensures r.1 == if k in s.cacheMap then Some(s.cacheMap[k].holder) else None
    ensures r.0.cacheMap.Keys == s.cacheMap.Keys - {k}
    ensures forall j | j in r.0.cacheMap :: r.0.cacheMap[j].holder == s.cacheMap[j].holder
    ensures k in s.cacheMap ==> r.0.size == s.size - 1
    ensures k !in s.cacheMap ==> r.0 == s
    ensures r.0.capacity == s.capacity
  {
    if k in s.cacheMap then
      var holder := s.cacheMap[k].holder;
      var m2 := Unlink(s.cacheMap, k);
      var first1 := if s.first == Some(k) then m2[k].nextEntry else s.first;
      var last1 := if s.last == Some(k) then m2[k].preEntry else s.last;
      (Store(m2 - {k}, first1, last1, s.capacity, s.size - 1), Some(holder))
    else (s, None)
  }

  /** `clear()` as the source writes it: map emptied, `first`/`last` null, `size` untouched. */
  function ClearAsWritten<K, V>(s: Store<K, V>): (r: Store<K, V>)
    ensures r.cacheMap == map[] && r.first == None && r.last == None
    ensures r.size == s.size && r.capacity == s.capacity
  {
    s.(cacheMap := map[], first := None, last := None)
  }

  /** `clear()` as intended: also `size = 0`, so the store is as freshly constructed. */
  function Clear<K, V>(s: Store<K, V>): (r: Store<K, V>)
    ensures r == New(s.capacity)
  {
    s.(cacheMap := map[], first := None, last := None, size := 0)
  }

  // ---------------------------------------------------------------------------
  // The link invariant

  /**
    The links thread exactly the keys of `order`: the map's keys are the list's nodes,
    each node records its own key, its `preEntry`/`nextEntry` are its neighbours in
    `order`, and `first`/`last` are the head and tail of `order`.
   */
  ghost predicate Threads<K, V>(s: Store<K, V>, order: seq<K>)
  {
    && Distinct(order)
    && (forall k | k in order :: k in s.cacheMap)
    && (forall k | k in s.cacheMap :: k in order)
    && (forall k | k in s.cacheMap ::
          && s.cacheMap[k].key == k
          && s.cacheMap[k].preEntry == PrevIn(order, k)
          && s.cacheMap[k].nextEntry == NextIn(order, k))
    && s.first == First(order)
    && s.last == Last(order)
  }

  /** The node reached from `from` after `n` hops along `nextEntry` (`forward`) or `preEntry` links. */
  function Hop<K, V>(m: map<K, Entry<K, V>>, from: Option<K>, n: nat, forward: bool): Option<K>
    decreases n
  {
    if n == 0 then from
    else if from.None? || from.value !in m then None
    else Hop(m, if forward then m[from.value].nextEntry else m[from.value].preEntry, n - 1, forward)
  }

  /** The list read off the links: the keys met walking `nextEntry` from `first`, at most one per map entry. */
  function Traverse<K, V>(s: Store<K, V>): seq<K>
  {
    Walk(s.cacheMap, s.first, |s.cacheMap|)
  }

  function Walk<K, V>(m: map<K, Entry<K, V>>, from: Option<K>, fuel: nat): seq<K>
    decreases fuel
  {
    if fuel == 0 || from.None? || from.value !in m then []
    else [from.value] + Walk(m, m[from.value].nextEntry, fuel - 1)
  }

  /** The link invariant of the store: its links thread the list read off them. */
  ghost predicate Linked<K, V>(s: Store<K, V>)
  {
    Threads(s, Traverse(s))
  }

  /** Hopping from the node at position `j` of a threaded order. */
  lemma {:induction false} HopAlong<K, V>(s: Store<K, V>, order: seq<K>, j: int, n: nat)
    requires Threads(s, order) && 0 <= j < |order|
    ensures Hop(s.cacheMap, Some(order[j]), n, true) == if j + n < |order| then Some(order[j + n]) else None
    ensures Hop(s.cacheMap, Some(order[j]), n, false) == if j - n >= 0 then Some(order[j - n]) else None
    decreases n
  {
    NeighboursAt(order, j);
    if n > 0 {
      if j + 1 < |order| {
        HopAlong(s, order, j + 1, n - 1);
      } else {
        assert Hop(s.cacheMap, None, n - 1, true) == None;
      }
      if j - 1 >= 0 {
        HopAlong(s, order, j - 1, n - 1);
      } else {
        assert Hop(s.cacheMap, None, n - 1, false) == None;
      }
    }
  }

  /**
    The list is acyclic and doubly linked: following `nextEntry` from `first` meets every
    position of the order in turn and reaches `last` after length-1 steps and null after
    length steps; following `preEntry` from `last` does the same in reverse.
   */
  lemma Acyclic<K, V>(s: Store<K, V>, order: seq<K>)
    requires Threads(s, order)
    ensures forall i | 0 <= i < |order| :: Hop(s.cacheMap, s.first, i, true) == Some(order[i])
    ensures forall i | 0 <= i < |order| :: Hop(s.cacheMap, s.last, i, false) == Some(order[|order| - 1 - i])
    ensures |order| > 0 ==> Hop(s.cacheMap, s.first, |order| - 1, true) == s.last
    ensures |order| > 0 ==> Hop(s.cacheMap, s.last, |order| - 1, false) == s.first
    ensures Hop(s.cacheMap, s.first, |order|, true) == None
    ensures Hop(s.cacheMap, s.last, |order|, false) == None
  {
    if |order| > 0 {
      forall i | 0 <= i < |order| ensures Hop(s.cacheMap, s.first, i, true) == Some(order[i]) {
        HopAlong(s, order, 0, i);
      }
      forall i | 0 <= i < |order| ensures Hop(s.cacheMap, s.last, i, false) == Some(order[|order| - 1 - i]) {
        HopAlong(s, order, |order| - 1, i);
      }
      HopAlong(s, order, 0, |order|);
      HopAlong(s, order, |order| - 1, |order|);
    }
  }

  /**
    Pointer-level consequences of the invariant: `preEntry` and `nextEntry` agree,
    every link names a mapped node, `first` has no predecessor, `last` has no successor,
    and both are null exactly when the map is empty.
   */
  lemma LinksConsistent<K, V>(s: Store<K, V>, order: seq<K>)
    requires Threads(s, order)
    ensures forall x, y | x in s.cacheMap ::
      s.cacheMap[x].nextEntry == Some(y) <==> y in s.cacheMap && s.cacheMap[y].preEntry == Some(x)
    ensures forall x | x in s.cacheMap && s.cacheMap[x].nextEntry.Some? :: s.cacheMap[x].nextEntry.value in s.cacheMap
    ensures forall x | x in s.cacheMap && s.cacheMap[x].preEntry.Some? :: s.cacheMap[x].preEntry.value in s.cacheMap
    ensures s.first.None? <==> |s.cacheMap| == 0
    ensures s.last.None? <==> |s.cacheMap| == 0
    ensures s.first.Some? ==> s.first.value in s.cacheMap && s.cacheMap[s.first.value].preEntry == None
    ensures s.last.Some? ==> s.last.value in s.cacheMap && s.cacheMap[s.last.value].nextEntry == None
  {
    var m := s.cacheMap;
    forall x, y | x in m
      ensures m[x].nextEntry == Some(y) <==> y in m && m[y].preEntry == Some(x)
    {
      LinksAgree(order, x, y);
      NeighboursInOrder(order, x);
      assert m[x].nextEntry == NextIn(order, x);
      if y in m {
        assert m[y].preEntry == PrevIn(order, y);
      }
    }
    forall x | x in m
      ensures m[x].nextEntry.Some? ==> m[x].nextEntry.value in m
      ensures m[x].preEntry.Some? ==> m[x].preEntry.value in m
    {
      NeighboursInOrder(order, x);
    }
    assert m.Keys == set x | x in order;
    DistinctCard(order);
    if |order| > 0 {
      Ends(order, order[0]);
      Ends(order, order[|order| - 1]);
    }
  }

  /** A threaded order is the one read off the links: the links determine the list. */
  lemma TraverseThreads<K, V>(s: Store<K, V>, order: seq<K>)
    requires Threads(s, order)
    ensures Traverse(s) == order
    ensures Linked(s)
  {
    assert s.cacheMap.Keys == set x | x in order;
    DistinctCard(order);
    if |order| > 0 {
      WalkAlong(s, order, 0);
    } else {
      assert s.first == None;
    }
  }

  lemma {:induction false} WalkAlong<K, V>(s: Store<K, V>, order: seq<K>, j: int)
    requires Threads(s, order) && 0 <= j < |order|
    ensures Walk(s.cacheMap, Some(order[j]), |order| - j) == order[j..]
    decreases |order| - j
  {
    NeighboursAt(order, j);
    if j + 1 < |order| {
      WalkAlong(s, order, j + 1);
      assert order[j..] == [order[j]] + order[j + 1..];
    } else {
      assert Walk(s.cacheMap, None, 0) == [];
    }
  }

  // ---------------------------------------------------------------------------
  // Each pointer operation re-threads the abstract order operation

  /** The repair of `Unlink` leaves the other nodes linked as in the order without `k`. */
  lemma UnlinkThreads<K, V>(s: Store<K, V>, order: seq<K>, k: K)
    requires Threads(s, order) && k in s.cacheMap
    ensures var m := Unlink(s.cacheMap, k);
      && m[k] == s.cacheMap[k]
      && (forall x | x in m && x != k ::
            && m[x].key == x
            && m[x].preEntry == PrevIn(Without(order, k), x)
            && m[x].nextEntry == NextIn(Without(order, k), x))
  {
    Splice(order, k);
    NeighboursInOrder(order, k);
    var m := Unlink(s.cacheMap, k);
    forall x | x in m && x != k
      ensures m[x].preEntry == PrevIn(Without(order, k), x)
      ensures m[x].nextEntry == NextIn(Without(order, k), x)
    {
      LinksAgree(order, x, k);
      LinksAgree(order, k, x);
    }
  }

  /** `moveToFirst` re-threads the promoted order. */
  lemma MoveToFirstThreads<K, V>(s: Store<K, V>, order: seq<K>, k: K)
    requires Threads(s, order) && k in s.cacheMap
    ensures Threads(MoveToFirst(s, k), Promote(order, k))
  {
    if s.first == Some(k) {
      PromoteHead(order);
    } else {
      var w := Without(order, k);
      var m2 := Unlink(s.cacheMap, k);
      UnlinkedShape(s, order, k);
      LinkAtHead(s, m2, w, k);
      var m3 := SetNext(m2, k, s.first);
      var m4 := SetPrev(m3, s.first.value, Some(k));
      var m5 := SetPrev(m4, k, None);
      var r := s.(cacheMap := m5, first := Some(k), last := Last(w));
      assert Threads(r, [k] + w);
      MoveToFirstBody(s, k, Last(w));
      assert Promote(order, k) == [k] + w;
    }
  }

  /** Unfolds `moveToFirst` for a key that is not the head when the list stays non-empty. */
  lemma MoveToFirstBody<K, V>(s: Store<K, V>, k: K, last1: Option<K>)
    requires k in s.cacheMap && s.first != Some(k) && s.first.Some? && last1.Some?
    requires last1 == if s.last == Some(k) then Unlink(s.cacheMap, k)[k].preEntry else s.last
    ensures var m3 := SetNext(Unlink(s.cacheMap, k), k, s.first);
      var m4 := SetPrev(m3, s.first.value, Some(k));
      var m5 := SetPrev(m4, k, None);
      MoveToFirst(s, k) == s.(cacheMap := m5, first := Some(k), last := last1)
  {
  }

  /** After the repair of `moveToFirst` on a non-head key, the rest of the list is the order without it. */
  lemma UnlinkedShape<K, V>(s: Store<K, V>, order: seq<K>, k: K)
    requires Threads(s, order) && k in s.cacheMap && s.first != Some(k)
    ensures var w := Without(order, k); var m2 := Unlink(s.cacheMap, k);
      && Distinct(w) && k !in w && |w| > 0
      && s.first == First(w)
      && (if s.last == Some(k) then m2[k].preEntry else s.last) == Last(w)
      && k in m2 && m2[k].key == k
      && (forall x | x in w :: x in m2)
      && (forall x | x in m2 && x != k :: x in w)
      && (forall x | x in m2 && x != k ::
            m2[x].key == x && m2[x].preEntry == PrevIn(w, x) && m2[x].nextEntry == NextIn(w, x))
  {
    var w := Without(order, k);
    var m2 := Unlink(s.cacheMap, k);
    UnlinkThreads(s, order, k);
    assert Distinct(w) && |w| > 0 by {
      WithoutDistinct(order, k);
      Ends(order, k);
    }
    assert s.first == First(w) && (if s.last == Some(k) then m2[k].preEntry else s.last) == Last(w) by {
      Splice(order, k);
    }
  }

  /**
    The last steps of `moveToFirst`: with every node other than `k` linked as in `w`, and
    `first`/`last` those of `w`, linking `k` before `first` threads `[k] + w`.
   */
  lemma LinkAtHead<K, V>(s: Store<K, V>, m2: map<K, Entry<K, V>>, w: seq<K>, k: K)
    requires Distinct(w) && k !in w && |w| > 0
    requires k in m2 && m2[k].key == k
    requires forall x | x in w :: x in m2
    requires forall x | x in m2 && x != k :: x in w
    requires forall x | x in m2 && x != k ::
      && m2[x].key == x && m2[x].preEntry == PrevIn(w, x) && m2[x].nextEntry == NextIn(w, x)
    requires s.first == First(w) && s.first != Some(k)
    ensures var m3 := SetNext(m2, k, s.first);
      var m4 := SetPrev(m3, s.first.value, Some(k));
      var m5 := SetPrev(m4, k, None);
      Threads(s.(cacheMap := m5, first := Some(k), last := Last(w)), [k] + w)
  {
    var f := s.first.value;
    var m3 := SetNext(m2, k, s.first);
    var m4 := SetPrev(m3, f, Some(k));
    var m5 := SetPrev(m4, k, None);
    var o := [k] + w;
    PromoteNeighbours(w, k);
    WithoutAbsent(w, k);
    PromoteShape(w, k);
    assert Promote(w, k) == o;
    assert f == w[0] && f != k && f in m2;
    forall x | x in m5
      ensures m5[x].key == x && m5[x].preEntry == PrevIn(o, x) && m5[x].nextEntry == NextIn(o, x)
    {
      if x == k {
        assert m5[x].preEntry == None && m5[x].nextEntry == Some(f);
      } else if x == f {
        assert m5[x] == m2[x].(preEntry := Some(k));
      } else {
        assert m5[x] == m2[x];
      }
    }
    forall x | x in o ensures x in m5 {
      if x != k {
        assert x in w;
      }
    }
  }

  /** Mapping a fresh node and moving it to the front threads the order with the key prepended. */
  lemma InsertThreads<K, V>(s: Store<K, V>, order: seq<K>, k: K, v: Option<V>)
    requires Threads(s, order) && k !in s.cacheMap
    ensures Threads(LinkNew(s, k, v), [k] + order)
  {
    var s2 := s.(cacheMap := s.cacheMap[k := Entry(k, NewBasic(v), None, None)]);
    assert LinkNew(s, k, v) == MoveToFirst(s2, k).(size := s.size + 1);
    assert Unlink(s2.cacheMap, k) == s2.cacheMap;
    if |order| == 0 {
      assert s2.cacheMap.Keys == {k};
    } else {
      MoveToFirstBody(s2, k, s.last);
      LinkAtHead(s, s2.cacheMap, order, k);
    }
  }

  /** Eviction (`removeLast` plus the map deletion) threads the order without its tail. */
  lemma EvictThreads<K, V>(s: Store<K, V>, order: seq<K>)
    requires Threads(s, order) && |order| > 0
    ensures s.last == Some(order[|order| - 1])
    ensures Threads(Evict(s), order[..|order| - 1])
  {
    var victim := order[|order| - 1];
    WithoutLast(order);
    WithoutDistinct(order, victim);
    Splice(order, victim);
    Ends(order, victim);
    var w := Without(order, victim);
    var r := Evict(s);
    forall x | x in r.cacheMap
      ensures r.cacheMap[x].preEntry == PrevIn(w, x) && r.cacheMap[x].nextEntry == NextIn(w, x)
    {
      LinksAgree(order, x, victim);
      LinksAgree(order, victim, x);
    }
  }

  /** `remove` splices the node out of head, tail or interior and threads the order without the key. */
  lemma RemoveThreads<K, V>(s: Store<K, V>, order: seq<K>, k: K)
    requires Threads(s, order)
    ensures Threads(Remove(s, k).0, Without(order, k))
  {
    if k in s.cacheMap {
      UnlinkThreads(s, order, k);
      Splice(order, k);
      WithoutDistinct(order, k);
    } else {
      WithoutAbsent(order, k);
    }
  }

  /** Replacing a node's holder leaves the links alone. */
  lemma UpdateThreads<K, V>(s: Store<K, V>, order: seq<K>, k: K, h: Holder<V>)
    requires Threads(s, order) && k in s.cacheMap
    ensures Threads(s.(cacheMap := s.cacheMap[k := s.cacheMap[k].(holder := h)]), order)
  {
  }
}
