/**
  The abstract LRU store: a recency order of keys (most recently used first), the holder
  of each key, the occupancy counter `size` and the fixed `capacity`. Each operation here
  is what the linked implementation in `LruDataStore` must do to that abstract state.
 */
module LruSpec {
  import opened Wrappers
  import opened ValueHolder
  import opened Recency

  datatype Lru<K, V> = Lru(order: seq<K>, holders: map<K, Holder<V>>, size: int, capacity: int)

  /** The order lists every mapped key exactly once, and nothing else. */
  ghost predicate WellFormed<K, V>(a: Lru<K, V>)
  {
    && Distinct(a.order)
    && (forall k | k in a.order :: k in a.holders)
    && (forall k | k in a.holders :: k in a.order)
  }

  /** Well formed, `size` counts the entries, and the store is within its capacity. */
  ghost predicate Valid<K, V>(a: Lru<K, V>)
  {
    WellFormed(a) && a.size == |a.order| && a.size <= a.capacity
  }

  /** A freshly constructed store of the given capacity. */
  function Empty<K, V>(capacity: int): (a: Lru<K, V>)
    ensures WellFormed(a) && a.size == 0 && a.capacity == capacity
    ensures a.order == [] && a.holders == map[]
    ensures 0 <= capacity ==> Valid(a)
  {
    Lru([], map[], 0, capacity)
  }

  /** In a valid store, map size == list length == size <= capacity. */
  lemma ValidCounts<K, V>(a: Lru<K, V>)
    requires Valid(a)
    ensures |a.holders| == |a.order| == a.size <= a.capacity
  {
    DistinctCard(a.order);
    assert a.holders.Keys == set x | x in a.order;
  }

  /** `get`: a hit yields the key's holder and promotes the key; a miss yields null and changes nothing. */
  function Get<K, V>(a: Lru<K, V>, k: K): (r: (Lru<K, V>, Option<Holder<V>>))
    ensures r.1.Some? <==> k in a.holders
    ensures k in a.holders ==> r.1 == Some(a.holders[k])
    ensures k !in a.holders ==> r.0 == a
    ensures r.0.holders == a.holders && r.0.size == a.size && r.0.capacity == a.capacity
    ensures k in a.holders ==> |r.0.order| > 0 && r.0.order[0] == k
  {
    if k in a.holders then (a.(order := Promote(a.order, k)), Some(a.holders[k]))
    else (a, None)
  }

  /**
    A hit moves the key to the head and leaves the relative order of all other keys,
    and their number, unchanged.
   */
  lemma GetPromotes<K, V>(a: Lru<K, V>, k: K)
    requires WellFormed(a) && k in a.holders
    ensures WellFormed(Get(a, k).0)
    ensures |Get(a, k).0.order| == |a.order|
    ensures Without(Get(a, k).0.order, k) == Without(a.order, k)
  {
    PromoteShape(a.order, k);
  }

  /** Promotion is idempotent: a hit on the head leaves the store untouched. */
  lemma GetHeadIdempotent<K, V>(a: Lru<K, V>)
    requires WellFormed(a) && |a.order| > 0
    ensures Get(a, a.order[0]).0 == a
    ensures Get(Get(a, a.order[0]).0, a.order[0]).0 == a
  {
    PromoteHead(a.order);
  }

  /** Every `get`, hit or miss, keeps the store valid. */
  lemma GetPreservesValid<K, V>(a: Lru<K, V>, k: K)
    requires Valid(a)
    ensures Valid(Get(a, k).0)
  {
    if k in a.holders {
      GetPromotes(a, k);
    }
  }

  /**
    `put`. An absent key is linked at the head after, when `size >= capacity`, the tail
    key is evicted; an empty list at that point is the null `last` the source dereferences.
    A present key gets a new holder and is promoted.
   */
  function Put<K, V>(a: Lru<K, V>, k: K, v: Option<V>): (r: Result<Lru<K, V>, Fault>)
    ensures r.Failure? <==> k !in a.holders && a.size >= a.capacity && |a.order| == 0
    ensures r.Success? ==> && |r.value.order| > 0 && r.value.order[0] == k
                           && k in r.value.holders && Read(r.value.holders[k]) == v
                           && r.value.capacity == a.capacity
    ensures r.Success? && k in a.holders ==>
              && r.value.size == a.size
              && r.value.holders.Keys == a.holders.Keys
              && (forall j | j in a.holders && j != k :: r.value.holders[j] == a.holders[j])
    ensures r.Success? && k !in a.holders && a.size < a.capacity ==>
              && r.value.size == a.size + 1
              && r.value.holders.Keys == a.holders.Keys + {k}
              && (forall j | j in a.holders :: r.value.holders[j] == a.holders[j])
  {
    if k in a.holders then
      Success(a.(order := Promote(a.order, k), holders := a.holders[k := NewBasic(v)]))
    else if a.size >= a.capacity then
      if |a.order| == 0 then Failure(NullPointerException)
      else
        var victim := a.order[|a.order| - 1];
        Success(Lru([k] + a.order[..|a.order| - 1], (a.holders - {victim})[k := NewBasic(v)], a.size, a.capacity))
    else
      Success(Lru([k] + a.order, a.holders[k := NewBasic(v)], a.size + 1, a.capacity))
  }

  /** The eviction branch of `put`: the tail key's entry gives way to the new key at the head. */
  lemma PutEvictShape<K, V>(a: Lru<K, V>, k: K, v: Option<V>)
    requires k !in a.holders && a.size >= a.capacity && |a.order| > 0
    ensures Put(a, k, v) == Success(Lru([k] + a.order[..|a.order| - 1],
                                        (a.holders - {a.order[|a.order| - 1]})[k := NewBasic(v)], a.size, a.capacity))
  {
  }

  /**
    Inserting a new key into a full store evicts exactly the tail (least recently used)
    key, from both the map and the order, and the new key heads what is left.
   */
  lemma PutEvictsTail<K, V>(a: Lru<K, V>, k: K, v: Option<V>)
    requires WellFormed(a) && k !in a.holders && a.size >= a.capacity && |a.order| > 0
    ensures Put(a, k, v).Success?
    ensures var r := Put(a, k, v).value; var victim := a.order[|a.order| - 1];
      && r.holders.Keys == a.holders.Keys - {victim} + {k}
      && (forall j | j in r.holders && j != k :: r.holders[j] == a.holders[j])
      && victim !in r.order
      && Without(r.order, k) == Without(a.order, victim)
      && r.size == a.size
      && WellFormed(r)
  {
    var o := a.order;
    var victim := o[|o| - 1];
    WithoutLast(o);
    WithoutDistinct(o, victim);
    WithoutAbsent(o[..|o| - 1], k);
    PromoteShape(o[..|o| - 1], k);
    assert Promote(o[..|o| - 1], k) == [k] + o[..|o| - 1];
  }

  /**
    With capacity at least one, `put` on a valid store never faults and keeps map size ==
    list length == size <= capacity.
   */
  lemma PutPreservesValid<K, V>(a: Lru<K, V>, k: K, v: Option<V>)
    requires Valid(a) && a.capacity >= 1
    ensures Put(a, k, v).Success?
    ensures Valid(Put(a, k, v).value)
  {
    if k in a.holders {
      PromoteShape(a.order, k);
    } else if a.size >= a.capacity {
      PutEvictsTail(a, k, v);
      var r := Put(a, k, v).value;
      var o := a.order;
      WithoutLast(o);
      WithoutDistinct(o, o[|o| - 1]);
    } else {
      WithoutAbsent(a.order, k);
      PromoteShape(a.order, k);
    }
  }

  /** `remove`: the key's holder (or null), the key unlinked and unmapped, `size` down by one if it was there. */
  function Remove<K, V>(a: Lru<K, V>, k: K): (r: (Lru<K, V>, Option<Holder<V>>))
    ensures r.1 == if k in a.holders then Some(a.holders[k]) else None
    ensures k !in r.0.holders && r.0.capacity == a.capacity
    ensures k in a.holders ==> r.0.size == a.size - 1
    ensures k !in a.holders ==> r.0 == a
    ensures r.0.holders.Keys == a.holders.Keys - {k}
    ensures forall j | j in r.0.holders :: r.0.holders[j] == a.holders[j]
  {
    if k in a.holders then
      (Lru(Without(a.order, k), a.holders - {k}, a.size - 1, a.capacity), Some(a.holders[k]))
    else (a, None)
  }

  /** Removing keeps the store valid, with as many keys ordered as mapped. */
  lemma RemovePreservesValid<K, V>(a: Lru<K, V>, k: K)
    requires Valid(a)
    ensures Valid(Remove(a, k).0)
    ensures |Remove(a, k).0.order| == |Remove(a, k).0.holders|
  {
    WithoutDistinct(a.order, k);
    ValidCounts(Remove(a, k).0);
  }

  /** `clear` as the source writes it: the map and list are emptied but `size` keeps its value. */
  function ClearAsWritten<K, V>(a: Lru<K, V>): (r: Lru<K, V>)
    ensures r.holders == map[] && r.order == []
    ensures r.size == a.size && r.capacity == a.capacity
  {
    a.(order := [], holders := map[])
  }

  /** `clear` as intended: the store returns to its freshly constructed state, `size` included. */
  function Clear<K, V>(a: Lru<K, V>): (r: Lru<K, V>)
    ensures r == Empty(a.capacity)
  {
    Lru([], map[], 0, a.capacity)
  }

  /**
    The stale `size` left by the source's `clear` breaks the next insertion: once a full
    store is cleared, putting any key finds `size >= capacity` with an empty list and
    dereferences the null `last`.
   */
  lemma StaleSizeBreaksPut<K, V>(a: Lru<K, V>, k: K, v: Option<V>)
    requires Valid(a) && a.size == a.capacity
    ensures Put(ClearAsWritten(a), k, v) == Failure(NullPointerException)
  {
  }

  /** After the corrected `clear` every key misses, and the next `put` succeeds whenever capacity allows any entry. */
  lemma ClearResets<K, V>(a: Lru<K, V>, k: K, v: Option<V>)
    requires a.capacity >= 1
    ensures Valid(Clear(a))
    ensures forall j :: Get(Clear(a), j).1 == None
    ensures Put(Clear(a), k, v).Success?
  {
  }
}
