/**
  The `DataStore` contract over its three strategies: `get`, `put`, `remove` and `clear`
  dispatch on the variant, and every variant answers them alike (a hit is exactly a
  mapped key; after `put` the key reads the value put; after `remove` and `clear` it
  misses). Only the LRU variant can fault, and only by evicting from an empty list.
  Sequences of operations (`Run`), with the collector's steps interleaved, carry the
  per-strategy guarantees: the map stores keep every key mapped until it is touched
  again (the basic store its very holder, the weak store a holder reading its value or
  null), and the LRU store never exceeds its capacity.
 */
module DataStore {
  import opened Wrappers
  import opened ValueHolder
  import BasicDataStore
  import WeakRefDataStore
  import Recency
  import LruSpec
  import LruDataStore
  import LruRefinement

  datatype DataStore<K, V> =
    | BasicStore(basic: BasicDataStore.Store<K, V>)
    | WeakStore(weak: WeakRefDataStore.Store<K, V>)
    | LruStore(lru: LruDataStore.Store<K, V>)

  /** The keys the store maps. */
  function Keys<K, V>(d: DataStore<K, V>): set<K>
  {
    match d
    case BasicStore(b) => b.cacheMap.Keys
    case WeakStore(w) => w.cacheMap.Keys
    case LruStore(s) => s.cacheMap.Keys
  }

  /** The holder a mapped key has. */
  function HolderAt<K, V>(d: DataStore<K, V>, k: K): Holder<V>
    requires k in Keys(d)
  {
    match d
    case BasicStore(b) => b.cacheMap[k]
    case WeakStore(w) => w.cacheMap[k]
    case LruStore(s) => s.cacheMap[k].holder
  }

  /** The same strategy (and, for LRU, the same capacity). */
  predicate SameKind<K, V>(d: DataStore<K, V>, d': DataStore<K, V>)
  {
    match d
    case BasicStore(_) => d'.BasicStore?
    case WeakStore(_) => d'.WeakStore?
    case LruStore(s) => d'.LruStore? && d'.lru.capacity == s.capacity
  }

  /** The per-strategy invariant: holder kinds for the maps, the link invariant and the bound for LRU. */
  ghost predicate Valid<K, V>(d: DataStore<K, V>)
  {
    match d
    case BasicStore(b) => BasicDataStore.Valid(b)
    case WeakStore(w) => WeakRefDataStore.Valid(w)
    case LruStore(s) => LruRefinement.Valid(s) && s.capacity >= 1
  }

  /** `get(key)`: the holder of a mapped key, or null. The LRU variant also promotes the key. */
  function Get<K, V>(d: DataStore<K, V>, k: K): (r: (DataStore<K, V>, Option<Holder<V>>))
    ensures r.1.Some? <==> k in Keys(d)
    ensures r.1.Some? ==> r.1.value == HolderAt(d, k)
    ensures Keys(r.0) == Keys(d) && SameKind(d, r.0)
    ensures forall j | j in Keys(d) :: HolderAt(r.0, j) == HolderAt(d, j)
  {
    match d
    case BasicStore(b) => (d, BasicDataStore.Get(b, k))
    case WeakStore(w) => (d, WeakRefDataStore.Get(w, k))
    case LruStore(s) => var (s1, h) := LruDataStore.Get(s, k); (LruStore(s1), h)
  }

  /**
    `put(key, value)`: afterwards the key is mapped to a fresh holder that reads the value,
    and no other key changes its holder. The maps add exactly the key; the LRU store may
    instead have evicted one key, and faults only when it must evict from an empty list.
   */
  function Put<K, V>(d: DataStore<K, V>, k: K, v: Option<V>): (r: Result<DataStore<K, V>, Fault>)
    ensures r.Failure? <==> d.LruStore? && k !in Keys(d) && d.lru.size >= d.lru.capacity && d.lru.last.None?
    ensures r.Success? ==> && SameKind(d, r.value)
                           && k in Keys(r.value) && Read(HolderAt(r.value, k)) == v
                           && Keys(r.value) <= Keys(d) + {k}
                           && (forall j | j in Keys(r.value) && j != k :: HolderAt(r.value, j) == HolderAt(d, j))
    ensures r.Success? && !d.LruStore? ==> Keys(r.value) == Keys(d) + {k}
  {
    match d
    case BasicStore(b) => Success(BasicStore(BasicDataStore.Put(b, k, v)))
    case WeakStore(w) => Success(WeakStore(WeakRefDataStore.Put(w, k, v)))
    case LruStore(s) =>
      match LruDataStore.Put(s, k, v)
      case Success(s1) => Success(LruStore(s1))
      case Failure(e) => Failure(e)
  }

  /** `remove(key)`: the key's holder, or null; afterwards the key misses and the other keys keep their holders. */
  function Remove<K, V>(d: DataStore<K, V>, k: K): (r: (DataStore<K, V>, Option<Holder<V>>))
    ensures r.1.Some? <==> k in Keys(d)
    ensures r.1.Some? ==> r.1.value == HolderAt(d, k)
    ensures Keys(r.0) == Keys(d) - {k} && SameKind(d, r.0)
    ensures forall j | j in Keys(r.0) :: HolderAt(r.0, j) == HolderAt(d, j)
  {
    match d
    case BasicStore(b) => var (b1, h) := BasicDataStore.Remove(b, k); (BasicStore(b1), h)
    case WeakStore(w) => var (w1, h) := WeakRefDataStore.Remove(w, k); (WeakStore(w1), h)
    case LruStore(s) => var (s1, h) := LruDataStore.Remove(s, k); (LruStore(s1), h)
  }

  /** `clear()`: afterwards nothing is mapped. */
  function Clear<K, V>(d: DataStore<K, V>): (r: DataStore<K, V>)
    ensures Keys(r) == {} && SameKind(d, r)
  {
    match d
    case BasicStore(b) => BasicStore(BasicDataStore.Clear(b))
    case WeakStore(w) => WeakStore(WeakRefDataStore.Clear(w))
    case LruStore(s) => LruStore(LruDataStore.Clear(s))
  }

  /**
    One step of a store's life: an operation of the `DataStore` contract, or the
    collector clearing the referent of the holder mapped at `key` (`ReclaimOp`), which
    the environment may take between any two operations.
   */
  datatype Op<K, V> =
    | PutOp(key: K, value: Option<V>)
    | GetOp(key: K)
    | RemoveOp(key: K)
    | ClearOp
    | ReclaimOp(key: K)

  /** Whether an operation can change which holder `k` maps to (collection never does). */
  predicate Touches<K(==), V>(op: Op<K, V>, k: K)
  {
    match op
    case PutOp(j, _) => j == k
    case GetOp(_) => false
    case RemoveOp(j) => j == k
    case ClearOp => true
    case ReclaimOp(_) => false
  }

  /**
    A collection: the weak store clears the referent at `k`; the basic and LRU stores hold
    only strong references, which the collector never clears.
   */
  function Collect<K, V>(d: DataStore<K, V>, k: K): (r: DataStore<K, V>)
    ensures Keys(r) == Keys(d) && SameKind(d, r)
    ensures forall j | j in Keys(d) && j != k :: HolderAt(r, j) == HolderAt(d, j)
    ensures k in Keys(d) ==> Read(HolderAt(r, k)) in {Read(HolderAt(d, k)), None}
    ensures !d.WeakStore? ==> r == d
    ensures d.WeakStore? && k in Keys(d) && HolderAt(d, k).WeakRef? ==> Read(HolderAt(r, k)) == None
  {
    match d
    case WeakStore(w) => WeakStore(WeakRefDataStore.Reclaim(w, k))
    case _ => d
  }

  /** The store after one operation. */
  function Step<K, V>(d: DataStore<K, V>, op: Op<K, V>): Result<DataStore<K, V>, Fault>
  {
    match op
    case PutOp(k, v) => Put(d, k, v)
    case GetOp(k) => Success(Get(d, k).0)
    case RemoveOp(k) => Success(Remove(d, k).0)
    case ClearOp => Success(Clear(d))
    case ReclaimOp(k) => Success(Collect(d, k))
  }

  /** The store after a sequence of operations, or the first fault. */
  function Run<K, V>(d: DataStore<K, V>, ops: seq<Op<K, V>>): Result<DataStore<K, V>, Fault>
    decreases |ops|
  {
    if |ops| == 0 then Success(d)
    else
      match Step(d, ops[0])
      case Success(d1) => Run(d1, ops[1..])
      case Failure(e) => Failure(e)
  }

  /**
    Every operation on a valid store succeeds and keeps it valid; an LRU store keeps
    map size == list length == `size` <= `capacity`.
   */
  lemma StepKeepsValid<K, V>(d: DataStore<K, V>, op: Op<K, V>)
    requires Valid(d)
    ensures Step(d, op).Success? && Valid(Step(d, op).value) && SameKind(d, Step(d, op).value)
    ensures d.LruStore? ==> var s := Step(d, op).value.lru;
      |s.cacheMap| == |LruDataStore.Traverse(s)| == s.size <= s.capacity
  {
    if d.LruStore? {
      var s := d.lru;
      match op
      case PutOp(k, v) =>
        LruRefinement.PutKeepsBound(s, k, v);
      case GetOp(k) =>
        LruRefinement.GetKeepsValid(s, k);
        BoundOf(LruDataStore.Get(s, k).0);
      case RemoveOp(k) =>
        LruRefinement.RemoveUnlinks(s, k);
        BoundOf(LruDataStore.Remove(s, k).0);
      case ClearOp =>
        LruRefinement.ClearKeepsValid(s);
        BoundOf(LruDataStore.Clear(s));
      case ReclaimOp(_) =>
        BoundOf(s);
    }
  }

  /** In a valid linked store, map size == list length == `size` <= `capacity`. */
  lemma BoundOf<K, V>(s: LruDataStore.Store<K, V>)
    requires LruRefinement.Valid(s)
    ensures |s.cacheMap| == |LruDataStore.Traverse(s)| == s.size <= s.capacity
  {
    LruSpec.ValidCounts(LruRefinement.Abs(s));
  }

  /**
    Any sequence of operations on a valid store succeeds and leaves it valid and of the
    same strategy; an LRU store never maps more keys than its capacity.
   */
  lemma {:induction false} RunKeepsValid<K, V>(d: DataStore<K, V>, ops: seq<Op<K, V>>)
    requires Valid(d)
    ensures Run(d, ops).Success? && Valid(Run(d, ops).value) && SameKind(d, Run(d, ops).value)
    ensures d.LruStore? ==> |Keys(Run(d, ops).value)| <= d.lru.capacity
    decreases |ops|
  {
    if |ops| == 0 {
      if d.LruStore? {
        BoundOf(d.lru);
      }
    } else {
      StepKeepsValid(d, ops[0]);
      RunKeepsValid(Step(d, ops[0]).value, ops[1..]);
    }
  }

  /**
    The map stores have no capacity and no eviction: a mapped key stays mapped through
    every operation that does not put, remove or clear it, and reads what it read or,
    once the collector has cleared it, null. A basic store keeps the very same holder.
   */
  lemma {:induction false} Retains<K, V>(d: DataStore<K, V>, k: K, ops: seq<Op<K, V>>)
    requires !d.LruStore? && k in Keys(d)
    requires forall i | 0 <= i < |ops| :: !Touches(ops[i], k)
    ensures Run(d, ops).Success? && k in Keys(Run(d, ops).value)
    ensures Read(HolderAt(Run(d, ops).value, k)) in {Read(HolderAt(d, k)), None}
    ensures d.BasicStore? ==> HolderAt(Run(d, ops).value, k) == HolderAt(d, k)
    decreases |ops|
  {
    if |ops| > 0 {
      assert !Touches(ops[0], k);
      var d1 := Step(d, ops[0]).value;
      assert k in Keys(d1) && Read(HolderAt(d1, k)) in {Read(HolderAt(d, k)), None};
      assert d.BasicStore? ==> HolderAt(d1, k) == HolderAt(d, k);
      assert forall i | 0 <= i < |ops[1..]| :: !Touches(ops[1..][i], k) by {
        forall i | 0 <= i < |ops[1..]|
          ensures !Touches(ops[1..][i], k)
        {
          assert ops[1..][i] == ops[i + 1];
        }
      }
      Retains(d1, k, ops[1..]);
    }
  }

  /** On a basic store, a key put with `v` reads `v` after any operations that leave it alone. */
  lemma BasicKeepsPut<K, V>(b: BasicDataStore.Store<K, V>, k: K, v: Option<V>, ops: seq<Op<K, V>>)
    requires forall i | 0 <= i < |ops| :: !Touches(ops[i], k)
    ensures Run(BasicStore(b), [PutOp(k, v)] + ops).Success?
    ensures var d := Run(BasicStore(b), [PutOp(k, v)] + ops).value;
      Get(d, k).1.Some? && Read(Get(d, k).1.value) == v
  {
    var d1 := Put(BasicStore(b), k, v).value;
    assert ([PutOp(k, v)] + ops)[1..] == ops;
    Retains(d1, k, ops);
  }

  /**
    The weak store may lose a value with no `remove`: after `put(k, v)` and a collection
    at `k`, `get(k)` still finds the holder, but it reads null. The basic store keeps `v`.
   */
  lemma CollectedMisses<K, V>(w: WeakRefDataStore.Store<K, V>, b: BasicDataStore.Store<K, V>, k: K, v: V)
    ensures Run(WeakStore(w), [PutOp(k, Some(v)), ReclaimOp(k)]).Success?
    ensures var d := Run(WeakStore(w), [PutOp(k, Some(v)), ReclaimOp(k)]).value;
      Get(d, k).1.Some? && Read(Get(d, k).1.value) == None
    ensures Run(BasicStore(b), [PutOp(k, Some(v)), ReclaimOp(k)]).Success?
    ensures var d := Run(BasicStore(b), [PutOp(k, Some(v)), ReclaimOp(k)]).value;
      Get(d, k).1.Some? && Read(Get(d, k).1.value) == Some(v)
  {
    var ops: seq<Op<K, V>> := [PutOp(k, Some(v)), ReclaimOp(k)];
    assert ops[0] == PutOp(k, Some(v)) && ops[1..] == [ReclaimOp(k)];
    var rest: seq<Op<K, V>> := [ReclaimOp(k)];
    assert rest[0] == ReclaimOp(k) && rest[1..] == [];
    var w1 := Put(WeakStore(w), k, Some(v)).value;
    assert Run(w1, ops[1..]) == Success(Collect(w1, k));
    assert Run(WeakStore(w), ops) == Success(Collect(w1, k));
    var b1 := Put(BasicStore(b), k, Some(v)).value;
    assert Run(b1, ops[1..]) == Success(Collect(b1, k));
    assert Run(BasicStore(b), ops) == Success(b1);
  }

  /** The abstract LRU store after one operation. */
  function AbsStep<K, V>(a: LruSpec.Lru<K, V>, op: Op<K, V>): Result<LruSpec.Lru<K, V>, Fault>
  {
    match op
    case PutOp(k, v) => LruSpec.Put(a, k, v)
    case GetOp(k) => Success(LruSpec.Get(a, k).0)
    case RemoveOp(k) => Success(LruSpec.Remove(a, k).0)
    case ClearOp => Success(LruSpec.Clear(a))
    case ReclaimOp(_) => Success(a)
  }

  /** The abstract LRU store after a sequence of operations, or the first fault. */
  function AbsRun<K, V>(a: LruSpec.Lru<K, V>, ops: seq<Op<K, V>>): Result<LruSpec.Lru<K, V>, Fault>
    decreases |ops|
  {
    if |ops| == 0 then Success(a)
    else
      match AbsStep(a, ops[0])
      case Success(a1) => AbsRun(a1, ops[1..])
      case Failure(e) => Failure(e)
  }

  /**
    A linked LRU store takes each step as the abstract store does: it faults exactly when
    the abstract step faults, and otherwise stays linked and stands for the abstract result.
   */
  lemma LruStepRefines<K, V>(s: LruDataStore.Store<K, V>, op: Op<K, V>)
    requires LruDataStore.Linked(s)
    ensures Step(LruStore(s), op).Success? <==> AbsStep(LruRefinement.Abs(s), op).Success?
    ensures Step(LruStore(s), op).Success? ==> var d := Step(LruStore(s), op).value;
      && d.LruStore? && LruDataStore.Linked(d.lru)
      && LruRefinement.Abs(d.lru) == AbsStep(LruRefinement.Abs(s), op).value
  {
    match op
    case PutOp(k, v) =>
      LruRefinement.PutRefines(s, k, v);
    case GetOp(k) =>
      LruRefinement.GetRefines(s, k);
    case RemoveOp(k) =>
      LruRefinement.RemoveRefines(s, k);
    case ClearOp =>
      LruRefinement.ClearRefines(s);
    case ReclaimOp(_) =>
  }

  /**
    A linked LRU store runs any sequence of operations as the abstract store does: it
    faults exactly when the abstract run faults, and otherwise ends linked, standing for
    the abstract result.
   */
  lemma {:induction false} LruRunRefines<K, V>(s: LruDataStore.Store<K, V>, ops: seq<Op<K, V>>)
    requires LruDataStore.Linked(s)
    ensures Run(LruStore(s), ops).Success? <==> AbsRun(LruRefinement.Abs(s), ops).Success?
    ensures Run(LruStore(s), ops).Success? ==> var d := Run(LruStore(s), ops).value;
      && d.LruStore? && LruDataStore.Linked(d.lru)
      && LruRefinement.Abs(d.lru) == AbsRun(LruRefinement.Abs(s), ops).value
    decreases |ops|
  {
    if |ops| > 0 {
      LruStepRefines(s, ops[0]);
      if Step(LruStore(s), ops[0]).Success? {
        LruRunRefines(Step(LruStore(s), ops[0]).value.lru, ops[1..]);
      }
    }
  }

  /** The operations of the LRU scenario: put `a`, put `b`, get `a`, put `c`. */
  function Scenario<K, V>(a: K, b: K, c: K, x: V, y: V, z: V): seq<Op<K, V>>
  {
    [PutOp(a, Some(x)), PutOp(b, Some(y)), GetOp(a), PutOp(c, Some(z))]
  }

  /** The scenario on the abstract store: `b` is evicted, `a` and `c` remain, most recent first. */
  lemma AbsScenario<K, V>(a: K, b: K, c: K, x: V, y: V, z: V)
    requires a != b && b != c && a != c
    ensures AbsRun(LruSpec.Empty(2), Scenario(a, b, c, x, y, z))
         == Success(LruSpec.Lru([c, a], map[a := NewBasic(Some(x)), c := NewBasic(Some(z))], 2, 2))
  {
    var ha, hb, hc := NewBasic(Some(x)), NewBasic(Some(y)), NewBasic(Some(z));
    var ops := Scenario(a, b, c, x, y, z);
    var a1 := LruSpec.Lru([a], map[a := ha], 1, 2);
    var a2 := LruSpec.Lru([b, a], map[a := ha, b := hb], 2, 2);
    var a3 := LruSpec.Lru([a, b], map[a := ha, b := hb], 2, 2);
    var a4 := LruSpec.Lru([c, a], map[a := ha, c := hc], 2, 2);
    assert ops[0] == PutOp(a, Some(x)) && ops[1] == PutOp(b, Some(y));
    assert ops[2] == GetOp(a) && ops[3] == PutOp(c, Some(z));
    assert AbsStep(LruSpec.Empty(2), ops[0]) == Success(a1) by {
      assert [a] + [] == [a];
    }
    assert AbsStep(a1, ops[1]) == Success(a2) by {
      assert [b] + [a] == [b, a];
    }
    assert AbsStep(a2, ops[2]) == Success(a3) by {
      assert Recency.Without([b, a], a) == [b] by {
        assert [b, a][1..] == [a];
        assert Recency.Without([a], a) == [];
      }
      assert [a] + [b] == [a, b];
    }
    assert AbsStep(a3, ops[3]) == Success(a4) by {
      assert [c] + [a, b][..1] == [c, a];
      assert (map[a := ha, b := hb] - {b})[c := hc] == map[a := ha, c := hc];
    }
    assert AbsRun(a3, ops[3..]) == Success(a4);
    assert AbsRun(a2, ops[2..]) == Success(a4);
    assert AbsRun(a1, ops[1..]) == Success(a4);
  }

  /**
    A capacity-2 LRU store after put `a`, put `b`, get `a`, put `c` (three distinct keys):
    the get made `b` the least recently used, so the last put evicted it; `a` and `c` hit
    with their values and `b` misses.
   */
  lemma LruScenario<K, V>(a: K, b: K, c: K, x: V, y: V, z: V)
    requires a != b && b != c && a != c
    ensures Run(LruStore(LruDataStore.New(2)), Scenario(a, b, c, x, y, z)).Success?
    ensures var d := Run(LruStore(LruDataStore.New(2)), Scenario(a, b, c, x, y, z)).value;
      && Keys(d) == {a, c}
      && Get(d, a).1.Some? && Read(Get(d, a).1.value) == Some(x)
      && Get(d, c).1.Some? && Read(Get(d, c).1.value) == Some(z)
      && Get(d, b).1 == None
  {
    var ops := Scenario(a, b, c, x, y, z);
    var s0 := LruDataStore.New<K, V>(2);
    var h := map[a := NewBasic(Some(x)), c := NewBasic(Some(z))];
    assert Run(LruStore(s0), ops).Success? && LruDataStore.Holders(Run(LruStore(s0), ops).value.lru.cacheMap) == h by {
      LruRefinement.NewRefines<K, V>(2);
      LruRunRefines(s0, ops);
      AbsScenario(a, b, c, x, y, z);
    }
    var d := Run(LruStore(s0), ops).value;
    assert Keys(d) == {a, c};
    assert HolderAt(d, a) == h[a] && HolderAt(d, c) == h[c];
  }
}
