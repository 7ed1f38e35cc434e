# SimpleCache storage layer in Dafny

This project models the storage-strategy layer of SimpleCache, a small in-process
key-value cache. The layer is the `DataStore` contract (`get`, `put`, `remove`, `clear`)
and its three strategies:

- `BasicDataStore`: an unbounded map of strong `BasicValueHolder`s. It serves as the
  reference map semantics.
- `WeakRefDataStore`: the same map, but with `WeakRefValueHolder`s. The memory manager
  may clear their referents.
- `LRUDataStore`: a capacity-bounded map whose `LRUEntry` nodes are threaded on a doubly
  linked recency list. `first` is the most recently used node and `last` the least.

Modules, one per file:

- `Wrappers` (`wrappers.dfy`): `Option` stands in for Java null, and `Result` with
  `Fault.NullPointerException` for a dereference of null.
- `ValueHolder` (`value_holder.dfy`): basic and weak holders, their `value()`, and
  `Reclaim`, the collector's step, taken explicitly.
- `BasicDataStore` (`basic_data_store.dfy`): the map store and its meaning `Contents`,
  a map from key to the value read.
- `WeakRefDataStore` (`weak_ref_data_store.dfy`): the weak store. `Approximates` relates
  it to a basic store that saw the same operations.
- `Recency` (`recency.dfy`): recency orders as `seq<K>`, most recent first. It defines
  `Without`, `Promote`, and the neighbour functions `NextIn`/`PrevIn`, plus the splice
  lemmas about them.
- `LruSpec` (`lru_spec.dfy`): the abstract LRU store. It holds an order, a key-to-holder
  map, `size` and `capacity`.
- `LruDataStore` (`lru_data_store.dfy`): the linked LRU store as the source builds it.
  - A reference to a node is written as the node's key, and null is `None`.
  - `moveToFirst`, `removeLast` and every pointer assignment become map updates.
  - `Threads(s, order)` says the links thread exactly `order`. Node keys, `preEntry` and
    `nextEntry` agree with `order`, and `first`/`last` are its ends.
  - `Traverse` reads the order off the links. `Linked(s)` is `Threads(s, Traverse(s))`.
- `LruRefinement` (`lru_refinement.dfy`): the abstraction from the linked store to
  `LruSpec`. Every linked operation refines the abstract one.
- `DataStore` (`data_store.dfy`): the contract as a tagged datatype over the three
  strategies, with uniform contracts.
  - `Run` executes a sequence of operations. The sequence may include `ReclaimOp`, the
    collector's step, between any two operations.
  - The LRU invariant and capacity bound are kept along any run.
  - The capacity-2 scenario of the repository's test is proved for any three distinct
    keys.

### Edge cases and corrected operations

- **Capacity 0.** With capacity 0 the first `put` of an absent key reaches the eviction
  branch with a null `last` and throws. The model reproduces this behaviour of the code:
  `put` returns `Failure(NullPointerException)` there
  (`LruDataStore.ZeroCapacityFaults`). The invariant lemmas require `capacity >= 1`.
- **Corrected `remove` and `clear`.** The dispatcher `DataStore` uses the corrected
  `remove` of the weak store and the corrected `clear` of the LRU store. The versions as
  written are modelled beside them and stated under "## Findings".

## Model

| member | source | states |
|---|---|---|
| ValueHolder.Read | src/main/java/store/value/WeakRefValueHolder.java:17-23 | `value()`: a basic holder yields its value (BasicValueHolder.java:12-16); a weak holder yields null exactly when it was built from null or its referent was cleared, and the referent otherwise. Its round trips with the constructors are stated by `NewBasic` and `NewWeak` |
| ValueHolder.NewBasic | src/main/java/store/value/BasicValueHolder.java:5-16 | a basic holder reads back exactly the value given, null included, and collection never affects it |
| ValueHolder.NewWeak | src/main/java/store/value/WeakRefValueHolder.java:9-23 | a weak holder reads the value given; it has no reference exactly when built from null; once collected it reads null |
| ValueHolder.Reclaim | src/main/java/store/value/WeakRefValueHolder.java:17-23 | collection leaves a basic holder unchanged and makes a weak holder read null, keeping whether it had a reference |
| ValueHolder.ReadAfterReclaims | src/main/java/store/value/WeakRefValueHolder.java:9-23 | after any number of collections a weak holder built from `v` reads `v` or null, never another value; one built from null reads null; a basic holder always reads `v` |
| BasicDataStore.New | src/main/java/store/BasicDataStore.java:11 | a new store maps nothing and is valid (every holder basic) |
| BasicDataStore.Get | src/main/java/store/BasicDataStore.java:13-17 | a hit exactly when the key is mapped, returning its holder, which reads the reference map's value |
| BasicDataStore.Put | src/main/java/store/BasicDataStore.java:19-23 | the key is added to the key set and reads the value put (null accepted); every other key keeps its holder |
| BasicDataStore.Remove | src/main/java/store/BasicDataStore.java:25-29 | returns what `get` returned before; the key alone leaves the key set; the other holders are unchanged |
| BasicDataStore.Clear | src/main/java/store/BasicDataStore.java:31-35 | the store equals a freshly constructed one |
| BasicDataStore.PutRefinesMap | src/main/java/store/BasicDataStore.java:19-23 | `put` is the reference map update `Contents[k := v]`, and `get` afterwards reads `v` |
| BasicDataStore.RemoveRefinesMap | src/main/java/store/BasicDataStore.java:25-29 | `remove` is the reference map deletion, and `get` afterwards is null |
| BasicDataStore.PutOverwrites | src/main/java/store/BasicDataStore.java:19-23 | a second `put` on a key gives the same store as the second `put` alone |
| BasicDataStore.OthersUnchanged | src/main/java/store/BasicDataStore.java:19-29 | `put` and `remove` on one key leave every other key's `get` as it was |
| BasicDataStore.ClearMisses | src/main/java/store/BasicDataStore.java:31-35 | after `clear` every `get` is null and the reference map is empty |
| WeakRefDataStore.New | src/main/java/store/WeakRefDataStore.java:11 | a new store maps nothing and is valid (every holder weak) |
| WeakRefDataStore.Get | src/main/java/store/WeakRefDataStore.java:13-17 | a hit exactly when the key is mapped, returning the mapped holder even when it was collected |
| WeakRefDataStore.Put | src/main/java/store/WeakRefDataStore.java:19-23 | the key maps to a fresh weak holder reading the value put (no reference for null); other keys keep their holders |
| WeakRefDataStore.RemoveAsWritten | src/main/java/store/WeakRefDataStore.java:25-29 | returns the mapped holder or null and leaves the map exactly as it was |
| WeakRefDataStore.Remove | src/main/java/store/WeakRefDataStore.java:25-29 | the corrected `remove`: returns the mapped holder or null, and unmaps the key alone |
| WeakRefDataStore.Clear | src/main/java/store/WeakRefDataStore.java:31-35 | the store equals a freshly constructed one |
| WeakRefDataStore.Reclaim | src/main/java/store/value/WeakRefValueHolder.java:22 | the collector's step keeps the key set and every other holder, and makes the chosen weak holder read null |
| WeakRefDataStore.OperationsApproximate | src/main/java/store/WeakRefDataStore.java:13-35 | the weak store approximates the basic store (same keys, each key reads the basic value or null) from construction on, across `put`, corrected `remove`, `clear` and collection, and hits exactly where it does |
| WeakRefDataStore.ReclaimAllApproximates | src/main/java/store/WeakRefDataStore.java:13-17 | any amount of collection keeps the approximation and the key set |
| WeakRefDataStore.ReclaimAllReads | src/main/java/store/value/WeakRefValueHolder.java:17-23 | through any collection a weak key stays mapped and reads its old value or null |
| WeakRefDataStore.StaysNull | src/main/java/store/value/WeakRefValueHolder.java:17-23 | a key reading null stays mapped and null through any collection |
| WeakRefDataStore.PutThenReclaims | src/main/java/store/WeakRefDataStore.java:13-23 | after `put(k, v)` and any collection, `get(k)` returns a holder reading `v` or null, and null when `v` is null |
| WeakRefDataStore.RemoveAsWrittenKeeps | src/main/java/store/WeakRefDataStore.java:25-29 | after the source's `remove`, `get` still returns the holder it returned, and a mapped key stays mapped |
| WeakRefDataStore.RemoveAsWrittenDiverges | src/main/java/store/WeakRefDataStore.java:25-29 | the source's `remove` breaks the approximation of the basic store on a mapped key, while the corrected one leaves `get` null |
| WeakRefDataStore.ClearMisses | src/main/java/store/WeakRefDataStore.java:31-35 | after `clear` every `get` is null |
| Recency.Splice | src/main/java/store/LRUDataStore.java:94-101 | splicing a key out of a duplicate-free order joins its two neighbours, keeps every other key's neighbours, and moves the head or tail only when the key was one |
| Recency.PromoteShape | src/main/java/store/LRUDataStore.java:129-152 | promotion keeps the order duplicate-free, adds only the promoted key, keeps the length of an order containing it, and keeps the relative order of the others |
| LruSpec.Empty | src/main/java/store/LRUDataStore.java:30-33 | a new store is empty, with `size` 0 and the given capacity, and valid for non-negative capacity |
| LruSpec.ValidCounts | src/main/java/store/LRUDataStore.java:15-28 | in a valid store map size == list length == `size` <= `capacity` |
| LruSpec.Get | src/main/java/store/LRUDataStore.java:37-50 | a hit exactly when mapped, returning the key's holder with the key at the head; a miss changes nothing; holders and counts never change |
| LruSpec.GetPromotes | src/main/java/store/LRUDataStore.java:37-50 | a hit keeps the store well formed and the order's length, and the other keys' relative order is unchanged |
| LruSpec.GetHeadIdempotent | src/main/java/store/LRUDataStore.java:131-132 | a hit on the head key leaves the store untouched, once and twice |
| LruSpec.GetPreservesValid | src/main/java/store/LRUDataStore.java:37-50 | every `get` keeps the store valid |
| LruSpec.Put | src/main/java/store/LRUDataStore.java:53-81 | faults exactly for an absent key at `size >= capacity` with an empty list; otherwise the key heads the order and reads `v`. An update keeps `size` and the other holders; an insertion below capacity adds the key and increments `size` |
| LruSpec.PutEvictsTail | src/main/java/store/LRUDataStore.java:60-70 | a new key in a full store evicts exactly the tail key, from both map and order; the other holders and `size` stay, and the order is the new key then the old order without the tail |
| LruSpec.PutPreservesValid | src/main/java/store/LRUDataStore.java:53-81 | with capacity at least 1, `put` on a valid store never faults and keeps map size == list length == `size` <= `capacity` |
| LruSpec.Remove | src/main/java/store/LRUDataStore.java:85-109 | returns the key's holder or null; the key leaves the map; `size` drops by one exactly when it was present; an absent key changes nothing |
| LruSpec.RemovePreservesValid | src/main/java/store/LRUDataStore.java:85-109 | `remove` keeps the store valid |
| LruSpec.ClearAsWritten | src/main/java/store/LRUDataStore.java:112-117 | `clear` as written empties map and order but keeps `size` |
| LruSpec.Clear | src/main/java/store/LRUDataStore.java:112-117 | the corrected `clear` returns the store to its freshly constructed state |
| LruSpec.StaleSizeBreaksPut | src/main/java/store/LRUDataStore.java:60-63 | after the source's `clear` of a full store, the next `put` of any key dereferences the null `last` |
| LruSpec.ClearResets | src/main/java/store/LRUDataStore.java:112-117 | after the corrected `clear`, the store is valid, every key misses, and the next `put` succeeds |
| LruDataStore.New | src/main/java/store/LRUDataStore.java:30-33 | a new linked store is empty, with `size` 0, and its links thread the empty order |
| LruDataStore.SetNext | src/main/java/store/LRUDataStore.java:134-137 | `node.nextEntry = to` changes that one field of that one node |
| LruDataStore.SetPrev | src/main/java/store/LRUDataStore.java:134-137 | `node.preEntry = to` changes that one field of that one node |
| LruDataStore.Unlink | src/main/java/store/LRUDataStore.java:134-137 | the neighbour repair shared with `remove` (lines 94-97); its own contract states only that every node keeps its key and holder. Its effect on the links is stated by `LruDataStore.UnlinkThreads` |
| LruDataStore.MoveToFirst | src/main/java/store/LRUDataStore.java:129-152 | relinking keeps every node's key and holder, makes the key `first`, and keeps `size` and `capacity` |
| LruDataStore.RemoveLast | src/main/java/store/LRUDataStore.java:154-164 | stepping `last` back keeps every node's key and holder, `size` and `capacity` |
| LruDataStore.Evict | src/main/java/store/LRUDataStore.java:60-66 | eviction unmaps exactly the `last` node, keeps the other holders, and decrements `size` |
| LruDataStore.LinkNew | src/main/java/store/LRUDataStore.java:67-70 | insertion maps the key to a fresh basic holder at the head, keeps the other holders, and increments `size` |
| LruDataStore.Get | src/main/java/store/LRUDataStore.java:37-50 | a hit exactly when mapped, returning the node's holder with the node now `first`; a miss changes nothing |
| LruDataStore.Put | src/main/java/store/LRUDataStore.java:53-81 | faults exactly for an absent key at `size >= capacity` with a null `last`; otherwise the key is `first` and reads `v`, and no key other than it is added. The other holders are unchanged, and an update keeps `size` and the key set |
| LruDataStore.Remove | src/main/java/store/LRUDataStore.java:85-109 | returns the node's holder or null; unmaps the key alone and keeps the other holders; `size` drops by one exactly when the key was present; an absent key changes nothing |
| LruDataStore.ZeroCapacityFaults | src/main/java/store/LRUDataStore.java:60-63 | `put` on a new store of capacity 0 faults on the null `last` |
| LruDataStore.SizeStaysBounded | src/main/java/store/LRUDataStore.java:60-70 | from any state with `size <= capacity`, the stale `size` after the source's `clear` included, `put`, `get`, `remove` and `clear` keep `size <= capacity` |
| LruDataStore.ClearAsWritten | src/main/java/store/LRUDataStore.java:112-117 | the source's `clear` empties the map and nulls `first`/`last` but keeps `size` |
| LruDataStore.Clear | src/main/java/store/LRUDataStore.java:112-117 | the corrected `clear` yields a freshly constructed store of the same capacity |
| LruDataStore.Acyclic | src/main/java/store/LRUDataStore.java:17-22 | on threaded links, `i` forward hops from `first` reach the i-th key and `i` backward hops from `last` the i-th from the end; the last key is reached from the first and back, and one more hop reaches null, so the list has no cycle |
| LruDataStore.LinksConsistent | src/main/java/store/LRUDataStore.java:166-174 | on threaded links, `nextEntry` and `preEntry` agree, every link names a mapped node, `first`/`last` are null exactly for an empty map, `first` has no `preEntry` and `last` no `nextEntry` |
| LruDataStore.TraverseThreads | src/main/java/store/LRUDataStore.java:17-22 | links threading an order yield exactly that order when followed from `first` |
| LruDataStore.UnlinkThreads | src/main/java/store/LRUDataStore.java:134-137 | the neighbour repair gives every other node the neighbours it has in the order without the key |
| LruDataStore.MoveToFirstThreads | src/main/java/store/LRUDataStore.java:129-152 | `moveToFirst` turns links threading `order` into links threading the promoted order |
| LruDataStore.InsertThreads | src/main/java/store/LRUDataStore.java:67-70 | linking a new node turns links threading `order` into links threading the key followed by `order` |
| LruDataStore.EvictThreads | src/main/java/store/LRUDataStore.java:60-66 | `last` is the order's tail, and eviction leaves links threading the order without its tail |
| LruDataStore.RemoveThreads | src/main/java/store/LRUDataStore.java:85-109 | `remove` turns links threading `order` into links threading the order without the key, from head, tail or interior |
| LruDataStore.UpdateThreads | src/main/java/store/LRUDataStore.java:76 | replacing a node's holder keeps the links threading the same order |
| LruRefinement.NewRefines | src/main/java/store/LRUDataStore.java:30-33 | a new linked store is linked and abstracts to the empty abstract store |
| LruRefinement.GetRefines | src/main/java/store/LRUDataStore.java:37-50 | linked `get` stays linked and agrees with abstract `get` on the state and the result |
| LruRefinement.PutRefines | src/main/java/store/LRUDataStore.java:53-81 | linked `put` faults exactly when abstract `put` does, and otherwise stays linked and abstracts to its result |
| LruRefinement.RemoveRefines | src/main/java/store/LRUDataStore.java:85-109 | linked `remove` stays linked and agrees with abstract `remove` on the state and the result |
| LruRefinement.ClearRefines | src/main/java/store/LRUDataStore.java:112-117 | both versions of linked `clear` stay linked and abstract to their abstract counterparts |
| LruRefinement.PutKeepsBound | src/main/java/store/LRUDataStore.java:53-71 | with capacity at least 1, `put` on a valid linked store never faults and keeps map size == list length == `size` <= `capacity` |
| LruRefinement.PutEvictsLast | src/main/java/store/LRUDataStore.java:60-70 | a new key in a full non-empty store evicts exactly the `last` node; the list becomes the new key followed by the old list without it, and `size` is kept |
| LruRefinement.PutHeads | src/main/java/store/LRUDataStore.java:67-80 | after `put` the key heads the list and reads `v`; an update keeps `size`, the key set and the other keys' relative order |
| LruRefinement.GetPromotesKey | src/main/java/store/LRUDataStore.java:37-50 | a hit returns the node's holder and moves it to the head of a list of the same length, with the other keys' relative order unchanged; a miss returns null and changes nothing |
| LruRefinement.GetFirstIdempotent | src/main/java/store/LRUDataStore.java:131-132 | `get` on the `first` key leaves the store untouched |
| LruRefinement.RemoveUnlinks | src/main/java/store/LRUDataStore.java:85-109 | `remove` keeps the store valid and unmaps the key, leaving the list without it; it returns the holder or null and adjusts `size` by one exactly on a hit; `first` is null exactly when the store is empty |
| LruRefinement.GetKeepsValid | src/main/java/store/LRUDataStore.java:37-50 | `get` keeps the linked store valid |
| LruRefinement.ClearKeepsValid | src/main/java/store/LRUDataStore.java:112-117 | the corrected `clear` leaves a valid store with an empty list |
| LruRefinement.ClearAsWrittenBreaksPut | src/main/java/store/LRUDataStore.java:60-63 | after the source's `clear` of a full store, the next `put` faults on the null `last` |
| LruRefinement.ClearThenPut | src/main/java/store/LRUDataStore.java:112-117 | after the corrected `clear` every key misses and the next `put` succeeds and is valid |
| DataStore.Get | src/main/java/store/DataStore.java:7 | for every strategy, a hit exactly when mapped, returning its holder; keys, holders and the strategy are unchanged |
| DataStore.Put | src/main/java/store/DataStore.java:9 | only the LRU strategy can fault, and only when evicting from an empty list; otherwise the key reads `v` and the other holders are unchanged; basic and weak stores add exactly the key |
| DataStore.Remove | src/main/java/store/DataStore.java:11 | for every strategy, returns the mapped holder or null and unmaps the key alone |
| DataStore.Clear | src/main/java/store/DataStore.java:13 | for every strategy, no key stays mapped |
| DataStore.StepKeepsValid | src/main/java/store/DataStore.java:5-14 | every operation or collection on a valid store succeeds, keeps it valid and of the same strategy, and keeps an LRU store's map size == list length == `size` <= `capacity` |
| DataStore.RunKeepsValid | src/main/java/store/DataStore.java:5-14 | any sequence of operations and collections on a valid store succeeds and stays valid; an LRU store never maps more keys than its capacity |
| DataStore.Retains | src/main/java/store/BasicDataStore.java:11-23 | in a basic or weak store, through any operations and collections that leave a key alone, the key stays mapped and reads its old value or null; a basic store keeps the very same holder |
| DataStore.Collect | src/main/java/store/value/WeakRefValueHolder.java:22 | the collector's step keeps every store's keys and the other holders; a weak holder then reads null, and the basic and LRU stores are unchanged |
| DataStore.CollectedMisses | src/main/java/store/WeakRefDataStore.java:13-23 | after `put(k, v)` and a collection, the weak store's `get(k)` returns a holder reading null, while the basic store's still reads `v` |
| DataStore.BasicKeepsPut | src/main/java/store/BasicDataStore.java:11-23 | in a basic store a value put stays retrievable, exactly, until its key is touched again |
| DataStore.LruStepRefines | src/main/java/store/LRUDataStore.java:37-117 | one linked LRU operation faults exactly when the abstract one does, and otherwise stays linked and abstracts to it |
| DataStore.LruRunRefines | src/main/java/store/LRUDataStore.java:37-117 | a whole sequence of linked LRU operations refines the same sequence on the abstract store |
| DataStore.AbsScenario | src/test/java/SimpleCacheTest.java:18-43 | on the abstract store of capacity 2, put(a), put(b), get(a), put(c) leaves the order c, a with their values |
| DataStore.LruScenario | src/test/java/SimpleCacheTest.java:18-56 | on the linked store of capacity 2, put(a), put(b), get(a), put(c) succeeds; afterwards exactly a and c are mapped and hit with their values, and b misses |

## Left out

- Concurrency: `ConcurrentHashMap`, the store-wide `ReentrantLock`, and the races the
  source leaves open. Examples are the lookup outside the lock in `get`, the holder write
  outside the lock on update, and the map removal after unlock in `remove`. Every
  operation is one atomic step.
- Garbage-collection timing of `java.lang.ref.WeakReference`: replaced by the explicit
  environment step `WeakRefDataStore.Reclaim`. It can be applied to any keys in any order,
  either as `ReclaimAll` or as `ReclaimOp` steps inside a `DataStore` run. The model
  does not track reachability. A referent may be cleared whether or not the caller still
  holds the value.
- The `long` width of `size` and `capacity`: both are unbounded `int`s here, and
  `capacity` is any integer rather than one parsed by `Long.parseLong`. Overflow of
  `size` cannot happen in the source. `size++` is reached only when `size < capacity`, or
  right after the eviction's `size--`. So `size` never passes `capacity`, which is at
  most `Long.MAX_VALUE`. This holds even with the stale `size` left by `clear`
  (`LruDataStore.SizeStaysBounded`).
- Holder identity: holders are values, so a holder returned by `get` is a snapshot. A
  later collection clears the referent of the holder in the store, not of the copy
  already returned. In the source both are the same `WeakRefValueHolder` object. The
  facade reads `value()` as soon as `get` returns
  (src/main/java/cache/SimpleCache.java:54-57), so the difference is not visible through it.
- Null keys: `ConcurrentHashMap` throws on a null key. Keys here are plain values of
  type `K`, so that exception is not modelled.
- `LRUEntry` accessors and setters (`getPreEntry`, `setNextEntry`, `getKey`,
  `setValue`, ...): the model reads and writes the fields directly.
- Eviction order inside `put`: the source deletes the tail from the map before
  `removeLast`. The model unlinks first and then unmaps. The outcome is the same, because
  the detached node keeps its `preEntry`.
- The cache facade, provider and manager: these are not part of this model. The
  strategy factory defaults to the basic store, and the LRU capacity defaults to 32
  (src/main/java/cache/SimpleCacheManager.java:219-239).
- `DataStore.LruScenario`: the repository's test uses the string keys "leo", "liu" and
  "robin". The lemma is stated for any three distinct keys and any values, which covers
  them.
- `DataStore.Valid`: for the LRU strategy it requires `capacity >= 1`. With capacity 0
  the source throws on the first insertion (see above).

## Findings

| source | as written | input that shows it | evidently intended | confidence | as-written member | corrected member |
|---|---|---|---|---|---|---|
| src/main/java/store/LRUDataStore.java:112-117 | `clear` empties the map and nulls `first`/`last` but leaves `size` as it was | capacity 2; put(a), put(b), clear(), put(c): `size` is still 2, so `put` takes the eviction branch and reads `last.key` with `last` null | `clear` also sets `size` to 0, so the store behaves as freshly constructed | high, not executed | LruRefinement.ClearAsWrittenBreaksPut | LruRefinement.ClearThenPut |
| src/main/java/store/WeakRefDataStore.java:25-29 | `remove` returns `cacheMap.get(key)` and never deletes the mapping | put(k, v); remove(k); get(k) still returns the holder | `remove` deletes the mapping like `BasicDataStore.remove` (`cacheMap.remove(key)`) | high, not executed | WeakRefDataStore.RemoveAsWrittenDiverges | WeakRefDataStore.Remove |
