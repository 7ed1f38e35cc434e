/**
  Recency orders: a sequence of keys, most recently used first. This is the abstract
  view of the LRU store's doubly linked list. `NextIn` and `PrevIn` give a key's
  neighbours in the order, i.e. what its `nextEntry` and `preEntry` links must hold.
 */
module Recency {
  import opened Wrappers

  /** No key occurs twice. */
  ghost predicate Distinct<K>(o: seq<K>)
  {
    forall i, j | 0 <= i < j < |o| :: o[i] != o[j]
  }

  /** The head of the order (the most recently used key), if any. */
  function First<K>(o: seq<K>): Option<K>
  {
    if |o| == 0 then None else Some(o[0])
  }

  /** The tail of the order (the least recently used key), if any. */
  function Last<K>(o: seq<K>): Option<K>
  {
    if |o| == 0 then None else Some(o[|o| - 1])
  }

  /** The order with `k` taken out; the other keys keep their relative order. */
  function Without<K(==)>(o: seq<K>, k: K): (r: seq<K>)
    ensures forall x | x in r :: x in o && x != k
    ensures forall x | x in o && x != k :: x in r
    ensures |r| <= |o|
  {
    if |o| == 0 then []
    else if o[0] == k then Without(o[1..], k)
    else [o[0]] + Without(o[1..], k)
  }

  /** The order after `k` is used: `k` at the head, everything else as before. */
  function Promote<K(==)>(o: seq<K>, k: K): seq<K>
  {
    [k] + Without(o, k)
  }

  /** The key that follows `k` (towards the least recently used end). */
  function NextIn<K(==)>(o: seq<K>, k: K): Option<K>
  {
    if |o| == 0 then None
    else if o[0] == k then First(o[1..])
    else NextIn(o[1..], k)
  }

  /** The key that precedes `k` (towards the most recently used end). */
  function PrevIn<K(==)>(o: seq<K>, k: K): Option<K>
  {
    if |o| < 2 || o[0] == k then None
    else if o[1] == k then Some(o[0])
    else PrevIn(o[1..], k)
  }

  /** Taking out an absent key changes nothing. */
  lemma {:induction false} WithoutAbsent<K>(o: seq<K>, k: K)
    requires k !in o
    ensures Without(o, k) == o
  {
    if |o| > 0 {
      assert o[1..] + [] == o[1..];
      WithoutAbsent(o[1..], k);
      assert o == [o[0]] + o[1..];
    }
  }

  /** Taking a key out keeps the order duplicate-free and shortens it by one exactly when the key was there. */
  lemma {:induction false} WithoutDistinct<K>(o: seq<K>, k: K)
    requires Distinct(o)
    ensures Distinct(Without(o, k))
    ensures k in o ==> |Without(o, k)| == |o| - 1
    ensures k !in o ==> |Without(o, k)| == |o|
  {
    if |o| > 0 {
      assert Distinct(o[1..]) by {
        forall i, j | 0 <= i < j < |o[1..]| ensures o[1..][i] != o[1..][j] {
          assert o[1..][i] == o[i + 1] && o[1..][j] == o[j + 1];
        }
      }
      WithoutDistinct(o[1..], k);
      assert o[0] !in o[1..] by {
        forall j | 0 <= j < |o[1..]| ensures o[1..][j] != o[0] {
          assert o[1..][j] == o[j + 1];
        }
      }
      if o[0] != k {
        var w := Without(o[1..], k);
        forall i, j | 0 <= i < j < |[o[0]] + w| ensures ([o[0]] + w)[i] != ([o[0]] + w)[j] {
          if i == 0 {
            assert ([o[0]] + w)[j] == w[j - 1];
            assert w[j - 1] in w;
          } else {
            assert ([o[0]] + w)[i] == w[i - 1] && ([o[0]] + w)[j] == w[j - 1];
          }
        }
      }
    }
  }

  /** The tail of a duplicate-free order is duplicate-free and does not contain the head. */
  lemma DistinctTail<K>(o: seq<K>)
    requires Distinct(o) && |o| > 0
    ensures Distinct(o[1..]) && o[0] !in o[1..]
  {
    assert Distinct(o[1..]) by {
      forall i, j | 0 <= i < j < |o[1..]| ensures o[1..][i] != o[1..][j] {
        assert o[1..][i] == o[i + 1] && o[1..][j] == o[j + 1];
      }
    }
    forall j | 0 <= j < |o[1..]| ensures o[1..][j] != o[0] {
      assert o[1..][j] == o[j + 1];
    }
  }

  /** Neighbours of a key at a known position: the keys just after and just before it. */
  lemma {:induction false} NeighboursAt<K>(o: seq<K>, i: int)
    requires Distinct(o) && 0 <= i < |o|
    ensures NextIn(o, o[i]) == if i + 1 < |o| then Some(o[i + 1]) else None
    ensures PrevIn(o, o[i]) == if i == 0 then None else Some(o[i - 1])
  {
    if i > 0 {
      DistinctTail(o);
      assert o[i] == o[1..][i - 1];
      NeighboursAt(o[1..], i - 1);
      assert o[0] != o[i];
      if i >= 2 {
        assert o[1] != o[i];
      }
    }
  }

  /** A key not in the order has no neighbours. */
  lemma {:induction false} NeighboursAbsent<K>(o: seq<K>, k: K)
    requires k !in o
    ensures NextIn(o, k) == None && PrevIn(o, k) == None
  {
    if |o| > 0 {
      assert k !in o[1..] by {
        forall j | 0 <= j < |o[1..]| ensures o[1..][j] != k {
          assert o[1..][j] == o[j + 1];
        }
      }
      NeighboursAbsent(o[1..], k);
      if |o| >= 2 {
        assert o[1] == o[1..][0];
      }
    }
  }

  /** The position of a key that occurs in the order. */
  lemma IndexOf<K>(o: seq<K>, k: K) returns (i: int)
    requires k in o
    ensures 0 <= i < |o| && o[i] == k
  {
    i :| 0 <= i < |o| && o[i] == k;
  }

  /** Whatever the links name lies in the order, and no key is its own neighbour. */
  lemma NeighboursInOrder<K>(o: seq<K>, k: K)
    requires Distinct(o)
    ensures NextIn(o, k).Some? ==> k in o && NextIn(o, k).value in o && NextIn(o, k).value != k
    ensures PrevIn(o, k).Some? ==> k in o && PrevIn(o, k).value in o && PrevIn(o, k).value != k
  {
    if k in o {
      var i := IndexOf(o, k);
      NeighboursAt(o, i);
    } else {
      NeighboursAbsent(o, k);
    }
  }

  /** The two directions agree: `y` follows `x` exactly when `x` precedes `y`. */
  lemma LinksAgree<K>(o: seq<K>, x: K, y: K)
    requires Distinct(o)
    ensures NextIn(o, x) == Some(y) <==> PrevIn(o, y) == Some(x)
  {
    NeighboursInOrder(o, x);
    NeighboursInOrder(o, y);
    if x in o && y in o {
      var i := IndexOf(o, x);
      var j := IndexOf(o, y);
      NeighboursAt(o, i);
      NeighboursAt(o, j);
    }
  }

  /** Only the head lacks a predecessor and only the tail lacks a successor. */
  lemma Ends<K>(o: seq<K>, k: K)
    requires Distinct(o) && k in o
    ensures PrevIn(o, k) == None <==> First(o) == Some(k)
    ensures NextIn(o, k) == None <==> Last(o) == Some(k)
  {
    var i := IndexOf(o, k);
    NeighboursAt(o, i);
  }

  /** Positions in the order once the key at position `j` is taken out. */
  lemma {:induction false} WithoutAt<K>(o: seq<K>, j: int)
    requires Distinct(o) && 0 <= j < |o|
    ensures Without(o, o[j]) == o[..j] + o[j + 1..]
  {
    if j == 0 {
      DistinctTail(o);
      WithoutAbsent(o[1..], o[0]);
    } else {
      DistinctTail(o);
      assert o[j] == o[1..][j - 1];
      WithoutAt(o[1..], j - 1);
      assert o[0] != o[j];
      assert o[1..][..j - 1] + o[1..][j..] == o[1..j] + o[j + 1..];
      assert [o[0]] + (o[1..j] + o[j + 1..]) == o[..j] + o[j + 1..];
    }
  }

  /** Taking out the tail key is dropping the last position. */
  lemma WithoutLast<K>(o: seq<K>)
    requires Distinct(o) && |o| > 0
    ensures Without(o, o[|o| - 1]) == o[..|o| - 1]
  {
    WithoutAt(o, |o| - 1);
    assert o[|o|..] == [];
    assert o[..|o| - 1] + [] == o[..|o| - 1];
  }

  /**
    How links change when `k` is spliced out: the keys around `k` become neighbours,
    and every other key keeps its neighbours. The head and tail move only if `k` was one.
   */
  lemma Splice<K>(o: seq<K>, k: K)
    requires Distinct(o)
    ensures forall x | x != k ::
      && NextIn(Without(o, k), x) == (if NextIn(o, x) == Some(k) then NextIn(o, k) else NextIn(o, x))
      && PrevIn(Without(o, k), x) == (if PrevIn(o, x) == Some(k) then PrevIn(o, k) else PrevIn(o, x))
    ensures First(Without(o, k)) == if First(o) == Some(k) then NextIn(o, k) else First(o)
    ensures Last(Without(o, k)) == if Last(o) == Some(k) then PrevIn(o, k) else Last(o)
  {
    if k !in o {
      WithoutAbsent(o, k);
      NeighboursAbsent(o, k);
      forall x | x != k
        ensures NextIn(o, x) != Some(k) && PrevIn(o, x) != Some(k)
      {
        NeighboursInOrder(o, x);
      }
    } else {
      var j := IndexOf(o, k);
      NeighboursAt(o, j);
      WithoutAt(o, j);
      WithoutDistinct(o, k);
      var w := Without(o, k);
      forall x | x != k
        ensures NextIn(w, x) == (if NextIn(o, x) == Some(k) then NextIn(o, k) else NextIn(o, x))
        ensures PrevIn(w, x) == (if PrevIn(o, x) == Some(k) then PrevIn(o, k) else PrevIn(o, x))
      {
        if x in o {
          SpliceNeighbour(o, j, x);
        } else {
          NeighboursAbsent(o, x);
          NeighboursAbsent(w, x);
        }
      }
    }
  }

  /** Splicing out the key at position `j`: a remaining key's neighbours. */
  lemma SpliceNeighbour<K>(o: seq<K>, j: int, x: K)
    requires Distinct(o) && 0 <= j < |o| && x in o && x != o[j]
    ensures NextIn(Without(o, o[j]), x) == (if NextIn(o, x) == Some(o[j]) then NextIn(o, o[j]) else NextIn(o, x))
    ensures PrevIn(Without(o, o[j]), x) == (if PrevIn(o, x) == Some(o[j]) then PrevIn(o, o[j]) else PrevIn(o, x))
  {
    var i := IndexOf(o, x);
    SpliceNext(o, j, i);
    SplicePrev(o, j, i);
    NeighboursAt(o, i);
    assert NextIn(o, x) == Some(o[j]) <==> i + 1 == j by {
      if i + 1 < |o| && i + 1 != j {
        assert o[i + 1] != o[j];
      }
    }
    assert PrevIn(o, x) == Some(o[j]) <==> i == j + 1 by {
      if i > 0 && i != j + 1 {
        assert o[i - 1] != o[j];
      }
    }
  }

  /** The successor of position `i` once position `j` is spliced out. */
  lemma SpliceNext<K>(o: seq<K>, j: int, i: int)
    requires Distinct(o) && 0 <= j < |o| && 0 <= i < |o| && i != j
    ensures NextIn(Without(o, o[j]), o[i]) == if i + 1 == j then NextIn(o, o[j]) else NextIn(o, o[i])
  {
    var w := Without(o, o[j]);
    WithoutDistinct(o, o[j]);
    var i' := if i < j then i else i - 1;
    WithoutIndex(o, j, i');
    assert w[i'] == o[i];
    NeighboursAt(w, i');
    if i + 1 == j {
      NeighboursAt(o, j);
      if j + 1 < |o| {
        WithoutIndex(o, j, j);
        assert NextIn(w, o[i]) == Some(o[j + 1]);
      } else {
        assert NextIn(w, o[i]) == None;
      }
    } else {
      NeighboursAt(o, i);
      if i + 1 < |o| {
        WithoutIndex(o, j, i' + 1);
        assert w[i' + 1] == o[i + 1];
      }
    }
  }

  /** The predecessor of position `i` once position `j` is spliced out. */
  lemma SplicePrev<K>(o: seq<K>, j: int, i: int)
    requires Distinct(o) && 0 <= j < |o| && 0 <= i < |o| && i != j
    ensures PrevIn(Without(o, o[j]), o[i]) == if i == j + 1 then PrevIn(o, o[j]) else PrevIn(o, o[i])
  {
    var w := Without(o, o[j]);
    WithoutDistinct(o, o[j]);
    NeighboursAt(o, j);
    NeighboursAt(o, i);
    var i' := if i < j then i else i - 1;
    WithoutIndex(o, j, i');
    NeighboursAt(w, i');
    if i' > 0 {
      WithoutIndex(o, j, i' - 1);
    }
  }

  /** Position `m` of the order with position `j` spliced out. */
  lemma WithoutIndex<K>(o: seq<K>, j: int, m: int)
    requires Distinct(o) && 0 <= j < |o| && 0 <= m < |o| - 1
    ensures |Without(o, o[j])| == |o| - 1
    ensures Without(o, o[j])[m] == if m < j then o[m] else o[m + 1]
  {
    WithoutAt(o, j);
    if m < j {
      assert (o[..j] + o[j + 1..])[m] == o[..j][m];
    } else {
      assert (o[..j] + o[j + 1..])[m] == o[j + 1..][m - j];
    }
  }

  /** A promoted order: duplicate-free, same keys plus `k`, `k` at the head, the rest in their old relative order. */
  lemma PromoteShape<K>(o: seq<K>, k: K)
    requires Distinct(o)
    ensures Distinct(Promote(o, k))
    ensures forall x | x in Promote(o, k) :: x in o || x == k
    ensures forall x | x in o :: x in Promote(o, k)
    ensures k in o ==> |Promote(o, k)| == |o|
    ensures k !in o ==> Promote(o, k) == [k] + o
    ensures Without(Promote(o, k), k) == Without(o, k)
  {
    var w := Without(o, k);
    WithoutDistinct(o, k);
    if k !in o {
      WithoutAbsent(o, k);
    }
    var p := [k] + w;
    forall i, j | 0 <= i < j < |p| ensures p[i] != p[j] {
      assert p[j] == w[j - 1];
      assert w[j - 1] in w;
      if i > 0 {
        assert p[i] == w[i - 1];
      }
    }
    assert p[1..] == w;
    WithoutAbsent(w, k);
  }

  /** Using the key that is already the head leaves the order as it is. */
  lemma PromoteHead<K>(o: seq<K>)
    requires Distinct(o) && |o| > 0
    ensures Promote(o, o[0]) == o
  {
    DistinctTail(o);
    WithoutAbsent(o[1..], o[0]);
    assert o == [o[0]] + o[1..];
  }

  /** Neighbours in a promoted order: `k` heads it and the old head now follows `k`. */
  lemma PromoteNeighbours<K>(w: seq<K>, k: K)
    requires Distinct(w) && k !in w
    ensures NextIn([k] + w, k) == First(w) && PrevIn([k] + w, k) == None
    ensures forall x | x != k ::
      && NextIn([k] + w, x) == NextIn(w, x)
      && PrevIn([k] + w, x) == (if First(w) == Some(x) then Some(k) else PrevIn(w, x))
    ensures First([k] + w) == Some(k)
    ensures Last([k] + w) == if |w| == 0 then Some(k) else Last(w)
  {
    assert ([k] + w)[1..] == w;
  }

  /** A duplicate-free order has as many distinct keys as positions. */
  lemma {:induction false} DistinctCard<K>(o: seq<K>)
    requires Distinct(o)
    ensures |set x | x in o| == |o|
  {
    if |o| > 0 {
      DistinctTail(o);
      DistinctCard(o[1..]);
      assert (set x | x in o) == {o[0]} + (set x | x in o[1..]) by {
        assert o == [o[0]] + o[1..];
      }
    }
  }
}
