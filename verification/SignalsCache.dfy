/** The detection cache: an ordered dictionary that evicts the entry touched longest ago. */
module SignalsCache {
  import opened Base

  /** The keys other than k touched after the last touch of k. */
  function Since<K(==)>(touches: seq<K>, k: K): set<K> {
    if touches == [] || touches[|touches| - 1] == k then {}
    else Since(touches[..|touches| - 1], k) + {touches[|touches| - 1]}
  }

  /** Each entry of the dictionary is followed by exactly the keys touched after it. */
  ghost predicate InTouchOrder<K(!new)>(touches: seq<K>, order: seq<K>) {
    order == []
    || (&& order[0] in touches && order[0] !in order[1..]
        && Since(touches, order[0]) == SetOf(order[1..])
        && InTouchOrder(touches, order[1..]))
  }

  /** Whatever was touched and is gone has at least n others touched since. */
  ghost predicate OthersAreOld<K(!new)>(touches: seq<K>, order: seq<K>, n: nat) {
    forall k :: k in touches && k !in order ==> |Since(touches, k)| >= n
  }

  /** The promise of a least-recently-used cache of n entries. */
  ghost predicate Fresh<K>(touches: seq<K>, k: K, n: nat) {
    k in touches && |Since(touches, k)| < n
  }

  lemma SetOfHeadTail<K>(s: seq<K>)
    requires s != []
    ensures SetOf(s) == {s[0]} + SetOf(s[1..])
  {
    assert s == [s[0]] + s[1..];
  }

  lemma SetOfJoin<K>(a: seq<K>, b: seq<K>)
    ensures SetOf(a + b) == SetOf(a) + SetOf(b)
  {
  }

  lemma {:induction false} OrderSize<K(!new)>(touches: seq<K>, order: seq<K>)
    requires InTouchOrder(touches, order)
    ensures |SetOf(order)| == |order|
  {
    if order != [] {
      OrderSize(touches, order[1..]);
      SetOfHeadTail(order);
    }
  }

  lemma {:induction false} MembersAreYoung<K(!new)>(touches: seq<K>, order: seq<K>, k: K)
    requires InTouchOrder(touches, order) && k in order
    ensures Fresh(touches, k, |order|)
  {
    OrderSize(touches, order[1..]);
    if k != order[0] {
      assert k in order[1..];
      MembersAreYoung(touches, order[1..], k);
    }
  }

  lemma MemberIsFresh<K(!new)>(touches: seq<K>, order: seq<K>, n: nat, k: K)
    requires InTouchOrder(touches, order) && OthersAreOld(touches, order, n) && |order| <= n
    ensures k in order <==> Fresh(touches, k, n)
  {
    if k in order {
      MembersAreYoung(touches, order, k);
    }
  }

  lemma SinceGrows<K>(touches: seq<K>, j: K, k: K)
    ensures Since(touches + [j], k) == if k == j then {} else Since(touches, k) + {j}
  {
    assert (touches + [j])[..|touches + [j]| - 1] == touches;
  }

  lemma OldStayOld<K(!new)>(touches: seq<K>, order: seq<K>, after: seq<K>, j: K, n: nat)
    requires OthersAreOld(touches, order, n)
    requires SetOf(after) == SetOf(order) + {j}
    ensures OthersAreOld(touches + [j], after, n)
  {
    forall k | k in touches + [j] && k !in after ensures |Since(touches + [j], k)| >= n {
      assert k !in SetOf(after);
      assert j in SetOf(after);
      assert k in touches && k !in order;
      SinceGrows(touches, j, k);
      SubsetSize(Since(touches, k), Since(touches + [j], k));
    }
  }

  /** Touching a key that is not in the order puts it last. */
  lemma {:induction false} TouchedLast<K(!new)>(touches: seq<K>, order: seq<K>, k: K)
    requires InTouchOrder(touches, order) && k !in order
    ensures InTouchOrder(touches + [k], order + [k])
  {
    var after := order + [k];
    SinceGrows(touches, k, after[0]);
    if order == [] {
      assert after[1..] == [];
    } else {
      assert after[1..] == order[1..] + [k];
      TouchedLast(touches, order[1..], k);
      SetOfJoin(order[1..], [k]);
    }
  }

  /** Touching the entry between a and b moves it to the end. */
  lemma {:induction false} MovedLast<K(!new)>(touches: seq<K>, a: seq<K>, k: K, b: seq<K>)
    requires InTouchOrder(touches, a + [k] + b)
    ensures InTouchOrder(touches + [k], a + b + [k])
  {
    var order, after := a + [k] + b, a + b + [k];
    if a == [] {
      assert order[1..] == b && after == b + [k];
      TouchedLast(touches, b, k);
    } else {
      assert order[1..] == a[1..] + [k] + b && after[1..] == a[1..] + b + [k];
      MovedLast(touches, a[1..], k, b);
      SameMembers(a[1..], k, b);
      assert k in order[1..] && a[0] != k;
      SinceGrows(touches, k, a[0]);
      assert a[0] in SetOf(after[1..]) <==> a[0] in SetOf(order[1..]);
    }
  }

  lemma SameMembers<K>(a: seq<K>, k: K, b: seq<K>)
    ensures SetOf(a + b + [k]) == SetOf(a + [k] + b) == SetOf(a + [k] + b) + {k}
  {
    SetOfJoin(a + b, [k]);
    SetOfJoin(a, b);
    SetOfJoin(a + [k], b);
    SetOfJoin(a, [k]);
  }

  lemma FirstEvicted<K(!new)>(touches: seq<K>, order: seq<K>, n: nat)
    requires InTouchOrder(touches, order) && OthersAreOld(touches, order, n) && |order| > n
    ensures InTouchOrder(touches, order[1..]) && OthersAreOld(touches, order[1..], n)
    ensures SetOf(order[1..]) == SetOf(order) - {order[0]}
  {
    OrderSize(touches, order[1..]);
    SetOfHeadTail(order);
  }

  method MoveLast<K(==)>(order: seq<K>, k: K) returns (after: seq<K>, ghost a: seq<K>, ghost b: seq<K>)
    requires k in order
    ensures order == a + [k] + b && after == a + b + [k]
  {
    var p :| 0 <= p < |order| && order[p] == k;
    a, b := order[..p], order[p + 1..];
    after := order[..p] + order[p + 1..] + [k];
  }

  class Cache<K(==, !new), V> {
    const maxsize: nat
    var data: map<K, V>
    /** The dictionary's order: the entry touched longest ago comes first. */
    var order: seq<K>
    /** Every put and every hit so far, and the last value put for each key. */
    ghost var touches: seq<K>
    ghost var puts: map<K, V>

    constructor (maxsize: nat)
      ensures Valid() && this.maxsize == maxsize && touches == [] && puts == map[]
    {
      this.maxsize := maxsize;
      data, order, touches, puts := map[], [], [], map[];
    }

    ghost predicate Holding()
      reads this
    {
      && InTouchOrder(touches, order) && OthersAreOld(touches, order, maxsize)
      && SetOf(order) == data.Keys
      && (forall k :: k in data ==> k in puts && data[k] == puts[k])
    }

    ghost predicate Valid()
      reads this
    {
      Holding() && |order| <= maxsize
    }

    lemma Bounded()
      requires Valid()
      ensures |data| <= maxsize
    {
      OrderSize(touches, order);
      assert |data| == |data.Keys|;
    }

    lemma IsHeld(k: K)
      requires Valid()
      ensures k in data <==> Fresh(touches, k, maxsize)
      ensures k in data <==> k in order
    {
      MemberIsFresh(touches, order, maxsize, k);
      assert k in SetOf(order) <==> k in order;
    }

    /** A hit exactly when fewer than maxsize other keys were touched since this one, with its last value. */
    method Get(k: K) returns (hit: Option<V>)
      requires Valid()
      modifies this
      ensures Valid() && puts == old(puts)
      ensures hit.Some? <==> Fresh(old(touches), k, maxsize)
      ensures hit.Some? ==> k in puts && hit.value == puts[k]
      ensures touches == if hit.Some? then old(touches) + [k] else old(touches)
    {
      IsHeld(k);
      if k !in data {
        return None;
      }
      hit := Some(data[k]);
      MoveToEnd(k);
    }

    method MoveToEnd(k: K)
      requires Holding() && k in order
      modifies this`order, this`touches
      ensures Holding() && |order| == |old(order)| && touches == old(touches) + [k]
    {
      var after;
      ghost var a, b;
      after, a, b := MoveLast(order, k);
      MovedLast(touches, a, k, b);
      SameMembers(a, k, b);
      OldStayOld(touches, order, after, k, maxsize);
      order := after;
      touches := touches + [k];
    }

    method Put(k: K, v: V)
      requires Valid()
      modifies this
      ensures Valid() && touches == old(touches) + [k] && puts == old(puts)[k := v]
    {
      IsHeld(k);
      if k in data {
        data, puts := data[k := v], puts[k := v];
        MoveToEnd(k);
      } else {
        Append(k, v);
      }
      while |order| > maxsize
        invariant Holding() && touches == old(touches) + [k] && puts == old(puts)[k := v]
      {
        EvictFirst();
      }
    }

    method Append(k: K, v: V)
      requires Holding() && k !in order
      modifies this
      ensures Holding() && touches == old(touches) + [k] && puts == old(puts)[k := v]
    {
      TouchedLast(touches, order, k);
      SetOfJoin(order, [k]);
      OldStayOld(touches, order, order + [k], k, maxsize);
      data, puts := data[k := v], puts[k := v];
      order, touches := order + [k], touches + [k];
    }

    method EvictFirst()
      requires Holding() && |order| > maxsize
      modifies this`data, this`order
      ensures Holding() && order == old(order)[1..]
    {
      FirstEvicted(touches, order, maxsize);
      data := data - {order[0]};
      order := order[1..];
    }
  }
}
