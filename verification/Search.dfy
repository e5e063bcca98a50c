/** What the breadth-first search and the topological ordering of the store promise, and why they keep it. */
module Search {
  import opened Base
  import opened Graph

  // ---- breadth-first search ----

  /** `dist` and `prev` describe a tree of shortest walks from the root over the seen nodes. */
  ghost predicate Tree(g: Rel, root: Id, seen: set<Id>, prev: map<Id, Id>, dist: map<Id, nat>) {
    && root in seen && dist.Keys == seen && dist[root] == 0
    && (forall n :: n in seen && n != root ==>
          n in prev && prev[n] in seen && (prev[n], n) in g && dist[n] == dist[prev[n]] + 1)
  }

  /** `q` holds seen nodes, nearest first, all between `low` and `low + 1` steps away. */
  ghost predicate Queued(seen: set<Id>, dist: map<Id, nat>, q: seq<Id>, low: nat) {
    && seen <= dist.Keys
    && (forall i :: 0 <= i < |q| ==> q[i] in seen && low <= dist[q[i]] <= low + 1)
    && (forall i, j :: 0 <= i < j < |q| ==> dist[q[i]] <= dist[q[j]])
  }

  /** Node x has been expanded: its successors are seen, at most one step further. */
  ghost predicate Expanded(g: Rel, seen: set<Id>, dist: map<Id, nat>, x: Id)
    requires x in seen && seen <= dist.Keys
  {
    forall y :: (x, y) in g ==> y in seen && dist[y] <= dist[x] + 1
  }

  /** Between rounds: every seen node is queued or expanded, and the expanded ones are no further than the
      front of the queue. */
  ghost predicate Frontier(g: Rel, root: Id, seen: set<Id>, prev: map<Id, Id>, dist: map<Id, nat>, q: seq<Id>) {
    && Tree(g, root, seen, prev, dist)
    && (q != [] ==> q[0] in seen && Queued(seen, dist, q, dist[q[0]]))
    && (forall x :: x in seen && x !in q ==>
          Expanded(g, seen, dist, x) && (q != [] ==> dist[x] <= dist[q[0]]))
  }

  /** Inside a round: cur left the queue and its successors in `done` have been entered. */
  ghost predicate Expanding(g: Rel, root: Id, cur: Id, done: seq<Id>, seen: set<Id>, prev: map<Id, Id>,
                            dist: map<Id, nat>, q: seq<Id>) {
    && Tree(g, root, seen, prev, dist)
    && cur in seen && Queued(seen, dist, q, dist[cur])
    && (forall y :: y in done ==> y in seen && dist[y] <= dist[cur] + 1)
    && (forall x :: x in seen && x !in q ==> dist[x] <= dist[cur])
    && (forall x :: x in seen && x !in q && x != cur ==> Expanded(g, seen, dist, x))
  }

  lemma RoundStarts(g: Rel, root: Id, seen: set<Id>, prev: map<Id, Id>, dist: map<Id, nat>, q: seq<Id>)
    requires Frontier(g, root, seen, prev, dist, q) && q != []
    ensures Expanding(g, root, q[0], [], seen, prev, dist, q[1..])
  {
    assert forall x :: x in q ==> x == q[0] || x in q[1..];
  }

  lemma RoundMeetsSeen(g: Rel, root: Id, cur: Id, done: seq<Id>, y: Id, seen: set<Id>, prev: map<Id, Id>,
                       dist: map<Id, nat>, q: seq<Id>)
    requires Expanding(g, root, cur, done, seen, prev, dist, q) && y in seen
    ensures Expanding(g, root, cur, done + [y], seen, prev, dist, q)
  {
    assert y in q || dist[y] <= dist[cur];
  }

  lemma TreeGrows(g: Rel, root: Id, cur: Id, y: Id, seen: set<Id>, prev: map<Id, Id>, dist: map<Id, nat>)
    requires Tree(g, root, seen, prev, dist) && cur in seen && y !in seen && (cur, y) in g
    ensures Tree(g, root, seen + {y}, prev[y := cur], dist[y := dist[cur] + 1])
  {
  }

  lemma QueueGrows(seen: set<Id>, dist: map<Id, nat>, q: seq<Id>, low: nat, y: Id)
    requires Queued(seen, dist, q, low) && y !in seen
    ensures Queued(seen + {y}, dist[y := low + 1], q + [y], low)
  {
  }

  lemma ExpandedStays(g: Rel, seen: set<Id>, dist: map<Id, nat>, x: Id, y: Id, d: nat)
    requires seen <= dist.Keys && x in seen && y !in seen && Expanded(g, seen, dist, x)
    ensures Expanded(g, seen + {y}, dist[y := d], x)
  {
  }

  lemma RoundDiscovers(g: Rel, root: Id, cur: Id, done: seq<Id>, y: Id, seen: set<Id>, prev: map<Id, Id>,
                       dist: map<Id, nat>, q: seq<Id>)
    requires Expanding(g, root, cur, done, seen, prev, dist, q) && y !in seen && (cur, y) in g
    ensures Expanding(g, root, cur, done + [y], seen + {y}, prev[y := cur], dist[y := dist[cur] + 1], q + [y])
  {
    TreeGrows(g, root, cur, y, seen, prev, dist);
    QueueGrows(seen, dist, q, dist[cur], y);
    forall x | x in seen && x !in q && x != cur
      ensures Expanded(g, seen + {y}, dist[y := dist[cur] + 1], x)
    {
      ExpandedStays(g, seen, dist, x, y, dist[cur] + 1);
    }
  }

  lemma RoundEnds(g: Rel, root: Id, cur: Id, done: seq<Id>, seen: set<Id>, prev: map<Id, Id>,
                  dist: map<Id, nat>, q: seq<Id>)
    requires Expanding(g, root, cur, done, seen, prev, dist, q)
    requires forall y :: (cur, y) in g ==> y in done
    ensures Frontier(g, root, seen, prev, dist, q)
  {
    assert Expanded(g, seen, dist, cur);
  }

  /** Follows a walk from the root: position i is seen within distance i, unless the front of the queue is
      already that near. */
  lemma {:induction false} FrontierBound(g: Rel, root: Id, seen: set<Id>, prev: map<Id, Id>, dist: map<Id, nat>,
                                         q: seq<Id>, p: seq<Id>, i: nat)
    requires Frontier(g, root, seen, prev, dist, q)
    requires IsWalk(g, p) && p[0] == root && i < |p|
    ensures (p[i] in seen && dist[p[i]] <= i) || (q != [] && dist[q[0]] <= i)
  {
    if i > 0 {
      FrontierBound(g, root, seen, prev, dist, q, p, i - 1);
      assert (p[i - 1], p[i - 1 + 1]) in g;
      if p[i - 1] in seen && p[i - 1] !in q {
        assert Expanded(g, seen, dist, p[i - 1]);
      }
    }
  }

  /** Every walk from the root stays in the root's blast radius, so the search may ignore the rest. */
  lemma WalkStaysInScope(g: Rel, p: seq<Id>, ids: set<Id>)
    requires IsWalk(g, p) && Down(g, p[0]) + {p[0]} <= ids
    ensures IsWalk(Induced(g, ids), p)
  {
    forall i | 0 <= i < |p| ensures p[i] in ids {
      if i > 0 {
        SliceWalk(g, p, 0, i + 1);
        assert WalkFromTo(g, p[0..i + 1], p[0], p[i]);
        ClosuresDual(g, p[0], p[i]);
      }
    }
  }

  // ---- topological order ----

  /** The nodes that depend on no cycle: neither they nor an ancestor lie on one. */
  ghost predicate OffCycles(g: Rel, n: Id) {
    forall c :: (c == n || Reaches(g, c, n)) ==> !Reaches(g, c, c)
  }

  ghost function Orderable(g: Rel, ids: set<Id>): set<Id> {
    set n | n in ids && OffCycles(g, n)
  }

  ghost predicate Ascending(s: seq<Id>) {
    forall i, j :: 0 <= i < j < |s| ==> Less(s[i].text, s[j].text)
  }

  ghost predicate ForwardEdges(g: Rel, s: seq<Id>) {
    forall a, j :: 0 <= j < |s| && (a, s[j]) in g ==> a in s[..j]
  }

  /** Each name once; first the names off every cycle, each after all its predecessors; then the others,
      ascending. */
  ghost predicate TopoOrdered(g: Rel, ids: set<Id>, s: seq<Id>) {
    var k := |Orderable(g, ids)|;
    && NoDup(s) && SetOf(s) == ids && k <= |s|
    && SetOf(s[..k]) == Orderable(g, ids)
    && ForwardEdges(g, s[..k])
    && Ascending(s[k..])
  }

  /** The edges into n that do not come from `done`. */
  function Pending(g: Rel, done: set<Id>, n: Id): set<Edge> {
    set e | e in g && e.1 == n && e.0 !in done
  }

  lemma PendingDrop(g: Rel, done: set<Id>, c: Id, n: Id)
    requires c !in done
    ensures |Pending(g, done + {c}, n)| == |Pending(g, done, n)| - (if (c, n) in g then 1 else 0)
  {
    assert Pending(g, done + {c}, n) == Pending(g, done, n) - {(c, n)};
  }

  lemma PendingPush(rows: seq<Edge>, e: Edge, n: Id)
    requires e !in rows
    ensures |Pending(SetOf(rows + [e]), {}, n)| == |Pending(SetOf(rows), {}, n)| + (if e.1 == n then 1 else 0)
  {
    assert SetOf(rows + [e]) == SetOf(rows) + {e};
    PendingOneMore(SetOf(rows), e, n);
  }

  lemma PendingOneMore(g: Rel, e: Edge, n: Id)
    requires e !in g
    ensures |Pending(g + {e}, {}, n)| == |Pending(g, {}, n)| + (if e.1 == n then 1 else 0)
  {
    if e.1 == n {
      assert Pending(g + {e}, {}, n) == Pending(g, {}, n) + {e};
    } else {
      assert Pending(g + {e}, {}, n) == Pending(g, {}, n);
    }
  }

  /** How many of the rows enter n. */
  function Entering(rows: seq<Edge>, n: Id): nat {
    if rows == [] then 0
    else Entering(rows[..|rows| - 1], n) + (if rows[|rows| - 1].1 == n then 1 else 0)
  }

  lemma {:induction false} EnteringIsPending(rows: seq<Edge>, n: Id)
    requires NoDup(rows)
    ensures Entering(rows, n) == |Pending(SetOf(rows), {}, n)|
  {
    if rows == [] {
      assert Pending(SetOf(rows), {}, n) == {};
    } else {
      var front := rows[..|rows| - 1];
      EnteringIsPending(front, n);
      assert rows == front + [rows[|rows| - 1]];
      PendingPush(front, rows[|rows| - 1], n);
    }
  }

  /** What precedes a node in a forward order is all that reaches it, so no cycle touches it. */
  lemma {:induction false} ForwardWalk(g: Rel, s: seq<Id>, p: seq<Id>, i: nat, j: nat)
    requires ForwardEdges(g, s) && NoDup(s) && IsWalk(g, p) && i < |p|
    requires j < |s| && s[j] == p[|p| - 1]
    ensures p[i] in s && (i < |p| - 1 ==> p[i] in s[..j])
    decreases |p| - i
  {
    if i < |p| - 1 {
      ForwardWalk(g, s, p, i + 1, j);
      assert (p[i], p[i + 1]) in g;
      var k :| 0 <= k <= j && s[k] == p[i + 1];
      assert p[i] in s[..k];
    }
  }

  lemma ForwardOffCycles(g: Rel, s: seq<Id>)
    requires ForwardEdges(g, s) && NoDup(s)
    ensures forall n :: n in s ==> OffCycles(g, n)
  {
    forall n, c | n in s && (c == n || Reaches(g, c, n)) ensures !Reaches(g, c, c) {
      var j :| 0 <= j < |s| && s[j] == n;
      if c != n {
        var p :| |p| >= 2 && WalkFromTo(g, p, c, n);
        ForwardWalk(g, s, p, 0, j);
      }
      var i :| 0 <= i < |s| && s[i] == c;
      if Reaches(g, c, c) {
        var r :| |r| >= 2 && WalkFromTo(g, r, c, c);
        ForwardWalk(g, s, r, 0, i);
        assert false;
      }
    }
  }

  /** When every name left over still has a pending edge, the finished ones are exactly the orderable ones. */
  lemma KahnComplete(g: Rel, ids: set<Id>, s: seq<Id>)
    requires forall e :: e in g ==> e.0 in ids && e.1 in ids
    requires NoDup(s) && SetOf(s) <= ids && ForwardEdges(g, s)
    requires forall n :: n in ids && n !in s ==> Pending(g, SetOf(s), n) != {}
    ensures SetOf(s) == Orderable(g, ids) && |s| == |Orderable(g, ids)|
  {
    ForwardOffCycles(g, s);
    var rest := ids - SetOf(s);
    forall n | n in rest ensures HasPredecessorIn(g, rest, n) {
      var e :| e in Pending(g, SetOf(s), n);
      assert e.0 in rest && (e.0, n) == e;
    }
    forall n | n in rest ensures !OffCycles(g, n) {
      var c := BackwardCycle(g, rest, [n]);
    }
    NoDupSize(s);
  }

  lemma RemainderOrdered(g: Rel, ids: set<Id>, done: seq<Id>, rest: seq<Id>)
    requires NoDup(done) && ForwardEdges(g, done)
    requires SetOf(done) == Orderable(g, ids) && |done| == |Orderable(g, ids)|
    requires Ascending(rest) && NoDup(rest) && SetOf(rest) == ids - SetOf(done)
    ensures TopoOrdered(g, ids, done + rest)
  {
    var s := done + rest;
    assert s[..|done|] == done && s[|done|..] == rest;
    JoinedSet(done, rest, ids);
    NoDupJoin(done, rest);
  }

  lemma JoinedSet(done: seq<Id>, rest: seq<Id>, ids: set<Id>)
    requires SetOf(done) <= ids && SetOf(rest) == ids - SetOf(done)
    ensures SetOf(done + rest) == ids
  {
    assert SetOf(done + rest) == SetOf(done) + SetOf(rest);
  }

  /** Everything can be ordered exactly when the graph has no cycle at all, self-loops included. */
  lemma AllOrderable(g: Rel, ids: set<Id>)
    requires forall e :: e in g ==> e.0 in ids && e.1 in ids
    ensures Orderable(g, ids) == ids <==> Acyclic(g)
  {
    if Orderable(g, ids) == ids {
      forall a ensures !Reaches(g, a, a) {
        if a in ids {
          assert a in Orderable(g, ids) && OffCycles(g, a);
        } else if Reaches(g, a, a) {
          var m := ReachesLast(g, a, a);
          assert false;
        }
      }
    }
  }
}
