/** The twin store: node, edge and checkpoint tables, with the graph queries that run over them. */
module Store {
  import opened Base
  import opened Graph
  import opened Model
  import opened Search

  /** The rows of a name-keyed dictionary of lists, missing keys reading as the empty list. */
  function Listed(adj: map<Id, seq<Id>>, x: Id): seq<Id> {
    if x in adj then adj[x] else []
  }

  class TwinStore {
    var nodes: map<Id, Node>
    var edges: map<Edge, real>
    var checkpoints: map<Id, Checkpoint>

    constructor ()
      ensures nodes == map[] && edges == map[] && checkpoints == map[]
    {
      nodes, edges, checkpoints := map[], map[], map[];
    }

    function GetNode(id: Id): Option<Node>
      reads this
    {
      if id in nodes then Some(nodes[id]) else None
    }

    method UpsertNode(id: Id, node: Node)
      modifies this`nodes
      ensures nodes == old(nodes)[id := node]
    {
      nodes := nodes[id := node];
    }

    method SaveCheckpoint(id: Id, c: Checkpoint)
      modifies this`checkpoints
      ensures checkpoints == old(checkpoints)[id := c]
    {
      checkpoints := checkpoints[id := c];
    }

    method AddEdge(src: Id, dst: Id)
      modifies this`edges
      ensures edges == old(edges)[(src, dst) := 1.0]
    {
      edges := edges[(src, dst) := 1.0];
    }

    /** Updates the row if there is one, and says whether there was. */
    method SetEdgeWeight(src: Id, dst: Id, weight: real) returns (found: bool)
      modifies this`edges
      ensures found <==> (src, dst) in old(edges)
      ensures edges == if found then old(edges)[(src, dst) := weight] else old(edges)
    {
      found := (src, dst) in edges;
      if found {
        edges := edges[(src, dst) := weight];
      }
    }

    /** The edge rows inside a set of names; the database gives them in no particular order. */
    method EdgesForNodes(ids: set<Id>) returns (rows: seq<Edge>)
      ensures NoDup(rows) && SetOf(rows) == Induced(edges.Keys, ids)
    {
      var left := Induced(edges.Keys, ids);
      rows := [];
      while left != {}
        invariant NoDup(rows) && SetOf(rows) !! left
        invariant SetOf(rows) + left == Induced(edges.Keys, ids)
        decreases |left|
      {
        var e :| e in left;
        rows, left := rows + [e], left - {e};
      }
    }

    method Successors(id: Id) returns (out: set<Id>)
      ensures forall d :: d in out <==> (id, d) in edges
    {
      out := set e | e in edges.Keys && e.0 == id :: e.1;
      assert forall d :: (id, d) in edges ==> (id, d).1 in out;
    }

    /** The recursive query over edges read one way: its working table holds the rows the last round added. */
    static method Closure(rel: Rel, root: Id) returns (found: set<Id>)
      ensures found == Down(rel, root)
    {
      found := set e | e in rel && e.0 == root :: e.1;
      var work := found;
      forall e | e in rel && e.0 == root ensures Reaches(rel, root, e.1) {
        EdgeReaches(rel, root, e.1);
      }
      ghost var all := set e | e in rel :: e.1;
      while work != {}
        invariant work <= found <= Down(rel, root) && found <= all
        invariant forall e :: e in rel && e.0 == root ==> e.1 in found
        invariant forall e :: e in rel && e.0 in found - work ==> e.1 in found
        decreases all - (found - work)
      {
        var next := (set e | e in rel && e.0 in work :: e.1) - found;
        forall e | e in rel && e.0 in work ensures Reaches(rel, root, e.1) {
          ClosuresDual(rel, root, e.0);
          EdgeReaches(rel, e.0, e.1);
          ReachesTrans(rel, root, e.0, e.1);
        }
        assert work <= all - (found - work);
        found, work := found + next, next;
      }
      ClosedHoldsDown(rel, found, root);
    }

    method BlastRadius(id: Id) returns (r: set<Id>)
      ensures r == Down(edges.Keys, id) - {id}
    {
      r := Closure(edges.Keys, id);
      r := r - {id};
    }

    method Upstream(id: Id) returns (r: set<Id>)
      ensures r == Up(edges.Keys, id) - {id}
    {
      UpIsFlippedDown(edges.Keys, id);
      r := Closure(Flip(edges.Keys), id);
      r := r - {id};
    }

    static method Adjacency(rows: seq<Edge>) returns (adj: map<Id, seq<Id>>)
      requires NoDup(rows)
      ensures forall x, y :: y in Listed(adj, x) <==> (x, y) in rows
      ensures forall x :: NoDup(Listed(adj, x))
    {
      adj := map[];
      for k := 0 to |rows|
        invariant forall x, y :: y in Listed(adj, x) <==> (x, y) in rows[..k]
        invariant forall x :: NoDup(Listed(adj, x))
      {
        var (src, dst) := rows[k];
        TakeNext(rows, k);
        assert rows[k] == (src, dst) && rows[k] !in rows[..k] && dst !in Listed(adj, src);
        ghost var adj0 := adj;
        adj := adj[src := Listed(adj, src) + [dst]];
        assert NoDup(Listed(adj0, src) + [dst]) by {
          assert dst !in Listed(adj0, src);
        }
        forall x ensures NoDup(Listed(adj, x)) {
          if x != src { assert Listed(adj, x) == Listed(adj0, x); }
        }
      }
      assert rows[..|rows|] == rows;
    }

    /** Breadth-first search for the path that carries drift from the root to the target. */
    method PropagationPath(root: Id, target: Id) returns (path: seq<Id>)
      ensures path == [] <==> target != root && !Reaches(edges.Keys, root, target)
      ensures path != [] ==> WalkFromTo(edges.Keys, path, root, target) && NoDup(path)
      ensures path != [] ==>
                forall p :: WalkFromTo(edges.Keys, p, root, target) ==> |path| <= |p|
    {
      if root == target {
        return [root];
      }
      var scope := BlastRadius(root);
      scope := scope + {root, target};
      var rows := EdgesForNodes(scope);
      var adj := Adjacency(rows);
      ghost var g := Induced(edges.Keys, scope);
      assert forall e :: e in rows <==> e in SetOf(rows);
      path := ShortestPath(g, root, target, scope, adj);
      forall p | WalkFromTo(edges.Keys, p, root, target) ensures WalkFromTo(g, p, root, target) {
        WalkStaysInScope(edges.Keys, p, scope);
      }
      assert [root, target][0] != [root, target][1];
    }

    /** The search over an adjacency dictionary, and the walk back along the parents. */
    static method ShortestPath(ghost g: Rel, root: Id, target: Id, ghost scope: set<Id>, adj: map<Id, seq<Id>>)
      returns (path: seq<Id>)
      requires root != target && root in scope
      requires forall x, y :: y in Listed(adj, x) <==> (x, y) in g
      requires forall e :: e in g ==> e.1 in scope
      ensures path == [] ==> forall p :: !WalkFromTo(g, p, root, target)
      ensures path != [] ==> WalkFromTo(g, path, root, target) && NoDup(path)
      ensures path != [] ==> forall p :: WalkFromTo(g, p, root, target) ==> |path| <= |p|
    {
      var prev: map<Id, Id>, q, seen := map[], [root], {root};
      ghost var dist: map<Id, nat> := map[root := 0];
      ghost var front := q;
      while q != []
        invariant Frontier(g, root, seen, prev, dist, q) && front == q
        invariant seen <= scope
        invariant target in seen ==> target in q
        decreases |scope - seen| + |q|
      {
        var cur := q[0];
        if cur == target {
          break;
        }
        seen, prev, q, dist := Expand(g, root, target, scope, adj, seen, prev, q, dist);
        front := q;
      }
      FrontDecides(g, root, target, seen, prev, dist, front);
      if target !in seen {
        return [];
      }
      path := WalkBack(g, root, target, seen, prev, dist);
    }

    /** The search stops with an empty queue or with the target in front: then no walk is shorter than it is far. */
    static lemma FrontDecides(g: Rel, root: Id, target: Id, seen: set<Id>, prev: map<Id, Id>, dist: map<Id, nat>,
                              q: seq<Id>)
      requires Frontier(g, root, seen, prev, dist, q) && (q == [] || q[0] == target)
      requires target in seen ==> target in q
      ensures target in seen ==> forall p :: WalkFromTo(g, p, root, target) ==> dist[target] + 1 <= |p|
      ensures target !in seen ==> forall p :: !WalkFromTo(g, p, root, target)
    {
      forall p | WalkFromTo(g, p, root, target) ensures target in seen && dist[target] + 1 <= |p| {
        FrontierBound(g, root, seen, prev, dist, q, p, |p| - 1);
      }
    }

    static method WalkBack(ghost g: Rel, root: Id, target: Id, ghost seen: set<Id>, prev: map<Id, Id>,
                           ghost dist: map<Id, nat>)
      returns (path: seq<Id>)
      requires Tree(g, root, seen, prev, dist) && target in seen
      ensures WalkFromTo(g, path, root, target) && NoDup(path) && |path| == dist[target] + 1
    {
      path := [target];
      while path[|path| - 1] != root
        invariant BackFrom(g, target, seen, dist, path)
        decreases dist[path[|path| - 1]]
      {
        path := path + [prev[path[|path| - 1]]];
      }
      TurnedRound(g, root, target, seen, dist, path);
      path := seq(|path|, i requires 0 <= i < |path| => path[|path| - 1 - i]);
    }

    /** A walk found from its end: each name is one step nearer to the root. */
    static ghost predicate BackFrom(g: Rel, target: Id, seen: set<Id>, dist: map<Id, nat>, back: seq<Id>) {
      && back != [] && back[0] == target && seen <= dist.Keys && target in seen
      && (forall i :: 0 <= i < |back| ==> back[i] in seen && dist[back[i]] == dist[target] - i)
      && (forall i :: 0 <= i < |back| - 1 ==> (back[i + 1], back[i]) in g)
    }

    static lemma TurnedRound(g: Rel, root: Id, target: Id, seen: set<Id>, dist: map<Id, nat>, back: seq<Id>)
      requires BackFrom(g, target, seen, dist, back) && back[|back| - 1] == root && root in dist && dist[root] == 0
      ensures var path := seq(|back|, i requires 0 <= i < |back| => back[|back| - 1 - i]);
              WalkFromTo(g, path, root, target) && NoDup(path) && |path| == dist[target] + 1
    {
      var n := |back|;
      var path := seq(n, i requires 0 <= i < n => back[n - 1 - i]);
      forall i | 0 <= i < n - 1 ensures (path[i], path[i + 1]) in g {
        var j := n - 2 - i;
        assert (back[j + 1], back[j]) in g;
      }
      forall i | 0 <= i < n ensures dist[path[i]] == i {
        assert path[i] == back[n - 1 - i];
      }
    }

    /** One round of the search: takes the front of the queue and enters its unseen successors. */
    static method Expand(ghost g: Rel, ghost root: Id, ghost target: Id, ghost scope: set<Id>,
                         adj: map<Id, seq<Id>>, seen0: set<Id>, prev0: map<Id, Id>, q0: seq<Id>,
                         ghost dist0: map<Id, nat>)
      returns (seen: set<Id>, prev: map<Id, Id>, q: seq<Id>, ghost dist: map<Id, nat>)
      requires q0 != [] && Frontier(g, root, seen0, prev0, dist0, q0) && seen0 <= scope
      requires forall x, y :: y in Listed(adj, x) <==> (x, y) in g
      requires forall e :: e in g ==> e.1 in scope
      requires (target in seen0 ==> target in q0) && q0[0] != target
      ensures Frontier(g, root, seen, prev, dist, q) && seen <= scope
      ensures target in seen ==> target in q
      ensures |scope - seen| + |q| < |scope - seen0| + |q0|
    {
      var cur := q0[0];
      var out := Listed(adj, cur);
      RoundStarts(g, root, seen0, prev0, dist0, q0);
      forall y | y in out ensures (cur, y) in g && y in scope {
        assert (cur, y).1 == y;
      }
      seen, prev, q, dist := EnterAll(g, root, target, scope, cur, out, seen0, prev0, q0[1..], dist0);
      RoundEnds(g, root, cur, out, seen, prev, dist, q);
    }

    static method EnterAll(ghost g: Rel, ghost root: Id, ghost target: Id, ghost scope: set<Id>, cur: Id,
                           out: seq<Id>, seen0: set<Id>, prev0: map<Id, Id>, q0: seq<Id>, ghost dist0: map<Id, nat>)
      returns (seen: set<Id>, prev: map<Id, Id>, q: seq<Id>, ghost dist: map<Id, nat>)
      requires Expanding(g, root, cur, [], seen0, prev0, dist0, q0)
      requires seen0 <= scope && (target in seen0 ==> target in q0)
      requires forall y :: y in out ==> (cur, y) in g && y in scope
      ensures Expanding(g, root, cur, out, seen, prev, dist, q)
      ensures seen <= scope && (target in seen ==> target in q)
      ensures |scope - seen| + |q| == |scope - seen0| + |q0|
    {
      seen, prev, q, dist := seen0, prev0, q0, dist0;
      assert out[..0] == [];
      for k := 0 to |out|
        invariant Expanding(g, root, cur, out[..k], seen, prev, dist, q)
        invariant seen <= scope && (target in seen ==> target in q)
        invariant |scope - seen| + |q| == |scope - seen0| + |q0|
      {
        var nxt := out[k];
        TakeNext(out, k);
        if nxt !in seen {
          RoundDiscovers(g, root, cur, out[..k], nxt, seen, prev, dist, q);
          OneFewerUnseen(scope, seen, nxt);
          seen, prev, q, dist := seen + {nxt}, prev[nxt := cur], q + [nxt], dist[nxt := dist[cur] + 1];
        } else {
          RoundMeetsSeen(g, root, cur, out[..k], nxt, seen, prev, dist, q);
        }
      }
      assert out[..|out|] == out;
    }

    static lemma OneFewerUnseen(scope: set<Id>, seen: set<Id>, nxt: Id)
      requires nxt in scope && nxt !in seen
      ensures |scope - (seen + {nxt})| == |scope - seen| - 1
    {
      assert scope - (seen + {nxt}) == (scope - seen) - {nxt};
    }

    /** Names in ascending order. */
    static method Sorted(ids: set<Id>) returns (s: seq<Id>)
      ensures Ascending(s) && NoDup(s) && SetOf(s) == ids
    {
      s := [];
      var left := ids;
      while left != {}
        invariant SortedSoFar(s, left, ids)
        decreases |left|
      {
        var m := Least(left);
        SortedGrows(s, left, ids, m);
        s, left := s + [m], left - {m};
      }
      AscendingDistinct(s);
    }

    /** The least names of `ids` in order, all before those left. */
    static ghost predicate SortedSoFar(s: seq<Id>, left: set<Id>, ids: set<Id>) {
      Ascending(s) && SetOf(s) + left == ids && forall a, b :: a in s && b in left ==> Less(a.text, b.text)
    }

    static lemma SortedGrows(s: seq<Id>, left: set<Id>, ids: set<Id>, m: Id)
      requires SortedSoFar(s, left, ids) && m in left && forall x :: x in left && x != m ==> Less(m.text, x.text)
      ensures SortedSoFar(s + [m], left - {m}, ids)
    {
      var after := s + [m];
      assert SetOf(after) == SetOf(s) + {m};
      forall i, j | 0 <= i < j < |after| ensures Less(after[i].text, after[j].text) {
        assert after[i] == s[i] && s[i] in s;
      }
    }

    static lemma AscendingDistinct(s: seq<Id>)
      requires Ascending(s)
      ensures NoDup(s)
    {
      forall i, j | 0 <= i < j < |s| ensures s[i] != s[j] {
        LessIrreflexive(s[j].text);
      }
    }

    static method Least(ids: set<Id>) returns (m: Id)
      requires ids != {}
      ensures m in ids && forall x :: x in ids && x != m ==> Less(m.text, x.text)
    {
      m :| m in ids;
      var left := ids - {m};
      while left != {}
        invariant m in ids && left <= ids
        invariant forall x :: x in ids && x !in left && x != m ==> Less(m.text, x.text)
        decreases |left|
      {
        var x :| x in left;
        LessTotal(x.text, m.text);
        if Less(x.text, m.text) {
          forall y | y in ids && y !in left && y != m ensures Less(x.text, y.text) {
            LessTransitive(x.text, m.text, y.text);
          }
          m := x;
        }
        left := left - {x};
      }
    }

    /** Kahn's ordering, with whatever a cycle holds back appended in ascending order. */
    method TopoOrder(ids: set<Id>) returns (out: seq<Id>)
      ensures TopoOrdered(Induced(edges.Keys, ids), ids, out)
    {
      var rows := EdgesForNodes(ids);
      assert forall e :: e in rows ==> e in SetOf(rows);
      var adj := Adjacency(rows);
      var indeg := InDegrees(rows, ids);
      ghost var g := SetOf(rows);
      out := Kahn(g, ids, adj, indeg);
      KahnComplete(g, ids, out);
      if |out| != |ids| {
        var rest := Sorted(ids - (set n | n in out));
        RemainderOrdered(g, ids, out, rest);
        out := out + rest;
      } else {
        NoDupSize(out);
        SubsetSize(SetOf(out), ids);
        assert SetOf(out) == ids;
        RemainderOrdered(g, ids, out, []);
        assert out + [] == out;
      }
    }

    static method InDegrees(rows: seq<Edge>, ids: set<Id>) returns (indeg: map<Id, nat>)
      requires NoDup(rows) && forall e :: e in rows ==> e.1 in ids
      ensures indeg.Keys == ids
      ensures forall n :: n in ids ==> indeg[n] == |Pending(SetOf(rows), {}, n)|
    {
      indeg := map n | n in ids :: 0;
      for k := 0 to |rows|
        invariant indeg.Keys == ids
        invariant forall n :: n in ids ==> indeg[n] == Entering(rows[..k], n)
      {
        var dst := rows[k].1;
        assert rows[k] in rows;
        TakeNext(rows, k);
        indeg := indeg[dst := indeg[dst] + 1];
      }
      assert rows[..|rows|] == rows;
      forall n { EnteringIsPending(rows, n); }
    }

    static method Kahn(ghost g: Rel, ids: set<Id>, adj: map<Id, seq<Id>>, indeg0: map<Id, nat>)
      returns (out: seq<Id>)
      requires indeg0.Keys == ids && forall n :: n in ids ==> indeg0[n] == |Pending(g, {}, n)|
      requires forall e :: e in g ==> e.0 in ids && e.1 in ids
      requires forall x, y :: y in Listed(adj, x) <==> (x, y) in g
      requires forall x :: NoDup(Listed(adj, x))
      ensures NoDup(out) && SetOf(out) <= ids && ForwardEdges(g, out)
      ensures forall n :: n in ids && n !in out ==> Pending(g, SetOf(out), n) != {}
    {
      var indeg := indeg0;
      var q := Sorted(set n | n in ids && indeg[n] == 0);
      out := [];
      assert SetOf(out) == {} && out + q == q;
      assert forall n :: n in q <==> n in SetOf(q);
      while q != []
        invariant KahnState(g, ids, indeg, out, q)
        invariant |out| <= |ids|
        decreases |ids| - |out|
      {
        indeg, q, out := Release(g, ids, adj, indeg, q, out);
      }
      assert out + q == out;
    }

    /** Counters agree with the edges still pending, and the queue holds exactly the released names. */
    static ghost predicate KahnState(g: Rel, ids: set<Id>, indeg: map<Id, nat>, out: seq<Id>, q: seq<Id>) {
      && indeg.Keys == ids
      && NoDup(out + q) && SetOf(out + q) <= ids
      && ForwardEdges(g, out)
      && (forall n :: n in ids ==> indeg[n] == |Pending(g, SetOf(out), n)|)
      && (forall n :: n in ids ==> (indeg[n] == 0 <==> n in out || n in q))
    }

    /** Takes the front of the queue into the order and lowers the counters of its successors. */
    static method Release(ghost g: Rel, ghost ids: set<Id>, adj: map<Id, seq<Id>>, indeg0: map<Id, nat>,
                          q0: seq<Id>, out0: seq<Id>)
      returns (indeg: map<Id, nat>, q: seq<Id>, out: seq<Id>)
      requires KahnState(g, ids, indeg0, out0, q0) && q0 != []
      requires forall e :: e in g ==> e.0 in ids && e.1 in ids
      requires forall x, y :: y in Listed(adj, x) <==> (x, y) in g
      requires forall x :: NoDup(Listed(adj, x))
      ensures KahnState(g, ids, indeg, out, q)
      ensures out == out0 + [q0[0]] && |out| <= |ids|
    {
      var cur := q0[0];
      var succ := Listed(adj, cur);
      out := out0 + [cur];
      assert forall n :: n in succ <==> (cur, n) in g;
      FrontSuccessors(g, ids, indeg0, out0, q0, succ);
      indeg, q := LowerAll(ids, succ, out, indeg0, q0[1..]);
      CountersLowered(g, ids, indeg0, out0, q0, succ, indeg);
      FrontReleased(g, ids, indeg0, out0, q0);
      NoDupParts(out, q);
      NoDupSize(out);
      SubsetSize(SetOf(out), ids);
    }

    static lemma FrontSuccessors(g: Rel, ids: set<Id>, indeg: map<Id, nat>, out: seq<Id>, q: seq<Id>, succ: seq<Id>)
      requires KahnState(g, ids, indeg, out, q) && q != []
      requires forall e :: e in g ==> e.0 in ids && e.1 in ids
      requires forall n :: n in succ <==> (q[0], n) in g
      ensures q[0] !in out && out + [q[0]] + q[1..] == out + q
      ensures forall n :: n in succ ==> n in ids && indeg[n] > 0
    {
      NoDupParts(out, q);
      assert out + [q[0]] + q[1..] == out + q;
      forall n | n in succ ensures n in ids && indeg[n] > 0 {
        assert (q[0], n).1 == n;
        assert (q[0], n) in Pending(g, SetOf(out), n);
      }
    }

    static lemma CountersLowered(g: Rel, ids: set<Id>, indeg0: map<Id, nat>, out: seq<Id>, q: seq<Id>, succ: seq<Id>,
                                 indeg: map<Id, nat>)
      requires KahnState(g, ids, indeg0, out, q) && q != [] && q[0] !in out && indeg.Keys == ids
      requires forall n :: n in succ <==> (q[0], n) in g
      requires forall n :: n in ids ==> indeg[n] + (if n in succ then 1 else 0) == indeg0[n]
      ensures forall n :: n in ids ==> indeg[n] == |Pending(g, SetOf(out + [q[0]]), n)|
    {
      assert SetOf(out + [q[0]]) == SetOf(out) + {q[0]};
      forall n | n in ids ensures indeg[n] == |Pending(g, SetOf(out + [q[0]]), n)| {
        PendingDrop(g, SetOf(out), q[0], n);
      }
    }

    static method LowerAll(ghost ids: set<Id>, succ: seq<Id>, ghost out: seq<Id>, indeg0: map<Id, nat>, q0: seq<Id>)
      returns (indeg: map<Id, nat>, q: seq<Id>)
      requires indeg0.Keys == ids && NoDup(out + q0) && SetOf(out + q0) <= ids
      requires NoDup(succ) && forall n :: n in succ ==> n in ids && indeg0[n] > 0
      requires forall n :: n in ids ==> (indeg0[n] == 0 <==> n in out || n in q0)
      ensures indeg.Keys == ids && NoDup(out + q) && SetOf(out + q) <= ids
      ensures forall n :: n in ids ==> indeg[n] == indeg0[n] - (if n in succ then 1 else 0)
      ensures forall n :: n in ids ==> (indeg[n] == 0 <==> n in out || n in q)
    {
      indeg, q := indeg0, q0;
      for k := 0 to |succ|
        invariant indeg.Keys == ids
        invariant NoDup(out + q) && SetOf(out + q) <= ids
        invariant forall n :: n in ids ==> indeg[n] == indeg0[n] - (if n in succ[..k] then 1 else 0)
        invariant forall n :: n in ids ==> (indeg[n] == 0 <==> n in out || n in q)
      {
        var nxt := succ[k];
        TakeNext(succ, k);
        assert nxt !in succ[..k];
        indeg := indeg[nxt := indeg[nxt] - 1];
        if indeg[nxt] == 0 {
          assert out + (q + [nxt]) == (out + q) + [nxt];
          q := q + [nxt];
        }
      }
      assert succ[..|succ|] == succ;
    }

    static lemma FrontReleased(g: Rel, ids: set<Id>, indeg: map<Id, nat>, out: seq<Id>, q: seq<Id>)
      requires KahnState(g, ids, indeg, out, q) && q != []
      ensures ForwardEdges(g, out + [q[0]])
    {
      var s := out + [q[0]];
      assert q[0] in q && (out + q)[|out|] == q[0] && q[0] in SetOf(out + q);
      assert indeg[q[0]] == 0;
      forall a, j | 0 <= j < |s| && (a, s[j]) in g ensures a in s[..j] {
        if j == |out| {
          assert (a, q[0]) !in Pending(g, SetOf(out), q[0]);
        } else {
          assert s[..j] == out[..j];
        }
      }
    }

    /** Retention: old nodes go, and with them their checkpoints and every edge they touch. The rows are deleted
        in chunks of at most 500 nodes inside one transaction. */
    method PruneOlderThan(cutoff: real) returns (droppedNodes: nat, droppedEdges: nat, droppedCheckpoints: nat)
      modifies this
      ensures nodes == old(nodes) - Aged(old(nodes), cutoff)
      ensures edges == Without(old(edges), Aged(old(nodes), cutoff))
      ensures checkpoints == Kept(old(checkpoints), Aged(old(nodes), cutoff))
      ensures Spared(old(nodes), old(edges), old(checkpoints), cutoff, nodes, edges, checkpoints)
      ensures droppedNodes == |old(nodes)| - |nodes|
      ensures droppedEdges == |old(edges)| - |edges|
      ensures droppedCheckpoints == |old(checkpoints)| - |checkpoints|
    {
      Remaining(nodes, edges, checkpoints, cutoff);
      nodes, edges, checkpoints, droppedNodes, droppedEdges, droppedCheckpoints :=
        DeleteChunks(nodes, edges, checkpoints, Aged(nodes, cutoff));
    }

    static method DeleteChunks(n0: map<Id, Node>, e0: map<Edge, real>, c0: map<Id, Checkpoint>, gone: set<Id>)
      returns (n: map<Id, Node>, e: map<Edge, real>, c: map<Id, Checkpoint>,
               droppedNodes: nat, droppedEdges: nat, droppedCheckpoints: nat)
      ensures n == n0 - gone && e == Without(e0, gone) && c == Kept(c0, gone)
      ensures droppedNodes == |n0| - |n| && droppedEdges == |e0| - |e| && droppedCheckpoints == |c0| - |c|
    {
      var left := gone;
      n, e, c := n0, e0, c0;
      droppedNodes, droppedEdges, droppedCheckpoints := 0, 0, 0;
      while left != {}
        invariant n - left == n0 - gone && Without(e, left) == Without(e0, gone)
        invariant Kept(c, left) == Kept(c0, gone)
        invariant droppedNodes == |n0| - |n| && droppedEdges == |e0| - |e| && droppedCheckpoints == |c0| - |c|
        decreases left
      {
        var chunk := TakeChunk(left, 500);
        ChunkFirst(n, e, c, left, chunk);
        ChunkCounts(n, e, c, chunk);
        droppedNodes := droppedNodes + (|n| - |n - chunk|);
        droppedEdges := droppedEdges + (|e| - |Without(e, chunk)|);
        droppedCheckpoints := droppedCheckpoints + (|c| - |Kept(c, chunk)|);
        n, e, c, left := n - chunk, Without(e, chunk), Kept(c, chunk), left - chunk;
      }
      NothingLeft(n, e, c);
    }

    static lemma ChunkFirst(n: map<Id, Node>, e: map<Edge, real>, c: map<Id, Checkpoint>, left: set<Id>, chunk: set<Id>)
      requires chunk <= left
      ensures n - chunk - (left - chunk) == n - left
      ensures Without(Without(e, chunk), left - chunk) == Without(e, left)
      ensures Kept(Kept(c, chunk), left - chunk) == Kept(c, left)
    {
    }

    static lemma ChunkCounts(n: map<Id, Node>, e: map<Edge, real>, c: map<Id, Checkpoint>, chunk: set<Id>)
      ensures |n - chunk| <= |n| && |Without(e, chunk)| <= |e| && |Kept(c, chunk)| <= |c|
    {
      SubsetSize((n - chunk).Keys, n.Keys);
      SubsetSize(Without(e, chunk).Keys, e.Keys);
      SubsetSize(Kept(c, chunk).Keys, c.Keys);
    }

    static lemma NothingLeft(n: map<Id, Node>, e: map<Edge, real>, c: map<Id, Checkpoint>)
      ensures n - {} == n && Without(e, {}) == e && Kept(c, {}) == c
    {
    }

    static method TakeChunk(s: set<Id>, most: nat) returns (chunk: set<Id>)
      requires s != {} && most > 0
      ensures chunk <= s && 0 < |chunk| <= most
    {
      var x :| x in s;
      chunk := {x};
      while |chunk| < most && s - chunk != {}
        invariant chunk <= s && 0 < |chunk| <= most
        decreases s - chunk
      {
        var y :| y in s - chunk;
        chunk := chunk + {y};
      }
    }
  }

  /** A stored node from before the cutoff. */
  predicate Old(nodes: map<Id, Node>, n: Id, cutoff: real) {
    n in nodes && nodes[n].ts < cutoff
  }

  /** What a cutoff leaves: the nodes dated at or after it, and the edges and checkpoints of none before it. */
  ghost predicate Spared(nodes: map<Id, Node>, edges: map<Edge, real>, checkpoints: map<Id, Checkpoint>, cutoff: real,
                         n: map<Id, Node>, e: map<Edge, real>, c: map<Id, Checkpoint>) {
    && (forall x :: x in n <==> x in nodes && nodes[x].ts >= cutoff)
    && (forall x :: x in e <==> x in edges && !Old(nodes, x.0, cutoff) && !Old(nodes, x.1, cutoff))
    && (forall x :: x in c <==> x in checkpoints && !Old(nodes, checkpoints[x].node, cutoff))
    && (forall x :: x in n ==> n[x] == nodes[x]) && (forall x :: x in e ==> e[x] == edges[x])
    && (forall x :: x in c ==> c[x] == checkpoints[x])
  }

  lemma Remaining(nodes: map<Id, Node>, edges: map<Edge, real>, checkpoints: map<Id, Checkpoint>, cutoff: real)
    ensures var gone := Aged(nodes, cutoff);
            Spared(nodes, edges, checkpoints, cutoff, nodes - gone, Without(edges, gone), Kept(checkpoints, gone))
  {
  }

  function Aged(nodes: map<Id, Node>, cutoff: real): set<Id> {
    set n | n in nodes && nodes[n].ts < cutoff
  }

  function Without(edges: map<Edge, real>, gone: set<Id>): map<Edge, real> {
    map e | e in edges && e.0 !in gone && e.1 !in gone :: edges[e]
  }

  function Kept(checkpoints: map<Id, Checkpoint>, gone: set<Id>): map<Id, Checkpoint> {
    map c | c in checkpoints && checkpoints[c].node !in gone :: checkpoints[c]
  }
}
