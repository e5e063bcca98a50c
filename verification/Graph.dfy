/** Walks, reachability and cycles in a finite relation on names, what lies above and below a name, the relation
    induced by some of the names, and the relations in which no cycle runs through two different names. */
module Graph {
  import opened Base

  type Edge = (Id, Id)
  type Rel = set<Edge>

  ghost predicate IsWalk(g: Rel, p: seq<Id>) {
    |p| > 0 && forall i :: 0 <= i < |p| - 1 ==> (p[i], p[i + 1]) in g
  }

  ghost predicate WalkFromTo(g: Rel, p: seq<Id>, a: Id, b: Id) {
    IsWalk(g, p) && p[0] == a && p[|p| - 1] == b
  }

  /** One or more edges lead from a to b. */
  ghost predicate Reaches(g: Rel, a: Id, b: Id) {
    exists p :: |p| >= 2 && WalkFromTo(g, p, a, b)
  }

  ghost predicate Acyclic(g: Rel) {
    forall a :: !Reaches(g, a, a)
  }

  /** No cycle through two different nodes; self-loops are allowed. */
  ghost predicate NearAcyclic(g: Rel) {
    forall a, b :: Reaches(g, a, b) && Reaches(g, b, a) ==> a == b
  }

  ghost function Down(g: Rel, a: Id): set<Id> {
    set e | e in g && Reaches(g, a, e.1) :: e.1
  }

  ghost function Up(g: Rel, b: Id): set<Id> {
    set e | e in g && Reaches(g, e.0, b) :: e.0
  }

  function Induced(g: Rel, ids: set<Id>): Rel {
    set e | e in g && e.0 in ids && e.1 in ids
  }

  lemma EdgeReaches(g: Rel, a: Id, b: Id)
    requires (a, b) in g
    ensures Reaches(g, a, b)
  {
    assert WalkFromTo(g, [a, b], a, b);
  }

  lemma WalkJoin(g: Rel, p: seq<Id>, q: seq<Id>)
    requires IsWalk(g, p) && IsWalk(g, q) && p[|p| - 1] == q[0]
    ensures IsWalk(g, p + q[1..])
    ensures (p + q[1..])[0] == p[0] && (p + q[1..])[|p + q[1..]| - 1] == q[|q| - 1]
  {
    var r := p + q[1..];
    forall i | 0 <= i < |r| - 1 ensures (r[i], r[i + 1]) in g {
      if i >= |p| - 1 {
        assert r[i] == q[i - |p| + 1] && r[i + 1] == q[i - |p| + 2];
      }
    }
  }

  lemma ReachesTrans(g: Rel, a: Id, b: Id, c: Id)
    requires Reaches(g, a, b) && Reaches(g, b, c)
    ensures Reaches(g, a, c)
  {
    var p :| |p| >= 2 && WalkFromTo(g, p, a, b);
    var q :| |q| >= 2 && WalkFromTo(g, q, b, c);
    WalkJoin(g, p, q);
    assert WalkFromTo(g, p + q[1..], a, c);
  }

  lemma ReachesMono(g: Rel, h: Rel, a: Id, b: Id)
    requires g <= h && Reaches(g, a, b)
    ensures Reaches(h, a, b)
  {
    var p :| |p| >= 2 && WalkFromTo(g, p, a, b);
    assert WalkFromTo(h, p, a, b);
  }

  /** A last edge: b is a successor of a, or of something a reaches. */
  lemma ReachesLast(g: Rel, a: Id, b: Id) returns (m: Id)
    requires Reaches(g, a, b)
    ensures (m, b) in g && (m == a || Reaches(g, a, m))
  {
    var p :| |p| >= 2 && WalkFromTo(g, p, a, b);
    m := p[|p| - 2];
    assert (p[|p| - 2], p[|p| - 2 + 1]) in g;
    if |p| > 2 {
      var q := p[..|p| - 1];
      assert WalkFromTo(g, q, a, m);
    }
  }

  lemma ReachesFirst(g: Rel, a: Id, b: Id) returns (m: Id)
    requires Reaches(g, a, b)
    ensures (a, m) in g && (m == b || Reaches(g, m, b))
  {
    var p :| |p| >= 2 && WalkFromTo(g, p, a, b);
    m := p[1];
    assert (p[0], p[0 + 1]) in g;
    if |p| > 2 {
      var q := p[1..];
      forall i | 0 <= i < |q| - 1 ensures (q[i], q[i + 1]) in g {
        assert (p[i + 1], p[i + 1 + 1]) in g;
      }
      assert WalkFromTo(g, q, m, b);
    }
  }

  /** The two closures are dual, and each is exactly reachability. */
  lemma ClosuresDual(g: Rel, a: Id, b: Id)
    ensures b in Down(g, a) <==> Reaches(g, a, b)
    ensures a in Up(g, b) <==> Reaches(g, a, b)
  {
    if Reaches(g, a, b) {
      var m := ReachesLast(g, a, b);
      var n := ReachesFirst(g, a, b);
      assert (m, b) in g && (m, b).1 == b;
      assert (a, n) in g && (a, n).0 == a;
    }
  }

  /** Anything that holds the successors of a and is closed under edges holds all that a reaches. */
  lemma {:induction false} ClosedHoldsWalk(g: Rel, s: set<Id>, p: seq<Id>, k: nat)
    requires IsWalk(g, p) && 1 <= k < |p|
    requires forall e :: e in g && e.0 == p[0] ==> e.1 in s
    requires forall e :: e in g && e.0 in s ==> e.1 in s
    ensures p[k] in s
  {
    if k == 1 {
      assert (p[0], p[0 + 1]) in g && (p[0], p[0 + 1]).0 == p[0];
    } else {
      ClosedHoldsWalk(g, s, p, k - 1);
      assert (p[k - 1], p[k - 1 + 1]) in g && (p[k - 1], p[k]).0 in s;
    }
  }

  lemma ClosedHoldsDown(g: Rel, s: set<Id>, a: Id)
    requires forall e :: e in g && e.0 == a ==> e.1 in s
    requires forall e :: e in g && e.0 in s ==> e.1 in s
    ensures Down(g, a) <= s
  {
    forall b | b in Down(g, a) ensures b in s {
      var p :| |p| >= 2 && WalkFromTo(g, p, a, b);
      ClosedHoldsWalk(g, s, p, |p| - 1);
    }
  }

  function Flip(g: Rel): Rel {
    set e | e in g :: (e.1, e.0)
  }

  lemma FlipWalk(g: Rel, p: seq<Id>, q: seq<Id>)
    requires IsWalk(g, p) && |q| == |p| && forall i :: 0 <= i < |p| ==> q[i] == p[|p| - 1 - i]
    ensures IsWalk(Flip(g), q)
  {
    forall i | 0 <= i < |q| - 1 ensures (q[i], q[i + 1]) in Flip(g) {
      var j := |p| - 2 - i;
      assert (p[j], p[j + 1]) in g;
      assert (p[j + 1], p[j]) == ((p[j], p[j + 1]).1, (p[j], p[j + 1]).0);
    }
  }

  lemma FlipReaches(g: Rel, a: Id, b: Id)
    requires Reaches(g, a, b)
    ensures Reaches(Flip(g), b, a)
  {
    var p :| |p| >= 2 && WalkFromTo(g, p, a, b);
    var q := seq(|p|, i requires 0 <= i < |p| => p[|p| - 1 - i]);
    FlipWalk(g, p, q);
    assert WalkFromTo(Flip(g), q, b, a);
  }

  /** Walking the flipped edges down from b is walking the edges up from b. */
  lemma UpIsFlippedDown(g: Rel, b: Id)
    ensures Up(g, b) == Down(Flip(g), b)
  {
    assert Flip(Flip(g)) == g by {
      forall e | e in g ensures e in Flip(Flip(g)) {
        assert (e.1, e.0) in Flip(g);
        assert e == ((e.1, e.0).1, (e.1, e.0).0);
      }
    }
    forall a ensures a in Up(g, b) <==> a in Down(Flip(g), b) {
      ClosuresDual(g, a, b);
      ClosuresDual(Flip(g), b, a);
      if Reaches(g, a, b) { FlipReaches(g, a, b); }
      if Reaches(Flip(g), b, a) { FlipReaches(Flip(g), b, a); }
    }
  }

  lemma EmptyNearAcyclic()
    ensures NearAcyclic({})
  {
    forall a, b ensures !Reaches({}, a, b) {
      if Reaches({}, a, b) {
        var m := ReachesLast({}, a, b);
      }
    }
  }

  // ---- acyclicity under the graph's growth and pruning ----

  /** Once a walk enters a node whose only way out is itself, it stays there. */
  lemma {:induction false} SinkTraps(g: Rel, n: Id, p: seq<Id>, i: nat, j: nat)
    requires IsWalk(g, p) && i <= j < |p| && p[i] == n
    requires forall e :: e in g && e.0 == n ==> e.1 == n
    ensures p[j] == n
  {
    if i < j {
      SinkTraps(g, n, p, i, j - 1);
      assert (p[j - 1], p[j - 1 + 1]) in g && (p[j - 1], p[j]).0 == n;
    }
  }

  /** Edges that only enter a node absent from the old graph close no cycle but that node's self-loop. */
  lemma NewSinkKeepsNearAcyclic(g: Rel, h: Rel, n: Id)
    requires NearAcyclic(g) && g <= h
    requires forall e :: e in g ==> e.0 != n && e.1 != n
    requires forall e :: e in h - g ==> e.1 == n
    ensures NearAcyclic(h)
  {
    forall a, b | Reaches(h, a, b) && Reaches(h, b, a) ensures a == b {
      var p :| |p| >= 2 && WalkFromTo(h, p, a, b);
      var q :| |q| >= 2 && WalkFromTo(h, q, b, a);
      assert forall e :: e in h && e.0 == n ==> e.1 == n;
      if a == n {
        SinkTraps(h, n, p, 0, |p| - 1);
      } else if b == n {
        SinkTraps(h, n, q, 0, |q| - 1);
      } else {
        AvoidsSink(g, h, n, p);
        AvoidsSink(g, h, n, q);
        assert Reaches(g, a, b) && Reaches(g, b, a);
      }
    }
  }

  lemma AvoidsSink(g: Rel, h: Rel, n: Id, p: seq<Id>)
    requires IsWalk(h, p) && p[|p| - 1] != n
    requires forall e :: e in h && e.0 == n ==> e.1 == n
    requires forall e :: e in h - g ==> e.1 == n
    ensures IsWalk(g, p)
  {
    forall i | 0 <= i < |p| - 1 ensures (p[i], p[i + 1]) in g {
      assert (p[i], p[i + 1]) in h;
      if (p[i], p[i + 1]) !in g {
        SinkTraps(h, n, p, i + 1, |p| - 1);
      }
    }
  }

  lemma FewerEdgesKeepNearAcyclic(g: Rel, h: Rel)
    requires NearAcyclic(h) && g <= h
    ensures NearAcyclic(g)
  {
    forall a, b | Reaches(g, a, b) && Reaches(g, b, a) ensures a == b {
      ReachesMono(g, h, a, b);
      ReachesMono(g, h, b, a);
    }
  }

  /** Minimal elements: in a near-acyclic graph every non-empty set has a member with no other member above it. */
  lemma {:induction false} MinimalMember(g: Rel, s: set<Id>) returns (m: Id)
    requires NearAcyclic(g) && s != {}
    ensures m in s && forall x :: x in s && Reaches(g, x, m) ==> x == m
    decreases |s|
  {
    var c :| c in s;
    if s == {c} {
      m := c;
    } else {
      m := MinimalMember(g, s - {c});
      if c != m && Reaches(g, c, m) {
        forall x | x in s && Reaches(g, x, c) ensures x == c {
          ReachesTrans(g, x, c, m);
        }
        m := c;
      }
    }
  }

  /** Without cycles through two nodes, self-loops are the only cycles. */
  lemma OnlySelfLoops(g: Rel)
    requires NearAcyclic(g)
    ensures Acyclic(g) <==> forall n :: (n, n) !in g
  {
    forall n | (n, n) in g ensures Reaches(g, n, n) {
      EdgeReaches(g, n, n);
    }
    forall a | Reaches(g, a, a) ensures (a, a) in g {
      var m := ReachesFirst(g, a, a);
      if m != a {
        EdgeReaches(g, a, m);
      }
    }
  }

  // ---- cycles in sets that always lead back ----

  lemma ConsWalk(g: Rel, m: Id, p: seq<Id>)
    requires IsWalk(g, p) && (m, p[0]) in g
    ensures IsWalk(g, [m] + p)
  {
    WalkJoin(g, [m, p[0]], p);
    assert [m, p[0]] + p[1..] == [m] + p;
  }

  lemma SliceWalk(g: Rel, p: seq<Id>, i: nat, j: nat)
    requires IsWalk(g, p) && i < j <= |p|
    ensures IsWalk(g, p[i..j])
  {
    forall k | 0 <= k < j - i - 1 ensures (p[i..j][k], p[i..j][k + 1]) in g {
      assert (p[i + k], p[i + k + 1]) in g;
    }
  }

  ghost predicate HasPredecessorIn(g: Rel, s: set<Id>, n: Id) {
    exists m :: m in s && (m, n) in g
  }

  ghost predicate LeadsBack(g: Rel, s: set<Id>) {
    forall n {:trigger HasPredecessorIn(g, s, n)} :: n in s ==> HasPredecessorIn(g, s, n)
  }

  lemma StepBack(g: Rel, s: set<Id>, n: Id) returns (m: Id)
    requires LeadsBack(g, s) && n in s
    ensures m in s && (m, n) in g
  {
    assert HasPredecessorIn(g, s, n);
    m :| m in s && (m, n) in g;
  }

  /** In a finite set where every member has a predecessor in the set, going back from a member meets a cycle. */
  lemma {:induction false} BackwardCycle(g: Rel, s: set<Id>, p: seq<Id>) returns (c: Id)
    requires IsWalk(g, p) && NoDup(p) && SetOf(p) <= s
    requires LeadsBack(g, s)
    ensures Reaches(g, c, c) && (c == p[|p| - 1] || Reaches(g, c, p[|p| - 1]))
    decreases |s| - |p|
  {
    var m := StepBack(g, s, p[0]);
    ConsWalk(g, m, p);
    if m in p {
      var k :| 0 <= k < |p| && p[k] == m;
      c := m;
      WalkCloses(g, p, k);
    } else {
      var q := [m] + p;
      assert NoDup(q);
      assert SetOf(q) == SetOf(p) + {m};
      NoDupSize(q);
      SubsetSize(SetOf(q), s);
      c := BackwardCycle(g, s, q);
    }
  }

  lemma WalkCloses(g: Rel, p: seq<Id>, k: nat)
    requires IsWalk(g, p) && k < |p| && (p[k], p[0]) in g
    ensures Reaches(g, p[k], p[k]) && (k == |p| - 1 || Reaches(g, p[k], p[|p| - 1]))
  {
    SliceWalk(g, p, 0, k + 1);
    ConsWalk(g, p[k], p[0..k + 1]);
    assert WalkFromTo(g, [p[k]] + p[0..k + 1], p[k], p[k]);
    SliceWalk(g, p, k, |p|);
    assert k < |p| - 1 ==> WalkFromTo(g, p[k..|p|], p[k], p[|p| - 1]);
  }
}
