/** Root-cause search, the narrative's path, and the remediations proposed for a root. */
module Attribution {
  import opened Base
  import opened Graph
  import opened Model
  import opened Store
  import opened Lifecycle
  import opened Weights

  predicate Drifted(n: Node, watch: real) {
    n.score >= watch || n.status == Flagged || n.status == Watch
  }

  /** Clean or contained, at a score under the watch threshold. */
  predicate Calm(n: Node, watch: real) {
    n.score < watch && n.status != Flagged && n.status != Watch
  }

  /** The drifted nodes among the target and its ancestors. */
  ghost function Suspects(nodes: map<Id, Node>, g: Rel, target: Id, watch: real): set<Id> {
    set n | n in Up(g, target) + {target} && n in nodes && Drifted(nodes[n], watch)
  }

  /** A suspect with no other suspect above it. */
  ghost predicate IsOrigin(nodes: map<Id, Node>, g: Rel, target: Id, watch: real, r: Id) {
    && r in Suspects(nodes, g, target, watch)
    && forall x :: x in Suspects(nodes, g, target, watch) && x != r ==> !Reaches(g, x, r)
  }

  ghost predicate HasOrigin(nodes: map<Id, Node>, g: Rel, target: Id, watch: real) {
    exists r :: IsOrigin(nodes, g, target, watch, r)
  }

  /** The target when it is missing or there is no suspect, else an origin, else an oldest suspect. */
  ghost predicate RootCause(nodes: map<Id, Node>, g: Rel, target: Id, watch: real, root: Id) {
    var suspects := Suspects(nodes, g, target, watch);
    if target !in nodes || suspects == {} then root == target
    else
      && root in suspects
      && (HasOrigin(nodes, g, target, watch) ==> IsOrigin(nodes, g, target, watch, root))
      && (!HasOrigin(nodes, g, target, watch) ==> forall x :: x in suspects ==> nodes[root].ts <= nodes[x].ts)
  }

  method FindRootCause(store: TwinStore, target: Id, watch: real) returns (root: Id)
    ensures RootCause(store.nodes, store.edges.Keys, target, watch, root)
  {
    ghost var g := store.edges.Keys;
    if target !in store.nodes {
      return target;
    }
    var candidates := store.Upstream(target);
    candidates := candidates + {target};
    var drifted := set n | n in candidates && n in store.nodes && Drifted(store.nodes[n], watch);
    assert drifted == Suspects(store.nodes, g, target, watch);
    if drifted == {} {
      return target;
    }
    var left := drifted;
    while left != {}
      invariant left <= drifted
      invariant forall n :: n in drifted && n !in left ==> !IsOrigin(store.nodes, g, target, watch, n)
      decreases |left|
    {
      var nid :| nid in left;
      var anc := store.Upstream(nid);
      forall x ensures x in anc <==> x != nid && Reaches(g, x, nid) {
        ClosuresDual(g, x, nid);
      }
      if anc * drifted == {} {
        assert IsOrigin(store.nodes, g, target, watch, nid) by {
          forall x | x in drifted && x != nid ensures !Reaches(g, x, nid) {
            assert x !in anc * drifted;
          }
        }
        return nid;
      }
      left := left - {nid};
    }
    root := Earliest(store, drifted);
  }

  method Earliest(store: TwinStore, ids: set<Id>) returns (m: Id)
    requires ids != {} && ids <= store.nodes.Keys
    ensures m in ids && forall x :: x in ids ==> store.nodes[m].ts <= store.nodes[x].ts
  {
    m :| m in ids;
    var left := ids - {m};
    while left != {}
      invariant m in ids && left <= ids
      invariant forall x :: x in ids && x !in left ==> store.nodes[m].ts <= store.nodes[x].ts
      decreases |left|
    {
      var x :| x in left;
      if store.nodes[x].ts < store.nodes[m].ts {
        m := x;
      }
      left := left - {x};
    }
  }

  /** On a graph without cycles through two nodes an origin exists, so the search never falls back on
      timestamps; and an origin has no drifted proper ancestor anywhere in the store. */
  lemma OriginExists(nodes: map<Id, Node>, g: Rel, target: Id, watch: real)
    requires NearAcyclic(g)
    ensures HasOrigin(nodes, g, target, watch) <==> Suspects(nodes, g, target, watch) != {}
    ensures HasOrigin(nodes, g, target, watch) <==>
              exists x :: x in nodes && (x == target || Reaches(g, x, target)) && !Calm(nodes[x], watch)
    ensures forall r :: IsOrigin(nodes, g, target, watch, r) ==>
              && r in nodes && !Calm(nodes[r], watch) && (r == target || Reaches(g, r, target))
              && forall x :: x in nodes && Reaches(g, x, r) && x != r ==> Calm(nodes[x], watch)
  {
    var suspects := Suspects(nodes, g, target, watch);
    if suspects != {} {
      var m := MinimalMember(g, suspects);
      assert IsOrigin(nodes, g, target, watch, m);
    }
    forall x | x in nodes
      ensures x in suspects <==> (x == target || Reaches(g, x, target)) && !Calm(nodes[x], watch)
    {
      ClosuresDual(g, x, target);
    }
    forall r | IsOrigin(nodes, g, target, watch, r)
      ensures forall x :: x in nodes && Reaches(g, x, r) && x != r ==> Calm(nodes[x], watch)
    {
      forall x | x in nodes && Reaches(g, x, r) && x != r ensures Calm(nodes[x], watch) {
        if Drifted(nodes[x], watch) {
          SuspectAbove(nodes, g, target, watch, x, r);
        }
      }
    }
  }

  lemma SuspectAbove(nodes: map<Id, Node>, g: Rel, target: Id, watch: real, x: Id, r: Id)
    requires r in Suspects(nodes, g, target, watch) && Reaches(g, x, r)
    requires x in nodes && Drifted(nodes[x], watch)
    ensures x in Suspects(nodes, g, target, watch)
  {
    ClosuresDual(g, r, target);
    if r != target {
      ReachesTrans(g, x, r, target);
    }
    ClosuresDual(g, x, target);
  }

  /** When two suspects reach each other and one of them reaches every other suspect, the search has no origin to
      find. */
  lemma CycleHasNoOrigin(nodes: map<Id, Node>, g: Rel, target: Id, watch: real, a: Id, b: Id)
    requires a != b && b in Suspects(nodes, g, target, watch) && Reaches(g, a, b) && Reaches(g, b, a)
    requires forall x :: x in Suspects(nodes, g, target, watch) ==> x == a || Reaches(g, a, x)
    requires a in nodes && Drifted(nodes[a], watch)
    ensures !HasOrigin(nodes, g, target, watch)
  {
    SuspectAbove(nodes, g, target, watch, a, b);
  }

  /** The narrative's facts: its root, its path, and the blast radius of its root. The fallback for an empty
      path is never taken. */
  method Narrate(store: TwinStore, target: Id, watch: real) returns (root: Id, path: seq<Id>, blast: set<Id>)
    requires target in store.nodes
    ensures path != [] && WalkFromTo(store.edges.Keys, path, root, target) && NoDup(path)
    ensures forall p :: WalkFromTo(store.edges.Keys, p, root, target) ==> |path| <= |p|
    ensures blast == Down(store.edges.Keys, root) - {root}
    ensures NearAcyclic(store.edges.Keys) && Suspects(store.nodes, store.edges.Keys, target, watch) != {} ==>
              IsOrigin(store.nodes, store.edges.Keys, target, watch, root)
  {
    root := FindRootCause(store, target, watch);
    if NearAcyclic(store.edges.Keys) {
      OriginExists(store.nodes, store.edges.Keys, target, watch);
    }
    ClosuresDual(store.edges.Keys, root, target);
    path := store.PropagationPath(root, target);
    if path == [] {
      path := [root];
    }
    blast := store.BlastRadius(root);
  }

  // ---- proposals ----

  /** The newest checkpoint of the agent not after the given time, if there is one. */
  ghost predicate LatestGood(cs: map<Id, Checkpoint>, agent: Id, before: real, best: Option<Id>) {
    && (best.None? ==> forall c :: c in cs && cs[c].agent == agent ==> cs[c].ts > before)
    && (best.Some? ==> best.value in cs && cs[best.value].agent == agent && cs[best.value].ts <= before
                       && forall c :: c in cs && cs[c].agent == agent && cs[c].ts > cs[best.value].ts ==>
                            cs[c].ts > before)
  }

  method LatestGoodCheckpoint(store: TwinStore, agent: Id, before: real) returns (best: Option<Id>)
    ensures LatestGood(store.checkpoints, agent, before, best)
  {
    best := None;
    var left := store.checkpoints.Keys;
    while left != {}
      invariant left <= store.checkpoints.Keys
      invariant best.Some? ==> best.value in store.checkpoints && store.checkpoints[best.value].agent == agent
                               && store.checkpoints[best.value].ts <= before
      invariant forall c :: c in store.checkpoints && c !in left
                            && store.checkpoints[c].agent == agent && store.checkpoints[c].ts <= before ==>
                  best.Some? && store.checkpoints[c].ts <= store.checkpoints[best.value].ts
      decreases |left|
    {
      var c :| c in left;
      if store.checkpoints[c].agent == agent && store.checkpoints[c].ts <= before
         && (best.None? || store.checkpoints[best.value].ts < store.checkpoints[c].ts) {
        best := Some(c);
      }
      left := left - {c};
    }
  }

  const NO_PATCH := Patch(None, None)

  function RollbackDraft(id: Id, node: Id, checkpoint: Option<Id>, who: string): Draft {
    Draft(id, node, Rollback, Params(None, checkpoint, NO_PATCH), who, "restore the last good context")
  }

  function FilterDraft(id: Id, node: Id, dst: Id, who: string): Draft {
    Draft(id, node, MessageFilter, Params(Some(dst), None, NO_PATCH), who, "drop the contaminated hand-off")
  }

  function QuarantineDraft(id: Id, node: Id, who: string): Draft {
    Draft(id, node, Quarantine, Params(None, None, NO_PATCH), who, "isolate the agent")
  }

  /** The root is privileged, or it reaches two or more others. */
  ghost predicate NeedsIsolation(nodes: map<Id, Node>, g: Rel, root: Id)
    requires root in nodes
  {
    nodes[root].privilege != Low || |Down(g, root) - {root}| >= 2
  }

  /** One filter for each hand-off, in their order. */
  ghost predicate Filters(filters: seq<Draft>, root: Id, who: string, hops: seq<Id>) {
    |filters| == |hops|
    && forall i :: 0 <= i < |filters| ==> filters[i] == FilterDraft(filters[i].id, root, hops[i], who)
  }

  /** What is proposed at a root, and nothing else: a rollback to its agent's newest good checkpoint, one filter
      for each successor, and a quarantine exactly when isolation is called for. */
  ghost predicate Proposal(nodes: map<Id, Node>, g: Rel, checkpoints: map<Id, Checkpoint>, root: Id, who: string,
                           hops: seq<Id>, drafts: seq<Draft>)
    requires root in nodes
  {
    var n := |hops| + 1;
    && NoDup(hops) && (forall dst :: dst in hops <==> (root, dst) in g)
    && |drafts| == n + (if NeedsIsolation(nodes, g, root) then 1 else 0)
    && drafts[0] == RollbackDraft(drafts[0].id, root, drafts[0].params.checkpoint, who)
    && LatestGood(checkpoints, nodes[root].agent, nodes[root].ts - 0.000001, drafts[0].params.checkpoint)
    && Filters(drafts[1..n], root, who, hops)
    && (NeedsIsolation(nodes, g, root) ==> drafts[n] == QuarantineDraft(drafts[n].id, root, who))
  }

  lemma ProposalGrounded(w: World, root: Id, who: string, hops: seq<Id>, drafts: seq<Draft>)
    requires root in w.nodes && Proposal(w.nodes, w.edges.Keys, w.checkpoints, root, who, hops, drafts)
    ensures DraftsGrounded(w, drafts)
  {
    forall i | 0 <= i < |drafts| && drafts[i].kind == MessageFilter
      ensures drafts[i].node == root && drafts[i].params.edgeTo.Some?
              && (root, drafts[i].params.edgeTo.value) in w.edges
    {
      assert 1 <= i < |hops| + 1;
      assert drafts[i] == drafts[1..|hops| + 1][i - 1];
      assert hops[i - 1] in hops;
    }
  }

  /** Which kinds of action are proposed where: all at the root; a rollback first and nowhere else; a filter towards
      exactly the root's direct successors; and a quarantine exactly when the root is of medium or high privilege or
      reaches two different nodes besides itself. */
  lemma ProposalKinds(nodes: map<Id, Node>, g: Rel, checkpoints: map<Id, Checkpoint>, root: Id, who: string,
                      hops: seq<Id>, drafts: seq<Draft>)
    requires root in nodes && Proposal(nodes, g, checkpoints, root, who, hops, drafts)
    ensures forall i :: 0 <= i < |drafts| ==> drafts[i].node == root && (drafts[i].kind == Rollback <==> i == 0)
    ensures forall dst :: Towards(drafts, dst) <==> (root, dst) in g
    ensures (exists i :: 0 <= i < |drafts| && drafts[i].kind == Quarantine) <==>
              nodes[root].privilege == Medium || nodes[root].privilege == High || ReachesTwo(g, root)
  {
    forall i | 0 <= i < |drafts|
      ensures drafts[i].node == root && (drafts[i].kind == Rollback <==> i == 0)
              && (drafts[i].kind == Quarantine <==> i == |hops| + 1)
    {
      FilterAt(root, who, hops, drafts, i);
    }
    forall dst ensures Towards(drafts, dst) <==> (root, dst) in g {
      FilterFor(root, who, hops, drafts, dst);
    }
    TwoBelow(g, root);
  }

  ghost predicate Towards(drafts: seq<Draft>, dst: Id) {
    exists i :: 0 <= i < |drafts| && drafts[i].kind == MessageFilter && drafts[i].params.edgeTo == Some(dst)
  }

  ghost predicate ReachesTwo(g: Rel, root: Id) {
    exists a, b :: a != b && a != root && b != root && Reaches(g, root, a) && Reaches(g, root, b)
  }

  lemma FilterAt(root: Id, who: string, hops: seq<Id>, drafts: seq<Draft>, i: nat)
    requires |hops| < |drafts| && Filters(drafts[1..|hops| + 1], root, who, hops)
    ensures 1 <= i <= |hops| ==> drafts[i] == FilterDraft(drafts[i].id, root, hops[i - 1], who)
  {
    if 1 <= i <= |hops| {
      assert drafts[i] == drafts[1..|hops| + 1][i - 1];
    }
  }

  lemma FilterFor(root: Id, who: string, hops: seq<Id>, drafts: seq<Draft>, dst: Id)
    requires |hops| < |drafts| && Filters(drafts[1..|hops| + 1], root, who, hops)
    requires forall i :: 0 <= i < |drafts| && drafts[i].kind == MessageFilter ==> 1 <= i <= |hops|
    ensures Towards(drafts, dst) <==> dst in hops
  {
    if Towards(drafts, dst) {
      var i :| 0 <= i < |drafts| && drafts[i].kind == MessageFilter && drafts[i].params.edgeTo == Some(dst);
      FilterAt(root, who, hops, drafts, i);
    }
    if dst in hops {
      var k :| 0 <= k < |hops| && hops[k] == dst;
      FilterAt(root, who, hops, drafts, k + 1);
      assert drafts[k + 1].kind == MessageFilter;
    }
  }

  lemma TwoBelow(g: Rel, root: Id)
    ensures |Down(g, root) - {root}| >= 2 <==> ReachesTwo(g, root)
  {
    var below := Down(g, root) - {root};
    forall x ensures x in below <==> x != root && Reaches(g, root, x) {
      ClosuresDual(g, root, x);
    }
    if |below| >= 2 {
      var a :| a in below;
      assert |below - {a}| >= 1;
      var b :| b in below - {a};
    }
    if ReachesTwo(g, root) {
      var a, b :| a != b && a != root && b != root && Reaches(g, root, a) && Reaches(g, root, b);
      SubsetSize({a, b}, below);
    }
  }

  /** The proposals at a root; `newId` supplies the names of new actions. */
  method ProposeRemediation(store: TwinStore, root: Id, who: string, newId: nat -> Id)
    returns (drafts: seq<Draft>, ghost hops: seq<Id>)
    requires root in store.nodes
    ensures Proposal(store.nodes, store.edges.Keys, store.checkpoints, root, who, hops, drafts)
    ensures forall i :: 0 <= i < |drafts| ==> drafts[i].id == newId(i)
  {
    var node := store.nodes[root];
    var downstream := store.BlastRadius(root);
    var good := LatestGoodCheckpoint(store, node.agent, node.ts - 0.000001);
    var rollback := RollbackDraft(newId(0), root, good, who);
    var successors := store.Successors(root);
    var filters;
    filters, hops := FiltersFor(root, who, successors, newId);
    var quarantine := QuarantineDraft(newId(|filters| + 1), root, who);
    var isolate := node.privilege == High || node.privilege == Medium || |downstream| >= 2;
    Assembled(store.nodes, store.edges.Keys, store.checkpoints, root, who, hops, rollback, filters, quarantine);
    NamesInOrder(rollback, filters, quarantine, isolate, newId);
    drafts := [rollback] + filters + (if isolate then [quarantine] else []);
  }

  lemma NamesInOrder(rollback: Draft, filters: seq<Draft>, quarantine: Draft, isolate: bool, newId: nat -> Id)
    requires rollback.id == newId(0) && quarantine.id == newId(|filters| + 1)
    requires forall i :: 0 <= i < |filters| ==> filters[i].id == newId(i + 1)
    ensures var drafts := [rollback] + filters + (if isolate then [quarantine] else []);
            forall i :: 0 <= i < |drafts| ==> drafts[i].id == newId(i)
  {
    var drafts := [rollback] + filters + (if isolate then [quarantine] else []);
    forall i | 0 <= i < |drafts| ensures drafts[i].id == newId(i) {
      if 1 <= i <= |filters| {
        assert drafts[i] == filters[i - 1];
      }
    }
  }

  lemma Assembled(nodes: map<Id, Node>, g: Rel, checkpoints: map<Id, Checkpoint>, root: Id, who: string,
                  hops: seq<Id>, rollback: Draft, filters: seq<Draft>, quarantine: Draft)
    requires root in nodes && NoDup(hops) && (forall dst :: dst in hops <==> (root, dst) in g)
    requires rollback == RollbackDraft(rollback.id, root, rollback.params.checkpoint, who)
    requires LatestGood(checkpoints, nodes[root].agent, nodes[root].ts - 0.000001, rollback.params.checkpoint)
    requires Filters(filters, root, who, hops) && quarantine == QuarantineDraft(quarantine.id, root, who)
    ensures Proposal(nodes, g, checkpoints, root, who, hops,
                     [rollback] + filters + (if NeedsIsolation(nodes, g, root) then [quarantine] else []))
  {
    var drafts := [rollback] + filters + (if NeedsIsolation(nodes, g, root) then [quarantine] else []);
    assert drafts[1..|hops| + 1] == filters;
    assert NeedsIsolation(nodes, g, root) ==> drafts[|hops| + 1] == quarantine;
  }

  method FiltersFor(root: Id, who: string, successors: set<Id>, newId: nat -> Id)
    returns (filters: seq<Draft>, ghost hops: seq<Id>)
    ensures NoDup(hops) && (forall dst :: dst in hops <==> dst in successors)
    ensures Filters(filters, root, who, hops)
    ensures forall i :: 0 <= i < |filters| ==> filters[i].id == newId(i + 1)
  {
    filters, hops := [], [];
    var left := successors;
    while left != {}
      invariant NoDup(hops) && (forall dst :: dst in successors <==> dst in left || dst in hops)
      invariant forall dst :: dst in left ==> dst !in hops
      invariant Filters(filters, root, who, hops)
      invariant forall i :: 0 <= i < |filters| ==> filters[i].id == newId(i + 1)
      decreases |left|
    {
      var dst :| dst in left;
      filters, left := filters + [FilterDraft(newId(|filters| + 1), root, dst, who)], left - {dst};
      hops := hops + [dst];
    }
  }
}
