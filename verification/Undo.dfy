/** Reverting what was approved: which sequences of remediations leave the nodes as they were. */
module Undo {
  import opened Base
  import opened Graph
  import opened Model
  import opened Lifecycle
  import opened Runs

  /** Every node is as before except that its drift score may have dropped; no edge or checkpoint differs. */
  ghost predicate Restored(w: World, v: World) {
    && v.nodes.Keys == w.nodes.Keys && v.edges == w.edges && v.checkpoints == w.checkpoints
    && (forall n :: n in w.nodes ==> RestoredNode(w.nodes[n], v.nodes[n]))
  }

  predicate RestoredNode(n: Node, m: Node) {
    m == n.(score := m.score) && m.score <= n.score
  }

  lemma RestoredChain(w: World, v: World, u: World)
    requires Restored(w, v) && Restored(v, u)
    ensures Restored(w, u)
  {
    forall n | n in w.nodes ensures RestoredNode(w.nodes[n], u.nodes[n]) {
      assert RestoredNode(w.nodes[n], v.nodes[n]) && RestoredNode(v.nodes[n], u.nodes[n]);
    }
  }

  /** From this state, approving the action and reverting it restores the tables: any rollback, quarantine or
      context edit; a redeploy of a clean node; a filter of an open edge into a node it has no cause to calm. */
  predicate RevertsCleanly(w: World, a: Action) {
    match a.kind
    case Redeploy => a.node in w.nodes ==> w.nodes[a.node].status == Clean
    case MessageFilter =>
      a.node in w.nodes && Truthy(a.params.edgeTo) ==> FiltersCleanly(w, a.node, a.params.edgeTo.value)
    case _ => true
  }

  predicate FiltersCleanly(w: World, src: Id, dst: Id) {
    && (dst != src && dst in w.nodes ==> w.nodes[dst].status != Flagged && w.nodes[dst].status != Watch)
    && ((src, dst) in w.edges ==> w.edges[(src, dst)] == 1.0)
  }

  // ---- one approval, and its revert after whatever restoring happens in between ----

  /** What approve and revert do to the tables, read off the effect and the undo. */
  lemma ApproveIsEffect(w: World, id: Id, who: string)
    requires Ready(w, id, Proposed) && w.actions[id].body.node in w.nodes
    ensures var (v, a) := (Approve(w, id, who).0, w.actions[id].body.(status := Approved, approvedBy := Some(who)));
            var (x, b) := Effect(Logged(w, ApprovedEvent(a, who)), a, w.nodes[a.node]);
            && v.nodes == x.nodes && v.edges == x.edges && v.checkpoints == x.checkpoints
            && id in v.actions && v.actions[id].body == b.(status := Applied)
  {
  }

  lemma RevertIsUndo(w: World, id: Id, who: string)
    requires Ready(w, id, Applied)
    requires w.actions[id].body.node in w.nodes && w.actions[id].body.before != NOTHING
    ensures var (v, a) := (Revert(w, id, who).0, w.actions[id].body);
            var x := Undo(w, a, w.nodes[a.node]);
            v.nodes == x.nodes && v.edges == x.edges && v.checkpoints == x.checkpoints
  {
  }

  function UndoneNode(a: Action, n: Node): Node {
    if a.kind == Quarantine then
      n.(quarantined := GetOr(a.before.quarantined, false), status := GetOr(a.before.status, Flagged))
    else
      n.(intent := GetOr(a.before.intent, n.intent), output := GetOr(a.before.output, n.output),
         task := GetOr(a.before.task, n.task), quarantined := GetOr(a.before.quarantined, n.quarantined),
         status := GetOr(a.before.status, n.status))
  }

  /** An effect on a node changes nothing that its undo does not put back, but for a score that drops. */
  ghost predicate Remembers(n: Node, m: Node, b: Action) {
    && m.score <= n.score && b.before != NOTHING
    && forall score :: UndoneNode(b, m.(score := score)) == n.(score := score)
  }

  lemma RollbackRemembers(w: World, a: Action, n: Node)
    requires a.kind == Rollback
    ensures var m := RolledBack(w, n, a.params.checkpoint);
            Remembers(n, m, a.(before := Snapshot(n), after := Snapshot(m)))
  {
  }

  lemma EffectRemembers(w: World, a: Action, n: Node)
    requires a.kind != MessageFilter && (a.kind == Redeploy ==> n.status == Clean)
    ensures var (x, b) := Effect(w, a, n);
            && x.edges == w.edges && x.checkpoints == w.checkpoints
            && a.node in x.nodes && x.nodes == w.nodes[a.node := x.nodes[a.node]]
            && Remembers(n, x.nodes[a.node], b) && b.kind == a.kind && b.node == a.node
  {
    if a.kind == Rollback {
      RollbackRemembers(w, a, n);
    }
  }

  lemma UndoOfNode(w: World, a: Action)
    requires a.kind != MessageFilter && a.node in w.nodes
    ensures var x := Undo(w, a, w.nodes[a.node]);
            && x.edges == w.edges && x.checkpoints == w.checkpoints
            && x.nodes == w.nodes[a.node := UndoneNode(a, w.nodes[a.node])]
  {
  }

  /** What such an approval leaves for the revert. */
  lemma ApproveRemembers(w: World, id: Id, who: string)
    requires Ready(w, id, Proposed) && RevertsCleanly(w, w.actions[id].body)
    requires w.actions[id].body.kind != MessageFilter && w.actions[id].body.node in w.nodes
    ensures var (v, n) := (Approve(w, id, who).0, w.actions[id].body.node);
            && v.edges == w.edges && v.checkpoints == w.checkpoints
            && n in v.nodes && v.nodes == w.nodes[n := v.nodes[n]] && Ready(v, id, Applied)
            && Remembers(w.nodes[n], v.nodes[n], v.actions[id].body)
            && v.actions[id].body.kind != MessageFilter && v.actions[id].body.node == n
  {
    var a := w.actions[id].body.(status := Approved, approvedBy := Some(who));
    ApproveIsEffect(w, id, who);
    EffectRemembers(Logged(w, ApprovedEvent(a, who)), a, w.nodes[a.node]);
  }

  lemma RevertPutsBack(w: World, id: Id, who: string)
    requires Ready(w, id, Applied) && w.actions[id].body.kind != MessageFilter
    requires w.actions[id].body.node in w.nodes && w.actions[id].body.before != NOTHING
    ensures var (v, b) := (Revert(w, id, who).0, w.actions[id].body);
            && v.edges == w.edges && v.checkpoints == w.checkpoints
            && v.nodes == w.nodes[b.node := UndoneNode(b, w.nodes[b.node])]
  {
    RevertIsUndo(w, id, who);
    UndoOfNode(w, w.actions[id].body);
  }

  lemma NodeNestRestores(w: World, id: Id, approver: string, mid: World, reverter: string)
    requires Ready(w, id, Proposed) && RevertsCleanly(w, w.actions[id].body)
    requires w.actions[id].body.kind != MessageFilter && w.actions[id].body.node in w.nodes
    requires Restored(Approve(w, id, approver).0, mid)
    requires id in mid.actions && mid.actions[id] == Approve(w, id, approver).0.actions[id]
    ensures Restored(w, Revert(mid, id, reverter).0)
  {
    ApproveRemembers(w, id, approver);
    RevertPutsBack(mid, id, reverter);
    UndoneRestores(w, Approve(w, id, approver).0, mid, Revert(mid, id, reverter).0, w.actions[id].body.node,
                   mid.actions[id].body);
  }

  lemma UndoneRestores(w: World, v: World, mid: World, u: World, n: Id, b: Action)
    requires n in w.nodes && n in v.nodes && v.nodes == w.nodes[n := v.nodes[n]]
    requires v.edges == w.edges && v.checkpoints == w.checkpoints
    requires Remembers(w.nodes[n], v.nodes[n], b) && Restored(v, mid)
    requires u.edges == mid.edges && u.checkpoints == mid.checkpoints
    requires u.nodes == mid.nodes[n := UndoneNode(b, mid.nodes[n])]
    ensures Restored(w, u)
  {
    forall m | m in w.nodes ensures RestoredNode(w.nodes[m], u.nodes[m]) {
      assert RestoredNode(v.nodes[m], mid.nodes[m]);
      if m == n {
        assert UndoneNode(b, v.nodes[n].(score := mid.nodes[n].score)) == w.nodes[n].(score := mid.nodes[n].score);
      }
    }
  }

  /** A filter's approval zeroes its edge and calms its target; its revert opens the edge and touches no node. */
  lemma FilterApproved(w: World, id: Id, who: string)
    requires Ready(w, id, Proposed) && w.actions[id].body.kind == MessageFilter && w.actions[id].body.node in w.nodes
    ensures var (v, a) := (Approve(w, id, who).0, w.actions[id].body);
            && v.checkpoints == w.checkpoints && Ready(v, id, Applied)
            && v.actions[id].body.kind == MessageFilter && v.actions[id].body.node == a.node
            && v.actions[id].body.before == NOTHING.(edgeTo := a.params.edgeTo, filtered := Some(false))
            && v.nodes == (if Truthy(a.params.edgeTo)
                           then Calmed(w.nodes, a.params.edgeTo.value)[a.node := w.nodes[a.node]] else w.nodes)
            && v.edges == (if Truthy(a.params.edgeTo)
                           then Weighted(w.edges, a.node, a.params.edgeTo.value, 0.0) else w.edges)
  {
    ApproveIsEffect(w, id, who);
  }

  lemma FilterReverted(w: World, id: Id, who: string)
    requires Ready(w, id, Applied) && w.actions[id].body.kind == MessageFilter && w.actions[id].body.node in w.nodes
    requires w.actions[id].body.before != NOTHING
    ensures var (v, a) := (Revert(w, id, who).0, w.actions[id].body);
            && v.checkpoints == w.checkpoints && v.nodes == w.nodes
            && v.edges == (if Truthy(a.before.edgeTo)
                           then Weighted(w.edges, a.node, a.before.edgeTo.value, 1.0) else w.edges)
  {
    RevertIsUndo(w, id, who);
  }

  lemma FilterNestRestores(w: World, id: Id, approver: string, mid: World, reverter: string)
    requires Ready(w, id, Proposed) && RevertsCleanly(w, w.actions[id].body)
    requires w.actions[id].body.kind == MessageFilter && w.actions[id].body.node in w.nodes
    requires Restored(Approve(w, id, approver).0, mid)
    requires id in mid.actions && mid.actions[id] == Approve(w, id, approver).0.actions[id]
    ensures Restored(w, Revert(mid, id, reverter).0)
  {
    var v, a := Approve(w, id, approver).0, w.actions[id].body;
    FilterApproved(w, id, approver);
    FilterReverted(mid, id, reverter);
    assert v.nodes == w.nodes;
    if Truthy(a.params.edgeTo) {
      Reopened(w.edges, a.node, a.params.edgeTo.value);
    }
  }

  lemma Reopened(edges: map<Edge, real>, src: Id, dst: Id)
    ensures var after := Weighted(Weighted(edges, src, dst, 0.0), src, dst, 1.0);
            after == edges <==> ((src, dst) in edges ==> edges[(src, dst)] == 1.0)
  {
    var after := Weighted(Weighted(edges, src, dst, 0.0), src, dst, 1.0);
    if (src, dst) in edges {
      assert after[(src, dst)] == 1.0;
    }
  }

  lemma NestRestores(w: World, id: Id, approver: string, mid: World, reverter: string)
    requires Ready(w, id, Proposed) && RevertsCleanly(w, w.actions[id].body)
    requires Restored(Approve(w, id, approver).0, mid)
    requires id in mid.actions && mid.actions[id] == Approve(w, id, approver).0.actions[id]
    ensures Restored(w, Revert(mid, id, reverter).0)
  {
    if w.actions[id].body.node !in w.nodes {
      assert mid.actions[id].body.status == Rejected;
    } else if w.actions[id].body.kind == MessageFilter {
      FilterNestRestores(w, id, approver, mid, reverter);
    } else {
      NodeNestRestores(w, id, approver, mid, reverter);
    }
  }

  // ---- one round trip, exactly ----

  lemma RedeployLeavesTrace(w: World, id: Id, approver: string, reverter: string)
    requires Ready(w, id, Proposed) && w.actions[id].body.kind == Redeploy && w.actions[id].body.node in w.nodes
    requires w.nodes[w.actions[id].body.node].status != Clean
    ensures !Restored(w, Revert(Approve(w, id, approver).0, id, reverter).0)
  {
    var v, a := Approve(w, id, approver).0, w.actions[id].body;
    ApproveIsEffect(w, id, approver);
    RevertIsUndo(v, id, reverter);
    var u := Revert(v, id, reverter).0;
    assert u.nodes[a.node].status == Clean;
    assert !RestoredNode(w.nodes[a.node], u.nodes[a.node]);
  }

  lemma FilterLeavesTrace(w: World, id: Id, approver: string, reverter: string)
    requires Ready(w, id, Proposed) && w.actions[id].body.kind == MessageFilter
    requires !RevertsCleanly(w, w.actions[id].body)
    ensures !Restored(w, Revert(Approve(w, id, approver).0, id, reverter).0)
  {
    var v, a := Approve(w, id, approver).0, w.actions[id].body;
    var dst := a.params.edgeTo.value;
    FilterApproved(w, id, approver);
    FilterReverted(v, id, reverter);
    Reopened(w.edges, a.node, dst);
    if dst != a.node && dst in w.nodes && (w.nodes[dst].status == Flagged || w.nodes[dst].status == Watch) {
      assert !RestoredNode(w.nodes[dst], v.nodes[dst]);
    }
  }

  /** One approve and its revert restore the tables exactly under the guard, for every kind of action. */
  lemma RoundTripExact(w: World, id: Id, approver: string, reverter: string)
    requires Ready(w, id, Proposed)
    ensures Restored(w, Revert(Approve(w, id, approver).0, id, reverter).0)
            <==> RevertsCleanly(w, w.actions[id].body)
  {
    var v := Approve(w, id, approver).0;
    if RevertsCleanly(w, w.actions[id].body) {
      ApproveShape(w, id, approver);
      assert Restored(v, v);
      NestRestores(w, id, approver, v, reverter);
    } else if w.actions[id].body.kind == MessageFilter {
      FilterLeavesTrace(w, id, approver, reverter);
    } else {
      RedeployLeavesTrace(w, id, approver, reverter);
    }
  }

  // ---- nesting ----

  /** Well-nested approvals and reverts: the last action approved is the first reverted. */
  datatype Script = End | Nest(id: Id, approver: string, inner: Script, reverter: string, rest: Script)

  function Play(w: World, s: Script): World
    decreases s
  {
    match s
    case End => w
    case Nest(id, approver, inner, reverter, rest) =>
      Play(Revert(Play(Approve(w, id, approver).0, inner), id, reverter).0, rest)
  }

  /** Each approval meets a waiting action that reverts cleanly from the state it is approved in. */
  predicate PlaysCleanly(w: World, s: Script)
    decreases s
  {
    match s
    case End => true
    case Nest(id, approver, inner, reverter, rest) =>
      && Ready(w, id, Proposed) && RevertsCleanly(w, w.actions[id].body)
      && PlaysCleanly(Approve(w, id, approver).0, inner)
      && PlaysCleanly(Revert(Play(Approve(w, id, approver).0, inner), id, reverter).0, rest)
  }

  ghost predicate OthersUntouched(w: World, v: World, names: seq<Id>) {
    v.actions.Keys == w.actions.Keys
    && forall id :: id in w.actions && id !in names ==> v.actions[id] == w.actions[id]
  }

  lemma OneRow(w: World, id: Id, who: string)
    ensures OthersUntouched(w, Approve(w, id, who).0, [id]) && OthersUntouched(w, Revert(w, id, who).0, [id])
  {
    if Ready(w, id, Proposed) { ApproveShape(w, id, who); }
    if Ready(w, id, Applied) { RevertShape(w, id, who); }
  }

  /** A script approves only waiting actions, so it never touches one that was decided before. */
  lemma {:induction false} DecidedStays(w: World, s: Script, id: Id)
    requires PlaysCleanly(w, s) && id in w.actions && w.actions[id].body.status != Proposed
    ensures id in Play(w, s).actions && Play(w, s).actions[id] == w.actions[id]
    decreases s
  {
    if s.Nest? {
      var v := Approve(w, s.id, s.approver).0;
      OneRow(w, s.id, s.approver);
      DecidedStays(v, s.inner, id);
      var mid := Play(v, s.inner);
      OneRow(mid, s.id, s.reverter);
      DecidedStays(Revert(mid, s.id, s.reverter).0, s.rest, id);
    }
  }

  /** Well-nested sequences of any length and any kinds restore the tables, if each approval reverts cleanly from
      the state it meets. */
  lemma {:induction false} WellNestedRestores(w: World, s: Script)
    requires PlaysCleanly(w, s)
    ensures Restored(w, Play(w, s))
    decreases s
  {
    if s.Nest? {
      var v := Approve(w, s.id, s.approver).0;
      ApproveShape(w, s.id, s.approver);
      WellNestedRestores(v, s.inner);
      DecidedStays(v, s.inner, s.id);
      var mid := Play(v, s.inner);
      NestRestores(w, s.id, s.approver, mid, s.reverter);
      var u := Revert(mid, s.id, s.reverter).0;
      WellNestedRestores(u, s.rest);
      RestoredChain(w, u, Play(u, s.rest));
    }
  }

  // ---- the kinds that save the node they change ----

  function Names(s: Script): seq<Id> {
    match s
    case End => []
    case Nest(id, _, inner, _, rest) => [id] + Names(inner) + Names(rest)
  }

  predicate Snapshots(k: Kind) {
    k == Rollback || k == Quarantine || k == ContextEdit
  }

  /** Each action is used once, is waiting for approval, and is of a kind that saves the node it changes. */
  ghost predicate Playable(w: World, s: Script) {
    && NoDup(Names(s))
    && forall id :: id in Names(s) ==> Ready(w, id, Proposed) && Snapshots(w.actions[id].body.kind)
  }

  lemma NestPlayable(w: World, s: Script)
    requires s.Nest? && Playable(w, s)
    ensures Playable(w, s.inner) && Playable(w, s.rest)
    ensures s.id !in Names(s.inner) && s.id !in Names(s.rest)
    ensures forall id :: id in Names(s.inner) ==> id !in Names(s.rest)
  {
    NoDupParts([s.id] + Names(s.inner), Names(s.rest));
    NoDupParts([s.id], Names(s.inner));
    assert s.id in [s.id];
  }

  lemma PlayableStays(w: World, v: World, names: seq<Id>, s: Script)
    requires Playable(w, s) && OthersUntouched(w, v, names) && forall id :: id in Names(s) ==> id !in names
    ensures Playable(v, s)
  {
  }

  lemma UntouchedChain(w: World, v: World, u: World, names: seq<Id>, more: seq<Id>)
    requires OthersUntouched(w, v, names) && OthersUntouched(v, u, more)
    ensures OthersUntouched(w, u, names + more)
  {
  }

  /** For rollbacks, quarantines and context edits it is enough to look at the actions before the first step. */
  lemma {:induction false} SavingKindsPlayCleanly(w: World, s: Script)
    requires Playable(w, s)
    ensures PlaysCleanly(w, s) && OthersUntouched(w, Play(w, s), Names(s))
    decreases s
  {
    if s.Nest? {
      NestPlayable(w, s);
      assert s.id in Names(s);
      var v := Approve(w, s.id, s.approver).0;
      OneRow(w, s.id, s.approver);
      PlayableStays(w, v, [s.id], s.inner);
      SavingKindsPlayCleanly(v, s.inner);
      var mid := Play(v, s.inner);
      var u := Revert(mid, s.id, s.reverter).0;
      OneRow(mid, s.id, s.reverter);
      UntouchedChain(w, v, mid, [s.id], Names(s.inner));
      UntouchedChain(w, mid, u, [s.id] + Names(s.inner), [s.id]);
      assert OthersUntouched(w, u, [s.id] + Names(s.inner));
      PlayableStays(w, u, [s.id] + Names(s.inner), s.rest);
      SavingKindsPlayCleanly(u, s.rest);
      UntouchedChain(w, u, Play(u, s.rest), [s.id] + Names(s.inner), Names(s.rest));
    }
  }

  /** So any well-nested sequence of them, whatever nodes they are about, restores every node. */
  lemma SavingKindsRestore(w: World, s: Script)
    requires Playable(w, s)
    ensures Restored(w, Play(w, s))
  {
    SavingKindsPlayCleanly(w, s);
    WellNestedRestores(w, s);
  }
}
