/** Approvals and reverts in any order: what they leave of the nodes, for the kinds of action that save the node they
    change. */
module RevertOrder {
  import opened Base
  import opened Model
  import opened Lifecycle
  import opened Runs
  import opened Undo

  predicate Decides(op: Op) {
    op.OpApprove? || op.OpRevert?
  }

  /** A sequence of decisions, the states before and after each, and where each action is approved and reverted. */
  datatype Trip = Trip(ops: seq<Op>, states: seq<World>, starts: map<Id, nat>, ends: map<Id, nat>)

  ghost predicate StepAt(t: Trip, k: nat)
    requires k < |t.ops| < |t.states|
  {
    t.states[k + 1] == Step(t.states[k], t.ops[k])
  }

  /** The states are those of the run of the decisions from w. */
  ghost predicate Follows(w: World, t: Trip) {
    |t.states| == |t.ops| + 1 && t.states[0] == w && forall k :: 0 <= k < |t.ops| ==> StepAt(t, k)
  }

  /** Each action waits at first, saves the node it changes, and is approved once and reverted once, at the places
      given. */
  ghost predicate Paired(w: World, t: Trip) {
    && Follows(w, t) && t.starts.Keys == t.ends.Keys
    && (forall id :: id in t.starts ==>
          && t.starts[id] < t.ends[id] < |t.ops| && Ready(w, id, Proposed) && Snapshots(w.actions[id].body.kind)
          && t.ops[t.starts[id]].OpApprove? && t.ops[t.starts[id]].id == id
          && t.ops[t.ends[id]].OpRevert? && t.ops[t.ends[id]].id == id)
    && (forall k :: 0 <= k < |t.ops| ==>
          && Decides(t.ops[k]) && t.ops[k].id in t.starts
          && k == if t.ops[k].OpApprove? then t.starts[t.ops[k].id] else t.ends[t.ops[k].id])
  }

  /** The node an action was about before the sequence. */
  predicate About(w: World, id: Id, n: Id) {
    id in w.actions && w.actions[id].body.node == n
  }

  predicate ContextKind(w: World, id: Id) {
    id in w.actions && w.actions[id].body.kind != Quarantine
  }

  /** The decision is about n; and about its context. */
  predicate Concerns(w: World, op: Op, n: Id) {
    Decides(op) && About(w, op.id, n)
  }

  predicate ConcernsContext(w: World, op: Op, n: Id) {
    Concerns(w, op, n) && ContextKind(w, op.id)
  }

  predicate SameGuard(n: Node, m: Node) {
    (m.status, m.quarantined) == (n.status, n.quarantined)
  }

  predicate SameContext(n: Node, m: Node) {
    (m.intent, m.output, m.task) == (n.intent, n.output, n.task)
  }

  /** What no such action changes, and the score, which only drops. */
  predicate SameRest(n: Node, m: Node) {
    m.score <= n.score
    && m == n.(score := m.score, status := m.status, quarantined := m.quarantined, intent := m.intent,
               output := m.output, task := m.task)
  }

  // ---- one step ----

  /** Any run has such states. */
  lemma RunFollows(w: World, t: Trip)
    requires t.states == seq(|t.ops| + 1, k requires 0 <= k <= |t.ops| => Exec(w, t.ops[..k]))
    ensures Follows(w, t) && t.states[|t.ops|] == Exec(w, t.ops)
  {
    assert t.ops[..0] == [] && t.ops[..|t.ops|] == t.ops;
    forall k | 0 <= k < |t.ops| ensures StepAt(t, k) {
      assert t.ops[..k + 1][..|t.ops[..k + 1]| - 1] == t.ops[..k];
    }
  }

  lemma EffectSaves(w: World, a: Action, n: Node)
    requires Snapshots(a.kind)
    ensures var (v, b) := Effect(w, a, n);
            && a.node in v.nodes && v.nodes == w.nodes[a.node := v.nodes[a.node]]
            && SameRest(n, v.nodes[a.node]) && (a.kind == Quarantine ==> SameContext(n, v.nodes[a.node]))
            && v.nodes[a.node].status == Contained
            && Saves(b, n) && b.kind == a.kind && b.node == a.node
  {
  }

  /** The before-state holds what the revert will put back. */
  predicate Saves(b: Action, n: Node) {
    && b.before.quarantined == Some(n.quarantined) && b.before.status == Some(n.status)
    && (b.kind != Quarantine ==> b.before.intent == Some(n.intent) && b.before.output == Some(n.output)
                                 && b.before.task == Some(n.task))
  }

  lemma ApproveStep(w: World, id: Id, who: string)
    requires Ready(w, id, Proposed) && Snapshots(w.actions[id].body.kind) && w.actions[id].body.node in w.nodes
    ensures var (v, n) := (Approve(w, id, who).0, w.actions[id].body.node);
            && n in v.nodes && v.nodes == w.nodes[n := v.nodes[n]]
            && SameRest(w.nodes[n], v.nodes[n])
            && (w.actions[id].body.kind == Quarantine ==> SameContext(w.nodes[n], v.nodes[n]))
            && v.nodes[n].status == Contained
            && Ready(v, id, Applied) && Saves(v.actions[id].body, w.nodes[n])
            && v.actions[id].body.kind == w.actions[id].body.kind && v.actions[id].body.node == n
  {
    var a := w.actions[id].body.(status := Approved, approvedBy := Some(who));
    ApproveIsEffect(w, id, who);
    EffectSaves(Logged(w, ApprovedEvent(a, who)), a, w.nodes[a.node]);
  }

  lemma RevertStep(w: World, id: Id, who: string, n: Node)
    requires Ready(w, id, Applied) && Snapshots(w.actions[id].body.kind) && w.actions[id].body.node in w.nodes
    requires Saves(w.actions[id].body, n)
    ensures var (v, a) := (Revert(w, id, who).0, w.actions[id].body);
            && a.node in v.nodes && v.nodes == w.nodes[a.node := v.nodes[a.node]]
            && SameRest(w.nodes[a.node], v.nodes[a.node]) && SameGuard(n, v.nodes[a.node])
            && (if a.kind == Quarantine then SameContext(w.nodes[a.node], v.nodes[a.node])
                else SameContext(n, v.nodes[a.node]))
  {
    RevertPutsBack(w, id, who);
  }

  /** What a step leaves of node n: its action changes only the node it is about, and its context only if it saves
      that. */
  ghost predicate NodeMoved(w: World, s: World, op: Op, v: World, n: Id)
    requires Decides(op)
  {
    && n in s.nodes && n in v.nodes && SameRest(s.nodes[n], v.nodes[n])
    && (!About(w, op.id, n) ==> v.nodes[n] == s.nodes[n])
    && (!ContextKind(w, op.id) ==> SameContext(s.nodes[n], v.nodes[n]))
    && (About(w, op.id, n) && op.OpApprove? ==> v.nodes[n].status == Contained)
  }

  // ---- along the sequence ----

  /** Where an action stands in state s: waiting, or applied and remembering the node it found. */
  ghost predicate Standing(w: World, t: Trip, s: World, k: nat, id: Id)
    requires id in t.starts && id in t.ends && id in w.actions && t.starts[id] < |t.states|
  {
    var a, found := w.actions[id].body, t.states[t.starts[id]];
    && id in s.actions
    && (k <= t.starts[id] ==> s.actions[id] == w.actions[id])
    && (t.starts[id] < k <= t.ends[id] && a.node in w.nodes ==>
          && Ready(s, id, Applied) && s.actions[id].body.node == a.node && s.actions[id].body.kind == a.kind
          && a.node in found.nodes && Saves(s.actions[id].body, found.nodes[a.node]))
    && (t.starts[id] < k && a.node !in w.nodes ==> s.actions[id].body.status == Rejected)
  }

  lemma OtherStands(w: World, t: Trip, s: World, v: World, k: nat, id: Id)
    requires id in t.starts && id in t.ends && id in w.actions && t.starts[id] < |t.states| && t.starts[id] != k
    requires Standing(w, t, s, k, id) && id in s.actions && id in v.actions && v.actions[id] == s.actions[id]
    ensures Standing(w, t, v, k + 1, id)
  {
  }

  lemma ApprovedStands(w: World, t: Trip, s: World, id: Id, who: string)
    requires id in t.starts && id in t.ends && t.starts[id] < |t.states| && t.states[t.starts[id]] == s
    requires Ready(w, id, Proposed) && Snapshots(w.actions[id].body.kind)
    requires s.nodes.Keys == w.nodes.Keys && id in s.actions && s.actions[id] == w.actions[id]
    ensures Standing(w, t, Approve(s, id, who).0, t.starts[id] + 1, id)
  {
    ApproveShape(s, id, who);
    if w.actions[id].body.node in w.nodes {
      ApproveStep(s, id, who);
    }
  }

  lemma RevertedStands(w: World, t: Trip, s: World, id: Id, who: string)
    requires id in t.starts && id in t.ends && id in w.actions && t.starts[id] < t.ends[id] < |t.states|
    requires Standing(w, t, s, t.ends[id], id)
    ensures Standing(w, t, Revert(s, id, who).0, t.ends[id] + 1, id)
  {
    OneRow(s, id, who);
  }

  lemma StepStands(w: World, t: Trip, k: nat, id: Id)
    requires Paired(w, t) && k < |t.ops| && id in t.starts
    requires t.states[k].nodes.Keys == w.nodes.Keys && Standing(w, t, t.states[k], k, id)
    ensures Standing(w, t, t.states[k + 1], k + 1, id)
  {
    var s, op := t.states[k], t.ops[k];
    assert StepAt(t, k);
    if op.id != id {
      OneRow(s, op.id, op.who);
      OtherStands(w, t, s, t.states[k + 1], k, id);
    } else if op.OpApprove? {
      ApprovedStands(w, t, s, id, op.who);
    } else {
      RevertedStands(w, t, s, id, op.who);
    }
  }

  lemma {:induction false} EveryStepStands(w: World, t: Trip, k: nat)
    requires Paired(w, t) && k <= |t.ops|
    ensures t.states[k].nodes.Keys == w.nodes.Keys
    ensures forall id :: id in t.starts ==> Standing(w, t, t.states[k], k, id)
    decreases k
  {
    if k > 0 {
      EveryStepStands(w, t, k - 1);
      forall id | id in t.starts ensures Standing(w, t, t.states[k], k, id) {
        StepStands(w, t, k - 1, id);
      }
      assert StepAt(t, k - 1);
      LifecycleKeepsGraph(t.states[k - 1], t.ops[k - 1]);
    }
  }

  lemma ApproveMoves(w: World, t: Trip, k: nat, n: Id)
    requires k < |t.ops| < |t.states| && StepAt(t, k) && t.ops[k].OpApprove?
    requires t.states[k].nodes.Keys == w.nodes.Keys && n in w.nodes && t.ops[k].id in w.actions
    requires var (s, id) := (t.states[k], t.ops[k].id);
             Ready(s, id, Proposed) && s.actions[id] == w.actions[id] && Snapshots(w.actions[id].body.kind)
    ensures NodeMoved(w, t.states[k], t.ops[k], t.states[k + 1], n)
  {
    var s, id, who := t.states[k], t.ops[k].id, t.ops[k].who;
    assert t.ops[k] == OpApprove(id, who);
    if w.actions[id].body.node in w.nodes {
      ApproveStep(s, id, who);
    }
  }

  lemma RevertMoves(w: World, t: Trip, k: nat, n: Id)
    requires k < |t.ops| < |t.states| && StepAt(t, k) && t.ops[k].OpRevert?
    requires t.states[k].nodes.Keys == w.nodes.Keys && n in w.nodes && t.ops[k].id in w.actions
    requires var id := t.ops[k].id;
             && id in t.starts && id in t.ends && t.starts[id] < t.ends[id] == k
             && Standing(w, t, t.states[k], k, id) && Snapshots(w.actions[id].body.kind)
    ensures NodeMoved(w, t.states[k], t.ops[k], t.states[k + 1], n)
  {
    var s, id, who := t.states[k], t.ops[k].id, t.ops[k].who;
    assert t.ops[k] == OpRevert(id, who);
    if w.actions[id].body.node in w.nodes {
      RevertStep(s, id, who, t.states[t.starts[id]].nodes[w.actions[id].body.node]);
    }
  }

  /** Between two points a node changes only through actions about it, and its context through those that save
      it. */
  ghost predicate NodeKept(w: World, t: Trip, i: nat, j: nat, n: Id)
    requires i <= j <= |t.ops| < |t.states|
  {
    var s, v := t.states[i], t.states[j];
    && n in s.nodes && n in v.nodes && SameRest(s.nodes[n], v.nodes[n])
    && ((forall k :: i <= k < j ==> !Concerns(w, t.ops[k], n)) ==> v.nodes[n] == s.nodes[n])
    && ((forall k :: i <= k < j ==> !ConcernsContext(w, t.ops[k], n)) ==> SameContext(s.nodes[n], v.nodes[n]))
  }

  lemma NodeKeptNext(w: World, t: Trip, i: nat, j: nat, n: Id)
    requires i <= j < |t.ops| < |t.states| && NodeKept(w, t, i, j, n)
    requires Decides(t.ops[j]) && NodeMoved(w, t.states[j], t.ops[j], t.states[j + 1], n)
    ensures NodeKept(w, t, i, j + 1, n)
  {
  }

  /** Node n moves so at every step. */
  ghost predicate AllMoved(w: World, t: Trip, n: Id) {
    && |t.states| == |t.ops| + 1 && t.states[0] == w && n in w.nodes
    && forall k :: 0 <= k < |t.ops| ==>
         Decides(t.ops[k]) && NodeMoved(w, t.states[k], t.ops[k], t.states[k + 1], n)
  }

  lemma EveryStepMoves(w: World, t: Trip, n: Id)
    requires Paired(w, t) && n in w.nodes
    ensures AllMoved(w, t, n)
  {
    forall k | 0 <= k < |t.ops|
      ensures Decides(t.ops[k]) && NodeMoved(w, t.states[k], t.ops[k], t.states[k + 1], n)
    {
      EveryStepStands(w, t, k);
      assert StepAt(t, k) && Standing(w, t, t.states[k], k, t.ops[k].id);
      if t.ops[k].OpApprove? {
        ApproveMoves(w, t, k, n);
      } else {
        RevertMoves(w, t, k, n);
      }
    }
  }

  lemma {:induction false} NodeBetween(w: World, t: Trip, i: nat, j: nat)
    requires |t.states| == |t.ops| + 1 && i <= j <= |t.ops|
    ensures forall n :: AllMoved(w, t, n) ==> NodeKept(w, t, i, j, n)
    decreases j
  {
    if i < j {
      NodeBetween(w, t, i, j - 1);
      forall n | AllMoved(w, t, n) ensures NodeKept(w, t, i, j, n) {
        assert Decides(t.ops[j - 1]) && NodeMoved(w, t.states[j - 1], t.ops[j - 1], t.states[j], n);
        NodeKeptNext(w, t, i, j - 1, n);
      }
    } else if i > 0 {
      forall n | AllMoved(w, t, n) ensures NodeKept(w, t, i, j, n) {
        assert NodeMoved(w, t.states[i - 1], t.ops[i - 1], t.states[i], n);
      }
    }
  }

  // ---- what is left at the end ----

  /** No action on n is reverted after this one. */
  ghost predicate LastOn(w: World, t: Trip, n: Id, id: Id)
    requires t.starts.Keys == t.ends.Keys
  {
    id in t.starts && About(w, id, n) && forall x :: x in t.starts && About(w, x, n) ==> t.ends[x] <= t.ends[id]
  }

  /** No action on n that saves the context is reverted after this one; or there is none. */
  ghost predicate LastContextOn(w: World, t: Trip, n: Id, id: Option<Id>)
    requires t.starts.Keys == t.ends.Keys
  {
    match id
    case Some(c) =>
      c in t.starts && About(w, c, n) && ContextKind(w, c)
      && forall x :: x in t.starts && About(w, x, n) && ContextKind(w, x) ==> t.ends[x] <= t.ends[c]
    case None => forall x :: x in t.starts && About(w, x, n) ==> !ContextKind(w, x)
  }

  /** Node n as an action's approval finds it, and as the sequence leaves it. */
  ghost function Found(t: Trip, id: Id, n: Id): Option<Node> {
    if id in t.starts && t.starts[id] < |t.states| && n in t.states[t.starts[id]].nodes
    then Some(t.states[t.starts[id]].nodes[n]) else None
  }

  /** The revert of an action puts back what its approval found. */
  lemma RevertFinds(w: World, t: Trip, n: Id, id: Id)
    requires Paired(w, t) && n in w.nodes && id in t.starts && About(w, id, n)
    ensures var v := t.states[t.ends[id] + 1];
            && Found(t, id, n).Some? && n in v.nodes && SameGuard(Found(t, id, n).value, v.nodes[n])
            && (ContextKind(w, id) ==> SameContext(Found(t, id, n).value, v.nodes[n]))
  {
    var k := t.ends[id];
    EveryStepStands(w, t, k);
    assert Standing(w, t, t.states[k], k, id);
    assert StepAt(t, k);
    RevertStep(t.states[k], id, t.ops[k].who, t.states[t.starts[id]].nodes[n]);
  }

  lemma OwnEnd(w: World, t: Trip, k: nat)
    requires Paired(w, t) && k < |t.ops|
    ensures Decides(t.ops[k]) && t.ops[k].id in t.starts && k <= t.ends[t.ops[k].id]
  {
  }

  /** After the last revert on a node it stays as it is. */
  lemma NodeSettled(w: World, t: Trip, n: Id, last: Id)
    requires Paired(w, t) && n in w.nodes && LastOn(w, t, n, last)
    ensures var (s, v) := (t.states[t.ends[last] + 1], t.states[|t.ops|]);
            n in s.nodes && n in v.nodes && v.nodes[n] == s.nodes[n]
  {
    forall k | t.ends[last] < k < |t.ops| ensures !Concerns(w, t.ops[k], n) {
      OwnEnd(w, t, k);
    }
    EveryStepMoves(w, t, n);
    NodeBetween(w, t, t.ends[last] + 1, |t.ops|);
  }

  /** After the last revert that puts back its context, so does the context; without one, from the start. */
  lemma ContextSettled(w: World, t: Trip, n: Id, context: Option<Id>)
    requires Paired(w, t) && n in w.nodes && LastContextOn(w, t, n, context)
    ensures var (s, v) := (t.states[if context.Some? then t.ends[context.value] + 1 else 0], t.states[|t.ops|]);
            n in s.nodes && n in v.nodes && SameContext(s.nodes[n], v.nodes[n])
  {
    var i := if context.Some? then t.ends[context.value] + 1 else 0;
    forall k | i <= k < |t.ops| ensures !ConcernsContext(w, t.ops[k], n) {
      OwnEnd(w, t, k);
    }
    EveryStepMoves(w, t, n);
    NodeBetween(w, t, i, |t.ops|);
  }

  /** In the end status and flag are those that the action reverted last had found. */
  lemma GuardLeft(w: World, t: Trip, n: Id, last: Id)
    requires Paired(w, t) && n in w.nodes && LastOn(w, t, n, last)
    ensures n in t.states[|t.ops|].nodes && Found(t, last, n).Some?
    ensures SameGuard(Found(t, last, n).value, t.states[|t.ops|].nodes[n])
  {
    RevertFinds(w, t, n, last);
    NodeSettled(w, t, n, last);
  }

  /** The context is the one that the context-saving action reverted last had found. */
  lemma ContextLeft(w: World, t: Trip, n: Id, c: Id)
    requires Paired(w, t) && n in w.nodes && LastContextOn(w, t, n, Some(c))
    ensures n in t.states[|t.ops|].nodes && Found(t, c, n).Some?
    ensures SameContext(Found(t, c, n).value, t.states[|t.ops|].nodes[n])
  {
    RevertFinds(w, t, n, c);
    ContextSettled(w, t, n, Some(c));
  }

  /** A node is restored exactly when the action reverted last was approved on its original status and flag, and the
      context-saving action reverted last, if any, on its original context. */
  lemma RestoredExactly(w: World, t: Trip, n: Id, last: Id, context: Option<Id>)
    requires Paired(w, t) && n in w.nodes && LastOn(w, t, n, last) && LastContextOn(w, t, n, context)
    ensures n in t.states[|t.ops|].nodes && Found(t, last, n).Some?
    ensures context.Some? ==> Found(t, context.value, n).Some?
    ensures RestoredNode(w.nodes[n], t.states[|t.ops|].nodes[n]) <==>
              && SameGuard(w.nodes[n], Found(t, last, n).value)
              && (context.Some? ==> SameContext(w.nodes[n], Found(t, context.value, n).value))
  {
    EveryStepMoves(w, t, n);
    NodeBetween(w, t, 0, |t.ops|);
    GuardLeft(w, t, n, last);
    if context.Some? {
      ContextLeft(w, t, n, context.value);
    } else {
      ContextSettled(w, t, n, None);
    }
  }

  // ---- all approvals before all reverts ----

  ghost predicate ApprovalsFirst(t: Trip) {
    forall x, y :: x in t.starts && y in t.ends ==> t.starts[x] < t.ends[y]
  }

  /** No action on n was approved before this one. */
  ghost predicate FirstOn(w: World, t: Trip, n: Id, id: Id) {
    id in t.starts && forall x :: x in t.starts && About(w, x, n) ==> t.starts[id] <= t.starts[x]
  }

  /** Until the first revert, a node stays contained once an action on it is approved. */
  lemma {:induction false} StaysContained(w: World, t: Trip, n: Id, i: nat, k: nat)
    requires AllMoved(w, t, n) && i < k <= |t.ops| && Concerns(w, t.ops[i], n)
    requires forall j :: 0 <= j < k ==> t.ops[j].OpApprove?
    ensures n in t.states[k].nodes && t.states[k].nodes[n].status == Contained
  {
    assert Decides(t.ops[k - 1]) && NodeMoved(w, t.states[k - 1], t.ops[k - 1], t.states[k], n);
    if i < k - 1 {
      StaysContained(w, t, n, i, k - 1);
    }
  }

  /** The first approval on a node finds it as it was. */
  lemma FirstFinds(w: World, t: Trip, n: Id, id: Id)
    requires Paired(w, t) && ApprovalsFirst(t) && AllMoved(w, t, n) && About(w, id, n) && FirstOn(w, t, n, id)
    ensures Found(t, id, n) == Some(w.nodes[n])
  {
    forall k | 0 <= k < t.starts[id] ensures !Concerns(w, t.ops[k], n) {
      EarlyIsApproval(w, t, k, id);
    }
    NodeBetween(w, t, 0, t.starts[id]);
  }

  /** When all approvals come first, any later one finds the node contained. */
  lemma LaterFinds(w: World, t: Trip, n: Id, id: Id)
    requires Paired(w, t) && ApprovalsFirst(t) && AllMoved(w, t, n) && id in t.starts && !FirstOn(w, t, n, id)
    ensures Found(t, id, n).Some? && Found(t, id, n).value.status == Contained
  {
    var x :| x in t.starts && About(w, x, n) && t.starts[x] < t.starts[id];
    forall j | 0 <= j < t.starts[id] ensures t.ops[j].OpApprove? {
      EarlyIsApproval(w, t, j, id);
    }
    StaysContained(w, t, n, t.starts[x], t.starts[id]);
  }

  lemma EarlyIsApproval(w: World, t: Trip, k: nat, id: Id)
    requires Paired(w, t) && ApprovalsFirst(t) && id in t.starts && k < t.starts[id]
    ensures t.ops[k].OpApprove? && t.ops[k].id in t.starts && t.starts[t.ops[k].id] == k
  {
  }

  /** When all approvals come first, a node that was not contained is restored exactly when the action approved first
      on it is reverted last, and the context-saving action reverted last was approved on the original context. */
  lemma RestoredInOrder(w: World, t: Trip, n: Id, last: Id, context: Option<Id>)
    requires Paired(w, t) && ApprovalsFirst(t) && n in w.nodes && w.nodes[n].status != Contained
    requires LastOn(w, t, n, last) && LastContextOn(w, t, n, context)
    ensures n in t.states[|t.ops|].nodes && (context.Some? ==> Found(t, context.value, n).Some?)
    ensures RestoredNode(w.nodes[n], t.states[|t.ops|].nodes[n]) <==>
              && FirstOn(w, t, n, last)
              && (context.Some? ==> SameContext(w.nodes[n], Found(t, context.value, n).value))
  {
    RestoredExactly(w, t, n, last, context);
    EveryStepMoves(w, t, n);
    if FirstOn(w, t, n, last) {
      FirstFinds(w, t, n, last);
    } else {
      LaterFinds(w, t, n, last);
    }
  }
}
