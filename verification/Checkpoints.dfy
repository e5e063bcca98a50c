/** Checkpoints in every run, and what a rollback puts back. */
module Checkpoints {
  import opened Base
  import opened Model
  import opened Store
  import opened Lifecycle
  import opened Runs
  import opened Undo
  import opened Attribution

  // ---- what no operation changes ----

  /** The same span: what the detector, an action or a revert may set aside, a node stays as it was ingested. */
  predicate SameSpan(n: Node, m: Node) {
    (m.agent, m.privilege, m.effects, m.blocked, m.ts) == (n.agent, n.privilege, n.effects, n.blocked, n.ts)
  }

  /** Whatever is still stored is the same span, under the same checkpoints. */
  ghost predicate SpansKept(w: World, v: World) {
    && v.checkpoints == w.checkpoints && v.nodes.Keys == w.nodes.Keys
    && forall n :: n in w.nodes ==> SameSpan(w.nodes[n], v.nodes[n])
  }

  lemma EffectKeepsSpans(w: World, a: Action)
    requires a.node in w.nodes
    ensures SpansKept(w, Effect(w, a, w.nodes[a.node]).0)
  {
    EffectShape(w, a, w.nodes[a.node]);
    match a.kind
    case MessageFilter => FilterKeepsSpans(w, a);
    case Rollback =>
    case Quarantine =>
    case ContextEdit =>
    case Redeploy =>
  }

  lemma FilterKeepsSpans(w: World, a: Action)
    requires a.node in w.nodes && a.kind == MessageFilter
    ensures var v := Effect(w, a, w.nodes[a.node]).0;
            forall n :: n in w.nodes ==> n in v.nodes && SameSpan(w.nodes[n], v.nodes[n])
  {
    if Truthy(a.params.edgeTo) {
      CalmedKeepsSpans(w.nodes, a.params.edgeTo.value);
    }
  }

  lemma CalmedKeepsSpans(nodes: map<Id, Node>, dst: Id)
    ensures forall n :: n in nodes ==> n in Calmed(nodes, dst) && SameSpan(nodes[n], Calmed(nodes, dst)[n])
  {
  }

  lemma UndoKeepsSpans(w: World, a: Action)
    requires a.node in w.nodes
    ensures SpansKept(w, Lifecycle.Undo(w, a, w.nodes[a.node]))
  {
    UndoShape(w, a, w.nodes[a.node]);
  }

  lemma ApproveKeepsSpans(w: World, id: Id, who: string)
    requires Ready(w, id, Proposed)
    ensures SpansKept(w, Approve(w, id, who).0)
  {
    if w.actions[id].body.node in w.nodes {
      var a := w.actions[id].body.(status := Approved, approvedBy := Some(who));
      ApproveIsEffect(w, id, who);
      EffectKeepsSpans(Logged(w, ApprovedEvent(a, who)), a);
    }
  }

  lemma RevertKeepsSpans(w: World, id: Id, who: string)
    requires Ready(w, id, Applied)
    ensures SpansKept(w, Revert(w, id, who).0)
  {
    var a := w.actions[id].body;
    if a.node in w.nodes && a.before != NOTHING {
      RevertIsUndo(w, id, who);
      UndoKeepsSpans(w, a);
    }
  }

  lemma LifecycleKeepsSpans(w: World, op: Op)
    requires !op.OpIngest? && !op.OpRetain?
    ensures SpansKept(w, Step(w, op))
  {
    match op
    case OpRegister(drafts) => if Register(w, drafts).Some? { RegisterKeepsTables(w, drafts); }
    case OpApprove(id, who) => if Ready(w, id, Proposed) { ApproveKeepsSpans(w, id, who); }
    case OpReject(id, who) => if Ready(w, id, Proposed) { RejectShape(w, id, who); }
    case OpRevert(id, who) => if Ready(w, id, Applied) { RevertKeepsSpans(w, id, who); }
  }

  // ---- every run ----

  /** A checkpoint under the name of a stored node, saved with the agent and the whole context of its span. */
  predicate Owned(w: World, name: Id, c: Checkpoint) {
    && c.node in w.nodes && name == CheckpointOf(c.node) && c.agent == w.nodes[c.node].agent
    && c.context.intent.Some? && c.context.output.Some? && c.context.task.Some?
  }

  /** Each stored node has its checkpoint, and there is no other. */
  ghost predicate CheckpointInv(w: World) {
    && (forall n :: n in w.nodes ==> CheckpointOf(n) in w.checkpoints)
    && (forall c :: c in w.checkpoints ==> Owned(w, c, w.checkpoints[c]))
  }

  lemma NamedForOne(m: Id, n: Id)
    ensures CheckpointOf(m) == CheckpointOf(n) ==> m == n
  {
    assert CheckpointOf(m).text[6..] == m.text && CheckpointOf(n).text[6..] == n.text;
  }

  lemma IngestKeepsCheckpoints(w: World, x: Arrival)
    requires CheckpointInv(w)
    ensures CheckpointInv(Ingest(w, x))
  {
    if x.id !in w.nodes {
      var v := Ingest(w, x);
      forall c | c in v.checkpoints ensures Owned(v, c, v.checkpoints[c]) {
        if c != CheckpointOf(x.id) {
          assert Owned(w, c, w.checkpoints[c]);
        }
      }
    }
  }

  /** The rows of a table that are left, as they were. */
  ghost predicate Part<K, V>(left: map<K, V>, all: map<K, V>) {
    forall k :: k in left ==> k in all && left[k] == all[k]
  }

  /** Retention keeps exactly the nodes at or after the cutoff, the edges between two of them, and their
      checkpoints, all unchanged. */
  lemma RetainedExactly(w: World, cutoff: real, who: string, detail: string)
    requires GraphInv(w) && CheckpointInv(w)
    ensures var v := Retain(w, cutoff, who, detail);
            && (forall n :: n in v.nodes <==> n in w.nodes && w.nodes[n].ts >= cutoff)
            && (forall e :: e in v.edges <==> e in w.edges && e.0 in v.nodes && e.1 in v.nodes)
            && (forall c :: c in v.checkpoints <==> c in w.checkpoints && w.checkpoints[c].node in v.nodes)
            && Part(v.nodes, w.nodes) && Part(v.edges, w.edges) && Part(v.checkpoints, w.checkpoints)
  {
    CheckpointsLeft(w, Aged(w.nodes, cutoff));
    EdgesLeft(w, Aged(w.nodes, cutoff));
  }

  lemma CheckpointsLeft(w: World, gone: set<Id>)
    requires CheckpointInv(w)
    ensures var left := Kept(w.checkpoints, gone);
            Part(left, w.checkpoints)
            && forall c :: c in left <==> c in w.checkpoints && w.checkpoints[c].node in w.nodes - gone
  {
    forall c | c in w.checkpoints ensures w.checkpoints[c].node in w.nodes {
      assert Owned(w, c, w.checkpoints[c]);
    }
  }

  lemma EdgesLeft(w: World, gone: set<Id>)
    requires GraphInv(w)
    ensures var left := Without(w.edges, gone);
            Part(left, w.edges)
            && forall e :: e in left <==> e in w.edges && e.0 in w.nodes - gone && e.1 in w.nodes - gone
  {
  }

  lemma RetainKeepsCheckpoints(w: World, v: World, gone: set<Id>)
    requires CheckpointInv(w) && v.nodes == w.nodes - gone && v.checkpoints == Kept(w.checkpoints, gone)
    ensures CheckpointInv(v)
  {
    CheckpointsLeft(w, gone);
    forall n | n in v.nodes ensures CheckpointOf(n) in v.checkpoints {
      assert Owned(w, CheckpointOf(n), w.checkpoints[CheckpointOf(n)]);
      NamedForOne(n, w.checkpoints[CheckpointOf(n)].node);
    }
    forall c | c in v.checkpoints ensures Owned(v, c, v.checkpoints[c]) {
      assert Owned(w, c, w.checkpoints[c]);
    }
  }

  lemma LifecycleKeepsCheckpoints(w: World, op: Op)
    requires CheckpointInv(w) && !op.OpIngest? && !op.OpRetain?
    ensures CheckpointInv(Step(w, op))
  {
    var v := Step(w, op);
    LifecycleKeepsSpans(w, op);
    forall c | c in v.checkpoints ensures Owned(v, c, v.checkpoints[c]) {
      assert Owned(w, c, w.checkpoints[c]);
    }
  }

  /** In every run each checkpoint belongs to a stored node, and each stored node has its own. */
  lemma {:induction false} EveryRunKeepsCheckpoints(ops: seq<Op>)
    ensures CheckpointInv(Exec(EMPTY, ops))
  {
    if ops != [] {
      var w, op := Exec(EMPTY, ops[..|ops| - 1]), ops[|ops| - 1];
      EveryRunKeepsCheckpoints(ops[..|ops| - 1]);
      match op {
        case OpIngest(x) => IngestKeepsCheckpoints(w, x);
        case OpRetain(cutoff, who, detail) => RetainKeepsCheckpoints(w, Step(w, op), Aged(w.nodes, cutoff));
        case _ => LifecycleKeepsCheckpoints(w, op);
      }
    }
  }

  /** So there are as many of the one as of the other, and retention drops as many of the one as of the other. */
  lemma AsManyAsNodes(w: World)
    requires CheckpointInv(w)
    ensures |w.checkpoints| == |w.nodes|
  {
    forall c ensures c in w.checkpoints <==> c in set n | n in w.nodes :: CheckpointOf(n) {
      if c in w.checkpoints {
        assert Owned(w, c, w.checkpoints[c]);
      }
    }
    assert w.checkpoints.Keys == set n | n in w.nodes :: CheckpointOf(n);
    NamesCounted(w.nodes.Keys);
  }

  lemma {:induction false} NamesCounted(ids: set<Id>)
    ensures |set n | n in ids :: CheckpointOf(n)| == |ids|
    decreases |ids|
  {
    if ids != {} {
      var m :| m in ids;
      var rest := ids - {m};
      NamesCounted(rest);
      forall n | n in rest ensures CheckpointOf(n) != CheckpointOf(m) {
        NamedForOne(m, n);
      }
      assert (set n | n in ids :: CheckpointOf(n)) == (set n | n in rest :: CheckpointOf(n)) + {CheckpointOf(m)};
    }
  }

  // ---- what a rollback puts back ----

  predicate RollsBack(w: World, id: Id, node: Id, checkpoint: Id) {
    && Ready(w, id, Proposed) && w.actions[id].body.kind == Kind.Rollback && w.actions[id].body.node == node
    && w.actions[id].body.params.checkpoint == Some(checkpoint)
  }

  /** An approved rollback leaves the node contained, at a score of at most 0.2 and no higher than before. */
  predicate Settled(n: Node, m: Node) {
    && m.status == Contained && m.score <= 0.2 && m.score <= n.score && (m.score == 0.2 || m.score == n.score)
    && m.quarantined == n.quarantined && SameSpan(n, m)
  }

  /** It has the context the checkpoint holds; a key the checkpoint lacks is left alone. */
  lemma RollbackRestores(w: World, id: Id, who: string, node: Id, checkpoint: Id)
    requires RollsBack(w, id, node, checkpoint) && checkpoint.text != "" && checkpoint in w.checkpoints
    requires node in w.nodes
    ensures var (v, c, n) := (Approve(w, id, who).0, w.checkpoints[checkpoint].context, w.nodes[node]);
            && node in v.nodes && Settled(n, v.nodes[node])
            && v.nodes[node].intent == (if c.intent.Some? then c.intent.value else n.intent)
            && v.nodes[node].output == (if c.output.Some? then c.output.value else n.output)
            && v.nodes[node].task == (if c.task.Some? then c.task.value else n.task)
  {
    ApproveIsEffect(w, id, who);
  }

  /** Without a checkpoint that is stored the context stays. */
  lemma RollbackWithoutCheckpoint(w: World, id: Id, who: string, node: Id)
    requires Ready(w, id, Proposed) && w.actions[id].body.kind == Kind.Rollback && w.actions[id].body.node == node
    requires node in w.nodes
    requires var c := w.actions[id].body.params.checkpoint; c.None? || c.value.text == "" || c.value !in w.checkpoints
    ensures var (v, n) := (Approve(w, id, who).0, w.nodes[node]);
            && node in v.nodes && Settled(n, v.nodes[node])
            && (v.nodes[node].intent, v.nodes[node].output, v.nodes[node].task) == (n.intent, n.output, n.task)
  {
    ApproveIsEffect(w, id, who);
  }

  /** Retention spares what is dated ts. */
  predicate Spares(op: Op, ts: real) {
    op.OpRetain? ==> op.cutoff <= ts
  }

  /** The span is stored as it came, but for its context and standing, and so is its checkpoint. */
  predicate Survives(w: World, x: Arrival) {
    && x.id in w.nodes && SameSpan(x.node, w.nodes[x.id]) && CheckpointOf(x.id) in w.checkpoints
    && w.checkpoints[CheckpointOf(x.id)] ==
       Checkpoint(x.id, x.node.agent, Context(Some(x.node.intent), Some(x.node.output), Some(x.node.task)), x.savedAt)
  }

  lemma StepKeepsSpan(w: World, x: Arrival, op: Op)
    requires Survives(w, x) && Spares(op, x.node.ts)
    ensures Survives(Step(w, op), x)
  {
    match op
    case OpIngest(y) => NamedForOne(x.id, y.id);
    case OpRetain(cutoff, who, detail) =>
    case _ => LifecycleKeepsSpans(w, op);
  }

  lemma {:induction false} SpanIsKept(w: World, x: Arrival, ops: seq<Op>)
    requires x.id !in w.nodes && forall i :: 0 <= i < |ops| ==> Spares(ops[i], x.node.ts)
    ensures Survives(Exec(Step(w, OpIngest(x)), ops), x)
  {
    if ops != [] {
      SpanIsKept(w, x, ops[..|ops| - 1]);
      StepKeepsSpan(Exec(Step(w, OpIngest(x)), ops[..|ops| - 1]), x, ops[|ops| - 1]);
    }
  }

  /** Back as it came: the score has settled, and whether it is quarantined is as just before. */
  predicate Returned(x: Arrival, n: Node, m: Node) {
    Settled(n, m) && (m.intent, m.output, m.task) == (x.node.intent, x.node.output, x.node.task) && SameSpan(x.node, m)
  }

  lemma KeptSpanReturns(w: World, x: Arrival, id: Id, who: string)
    requires Survives(w, x) && RollsBack(w, id, x.id, CheckpointOf(x.id))
    ensures x.id in Approve(w, id, who).0.nodes && Returned(x, w.nodes[x.id], Approve(w, id, who).0.nodes[x.id])
  {
    RollbackRestores(w, id, who, x.id, CheckpointOf(x.id));
  }

  /** Whatever happens to a span after its ingest, short of retention that takes it, a rollback to its checkpoint
      gives it back the intent, output and task it came with. */
  lemma RollbackReturnsSpan(w: World, x: Arrival, ops: seq<Op>, id: Id, who: string)
    requires x.id !in w.nodes && forall i :: 0 <= i < |ops| ==> Spares(ops[i], x.node.ts)
    requires RollsBack(Exec(Step(w, OpIngest(x)), ops), id, x.id, CheckpointOf(x.id))
    ensures var (v, u) := (Exec(Step(w, OpIngest(x)), ops), Exec(Step(w, OpIngest(x)), ops + [OpApprove(id, who)]));
            x.id in v.nodes && x.id in u.nodes && Returned(x, v.nodes[x.id], u.nodes[x.id])
  {
    SpanIsKept(w, x, ops);
    KeptSpanReturns(Exec(Step(w, OpIngest(x)), ops), x, id, who);
    ExecNext(Step(w, OpIngest(x)), ops, OpApprove(id, who));
  }

  // ---- the rollback the service proposes ----

  /** The newest checkpoint an agent saved a microsecond or more before the given time. */
  predicate NewestBefore(w: World, agent: Id, before: real, c: Id) {
    && c in w.checkpoints && w.checkpoints[c].agent == agent && w.checkpoints[c].ts <= before - 0.000001
    && forall d :: d in w.checkpoints && w.checkpoints[d].agent == agent
                   && w.checkpoints[d].ts > w.checkpoints[c].ts ==>
         w.checkpoints[d].ts > before - 0.000001
  }

  /** Proposed at a root with no live rollback, registered and approved, it gives the root the context its agent
      saved last, a microsecond or more before the root's own time; without such a checkpoint it leaves the
      context. */
  lemma ProposedRollbackRestores(w: World, root: Id, who: string, hops: seq<Id>, drafts: seq<Draft>, approver: string)
    requires CheckpointInv(w) && root in w.nodes
    requires Proposal(w.nodes, w.edges.Keys, w.checkpoints, root, who, hops, drafts)
    requires Register(w, drafts).Some?
    requires forall i :: i in w.actions && w.actions[i].body.node == root && w.actions[i].body.kind == Kind.Rollback ==>
               w.actions[i].column == Rejected || w.actions[i].column == Reverted
    ensures var (n, v) := (w.nodes[root], Approve(Register(w, drafts).value, drafts[0].id, approver).0);
            && root in v.nodes && Settled(n, v.nodes[root])
            && var m := v.nodes[root];
               || (exists c :: NewestBefore(w, n.agent, n.ts, c)
                               && w.checkpoints[c].context == Context(Some(m.intent), Some(m.output), Some(m.task)))
               || ((forall c :: c in w.checkpoints && w.checkpoints[c].agent == n.agent ==>
                      w.checkpoints[c].ts > n.ts - 0.000001)
                   && (m.intent, m.output, m.task) == (n.intent, n.output, n.task))
  {
    var n, u, id := w.nodes[root], Register(w, drafts).value, drafts[0].id;
    FirstRegistered(w, drafts);
    RegisterKeepsTables(w, drafts);
    var best := drafts[0].params.checkpoint;
    if best.Some? {
      assert Owned(w, best.value, w.checkpoints[best.value]);
      RollbackRestores(u, id, approver, root, best.value);
      assert NewestBefore(w, n.agent, n.ts, best.value);
    } else {
      RollbackWithoutCheckpoint(u, id, approver, root);
    }
  }

  /** A first draft that no live action repeats is registered and waits. */
  lemma FirstRegistered(w: World, drafts: seq<Draft>)
    requires drafts != [] && Register(w, drafts).Some?
    requires DedupeKey(Drafted(drafts[0])) !in LiveKeys(w.actions)
    ensures var v := Register(w, drafts).value;
            drafts[0].id in v.actions && v.actions[drafts[0].id] == ActionRow(Proposed, Drafted(drafts[0]))
  {
    RegisterMoves(Insert(w, drafts[0]), drafts[1..]);
  }
}
