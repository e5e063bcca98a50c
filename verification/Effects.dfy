/** What an approved action leaves of the nodes and of its own record, kind by kind. */
module Effects {
  import opened Base
  import opened Graph
  import opened Model
  import opened Lifecycle
  import opened Runs
  import opened Undo

  predicate Waits(w: World, id: Id, kind: Kind, node: Id) {
    && Ready(w, id, Proposed) && w.actions[id].body.kind == kind && w.actions[id].body.node == node
    && node in w.nodes
  }

  /** A saved state tells the truth about a node, as far as it goes. */
  predicate Describes(s: Saved, n: Node) {
    && (s.intent.Some? ==> s.intent.value == n.intent) && (s.output.Some? ==> s.output.value == n.output)
    && (s.task.Some? ==> s.task.value == n.task) && (s.quarantined.Some? ==> s.quarantined.value == n.quarantined)
    && (s.status.Some? ==> s.status.value == n.status)
  }

  /** The keys that the saved states of a kind have. */
  predicate HasKeys(s: Saved, kind: Kind) {
    && (s.intent.Some? <==> kind in {Kind.Rollback, ContextEdit})
    && (s.output.Some? <==> kind in {Kind.Rollback, ContextEdit})
    && (s.task.Some? <==> kind in {Kind.Rollback, ContextEdit})
    && (s.quarantined.Some? <==> kind != MessageFilter)
    && (s.status.Some? <==> kind in {Kind.Rollback, Quarantine, ContextEdit})
    && (s.filtered.Some? <==> kind == MessageFilter) && (s.edgeTo.Some? ==> kind == MessageFilter)
  }

  /** An applied action records its node as it was and as it is now. */
  lemma BothStatesSaved(w: World, id: Id, who: string, kind: Kind, node: Id)
    requires Waits(w, id, kind, node)
    ensures var (v, n) := (Approve(w, id, who).0, w.nodes[node]);
            && id in v.actions && node in v.nodes
            && Describes(v.actions[id].body.before, n) && Describes(v.actions[id].body.after, v.nodes[node])
            && HasKeys(v.actions[id].body.before, kind)
            && HasKeys(v.actions[id].body.after, kind) && v.actions[id].body.kind == kind
  {
    ApproveIsEffect(w, id, who);
    ApproveShape(w, id, who);
  }

  /** All other nodes, and all edges, stay. */
  ghost predicate OnlyNode(w: World, v: World, node: Id) {
    && v.nodes.Keys == w.nodes.Keys && v.edges == w.edges
    && forall m :: m in w.nodes && m != node ==> v.nodes[m] == w.nodes[m]
  }

  /** A context edit sets the intent and the task its patch names, contains the node, and changes nothing else. */
  lemma EditSets(w: World, id: Id, who: string, node: Id)
    requires Waits(w, id, ContextEdit, node)
    ensures var (v, n, p) := (Approve(w, id, who).0, w.nodes[node], w.actions[id].body.params.patch);
            && OnlyNode(w, v, node)
            && v.nodes[node] == n.(intent := v.nodes[node].intent, task := v.nodes[node].task, status := Contained)
            && v.nodes[node].intent == (if p.intent.Some? then p.intent.value else n.intent)
            && v.nodes[node].task == (if p.task.Some? then p.task.value else n.task)
  {
    ApproveIsEffect(w, id, who);
  }

  /** A quarantine sets the flag and contains the node; a redeploy lifts the flag and calls the node clean. */
  lemma QuarantineSets(w: World, id: Id, who: string, node: Id)
    requires Waits(w, id, Quarantine, node) || Waits(w, id, Redeploy, node)
    ensures var (v, n) := (Approve(w, id, who).0, w.nodes[node]);
            && OnlyNode(w, v, node)
            && v.nodes[node] == (if w.actions[id].body.kind == Quarantine
                                 then n.(quarantined := true, status := Contained)
                                 else n.(quarantined := false, status := Clean))
  {
    ApproveIsEffect(w, id, who);
  }

  /** What a filter makes of its target: contained at a score of at most 0.25 if it was flagged or on watch. */
  predicate CalmedTo(n: Node, m: Node) {
    if n.status in {Flagged, Watch} then
      && m == n.(status := Contained, score := m.score)
      && m.score <= 0.25 && m.score <= n.score && (m.score == 0.25 || m.score == n.score)
    else m == n
  }

  /** A filter closes its edge if there is one and calms its target unless it is its own node; no other edge or node
      changes, and without a named target nothing does. */
  lemma FilterSets(w: World, id: Id, who: string, node: Id)
    requires Waits(w, id, MessageFilter, node)
    ensures var (v, dst) := (Approve(w, id, who).0, w.actions[id].body.params.edgeTo);
            && v.nodes.Keys == w.nodes.Keys && v.edges.Keys == w.edges.Keys
            && (forall m :: m in w.nodes ==>
                  if dst == Some(m) && m.text != "" && m != node then CalmedTo(w.nodes[m], v.nodes[m])
                  else v.nodes[m] == w.nodes[m])
            && (forall e: Edge :: e in w.edges ==>
                  v.edges[e] == if e.0 == node && dst == Some(e.1) && e.1.text != "" then 0.0 else w.edges[e])
  {
    FilterApproved(w, id, who);
    ApproveShape(w, id, who);
  }

  // ---- what a revert puts back ----

  /** A revert puts back what its before-state holds and nothing else. */
  lemma SavedIsPutBack(w: World, id: Id, who: string, node: Id)
    requires Ready(w, id, Applied) && w.actions[id].body.node == node && node in w.nodes
    requires w.actions[id].body.kind != MessageFilter && HasKeys(w.actions[id].body.before, w.actions[id].body.kind)
    ensures var (v, n, b) := (Revert(w, id, who).0, w.nodes[node], w.actions[id].body.before);
            && OnlyNode(w, v, node) && Describes(b, v.nodes[node])
            && v.nodes[node] == n.(intent := if b.intent.Some? then v.nodes[node].intent else n.intent,
                                   output := if b.output.Some? then v.nodes[node].output else n.output,
                                   task := if b.task.Some? then v.nodes[node].task else n.task,
                                   quarantined := v.nodes[node].quarantined,
                                   status := if b.status.Some? then v.nodes[node].status else n.status)
  {
    assert w.actions[id].body.before.quarantined.Some?;
    RevertPutsBack(w, id, who);
  }

  /** Applied actions have the keys of their kind, so no revert meets a missing one. */
  ghost predicate KeysSaved(actions: map<Id, ActionRow>) {
    forall i :: i in actions && actions[i].column == Applied ==> HasKeys(actions[i].body.before, actions[i].body.kind)
  }

  lemma {:induction false} RegisterKeepsKeys(w: World, drafts: seq<Draft>)
    requires KeysSaved(w.actions) && Register(w, drafts).Some?
    ensures KeysSaved(Register(w, drafts).value.actions)
    decreases |drafts|
  {
    if drafts != [] {
      RegisterKeepsKeys(if DedupeKey(Drafted(drafts[0])) in LiveKeys(w.actions) then w else Insert(w, drafts[0]),
                        drafts[1..]);
    }
  }

  lemma StepKeepsKeys(w: World, op: Op)
    requires KeysSaved(w.actions)
    ensures KeysSaved(Step(w, op).actions)
  {
    match op
    case OpRegister(drafts) => if Register(w, drafts).Some? { RegisterKeepsKeys(w, drafts); }
    case OpApprove(id, who) =>
      if Ready(w, id, Proposed) {
        ApproveShape(w, id, who);
        if w.actions[id].body.node in w.nodes {
          BothStatesSaved(w, id, who, w.actions[id].body.kind, w.actions[id].body.node);
        }
      }
    case OpReject(id, who) => if Ready(w, id, Proposed) { RejectShape(w, id, who); }
    case OpRevert(id, who) => if Ready(w, id, Applied) { RevertShape(w, id, who); }
    case OpIngest(x) =>
    case OpRetain(cutoff, who, detail) =>
  }

  lemma {:induction false} EveryRunSavesKeys(ops: seq<Op>)
    ensures KeysSaved(Exec(EMPTY, ops).actions)
  {
    if ops != [] {
      EveryRunSavesKeys(ops[..|ops| - 1]);
      StepKeepsKeys(Exec(EMPTY, ops[..|ops| - 1]), ops[|ops| - 1]);
    }
  }
}
