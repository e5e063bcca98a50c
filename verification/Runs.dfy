/** What every run of the service keeps, over its node, edge, action and audit tables together. */
module Runs {
  import opened Base
  import opened Graph
  import opened Model
  import opened Lifecycle

  lemma ExecNext(w: World, ops: seq<Op>, op: Op)
    ensures Exec(w, ops + [op]) == Step(Exec(w, ops), op)
  {
    assert (ops + [op])[..|ops + [op]| - 1] == ops;
  }

  // ---- the influence graph ----

  ghost predicate GraphInv(w: World) {
    && (forall e :: e in w.edges ==> e.0 in w.nodes && e.1 in w.nodes)
    && NearAcyclic(w.edges.Keys)
  }

  /** Only ingest and retention change which nodes and edges exist. */
  lemma {:induction false} RegisterKeepsTables(w: World, drafts: seq<Draft>)
    requires Register(w, drafts).Some?
    ensures var v := Register(w, drafts).value; v == w.(actions := v.actions, log := v.log)
    decreases |drafts|
  {
    if drafts != [] {
      if DedupeKey(Drafted(drafts[0])) in LiveKeys(w.actions) {
        RegisterKeepsTables(w, drafts[1..]);
      } else {
        RegisterKeepsTables(Insert(w, drafts[0]), drafts[1..]);
      }
    }
  }

  lemma EffectShape(w: World, a: Action, n: Node)
    requires a.node in w.nodes
    ensures var (v, b) := Effect(w, a, n);
            && v.nodes.Keys == w.nodes.Keys && v.edges.Keys == w.edges.Keys
            && v.checkpoints == w.checkpoints && v.actions == w.actions && v.log == w.log
            && b == a.(before := b.before, after := b.after)
  {
    var v := Effect(w, a, n).0;
    KeysStay(w.nodes, a.node, v.nodes[a.node]);
    if a.kind == MessageFilter && Truthy(a.params.edgeTo) {
      CalmedKeys(w.nodes, a.params.edgeTo.value);
      WeightedKeys(w.edges, a.node, a.params.edgeTo.value, 0.0);
    }
  }

  lemma KeysStay<K, V>(m: map<K, V>, k: K, v: V)
    requires k in m
    ensures m[k := v].Keys == m.Keys
  {
  }

  lemma CalmedKeys(nodes: map<Id, Node>, dst: Id)
    ensures Calmed(nodes, dst).Keys == nodes.Keys
  {
  }

  lemma WeightedKeys(edges: map<Edge, real>, src: Id, dst: Id, weight: real)
    ensures Weighted(edges, src, dst, weight).Keys == edges.Keys
  {
  }

  lemma UndoShape(w: World, a: Action, n: Node)
    requires a.node in w.nodes
    ensures var v := Undo(w, a, n);
            && v.nodes.Keys == w.nodes.Keys && v.edges.Keys == w.edges.Keys
            && v.checkpoints == w.checkpoints && v.actions == w.actions && v.log == w.log
  {
    var v := Undo(w, a, n);
    KeysStay(w.nodes, a.node, v.nodes[a.node]);
    if a.kind == MessageFilter && Truthy(a.before.edgeTo) {
      WeightedKeys(w.edges, a.node, a.before.edgeTo.value, 1.0);
    }
  }

  predicate Ready(w: World, id: Id, s: ActionStatus) {
    id in w.actions && w.actions[id].body.status == s
  }

  lemma ApproveShape(w: World, id: Id, who: string)
    requires Ready(w, id, Proposed)
    ensures var (v, a) := (Approve(w, id, who).0, w.actions[id].body);
            && v.nodes.Keys == w.nodes.Keys && v.edges.Keys == w.edges.Keys
            && id in v.actions && v.actions == w.actions[id := v.actions[id]]
            && RowMoves(w.actions[id], v.actions[id])
            && v.actions[id].column == (if a.node in w.nodes then Applied else Rejected)
            && v.log == w.log + [ApprovedEvent(a, who)]
                        + (if a.node in w.nodes then [AppliedEvent(a, who)] else [])
  {
    var a := w.actions[id].body.(status := Approved, approvedBy := Some(who));
    var w1 := Logged(w, ApprovedEvent(a, who));
    assert ApprovedEvent(a, who) == ApprovedEvent(w.actions[id].body, who);
    if a.node in w.nodes {
      EffectShape(w1, a, w1.nodes[a.node]);
    }
  }

  lemma RejectShape(w: World, id: Id, who: string)
    requires Ready(w, id, Proposed)
    ensures var (v, a) := (Reject(w, id, who).0, w.actions[id].body);
            && v == w.(actions := v.actions, log := w.log + [RejectedEvent(a, who)])
            && id in v.actions && v.actions == w.actions[id := v.actions[id]]
            && RowMoves(w.actions[id], v.actions[id]) && v.actions[id].column == Rejected
  {
  }

  lemma RevertShape(w: World, id: Id, who: string)
    requires Ready(w, id, Applied)
    ensures var (v, a) := (Revert(w, id, who).0, w.actions[id].body);
            && v.nodes.Keys == w.nodes.Keys && v.edges.Keys == w.edges.Keys
            && id in v.actions && v.actions == w.actions[id := v.actions[id]]
            && RowMoves(w.actions[id], v.actions[id]) && v.actions[id].column == Reverted
            && v.log == w.log + [RevertedEvent(a, who)]
  {
    var a := w.actions[id].body;
    if a.node in w.nodes {
      UndoShape(w, a, w.nodes[a.node]);
    }
  }

  lemma LifecycleKeepsGraph(w: World, op: Op)
    requires !op.OpIngest? && !op.OpRetain?
    ensures Step(w, op).nodes.Keys == w.nodes.Keys && Step(w, op).edges.Keys == w.edges.Keys
  {
    match op
    case OpRegister(drafts) =>
      if Register(w, drafts).Some? {
        RegisterKeepsTables(w, drafts);
      }
    case OpApprove(id, who) => if Ready(w, id, Proposed) { ApproveShape(w, id, who); }
    case OpReject(id, who) => if Ready(w, id, Proposed) { RejectShape(w, id, who); }
    case OpRevert(id, who) => if Ready(w, id, Applied) { RevertShape(w, id, who); }
  }

  /** A new span comes with open edges from exactly those of its inputs that are stored, itself included; nothing
      else changes but its own node and checkpoint. */
  lemma IngestLinks(w: World, x: Arrival)
    requires GraphInv(w) && x.id !in w.nodes
    ensures var v := Ingest(w, x);
            && (forall e: Edge :: e in v.edges <==>
                  e in w.edges || (e.1 == x.id && e.0 in x.inputs && (e.0 in w.nodes || e.0 == x.id)))
            && (forall e: Edge :: e in v.edges ==> v.edges[e] == if e.1 == x.id then 1.0 else w.edges[e])
            && v.nodes == w.nodes[x.id := x.node] && v.actions == w.actions
            && (forall c :: c in w.checkpoints && c != CheckpointOf(x.id) ==>
                  c in v.checkpoints && v.checkpoints[c] == w.checkpoints[c])
  {
    var v := Ingest(w, x);
    forall e: Edge | e in v.edges && e.1 != x.id ensures e in w.edges && v.edges[e] == w.edges[e] {
      assert e !in Influences(x.inputs, x.id, w.nodes.Keys + {x.id});
    }
  }

  lemma IngestKeepsGraphInv(w: World, x: Arrival)
    requires GraphInv(w)
    ensures GraphInv(Ingest(w, x))
  {
    if x.id !in w.nodes {
      var g, h := w.edges.Keys, Ingest(w, x).edges.Keys;
      NewSinkKeepsNearAcyclic(g, h, x.id);
    }
  }

  lemma RetainKeepsGraphInv(w: World, cutoff: real, who: string, detail: string)
    requires GraphInv(w)
    ensures GraphInv(Retain(w, cutoff, who, detail))
  {
    FewerEdgesKeepNearAcyclic(Retain(w, cutoff, who, detail).edges.Keys, w.edges.Keys);
  }

  /** In every run, retention and re-ingest of pruned names included, edges join stored nodes only and no cycle
      runs through two nodes. */
  lemma {:induction false} EveryRunKeepsGraph(ops: seq<Op>)
    ensures GraphInv(Exec(EMPTY, ops))
  {
    if ops == [] {
      EmptyNearAcyclic();
      assert EMPTY.edges.Keys == {};
    } else {
      var w, op := Exec(EMPTY, ops[..|ops| - 1]), ops[|ops| - 1];
      EveryRunKeepsGraph(ops[..|ops| - 1]);
      match op {
        case OpIngest(x) => IngestKeepsGraphInv(w, x);
        case OpRetain(cutoff, who, detail) => RetainKeepsGraphInv(w, cutoff, who, detail);
        case _ => LifecycleKeepsGraph(w, op);
      }
    }
  }

  // ---- the action lifecycle ----

  ghost predicate OneLivePerKey(actions: map<Id, ActionRow>) {
    forall i, j :: i in actions && j in actions && i != j
                   && Live(actions[i].column) && Live(actions[j].column)
                   ==> DedupeKey(actions[i].body) != DedupeKey(actions[j].body)
  }

  ghost predicate RowSettled(r: ActionRow) {
    r.column == r.body.status && r.column != Approved
  }

  ghost predicate ActionInv(actions: map<Id, ActionRow>) {
    && (forall i :: i in actions ==> RowSettled(actions[i]))
    && OneLivePerKey(actions)
  }

  lemma InsertKeepsActionInv(w: World, d: Draft)
    requires ActionInv(w.actions) && d.id !in w.actions
    requires DedupeKey(Drafted(d)) !in LiveKeys(w.actions)
    ensures ActionInv(Insert(w, d).actions)
  {
    var after := Insert(w, d).actions;
    forall i | i in w.actions && Live(w.actions[i].column)
      ensures DedupeKey(after[i].body) != DedupeKey(after[d.id].body)
    {
      assert DedupeKey(w.actions[i].body) in LiveKeys(w.actions);
    }
  }

  lemma {:induction false} RegisterKeepsActionInv(w: World, drafts: seq<Draft>)
    requires ActionInv(w.actions) && Register(w, drafts).Some?
    ensures ActionInv(Register(w, drafts).value.actions)
    decreases |drafts|
  {
    if drafts != [] {
      if DedupeKey(Drafted(drafts[0])) in LiveKeys(w.actions) {
        RegisterKeepsActionInv(w, drafts[1..]);
      } else {
        InsertKeepsActionInv(w, drafts[0]);
        RegisterKeepsActionInv(Insert(w, drafts[0]), drafts[1..]);
      }
    }
  }

  /** What may happen to a row: it stays, or moves one step along the lifecycle; who it is about never changes. */
  ghost predicate RowMoves(a: ActionRow, b: ActionRow) {
    || b == a
    || (&& DedupeKey(b.body) == DedupeKey(a.body) && b.body.params == a.body.params
        && b.column == b.body.status
        && ((a.body.status == Proposed && (b.column == Applied || b.column == Rejected))
            || (a.body.status == Applied && b.column == Reverted)))
  }

  /** Every row moves along the lifecycle, and rows are only ever added. */
  ghost predicate ActionsMove(before: map<Id, ActionRow>, after: map<Id, ActionRow>) {
    forall i :: i in before ==> i in after && RowMoves(before[i], after[i])
  }

  lemma {:induction false} RegisterMoves(w: World, drafts: seq<Draft>)
    requires Register(w, drafts).Some?
    ensures forall i :: i in w.actions ==>
              i in Register(w, drafts).value.actions && Register(w, drafts).value.actions[i] == w.actions[i]
    decreases |drafts|
  {
    if drafts != [] {
      if DedupeKey(Drafted(drafts[0])) in LiveKeys(w.actions) {
        RegisterMoves(w, drafts[1..]);
      } else {
        RegisterMoves(Insert(w, drafts[0]), drafts[1..]);
      }
    }
  }

  /** After a registration that meets no clash of ids, every draft's key has a live action. */
  lemma {:induction false} RegisteredAreLive(w: World, drafts: seq<Draft>)
    requires Register(w, drafts).Some?
    ensures forall i :: 0 <= i < |drafts| ==>
              DedupeKey(Drafted(drafts[i])) in LiveKeys(Register(w, drafts).value.actions)
    decreases |drafts|
  {
    if drafts != [] {
      var k, v := DedupeKey(Drafted(drafts[0])), Register(w, drafts).value;
      var u := if k in LiveKeys(w.actions) then w else Insert(w, drafts[0]);
      RegisteredAreLive(u, drafts[1..]);
      RegisterMoves(u, drafts[1..]);
      assert k in LiveKeys(u.actions) by {
        if k !in LiveKeys(w.actions) {
          assert drafts[0].id in u.actions && u.actions[drafts[0].id] == ActionRow(Proposed, Drafted(drafts[0]));
        }
      }
      LiveKeyStays(u.actions, v.actions, k);
      forall i | 0 <= i < |drafts| ensures DedupeKey(Drafted(drafts[i])) in LiveKeys(v.actions) {
        if i > 0 {
          assert drafts[i] == drafts[1..][i - 1];
        }
      }
    }
  }

  lemma LiveKeyStays(before: map<Id, ActionRow>, after: map<Id, ActionRow>, k: Key)
    requires k in LiveKeys(before) && forall i :: i in before ==> i in after && after[i] == before[i]
    ensures k in LiveKeys(after)
  {
    var i :| i in before && Live(before[i].column) && DedupeKey(before[i].body) == k;
    assert after[i] == before[i];
  }

  lemma StepMoves(w: World, op: Op)
    ensures ActionsMove(w.actions, Step(w, op).actions)
  {
    match op
    case OpRegister(drafts) =>
      if Register(w, drafts).Some? {
        RegisterMoves(w, drafts);
      }
    case OpApprove(id, who) => if Ready(w, id, Proposed) { ApproveShape(w, id, who); }
    case OpReject(id, who) => if Ready(w, id, Proposed) { RejectShape(w, id, who); }
    case OpRevert(id, who) => if Ready(w, id, Applied) { RevertShape(w, id, who); }
    case OpIngest(x) =>
    case OpRetain(cutoff, who, detail) =>
  }

  /** A row moved by approve, reject or revert: all other rows stay. */
  lemma MoveKeepsActionInv(actions: map<Id, ActionRow>, id: Id, r: ActionRow)
    requires ActionInv(actions) && id in actions && RowMoves(actions[id], r)
    ensures ActionInv(actions[id := r])
  {
  }

  lemma StepKeepsActionInv(w: World, op: Op)
    requires ActionInv(w.actions)
    ensures ActionInv(Step(w, op).actions)
  {
    match op
    case OpRegister(drafts) =>
      if Register(w, drafts).Some? {
        RegisterKeepsActionInv(w, drafts);
      }
    case OpApprove(id, who) =>
      if Ready(w, id, Proposed) {
        ApproveShape(w, id, who);
        MoveKeepsActionInv(w.actions, id, Approve(w, id, who).0.actions[id]);
      }
    case OpReject(id, who) =>
      if Ready(w, id, Proposed) {
        RejectShape(w, id, who);
        MoveKeepsActionInv(w.actions, id, Reject(w, id, who).0.actions[id]);
      }
    case OpRevert(id, who) =>
      if Ready(w, id, Applied) {
        RevertShape(w, id, who);
        MoveKeepsActionInv(w.actions, id, Revert(w, id, who).0.actions[id]);
      }
    case OpIngest(x) =>
    case OpRetain(cutoff, who, detail) =>
  }

  /** In every run: one live action per node, kind and edge; none left APPROVED; status columns agree with bodies. */
  lemma {:induction false} EveryRunKeepsActions(ops: seq<Op>)
    ensures ActionInv(Exec(EMPTY, ops).actions)
  {
    if ops != [] {
      EveryRunKeepsActions(ops[..|ops| - 1]);
      StepKeepsActionInv(Exec(EMPTY, ops[..|ops| - 1]), ops[|ops| - 1]);
    }
  }

  /** REJECTED and REVERTED are final: whatever the rest of the run does, the row stays as it is. */
  lemma {:induction false} FinalRowsStay(w: World, ops: seq<Op>, id: Id)
    requires id in w.actions && (w.actions[id].body.status == Rejected || w.actions[id].body.status == Reverted)
    ensures id in Exec(w, ops).actions && Exec(w, ops).actions[id] == w.actions[id]
  {
    if ops != [] {
      FinalRowsStay(w, ops[..|ops| - 1], id);
      StepMoves(Exec(w, ops[..|ops| - 1]), ops[|ops| - 1]);
    }
  }

  // ---- conservation between the action table and the audit log ----

  function Count(log: seq<Event>, k: EventKind): nat {
    if log == [] then 0 else Count(log[..|log| - 1], k) + (if log[|log| - 1].kind == k then 1 else 0)
  }

  function InState(actions: map<Id, ActionRow>, s: ActionStatus): set<Id> {
    set i | i in actions && actions[i].column == s
  }

  /** What the audit log says has happened to actions, and what the action table says of them. */
  datatype Books = Books(proposed: int, decided: int, carriedOut: int, undone: int)

  function Logs(log: seq<Event>): Books {
    Books(Count(log, ActionProposed), Count(log, ActionApproved) + Count(log, ActionRejected),
          Count(log, ActionApplied) + Count(log, Quarantined), Count(log, ActionReverted))
  }

  function Totals(actions: map<Id, ActionRow>): Books {
    var reverted := |InState(actions, Reverted)|;
    Books(|actions|, |actions| - |InState(actions, Proposed)|, |InState(actions, Applied)| + reverted, reverted)
  }

  ghost predicate Balanced(w: World) {
    Logs(w.log) == Totals(w.actions)
  }

  lemma LogCounts(log: seq<Event>, e: Event)
    ensures forall k :: Count(log + [e], k) == Count(log, k) + (if e.kind == k then 1 else 0)
  {
    assert (log + [e])[..|log + [e]| - 1] == log;
  }

  function InStateBut(actions: map<Id, ActionRow>, s: ActionStatus, id: Id): set<Id> {
    set i | i in actions && i != id && actions[i].column == s
  }

  lemma CountOthers(actions: map<Id, ActionRow>, s: ActionStatus, id: Id)
    requires id in actions
    ensures |InState(actions, s)| == |InStateBut(actions, s, id)| + (if actions[id].column == s then 1 else 0)
  {
    assert InState(actions, s) == InStateBut(actions, s, id) + (if actions[id].column == s then {id} else {});
  }

  lemma UpdateCount(actions: map<Id, ActionRow>, id: Id, r: ActionRow, s: ActionStatus)
    requires id in actions
    ensures |InState(actions[id := r], s)| ==
            |InState(actions, s)| - (if actions[id].column == s then 1 else 0) + (if r.column == s then 1 else 0)
  {
    CountOthers(actions, s, id);
    CountOthers(actions[id := r], s, id);
    OthersStay(actions, id, r, s);
  }

  lemma OthersStay(actions: map<Id, ActionRow>, id: Id, r: ActionRow, s: ActionStatus)
    ensures InStateBut(actions[id := r], s, id) == InStateBut(actions, s, id)
  {
  }

  lemma InsertBalances(w: World, d: Draft)
    requires Balanced(w) && d.id !in w.actions
    ensures Balanced(Insert(w, d))
  {
    NewRowBalances(w, Insert(w, d), d.id, ActionRow(Proposed, Drafted(d)), ProposedEvent(d));
  }

  lemma NewRowBalances(w: World, v: World, id: Id, r: ActionRow, e: Event)
    requires Balanced(w) && id !in w.actions && r.column == Proposed && e.kind == ActionProposed
    requires v.actions == w.actions[id := r] && v.log == w.log + [e]
    ensures Balanced(v)
  {
    NewRowTotals(w.actions, id, r);
    LogCounts(w.log, e);
  }

  lemma NewRowTotals(actions: map<Id, ActionRow>, id: Id, r: ActionRow)
    requires id !in actions && r.column == Proposed
    ensures var t := Totals(actions); Totals(actions[id := r]) == t.(proposed := t.proposed + 1)
  {
    assert actions[id := r].Keys == actions.Keys + {id};
    NewRowJoins(actions, id, r);
    NewRowMisses(actions, id, r, Applied);
    NewRowMisses(actions, id, r, Reverted);
  }

  lemma NewRowJoins(actions: map<Id, ActionRow>, id: Id, r: ActionRow)
    requires id !in actions
    ensures |InState(actions[id := r], r.column)| == |InState(actions, r.column)| + 1
  {
    assert InState(actions[id := r], r.column) == InState(actions, r.column) + {id};
  }

  lemma NewRowMisses(actions: map<Id, ActionRow>, id: Id, r: ActionRow, s: ActionStatus)
    requires id !in actions && r.column != s
    ensures InState(actions[id := r], s) == InState(actions, s)
  {
  }

  lemma {:induction false} RegisterBalances(w: World, drafts: seq<Draft>)
    requires Balanced(w) && Register(w, drafts).Some?
    ensures Balanced(Register(w, drafts).value)
    decreases |drafts|
  {
    if drafts != [] {
      if DedupeKey(Drafted(drafts[0])) in LiveKeys(w.actions) {
        RegisterBalances(w, drafts[1..]);
      } else {
        InsertBalances(w, drafts[0]);
        RegisterBalances(Insert(w, drafts[0]), drafts[1..]);
      }
    }
  }

  function One(holds: bool): int {
    if holds then 1 else 0
  }

  /** The totals after one row moves from one status to another that is not PROPOSED. */
  function Moved(b: Books, from: ActionStatus, to: ActionStatus): Books {
    Books(b.proposed, b.decided + One(from == Proposed),
          b.carriedOut + One(to == Applied || to == Reverted) - One(from == Applied || from == Reverted),
          b.undone + One(to == Reverted) - One(from == Reverted))
  }

  lemma MoveTotals(actions: map<Id, ActionRow>, id: Id, r: ActionRow)
    requires id in actions && r.column != Proposed
    ensures Totals(actions[id := r]) == Moved(Totals(actions), actions[id].column, r.column)
  {
    assert actions[id := r].Keys == actions.Keys;
    UpdateCount(actions, id, r, Proposed);
    UpdateCount(actions, id, r, Applied);
    UpdateCount(actions, id, r, Reverted);
  }

  /** A log that tells of the move keeps the balance. */
  lemma MoveBalances(w: World, v: World, id: Id, r: ActionRow)
    requires Balanced(w) && id in w.actions && r.column != Proposed && v.actions == w.actions[id := r]
    requires Logs(v.log) == Moved(Logs(w.log), w.actions[id].column, r.column)
    ensures Balanced(v)
  {
    MoveTotals(w.actions, id, r);
  }

  /** An approval is logged with its application when the node is there, and alone when it is not. */
  lemma ApprovalLogged(log: seq<Event>, a: Action, who: string, applied: bool)
    ensures Logs(log + [ApprovedEvent(a, who)] + (if applied then [AppliedEvent(a, who)] else [])) ==
            Moved(Logs(log), Proposed, if applied then Applied else Rejected)
  {
    var once := log + [ApprovedEvent(a, who)];
    LogCounts(log, ApprovedEvent(a, who));
    if applied {
      LogCounts(once, AppliedEvent(a, who));
    } else {
      assert once + [] == once;
    }
  }

  lemma DecisionLogged(log: seq<Event>, a: Action, who: string)
    ensures Logs(log + [RejectedEvent(a, who)]) == Moved(Logs(log), Proposed, Rejected)
    ensures Logs(log + [RevertedEvent(a, who)]) == Moved(Logs(log), Applied, Reverted)
  {
    LogCounts(log, RejectedEvent(a, who));
    LogCounts(log, RevertedEvent(a, who));
  }

  lemma ApproveBalances(w: World, id: Id, who: string)
    requires Balanced(w) && ActionInv(w.actions) && Ready(w, id, Proposed)
    ensures Balanced(Approve(w, id, who).0)
  {
    var v, a := Approve(w, id, who).0, w.actions[id].body;
    ApproveShape(w, id, who);
    assert RowSettled(w.actions[id]);
    ApprovalLogged(w.log, a, who, a.node in w.nodes);
    MoveBalances(w, v, id, v.actions[id]);
  }

  lemma RejectBalances(w: World, id: Id, who: string)
    requires Balanced(w) && ActionInv(w.actions) && Ready(w, id, Proposed)
    ensures Balanced(Reject(w, id, who).0)
  {
    var v := Reject(w, id, who).0;
    RejectShape(w, id, who);
    assert RowSettled(w.actions[id]);
    DecisionLogged(w.log, w.actions[id].body, who);
    MoveBalances(w, v, id, v.actions[id]);
  }

  lemma RevertBalances(w: World, id: Id, who: string)
    requires Balanced(w) && ActionInv(w.actions) && Ready(w, id, Applied)
    ensures Balanced(Revert(w, id, who).0)
  {
    var v := Revert(w, id, who).0;
    RevertShape(w, id, who);
    assert RowSettled(w.actions[id]);
    DecisionLogged(w.log, w.actions[id].body, who);
    MoveBalances(w, v, id, v.actions[id]);
  }

  predicate AboutActions(k: EventKind) {
    k in {ActionProposed, ActionApproved, ActionRejected, ActionApplied, ActionReverted, Quarantined}
  }

  lemma OtherEventUncounted(log: seq<Event>, holds: bool, e: Event)
    requires !AboutActions(e.kind)
    ensures Logs(log + If(holds, e)) == Logs(log)
  {
    if holds {
      LogCounts(log, e);
    } else {
      assert log + [] == log;
    }
  }

  lemma ArrivalUncounted(log: seq<Event>, x: Arrival)
    ensures Logs(ArrivalLogged(log, x)) == Logs(log)
  {
    var e1 := Event("system", EscalationAnomaly, x.id, x.anomalyText, true);
    var e2 := Event("inline-rail", ActionBlocked, x.id, x.blockedText, true);
    var e3 := Event("system", Escalation, x.id, x.tierText, true);
    var l1 := log + If(x.anomaly, e1);
    var l2 := l1 + If(x.node.blocked, e2);
    var l3 := l2 + If(Judged(x.tier), e3);
    OtherEventUncounted(log, x.anomaly, e1);
    OtherEventUncounted(l1, x.node.blocked, e2);
    OtherEventUncounted(l2, Judged(x.tier), e3);
    OtherEventUncounted(l3, x.node.status == Flagged || x.node.status == Watch,
                        Event("system", Detection, x.id, x.driftText, true));
  }

  lemma IngestBalances(w: World, x: Arrival)
    requires Balanced(w)
    ensures Balanced(Ingest(w, x))
  {
    if x.id !in w.nodes {
      ArrivalUncounted(w.log, x);
    }
  }

  lemma StepBalances(w: World, op: Op)
    requires Balanced(w) && ActionInv(w.actions)
    ensures Balanced(Step(w, op))
  {
    match op
    case OpIngest(x) => IngestBalances(w, x);
    case OpRegister(drafts) => if Register(w, drafts).Some? { RegisterBalances(w, drafts); }
    case OpApprove(id, who) =>
      if Ready(w, id, Proposed) { ApproveBalances(w, id, who); } else { assert Step(w, op) == w; }
    case OpReject(id, who) =>
      if Ready(w, id, Proposed) { RejectBalances(w, id, who); } else { assert Step(w, op) == w; }
    case OpRevert(id, who) =>
      if Ready(w, id, Applied) { RevertBalances(w, id, who); } else { assert Step(w, op) == w; }
    case OpRetain(cutoff, who, detail) => RetainBalances(w, cutoff, who, detail);
  }

  lemma RetainBalances(w: World, cutoff: real, who: string, detail: string)
    requires Balanced(w)
    ensures Balanced(Retain(w, cutoff, who, detail))
  {
    LogCounts(w.log, Event(who, RetentionPruned, Id("twin"), detail, true));
  }

  lemma {:induction false} EveryRunBalances(ops: seq<Op>)
    ensures Balanced(Exec(EMPTY, ops))
  {
    if ops != [] {
      EveryRunBalances(ops[..|ops| - 1]);
      EveryRunKeepsActions(ops[..|ops| - 1]);
      StepBalances(Exec(EMPTY, ops[..|ops| - 1]), ops[|ops| - 1]);
    }
  }
}
