/** Edge weights against the action table: an edge is closed exactly while an applied filter targets it. */
module Weights {
  import opened Base
  import opened Graph
  import opened Model
  import opened Lifecycle
  import opened Runs

  predicate Targets(a: Action, e: Edge) {
    a.kind == MessageFilter && a.node == e.0 && a.params.edgeTo == Some(e.1)
  }

  ghost predicate Filtered(actions: map<Id, ActionRow>, e: Edge) {
    exists i :: i in actions && actions[i].column == Applied && Targets(actions[i].body, e)
  }

  /** Applied filters remember the edge they closed. */
  ghost predicate FiltersRemember(actions: map<Id, ActionRow>) {
    forall i :: i in actions && actions[i].column == Applied && actions[i].body.kind == MessageFilter ==>
      actions[i].body.before.edgeTo == actions[i].body.params.edgeTo && actions[i].body.before != NOTHING
  }

  /** Holds in every run: weights are 0 or 1, and only an applied filter explains a 0. The empty name is no
      target: the source tests the name for truth before it touches the edge. */
  ghost predicate ZeroExplained(w: World) {
    forall e :: e in w.edges ==>
      (w.edges[e] == 1.0 || (w.edges[e] == 0.0 && e.1.text != "" && Filtered(w.actions, e)))
  }

  ghost predicate WeightInv(w: World) {
    GraphInv(w) && ActionInv(w.actions) && FiltersRemember(w.actions) && ZeroExplained(w)
  }

  /** A change of rows that takes no filter of e out of the applied ones. */
  lemma FilteredStays(before: map<Id, ActionRow>, after: map<Id, ActionRow>, e: Edge)
    requires Filtered(before, e)
    requires forall i :: i in before && before[i].column == Applied && Targets(before[i].body, e) ==>
               i in after && after[i] == before[i]
    ensures Filtered(after, e)
  {
    var i :| i in before && before[i].column == Applied && Targets(before[i].body, e);
    assert i in after && after[i].column == Applied;
  }

  lemma {:induction false} RegisterExplains(w: World, drafts: seq<Draft>)
    requires FiltersRemember(w.actions) && ZeroExplained(w) && Register(w, drafts).Some?
    ensures FiltersRemember(Register(w, drafts).value.actions) && ZeroExplained(Register(w, drafts).value)
    decreases |drafts|
  {
    if drafts != [] {
      if DedupeKey(Drafted(drafts[0])) in LiveKeys(w.actions) {
        RegisterExplains(w, drafts[1..]);
      } else {
        InsertExplains(w, drafts[0]);
        RegisterExplains(Insert(w, drafts[0]), drafts[1..]);
      }
    }
  }

  /** Rows added or changed without touching an applied one explain what was explained. */
  lemma AppliedStay(w: World, v: World)
    requires ZeroExplained(w) && v.edges == w.edges
    requires forall i :: i in w.actions && w.actions[i].column == Applied ==>
               i in v.actions && v.actions[i] == w.actions[i]
    ensures ZeroExplained(v)
  {
    forall e | e in v.edges && v.edges[e] != 1.0 ensures Filtered(v.actions, e) {
      FilteredStays(w.actions, v.actions, e);
    }
  }

  lemma RowRemembers(actions: map<Id, ActionRow>, id: Id, r: ActionRow)
    requires FiltersRemember(actions)
    requires r.column == Applied && r.body.kind == MessageFilter ==>
               r.body.before.edgeTo == r.body.params.edgeTo && r.body.before != NOTHING
    ensures FiltersRemember(actions[id := r])
  {
  }

  lemma InsertExplains(w: World, d: Draft)
    requires FiltersRemember(w.actions) && ZeroExplained(w) && d.id !in w.actions
    ensures FiltersRemember(Insert(w, d).actions) && ZeroExplained(Insert(w, d))
  {
    RowRemembers(w.actions, d.id, ActionRow(Proposed, Drafted(d)));
    AppliedStay(w, Insert(w, d));
  }

  /** How approve and revert touch the edge table. */
  lemma ApproveEdges(w: World, id: Id, who: string)
    requires Ready(w, id, Proposed)
    ensures var (v, a) := (Approve(w, id, who).0, w.actions[id].body);
            && EdgeSet(w.edges, v.edges, a, a.node in w.nodes, 0.0)
            && (a.node in w.nodes && a.kind == MessageFilter ==>
                  v.actions[id].body.before == NOTHING.(edgeTo := a.params.edgeTo, filtered := Some(false)))
            && v.actions[id].body.kind == a.kind && v.actions[id].body.node == a.node
            && v.actions[id].body.params == a.params
  {
    var b := w.actions[id].body.(status := Approved, approvedBy := Some(who));
    if b.node in w.nodes {
      EffectEdges(Logged(w, ApprovedEvent(b, who)), b, w.nodes[b.node]);
    }
  }

  lemma EffectEdges(w: World, a: Action, n: Node)
    ensures var (v, b) := Effect(w, a, n);
            && EdgeSet(w.edges, v.edges, a, true, 0.0)
            && (a.kind == MessageFilter ==>
                  b.before == NOTHING.(edgeTo := a.params.edgeTo, filtered := Some(false)))
            && b.kind == a.kind && b.node == a.node && b.params == a.params
  {
  }

  lemma RevertEdges(w: World, id: Id, who: string)
    requires Ready(w, id, Applied) && FiltersRemember(w.actions) && ActionInv(w.actions)
    ensures var (v, a) := (Revert(w, id, who).0, w.actions[id].body);
            EdgeSet(w.edges, v.edges, a, a.node in w.nodes, 1.0)
  {
    assert RowSettled(w.actions[id]);
  }

  /** The edge table after one edge may have been set. */
  ghost predicate EdgeSet(before: map<Edge, real>, after: map<Edge, real>, a: Action, present: bool, weight: real) {
    after == if present && a.kind == MessageFilter && Truthy(a.params.edgeTo)
             then Weighted(before, a.node, a.params.edgeTo.value, weight) else before
  }

  lemma ApproveKeepsWeights(w: World, id: Id, who: string)
    requires WeightInv(w) && Ready(w, id, Proposed)
    ensures WeightInv(Approve(w, id, who).0)
  {
    var v := Approve(w, id, who).0;
    ApproveShape(w, id, who);
    ApproveEdges(w, id, who);
    MoveKeepsActionInv(w.actions, id, v.actions[id]);
    assert RowSettled(w.actions[id]);
    RowRemembers(w.actions, id, v.actions[id]);
    ApprovalExplained(w, v, id);
  }

  lemma ApprovalExplained(w: World, v: World, id: Id)
    requires ZeroExplained(w) && id in w.actions && id in v.actions && v.actions == w.actions[id := v.actions[id]]
    requires w.actions[id].column == Proposed && DedupeKey(v.actions[id].body) == DedupeKey(w.actions[id].body)
    requires w.actions[id].body.node in w.nodes ==> v.actions[id].column == Applied
    requires EdgeSet(w.edges, v.edges, w.actions[id].body, w.actions[id].body.node in w.nodes, 0.0)
    ensures ZeroExplained(v)
  {
    var a := w.actions[id].body;
    forall e | e in v.edges && v.edges[e] != 1.0
      ensures v.edges[e] == 0.0 && e.1.text != "" && Filtered(v.actions, e)
    {
      if v.edges != w.edges && e == (a.node, a.params.edgeTo.value) {
        assert v.actions[id].column == Applied && Targets(v.actions[id].body, e);
      } else {
        FilteredStays(w.actions, v.actions, e);
      }
    }
  }

  lemma RejectKeepsWeights(w: World, id: Id, who: string)
    requires WeightInv(w) && Ready(w, id, Proposed)
    ensures WeightInv(Reject(w, id, who).0)
  {
    var v := Reject(w, id, who).0;
    RejectShape(w, id, who);
    MoveKeepsActionInv(w.actions, id, v.actions[id]);
    assert RowSettled(w.actions[id]);
    RowRemembers(w.actions, id, v.actions[id]);
    AppliedStay(w, v);
  }

  lemma RevertKeepsWeights(w: World, id: Id, who: string)
    requires WeightInv(w) && Ready(w, id, Applied)
    ensures WeightInv(Revert(w, id, who).0)
  {
    var v := Revert(w, id, who).0;
    RevertShape(w, id, who);
    MoveKeepsActionInv(w.actions, id, v.actions[id]);
    RowRemembers(w.actions, id, v.actions[id]);
    RevertExplains(w, id, who);
  }

  lemma RevertExplains(w: World, id: Id, who: string)
    requires WeightInv(w) && Ready(w, id, Applied)
    ensures ZeroExplained(Revert(w, id, who).0)
  {
    RevertShape(w, id, who);
    RevertEdges(w, id, who);
    RevertedExplained(w, Revert(w, id, who).0, id);
  }

  lemma RevertedExplained(w: World, v: World, id: Id)
    requires GraphInv(w) && ZeroExplained(w)
    requires id in w.actions && id in v.actions && v.actions == w.actions[id := v.actions[id]]
    requires EdgeSet(w.edges, v.edges, w.actions[id].body, w.actions[id].body.node in w.nodes, 1.0)
    ensures ZeroExplained(v)
  {
    forall e | e in v.edges && v.edges[e] != 1.0
      ensures v.edges[e] == 0.0 && e.1.text != "" && Filtered(v.actions, e)
    {
      assert e in w.edges && w.edges[e] == v.edges[e] && !Targets(w.actions[id].body, e);
      FilteredStays(w.actions, v.actions, e);
    }
  }

  lemma StepKeepsWeights(w: World, op: Op)
    requires WeightInv(w)
    ensures WeightInv(Step(w, op))
  {
    match op
    case OpIngest(x) => IngestKeepsGraphInv(w, x);
    case OpRegister(drafts) =>
      if Register(w, drafts).Some? {
        RegisterKeepsTables(w, drafts);
        RegisterKeepsActionInv(w, drafts);
        RegisterExplains(w, drafts);
      }
    case OpApprove(id, who) => if Ready(w, id, Proposed) { ApproveKeepsWeights(w, id, who); }
    case OpReject(id, who) => if Ready(w, id, Proposed) { RejectKeepsWeights(w, id, who); }
    case OpRevert(id, who) => if Ready(w, id, Applied) { RevertKeepsWeights(w, id, who); }
    case OpRetain(cutoff, who, detail) => RetainKeepsGraphInv(w, cutoff, who, detail);
  }

  lemma {:induction false} EveryRunExplainsZeros(ops: seq<Op>)
    ensures WeightInv(Exec(EMPTY, ops))
  {
    if ops == [] {
      EveryRunKeepsGraph(ops);
    } else {
      EveryRunExplainsZeros(ops[..|ops| - 1]);
      StepKeepsWeights(Exec(EMPTY, ops[..|ops| - 1]), ops[|ops| - 1]);
    }
  }

  // ---- the converse ----

  ghost predicate FiltersClose(w: World) {
    forall e :: e in w.edges && e.1.text != "" && Filtered(w.actions, e) ==> w.edges[e] == 0.0
  }

  /** Weights and applied filters agree: 0 on an edge that one targets, 1 on any other. */
  ghost predicate WeightsMatch(w: World) {
    forall e :: e in w.edges ==> w.edges[e] == if e.1.text != "" && Filtered(w.actions, e) then 0.0 else 1.0
  }

  /** Ingest of a new span over whose incoming edge a filter is already applied: the edge is created open. */
  ghost predicate Reopens(w: World, op: Op) {
    && op.OpIngest? && op.x.id !in w.nodes && op.x.id.text != ""
    && exists src :: src in op.x.inputs && (src in w.nodes || src == op.x.id) && Filtered(w.actions, (src, op.x.id))
  }

  /** Rows other than id are as they were: a filter of e is an old one, or it is row id. */
  lemma FilteredBefore(w: World, v: World, id: Id, e: Edge)
    requires id in v.actions && id in w.actions && v.actions == w.actions[id := v.actions[id]]
    requires Filtered(v.actions, e) && !(v.actions[id].column == Applied && Targets(v.actions[id].body, e))
    ensures exists i :: i != id && i in w.actions && w.actions[i].column == Applied && Targets(w.actions[i].body, e)
  {
    var i :| i in v.actions && v.actions[i].column == Applied && Targets(v.actions[i].body, e);
    assert i != id && w.actions[i] == v.actions[i];
  }

  lemma IngestCloses(w: World, x: Arrival)
    requires WeightInv(w) && FiltersClose(w)
    ensures FiltersClose(Ingest(w, x)) <==> !Reopens(w, OpIngest(x))
  {
    if x.id !in w.nodes {
      var v := Ingest(w, x);
      IngestEdges(w, x);
      if Reopens(w, OpIngest(x)) {
        var src :| src in x.inputs && (src in w.nodes || src == x.id) && Filtered(w.actions, (src, x.id));
        assert (src, x.id) in v.edges && v.edges[(src, x.id)] == 1.0;
      }
    }
  }

  /** A new span's edges enter it, open; the others stay. */
  lemma IngestEdges(w: World, x: Arrival)
    requires GraphInv(w) && x.id !in w.nodes
    ensures var v := Ingest(w, x);
            forall e :: e in v.edges ==>
              if e in w.edges then e.1 != x.id && v.edges[e] == w.edges[e]
              else e.1 == x.id && e.0 in x.inputs && (e.0 in w.nodes || e.0 == x.id) && v.edges[e] == 1.0
  {
  }

  lemma {:induction false} RegisterCloses(w: World, drafts: seq<Draft>)
    requires FiltersClose(w) && Register(w, drafts).Some?
    ensures FiltersClose(Register(w, drafts).value)
    decreases |drafts|
  {
    if drafts != [] {
      if DedupeKey(Drafted(drafts[0])) in LiveKeys(w.actions) {
        RegisterCloses(w, drafts[1..]);
      } else if drafts[0].id !in w.actions {
        InsertFiltersNothing(w, drafts[0]);
        RegisterCloses(Insert(w, drafts[0]), drafts[1..]);
      }
    }
  }

  lemma InsertFiltersNothing(w: World, d: Draft)
    requires d.id !in w.actions
    ensures forall e :: Filtered(Insert(w, d).actions, e) ==> Filtered(w.actions, e)
  {
    var v := Insert(w, d);
    forall e | Filtered(v.actions, e) ensures Filtered(w.actions, e) {
      var i :| i in v.actions && v.actions[i].column == Applied && Targets(v.actions[i].body, e);
      assert i in w.actions && w.actions[i] == v.actions[i];
    }
  }

  lemma ApproveCloses(w: World, id: Id, who: string)
    requires WeightInv(w) && FiltersClose(w) && Ready(w, id, Proposed)
    ensures FiltersClose(Approve(w, id, who).0)
  {
    ApproveShape(w, id, who);
    ApproveEdges(w, id, who);
    ApprovedCloses(w, Approve(w, id, who).0, id);
  }

  lemma ApprovedCloses(w: World, v: World, id: Id)
    requires FiltersClose(w) && id in w.actions && id in v.actions && v.actions == w.actions[id := v.actions[id]]
    requires DedupeKey(v.actions[id].body) == DedupeKey(w.actions[id].body)
    requires v.actions[id].column == Applied ==> w.actions[id].body.node in w.nodes
    requires EdgeSet(w.edges, v.edges, w.actions[id].body, w.actions[id].body.node in w.nodes, 0.0)
    ensures FiltersClose(v)
  {
    forall e | e in v.edges && e.1.text != "" && Filtered(v.actions, e) ensures v.edges[e] == 0.0 {
      if v.actions[id].column == Applied && Targets(v.actions[id].body, e) {
        assert Truthy(w.actions[id].body.params.edgeTo);
      } else {
        FilteredBefore(w, v, id, e);
        assert Filtered(w.actions, e);
      }
    }
  }

  lemma RejectCloses(w: World, id: Id, who: string)
    requires WeightInv(w) && FiltersClose(w) && Ready(w, id, Proposed)
    ensures FiltersClose(Reject(w, id, who).0)
  {
    var v := Reject(w, id, who).0;
    RejectShape(w, id, who);
    forall e | e in v.edges && e.1.text != "" && Filtered(v.actions, e) ensures v.edges[e] == 0.0 {
      FilteredBefore(w, v, id, e);
      assert Filtered(w.actions, e);
    }
  }

  lemma RevertCloses(w: World, id: Id, who: string)
    requires WeightInv(w) && FiltersClose(w) && Ready(w, id, Applied)
    ensures FiltersClose(Revert(w, id, who).0)
  {
    RevertShape(w, id, who);
    RevertEdges(w, id, who);
    assert RowSettled(w.actions[id]);
    RevertedCloses(w, Revert(w, id, who).0, id);
  }

  lemma RevertedCloses(w: World, v: World, id: Id)
    requires OneLivePerKey(w.actions) && FiltersClose(w)
    requires id in w.actions && id in v.actions && v.actions == w.actions[id := v.actions[id]]
    requires w.actions[id].column == Applied && v.actions[id].column == Reverted
    requires EdgeSet(w.edges, v.edges, w.actions[id].body, w.actions[id].body.node in w.nodes, 1.0)
    ensures FiltersClose(v)
  {
    forall e | e in v.edges && e.1.text != "" && Filtered(v.actions, e) ensures v.edges[e] == 0.0 {
      FilteredBefore(w, v, id, e);
      var i :| i != id && i in w.actions && w.actions[i].column == Applied && Targets(w.actions[i].body, e);
      assert Filtered(w.actions, e);
      OneFilterPerEdge(w.actions, i, id, e);
    }
  }

  /** A second applied filter of the same edge would be a second live action of the same key. */
  lemma OneFilterPerEdge(actions: map<Id, ActionRow>, i: Id, j: Id, e: Edge)
    requires OneLivePerKey(actions) && i in actions && j in actions && i != j
    requires actions[i].column == Applied && actions[j].column == Applied && Targets(actions[i].body, e)
    ensures !Targets(actions[j].body, e)
  {
    assert DedupeKey(actions[i].body) != DedupeKey(actions[j].body);
  }

  /** Once weights and filters agree, a step breaks the agreement exactly when it reopens a filtered edge. */
  lemma StepClosesExactly(w: World, op: Op)
    requires WeightInv(w) && FiltersClose(w)
    ensures FiltersClose(Step(w, op)) <==> !Reopens(w, op)
  {
    match op
    case OpIngest(x) => IngestCloses(w, x);
    case OpRegister(drafts) => if Register(w, drafts).Some? { RegisterCloses(w, drafts); }
    case OpApprove(id, who) => if Ready(w, id, Proposed) { ApproveCloses(w, id, who); }
    case OpReject(id, who) => if Ready(w, id, Proposed) { RejectCloses(w, id, who); }
    case OpRevert(id, who) => if Ready(w, id, Applied) { RevertCloses(w, id, who); }
    case OpRetain(cutoff, who, detail) => assert Step(w, op).actions == w.actions;
  }

  /** A run none of whose steps reopens a filtered edge. */
  ghost predicate NeverReopens(ops: seq<Op>) {
    ops == []
    || (NeverReopens(ops[..|ops| - 1]) && !Reopens(Exec(EMPTY, ops[..|ops| - 1]), ops[|ops| - 1]))
  }

  /** In every run that reopens nothing, retention or not, weights match the applied filters; and the first step
      that reopens an edge is the first at which they do not. */
  lemma {:induction false} WeightsMatchUntilReopened(ops: seq<Op>)
    requires ops == [] || NeverReopens(ops[..|ops| - 1])
    ensures WeightsMatch(Exec(EMPTY, ops)) <==> NeverReopens(ops)
  {
    EveryRunExplainsZeros(ops);
    var w := Exec(EMPTY, ops);
    assert WeightsMatch(w) <==> FiltersClose(w);
    if ops != [] {
      var before := ops[..|ops| - 1];
      assert before == [] || NeverReopens(before[..|before| - 1]);
      WeightsMatchUntilReopened(before);
      EveryRunExplainsZeros(before);
      StepClosesExactly(Exec(EMPTY, before), ops[|ops| - 1]);
    }
  }

  // ---- the service's own runs ----

  /** A filter is only drafted for an edge that is there. */
  ghost predicate DraftsGrounded(w: World, drafts: seq<Draft>) {
    forall i :: 0 <= i < |drafts| && drafts[i].kind == MessageFilter ==>
      drafts[i].params.edgeTo.Some? && (drafts[i].node, drafts[i].params.edgeTo.value) in w.edges
  }

  /** A run without retention in which every filter was drafted for an existing edge, as the service's own
      proposals are. */
  ghost predicate GroundedRun(ops: seq<Op>) {
    ops == [] ||
    (var w, op := Exec(EMPTY, ops[..|ops| - 1]), ops[|ops| - 1];
     && GroundedRun(ops[..|ops| - 1]) && !op.OpRetain?
     && (op.OpRegister? ==> DraftsGrounded(w, op.drafts)))
  }

  ghost predicate FilterEdgesExist(w: World) {
    forall i :: i in w.actions && w.actions[i].body.kind == MessageFilter ==>
      var a := w.actions[i].body; a.params.edgeTo.Some? && (a.node, a.params.edgeTo.value) in w.edges
  }

  /** Where every filter's edge exists, no span still to come has a filter on an edge into it. */
  lemma GroundedNeverReopens(w: World, op: Op)
    requires GraphInv(w) && FilterEdgesExist(w)
    ensures !Reopens(w, op)
  {
  }

  lemma {:induction false} RegisterKeepsGrounded(w: World, drafts: seq<Draft>)
    requires FilterEdgesExist(w) && DraftsGrounded(w, drafts) && Register(w, drafts).Some?
    ensures FilterEdgesExist(Register(w, drafts).value)
    decreases |drafts|
  {
    if drafts != [] {
      if DedupeKey(Drafted(drafts[0])) in LiveKeys(w.actions) {
        RegisterKeepsGrounded(w, drafts[1..]);
      } else if drafts[0].id !in w.actions {
        RegisterKeepsGrounded(Insert(w, drafts[0]), drafts[1..]);
      }
    }
  }

  lemma StepKeepsGrounded(w: World, op: Op)
    requires GraphInv(w) && FilterEdgesExist(w) && !op.OpRetain?
    requires op.OpRegister? ==> DraftsGrounded(w, op.drafts)
    ensures FilterEdgesExist(Step(w, op))
  {
    if op.OpRegister? {
      if Register(w, op.drafts).Some? { RegisterKeepsGrounded(w, op.drafts); }
    } else if !op.OpIngest? {
      LifecycleKeepsGraph(w, op);
      LifecycleKeepsBodies(w, op);
    }
  }

  lemma LifecycleKeepsBodies(w: World, op: Op)
    requires op.OpApprove? || op.OpReject? || op.OpRevert?
    ensures Step(w, op).actions.Keys == w.actions.Keys
    ensures forall i :: i in w.actions ==> DedupeKey(Step(w, op).actions[i].body) == DedupeKey(w.actions[i].body)
  {
    StepMoves(w, op);
    match op
    case OpApprove(id, who) => if Ready(w, id, Proposed) { ApproveShape(w, id, who); }
    case OpReject(id, who) => if Ready(w, id, Proposed) { RejectShape(w, id, who); }
    case OpRevert(id, who) => if Ready(w, id, Applied) { RevertShape(w, id, who); }
  }

  /** In a run without retention, with the service's own proposals, an edge weighs 0 exactly when an applied
      filter targets it, and 1 otherwise. */
  lemma {:induction false} EveryGroundedRunMatchesWeights(ops: seq<Op>)
    requires GroundedRun(ops)
    ensures WeightsMatch(Exec(EMPTY, ops)) && FilterEdgesExist(Exec(EMPTY, ops)) && NeverReopens(ops)
  {
    if ops != [] {
      var before := ops[..|ops| - 1];
      EveryGroundedRunMatchesWeights(before);
      EveryRunKeepsGraph(before);
      GroundedNeverReopens(Exec(EMPTY, before), ops[|ops| - 1]);
      StepKeepsGrounded(Exec(EMPTY, before), ops[|ops| - 1]);
    }
    WeightsMatchUntilReopened(ops);
  }
}
