/** Quarantine flags against the action table: a stored node is quarantined while a quarantine is applied to it. */
module Isolation {
  import opened Base
  import opened Model
  import opened Lifecycle
  import opened Runs

  predicate Quarantines(r: ActionRow, n: Id) {
    r.column == Applied && r.body.kind == Quarantine && r.body.node == n
  }

  /** A quarantine is applied to n, by a row other than those in `but`. */
  ghost predicate Held(actions: map<Id, ActionRow>, n: Id, but: set<Id>) {
    exists i :: i in actions && i !in but && Quarantines(actions[i], n)
  }

  ghost predicate Isolated(w: World) {
    forall n :: n in w.nodes && Held(w.actions, n, {}) ==> w.nodes[n].quarantined
  }

  /** Applied actions, filters aside, remember whether their node was quarantined. */
  ghost predicate FlagsRemembered(actions: map<Id, ActionRow>) {
    forall i :: i in actions && actions[i].column == Applied && actions[i].body.kind != MessageFilter ==>
      actions[i].body.before.quarantined.Some?
  }

  /** The steps that take a node out of a quarantine that stays applied: the ingest of a span whose name had one, the
      redeploy of a node under one, and the revert of an action that found the node not yet quarantined. */
  ghost predicate Lifts(w: World, op: Op) {
    match op
    case OpIngest(x) => x.id !in w.nodes && !x.node.quarantined && Held(w.actions, x.id, {})
    case OpApprove(id, _) =>
      Ready(w, id, Proposed) && var a := w.actions[id].body;
        a.kind == Redeploy && a.node in w.nodes && Held(w.actions, a.node, {})
    case OpRevert(id, _) =>
      Ready(w, id, Applied) && var a := w.actions[id].body;
        a.kind != MessageFilter && a.node in w.nodes && a.before.quarantined == Some(false)
        && Held(w.actions, a.node, {id})
    case _ => false
  }

  // ---- one step ----

  /** A change of one row and of its node's flag is judged at that node. */
  lemma OneNodeDecides(w: World, v: World, id: Id)
    requires Isolated(w) && id in w.actions && id in v.actions && v.actions == w.actions[id := v.actions[id]]
    requires v.actions[id].body.node == w.actions[id].body.node && v.nodes.Keys == w.nodes.Keys
    requires forall m :: m in w.nodes && m != w.actions[id].body.node ==>
               v.nodes[m].quarantined == w.nodes[m].quarantined
    ensures var n := w.actions[id].body.node;
            Isolated(v) <==> (n in v.nodes && Held(v.actions, n, {}) ==> v.nodes[n].quarantined)
  {
    var n := w.actions[id].body.node;
    forall m | m in v.nodes && m != n && Held(v.actions, m, {}) ensures v.nodes[m].quarantined {
      var i :| i in v.actions && Quarantines(v.actions[i], m);
      assert i != id && w.actions[i] == v.actions[i];
      assert Held(w.actions, m, {});
    }
  }

  /** How the new row counts. */
  lemma HeldAfter(before: map<Id, ActionRow>, id: Id, r: ActionRow, n: Id)
    requires id in before && r.body.node == before[id].body.node
    ensures Held(before[id := r], n, {}) <==> Held(before, n, {id}) || Quarantines(r, n)
    ensures Held(before, n, {}) <==> Held(before, n, {id}) || Quarantines(before[id], n)
  {
    var after := before[id := r];
    if Held(after, n, {}) {
      var i :| i in after && Quarantines(after[i], n);
      assert i != id ==> i in before && i !in {id} && Quarantines(before[i], n);
    }
    if Held(before, n, {id}) {
      var i :| i in before && i !in {id} && Quarantines(before[i], n);
      assert after[i] == before[i] && i !in {};
    }
    if Quarantines(r, n) {
      assert after[id] == r;
    }
    if Held(before, n, {}) {
      var i :| i in before && Quarantines(before[i], n);
      assert i != id ==> i !in {id};
    }
    if Quarantines(before[id], n) {
      assert id !in {};
    }
  }

  function FlagAfterApproval(a: Action, flag: bool): bool {
    if a.kind == Quarantine then true else if a.kind == Redeploy then false else flag
  }

  lemma EffectFlags(w: World, a: Action, n: Node)
    requires a.node in w.nodes && n == w.nodes[a.node]
    ensures var (v, b) := Effect(w, a, n);
            && v.nodes.Keys == w.nodes.Keys
            && (forall m :: m in w.nodes ==>
                  v.nodes[m].quarantined
                  == if m == a.node then FlagAfterApproval(a, n.quarantined) else w.nodes[m].quarantined)
            && (a.kind != MessageFilter ==> b.before.quarantined == Some(n.quarantined))
  {
    EffectShape(w, a, n);
  }

  lemma ApproveFlags(w: World, id: Id, who: string)
    requires Ready(w, id, Proposed)
    ensures var (v, a) := (Approve(w, id, who).0, w.actions[id].body);
            if a.node !in w.nodes then v.nodes == w.nodes
            else
              && (forall m :: m in w.nodes ==>
                    m in v.nodes
                    && v.nodes[m].quarantined
                       == if m == a.node then FlagAfterApproval(a, w.nodes[m].quarantined) else w.nodes[m].quarantined)
              && (a.kind != MessageFilter ==>
                    v.actions[id].body.before.quarantined == Some(w.nodes[a.node].quarantined))
  {
    var b := w.actions[id].body.(status := Approved, approvedBy := Some(who));
    if b.node in w.nodes {
      EffectFlags(Logged(w, ApprovedEvent(b, who)), b, w.nodes[b.node]);
    }
  }

  lemma UndoFlags(w: World, a: Action, n: Node)
    requires a.node in w.nodes && n == w.nodes[a.node] && (a.kind != MessageFilter ==> a.before.quarantined.Some?)
    ensures var v := Undo(w, a, n);
            forall m :: m in w.nodes ==>
              m in v.nodes && v.nodes[m].quarantined == FlagAfterRevert(w, a, m)
  {
  }

  function FlagAfterRevert(w: World, a: Action, m: Id): bool
    requires m in w.nodes && (a.kind != MessageFilter ==> a.before.quarantined.Some?)
  {
    if m == a.node && a.kind != MessageFilter then a.before.quarantined.value else w.nodes[m].quarantined
  }

  lemma RevertFlags(w: World, id: Id, who: string)
    requires Ready(w, id, Applied) && w.actions[id].column == Applied && FlagsRemembered(w.actions)
    ensures var v := Revert(w, id, who).0;
            forall m :: m in w.nodes ==>
              m in v.nodes && v.nodes[m].quarantined == FlagAfterRevert(w, w.actions[id].body, m)
  {
    var a := w.actions[id].body;
    if a.node in w.nodes {
      UndoFlags(w, a, w.nodes[a.node]);
    }
  }

  lemma ApproveIsolates(w: World, id: Id, who: string)
    requires Isolated(w) && ActionInv(w.actions) && Ready(w, id, Proposed)
    ensures Isolated(Approve(w, id, who).0) <==> !Lifts(w, OpApprove(id, who))
  {
    var v, n := Approve(w, id, who).0, w.actions[id].body.node;
    ApproveShape(w, id, who);
    ApproveFlags(w, id, who);
    assert RowSettled(w.actions[id]);
    OneNodeDecides(w, v, id);
    HeldAfter(w.actions, id, v.actions[id], n);
  }

  lemma RejectIsolates(w: World, id: Id, who: string)
    requires Isolated(w) && ActionInv(w.actions) && Ready(w, id, Proposed)
    ensures Isolated(Reject(w, id, who).0)
  {
    var v := Reject(w, id, who).0;
    RejectShape(w, id, who);
    OneNodeDecides(w, v, id);
    HeldAfter(w.actions, id, v.actions[id], w.actions[id].body.node);
  }

  lemma RevertIsolates(w: World, id: Id, who: string)
    requires Isolated(w) && ActionInv(w.actions) && FlagsRemembered(w.actions) && Ready(w, id, Applied)
    ensures Isolated(Revert(w, id, who).0) <==> !Lifts(w, OpRevert(id, who))
  {
    var v, n := Revert(w, id, who).0, w.actions[id].body.node;
    assert RowSettled(w.actions[id]);
    RevertShape(w, id, who);
    RevertFlags(w, id, who);
    OneNodeDecides(w, v, id);
    HeldAfter(w.actions, id, v.actions[id], n);
  }

  lemma IngestIsolates(w: World, x: Arrival)
    requires Isolated(w)
    ensures Isolated(Ingest(w, x)) <==> !Lifts(w, OpIngest(x))
  {
    if x.id !in w.nodes {
      var v := Ingest(w, x);
      assert v.nodes == w.nodes[x.id := x.node] && v.actions == w.actions;
    }
  }

  /** New rows wait for approval: they hold nothing, and have nothing to remember. */
  lemma {:induction false} RegisterHoldsNothing(w: World, drafts: seq<Draft>)
    requires Register(w, drafts).Some?
    ensures forall i :: i in Register(w, drafts).value.actions ==>
              var r := Register(w, drafts).value.actions[i];
              r.column == Proposed || (i in w.actions && w.actions[i] == r)
    decreases |drafts|
  {
    if drafts != [] {
      if DedupeKey(Drafted(drafts[0])) in LiveKeys(w.actions) {
        RegisterHoldsNothing(w, drafts[1..]);
      } else {
        RegisterHoldsNothing(Insert(w, drafts[0]), drafts[1..]);
      }
    }
  }

  lemma RegisterIsolates(w: World, drafts: seq<Draft>)
    requires Isolated(w) && Register(w, drafts).Some?
    ensures Isolated(Register(w, drafts).value)
  {
    var v := Register(w, drafts).value;
    RegisterKeepsTables(w, drafts);
    RegisterHoldsNothing(w, drafts);
    forall n | n in v.nodes && Held(v.actions, n, {}) ensures v.nodes[n].quarantined {
      var i :| i in v.actions && Quarantines(v.actions[i], n);
      assert i in w.actions && w.actions[i] == v.actions[i] && i !in {};
    }
  }

  /** While every applied quarantine is in force, a step ends that exactly when it lifts one. */
  lemma StepIsolatesExactly(w: World, op: Op)
    requires ActionInv(w.actions) && FlagsRemembered(w.actions) && Isolated(w)
    ensures Isolated(Step(w, op)) <==> !Lifts(w, op)
  {
    match op
    case OpIngest(x) => IngestIsolates(w, x);
    case OpRegister(drafts) => if Register(w, drafts).Some? { RegisterIsolates(w, drafts); }
    case OpApprove(id, who) => if Ready(w, id, Proposed) { ApproveIsolates(w, id, who); }
    case OpReject(id, who) => if Ready(w, id, Proposed) { RejectIsolates(w, id, who); }
    case OpRevert(id, who) => if Ready(w, id, Applied) { RevertIsolates(w, id, who); }
    case OpRetain(cutoff, who, detail) =>
  }

  // ---- runs ----

  lemma StepRemembers(w: World, op: Op)
    requires FlagsRemembered(w.actions)
    ensures FlagsRemembered(Step(w, op).actions)
  {
    match op
    case OpRegister(drafts) => if Register(w, drafts).Some? { RegisterHoldsNothing(w, drafts); }
    case OpApprove(id, who) =>
      if Ready(w, id, Proposed) {
        ApproveShape(w, id, who);
        ApproveFlags(w, id, who);
      }
    case OpReject(id, who) => if Ready(w, id, Proposed) { RejectShape(w, id, who); }
    case OpRevert(id, who) => if Ready(w, id, Applied) { RevertShape(w, id, who); }
    case OpIngest(x) =>
    case OpRetain(cutoff, who, detail) =>
  }

  lemma {:induction false} EveryRunRemembers(ops: seq<Op>)
    ensures FlagsRemembered(Exec(EMPTY, ops).actions)
  {
    if ops != [] {
      EveryRunRemembers(ops[..|ops| - 1]);
      StepRemembers(Exec(EMPTY, ops[..|ops| - 1]), ops[|ops| - 1]);
    }
  }

  /** A run none of whose steps lifts an applied quarantine. */
  ghost predicate NeverLifts(ops: seq<Op>) {
    ops == []
    || (NeverLifts(ops[..|ops| - 1]) && !Lifts(Exec(EMPTY, ops[..|ops| - 1]), ops[|ops| - 1]))
  }

  /** In every run that lifts nothing, each applied quarantine is in force; and the first step that lifts one is the
      first after which one is not. */
  lemma {:induction false} IsolatedUntilLifted(ops: seq<Op>)
    requires ops == [] || NeverLifts(ops[..|ops| - 1])
    ensures Isolated(Exec(EMPTY, ops)) <==> NeverLifts(ops)
  {
    if ops != [] {
      var before := ops[..|ops| - 1];
      assert before == [] || NeverLifts(before[..|before| - 1]);
      IsolatedUntilLifted(before);
      EveryRunKeepsActions(before);
      EveryRunRemembers(before);
      StepIsolatesExactly(Exec(EMPTY, before), ops[|ops| - 1]);
    }
  }
}
