/** The action table held against the drafts it was filled from and against the rows of the audit log. */
module Accounts {
  import opened Base
  import opened Model
  import opened Audit
  import opened Lifecycle
  import opened Runs
  import opened Remediation

  // ---- drafts and actions ----

  /** An action that is waiting, authorised or in force. */
  predicate InPlay(r: ActionRow) {
    r.column == Proposed || r.column == Approved || r.column == Applied
  }

  /** The row is about the same node, by the same kind of action, towards the same other node. */
  predicate Repeats(r: ActionRow, d: Draft) {
    r.body.node == d.node && r.body.kind == d.kind && r.body.params.edgeTo == d.params.edgeTo
  }

  ghost predicate Taken(actions: map<Id, ActionRow>, d: Draft) {
    exists i :: i in actions && InPlay(actions[i]) && Repeats(actions[i], d)
  }

  /** The row of a new draft: waiting, with nobody's approval and nothing saved. */
  predicate RowOf(r: ActionRow, d: Draft) {
    && r.column == Proposed && r.body.status == Proposed && Repeats(r, d) && r.body.params == d.params
    && r.body.proposedBy == d.proposedBy && r.body.rationale == d.rationale
    && r.body.approvedBy.None? && r.body.before == NOTHING && r.body.after == NOTHING
  }

  lemma TakenIsLive(actions: map<Id, ActionRow>, d: Draft)
    ensures Taken(actions, d) <==> DedupeKey(Drafted(d)) in LiveKeys(actions)
  {
    if Taken(actions, d) {
      var i :| i in actions && InPlay(actions[i]) && Repeats(actions[i], d);
      assert DedupeKey(actions[i].body) in LiveKeys(actions);
    }
    if DedupeKey(Drafted(d)) in LiveKeys(actions) {
      var i :| i in actions && Live(actions[i].column) && DedupeKey(actions[i].body) == DedupeKey(Drafted(d));
      assert InPlay(actions[i]) && Repeats(actions[i], d);
    }
  }

  /** Draft k is the first of its node, kind and other node, and no action in play repeats it. */
  ghost predicate Fresh(actions: map<Id, ActionRow>, drafts: seq<Draft>, k: nat)
    requires k < |drafts|
  {
    !Taken(actions, drafts[k])
    && forall j :: 0 <= j < k ==>
         (drafts[j].node, drafts[j].kind, drafts[j].params.edgeTo)
         != (drafts[k].node, drafts[k].kind, drafts[k].params.edgeTo)
  }

  lemma NewLater(w: World, drafts: seq<Draft>, u: World, k: nat)
    requires 0 < k < |drafts|
    requires u == if Taken(w.actions, drafts[0]) then w else Insert(w, drafts[0])
    requires Taken(w.actions, drafts[0]) || drafts[0].id !in w.actions
    ensures Fresh(w.actions, drafts, k) <==> Fresh(u.actions, drafts[1..], k - 1)
  {
    var rest := drafts[1..];
    assert rest[k - 1] == drafts[k];
    TakenAfter(w, drafts[0], u, drafts[k]);
    if Fresh(w.actions, drafts, k) {
      forall j | 0 <= j < k - 1
        ensures (rest[j].node, rest[j].kind, rest[j].params.edgeTo)
                != (drafts[k].node, drafts[k].kind, drafts[k].params.edgeTo)
      {
        assert rest[j] == drafts[j + 1];
      }
    }
    if Fresh(u.actions, rest, k - 1) {
      forall j | 0 <= j < k
        ensures (drafts[j].node, drafts[j].kind, drafts[j].params.edgeTo)
                != (drafts[k].node, drafts[k].kind, drafts[k].params.edgeTo)
      {
        if j > 0 {
          assert rest[j - 1] == drafts[j];
        }
      }
    }
  }

  lemma TakenAfter(w: World, d: Draft, u: World, e: Draft)
    requires Taken(w.actions, d) || d.id !in w.actions
    requires u == if Taken(w.actions, d) then w else Insert(w, d)
    ensures Taken(u.actions, e) <==>
              Taken(w.actions, e) || (d.node, d.kind, d.params.edgeTo) == (e.node, e.kind, e.params.edgeTo)
  {
    if Taken(w.actions, d) {
      if (d.node, d.kind, d.params.edgeTo) == (e.node, e.kind, e.params.edgeTo) {
        var i :| i in w.actions && InPlay(w.actions[i]) && Repeats(w.actions[i], d);
        assert Repeats(w.actions[i], e);
      }
    } else {
      if Taken(w.actions, e) {
        var i :| i in w.actions && InPlay(w.actions[i]) && Repeats(w.actions[i], e);
        assert u.actions[i] == w.actions[i];
      }
      if (d.node, d.kind, d.params.edgeTo) == (e.node, e.kind, e.params.edgeTo) {
        assert InPlay(u.actions[d.id]) && Repeats(u.actions[d.id], e);
      }
    }
  }

  /** A registration without a clash adds exactly one waiting row for each new draft and keeps every other row. */
  ghost predicate Enrolled(before: map<Id, ActionRow>, drafts: seq<Draft>, after: map<Id, ActionRow>) {
    && (forall i :: i in before ==> i in after && after[i] == before[i])
    && (forall k :: 0 <= k < |drafts| && Fresh(before, drafts, k) ==>
          drafts[k].id !in before && drafts[k].id in after && RowOf(after[drafts[k].id], drafts[k]))
    && (forall i :: i in after && i !in before ==>
          exists k :: 0 <= k < |drafts| && Fresh(before, drafts, k) && drafts[k].id == i)
  }

  lemma {:induction false} RegisteredExactly(w: World, drafts: seq<Draft>)
    requires Register(w, drafts).Some?
    ensures Enrolled(w.actions, drafts, Register(w, drafts).value.actions)
    decreases |drafts|
  {
    if drafts != [] {
      TakenIsLive(w.actions, drafts[0]);
      var u := if Taken(w.actions, drafts[0]) then w else Insert(w, drafts[0]);
      RegisteredExactly(u, drafts[1..]);
      forall k | 0 < k < |drafts| ensures Fresh(w.actions, drafts, k) <==> Fresh(u.actions, drafts[1..], k - 1) {
        NewLater(w, drafts, u, k);
      }
      EnrolledFirst(w, drafts, u, Register(w, drafts).value.actions);
    }
  }

  lemma EnrolledFirst(w: World, drafts: seq<Draft>, u: World, after: map<Id, ActionRow>)
    requires drafts != [] && (Taken(w.actions, drafts[0]) || drafts[0].id !in w.actions)
    requires u == if Taken(w.actions, drafts[0]) then w else Insert(w, drafts[0])
    requires Enrolled(u.actions, drafts[1..], after)
    requires forall k :: 0 < k < |drafts| ==> (Fresh(w.actions, drafts, k) <==> Fresh(u.actions, drafts[1..], k - 1))
    ensures Enrolled(w.actions, drafts, after)
  {
    var rest := drafts[1..];
    assert Fresh(w.actions, drafts, 0) <==> !Taken(w.actions, drafts[0]);
    forall k | 0 <= k < |drafts| && Fresh(w.actions, drafts, k)
      ensures drafts[k].id !in w.actions && drafts[k].id in after && RowOf(after[drafts[k].id], drafts[k])
    {
      if k > 0 {
        assert Fresh(u.actions, rest, k - 1) && rest[k - 1] == drafts[k];
      } else {
        assert drafts[0].id in u.actions && RowOf(u.actions[drafts[0].id], drafts[0]);
      }
    }
    forall i | i in after && i !in w.actions
      ensures exists k :: 0 <= k < |drafts| && Fresh(w.actions, drafts, k) && drafts[k].id == i
    {
      if i in u.actions {
        assert Fresh(w.actions, drafts, 0) && drafts[0].id == i;
      } else {
        var k :| 0 <= k < |rest| && Fresh(u.actions, rest, k) && rest[k].id == i;
        assert Fresh(w.actions, drafts, k + 1) && drafts[k + 1].id == i;
      }
    }
  }

  // ---- who did what ----

  /** The log tells that someone did this about a node, by that kind of action. */
  ghost predicate Told(log: seq<Event>, event: EventKind, actor: string, node: Id, kind: Kind) {
    exists e :: e in log && e.kind == event && e.actor == actor && e.target == node && KindName(kind) <= e.detail
  }

  /** What the record of an action claims of its past stands in the log, under the names it gives. */
  ghost predicate Accounted(log: seq<Event>, a: Action) {
    && Told(log, ActionProposed, a.proposedBy, a.node, a.kind)
    && (a.approvedBy.None? <==> a.status == Proposed)
    && match a.status
       case Proposed => true
       case Approved => false
       case Rejected =>
         || Told(log, ActionRejected, a.approvedBy.value, a.node, a.kind)
         || Told(log, ActionApproved, a.approvedBy.value, a.node, a.kind)
       case Applied => Carried(log, a)
       case Reverted => Carried(log, a) && exists who :: Told(log, ActionReverted, who, a.node, a.kind)
  }

  /** It was approved and carried out, by the one who approved it. */
  ghost predicate Carried(log: seq<Event>, a: Action)
    requires a.approvedBy.Some?
  {
    && Told(log, ActionApproved, a.approvedBy.value, a.node, a.kind)
    && Told(log, if a.kind == Quarantine then Quarantined else ActionApplied, a.approvedBy.value, a.node, a.kind)
  }

  ghost predicate AllAccounted(w: World) {
    forall i :: i in w.actions ==> Accounted(w.log, w.actions[i].body)
  }

  lemma ToldStays(log: seq<Event>, more: seq<Event>)
    requires forall e :: e in log ==> e in more
    ensures forall event, actor, node, kind :: Told(log, event, actor, node, kind) ==>
              Told(more, event, actor, node, kind)
  {
    forall event, actor, node, kind | Told(log, event, actor, node, kind)
      ensures Told(more, event, actor, node, kind)
    {
      var e :| e in log && e.kind == event && e.actor == actor && e.target == node && KindName(kind) <= e.detail;
      assert e in more;
    }
  }

  lemma AccountedStays(log: seq<Event>, more: seq<Event>, a: Action)
    requires Accounted(log, a) && forall e :: e in log ==> e in more
    ensures Accounted(more, a)
  {
    ToldStays(log, more);
    if a.status == Reverted {
      var who :| Told(log, ActionReverted, who, a.node, a.kind);
      assert Told(more, ActionReverted, who, a.node, a.kind);
    }
  }

  /** One row changes with the log; the rest stay accounted for. */
  lemma OneAccounted(w: World, v: World, id: Id)
    requires AllAccounted(w) && (forall e :: e in w.log ==> e in v.log)
    requires id in v.actions && v.actions == w.actions[id := v.actions[id]] && Accounted(v.log, v.actions[id].body)
    ensures AllAccounted(v)
  {
    forall i | i in v.actions ensures Accounted(v.log, v.actions[i].body) {
      if i != id {
        AccountedStays(w.log, v.log, w.actions[i].body);
      }
    }
  }

  lemma InsertAccounted(w: World, d: Draft)
    requires AllAccounted(w) && d.id !in w.actions
    ensures AllAccounted(Insert(w, d))
  {
    var v := Insert(w, d);
    assert ProposedEvent(d) in v.log;
    assert Told(v.log, ActionProposed, d.proposedBy, d.node, d.kind);
    OneAccounted(w, v, d.id);
  }

  lemma {:induction false} RegisterAccounted(w: World, drafts: seq<Draft>)
    requires AllAccounted(w) && Register(w, drafts).Some?
    ensures AllAccounted(Register(w, drafts).value)
    decreases |drafts|
  {
    if drafts != [] {
      if DedupeKey(Drafted(drafts[0])) in LiveKeys(w.actions) {
        RegisterAccounted(w, drafts[1..]);
      } else {
        InsertAccounted(w, drafts[0]);
        RegisterAccounted(Insert(w, drafts[0]), drafts[1..]);
      }
    }
  }

  /** The record of an approved action: its status, its approver and its saved states are new. */
  lemma ApproveRecords(w: World, id: Id, who: string)
    requires Ready(w, id, Proposed)
    ensures id in Approve(w, id, who).0.actions
    ensures var (a, b) := (w.actions[id].body, Approve(w, id, who).0.actions[id].body);
            && b == a.(status := b.status, approvedBy := Some(who), before := b.before, after := b.after)
            && b.status == if a.node in w.nodes then Applied else Rejected
  {
    var a := w.actions[id].body.(status := Approved, approvedBy := Some(who));
    if a.node in w.nodes {
      EffectShape(Logged(w, ApprovedEvent(a, who)), a, w.nodes[a.node]);
    }
  }

  lemma ApproveAccounted(w: World, id: Id, who: string)
    requires AllAccounted(w) && Ready(w, id, Proposed)
    ensures AllAccounted(Approve(w, id, who).0)
  {
    var v, a := Approve(w, id, who).0, w.actions[id].body;
    ApproveShape(w, id, who);
    ApproveRecords(w, id, who);
    assert v.log == w.log + ApprovalEvents(a, who, a.node in w.nodes);
    ApprovalAccounted(w.log, a, who, a.node in w.nodes, v.actions[id].body);
    OneAccounted(w, v, id);
  }

  function ApprovalEvents(a: Action, who: string, present: bool): seq<Event> {
    [ApprovedEvent(a, who)] + if present then [AppliedEvent(a, who)] else []
  }

  lemma ApprovalAccounted(log: seq<Event>, a: Action, who: string, present: bool, b: Action)
    requires Accounted(log, a)
    requires b == a.(status := if present then Applied else Rejected, approvedBy := Some(who), before := b.before,
                     after := b.after)
    ensures Accounted(log + ApprovalEvents(a, who, present), b)
  {
    var more := log + ApprovalEvents(a, who, present);
    ToldStays(log, more);
    assert more[|log|] == ApprovedEvent(a, who);
    assert Told(more, ActionApproved, who, a.node, a.kind);
    if present {
      assert more[|log| + 1] == AppliedEvent(a, who);
      assert Told(more, if a.kind == Quarantine then Quarantined else ActionApplied, who, a.node, a.kind);
    }
  }

  lemma RejectAccounted(w: World, id: Id, who: string)
    requires AllAccounted(w) && Ready(w, id, Proposed)
    ensures AllAccounted(Reject(w, id, who).0)
  {
    var v, a := Reject(w, id, who).0, w.actions[id].body;
    ToldStays(w.log, v.log);
    assert RejectedEvent(a, who) in v.log;
    assert Told(v.log, ActionRejected, who, a.node, a.kind);
    OneAccounted(w, v, id);
  }

  lemma RevertAccounted(w: World, id: Id, who: string)
    requires AllAccounted(w) && Ready(w, id, Applied)
    ensures AllAccounted(Revert(w, id, who).0)
  {
    var v, a := Revert(w, id, who).0, w.actions[id].body;
    RevertShape(w, id, who);
    assert RevertedEvent(a, who) in v.log;
    assert Told(v.log, ActionReverted, who, a.node, a.kind);
    UndoneAccounted(w.log, v.log, a, who);
    assert v.actions[id].body == a.(status := Reverted);
    OneAccounted(w, v, id);
  }

  lemma UndoneAccounted(log: seq<Event>, more: seq<Event>, a: Action, who: string)
    requires Accounted(log, a) && a.status == Applied && forall e :: e in log ==> e in more
    requires Told(more, ActionReverted, who, a.node, a.kind)
    ensures Accounted(more, a.(status := Reverted))
  {
    AccountedStays(log, more, a);
  }

  lemma StepAccounted(w: World, op: Op)
    requires AllAccounted(w)
    ensures AllAccounted(Step(w, op))
  {
    match op
    case OpRegister(drafts) => if Register(w, drafts).Some? { RegisterAccounted(w, drafts); }
    case OpApprove(id, who) => if Ready(w, id, Proposed) { ApproveAccounted(w, id, who); }
    case OpReject(id, who) => if Ready(w, id, Proposed) { RejectAccounted(w, id, who); }
    case OpRevert(id, who) => if Ready(w, id, Applied) { RevertAccounted(w, id, who); }
    case OpIngest(x) => LogOnly(w, Step(w, op));
    case OpRetain(cutoff, who, detail) => LogOnly(w, Step(w, op));
  }

  lemma LogOnly(w: World, v: World)
    requires AllAccounted(w) && v.actions == w.actions && forall e :: e in w.log ==> e in v.log
    ensures AllAccounted(v)
  {
    forall i | i in v.actions ensures Accounted(v.log, v.actions[i].body) {
      AccountedStays(w.log, v.log, w.actions[i].body);
    }
  }

  /** In every run, whoever an action names as its proposer or approver is on the log with it, and so is what was
      done. */
  lemma {:induction false} EveryRunAccounts(ops: seq<Op>)
    ensures AllAccounted(Exec(EMPTY, ops))
  {
    if ops != [] {
      EveryRunAccounts(ops[..|ops| - 1]);
      StepAccounted(Exec(EMPTY, ops[..|ops| - 1]), ops[|ops| - 1]);
    }
  }

  // ---- the rows of the audit log ----

  /** A row of the log under this action name, with the kind of action in its detail. */
  ghost predicate HasRow(rows: seq<Row>, action: string, actor: string, node: Id, kind: Kind) {
    exists r :: r in rows && r.record.action == action && r.record.actor == actor && r.record.target == node.text
                && SaysKind(r.record.detail, kind)
  }

  /** The detail begins with the word for the kind of action. */
  predicate SaysKind(detail: string, kind: Kind) {
    match kind
    case ContextEdit => "context_edit" <= detail
    case Rollback => "rollback" <= detail
    case Quarantine => "quarantine" <= detail
    case MessageFilter => "message_filter" <= detail
    case Redeploy => "redeploy" <= detail
  }

  lemma RowTells(rows: seq<Row>, log: seq<Event>, event: EventKind, action: string, actor: string, node: Id,
                 kind: Kind)
    requires Carries(rows, log) && Told(log, event, actor, node, kind) && EventName(event) == action
    ensures HasRow(rows, action, actor, node, kind)
  {
    var e :| e in log && e.kind == event && e.actor == actor && e.target == node && KindName(kind) <= e.detail;
    var i :| 0 <= i < |log| && log[i] == e;
    assert CarriesOne(rows[i], log[i]) && rows[i] in rows;
  }

  /** What an action's record claims, read off the rows by their action names. */
  ghost predicate OnRecord(rows: seq<Row>, a: Action) {
    && HasRow(rows, "remediation.proposed", a.proposedBy, a.node, a.kind)
    && (a.approvedBy.Some? <==> a.status != Proposed)
    && (a.status == Applied || a.status == Reverted ==>
          && HasRow(rows, "remediation.approved", a.approvedBy.value, a.node, a.kind)
          && HasRow(rows, if a.kind == Quarantine then "quarantine" else "remediation.applied", a.approvedBy.value,
                    a.node, a.kind))
    && (a.status == Rejected ==>
          || HasRow(rows, "remediation.rejected", a.approvedBy.value, a.node, a.kind)
          || HasRow(rows, "remediation.approved", a.approvedBy.value, a.node, a.kind))
    && (a.status == Reverted ==> exists who :: HasRow(rows, "remediation.reverted", who, a.node, a.kind))
  }

  lemma CarriedOnRecord(rows: seq<Row>, log: seq<Event>, a: Action)
    requires Carries(rows, log) && a.approvedBy.Some? && Carried(log, a)
    ensures HasRow(rows, "remediation.approved", a.approvedBy.value, a.node, a.kind)
    ensures HasRow(rows, if a.kind == Quarantine then "quarantine" else "remediation.applied", a.approvedBy.value,
                   a.node, a.kind)
  {
    var who := a.approvedBy.value;
    RowTells(rows, log, ActionApproved, "remediation.approved", who, a.node, a.kind);
    if a.kind == Quarantine {
      RowTells(rows, log, Quarantined, "quarantine", who, a.node, a.kind);
    } else {
      RowTells(rows, log, ActionApplied, "remediation.applied", who, a.node, a.kind);
    }
  }

  lemma RefusedOnRecord(rows: seq<Row>, log: seq<Event>, a: Action)
    requires Carries(rows, log) && Accounted(log, a) && a.status == Rejected
    ensures || HasRow(rows, "remediation.rejected", a.approvedBy.value, a.node, a.kind)
            || HasRow(rows, "remediation.approved", a.approvedBy.value, a.node, a.kind)
  {
    if Told(log, ActionRejected, a.approvedBy.value, a.node, a.kind) {
      RowTells(rows, log, ActionRejected, "remediation.rejected", a.approvedBy.value, a.node, a.kind);
    } else {
      RowTells(rows, log, ActionApproved, "remediation.approved", a.approvedBy.value, a.node, a.kind);
    }
  }

  lemma UndoneOnRecord(rows: seq<Row>, log: seq<Event>, a: Action)
    requires Carries(rows, log) && Accounted(log, a) && a.status == Reverted
    ensures exists who :: HasRow(rows, "remediation.reverted", who, a.node, a.kind)
  {
    var who :| Told(log, ActionReverted, who, a.node, a.kind);
    RowTells(rows, log, ActionReverted, "remediation.reverted", who, a.node, a.kind);
  }

  lemma AccountedOnRecord(rows: seq<Row>, log: seq<Event>, a: Action)
    requires Carries(rows, log) && Accounted(log, a)
    ensures OnRecord(rows, a)
  {
    RowTells(rows, log, ActionProposed, "remediation.proposed", a.proposedBy, a.node, a.kind);
    match a.status
    case Proposed =>
    case Approved =>
    case Applied => CarriedOnRecord(rows, log, a);
    case Rejected => RefusedOnRecord(rows, log, a);
    case Reverted =>
      CarriedOnRecord(rows, log, a);
      UndoneOnRecord(rows, log, a);
  }

  /** How many rows have this action name. */
  function Named(rows: seq<Row>, action: string): nat {
    if rows == [] then 0
    else Named(rows[..|rows| - 1], action) + (if rows[|rows| - 1].record.action == action then 1 else 0)
  }

  lemma NamesApart(k: EventKind, l: EventKind)
    requires EventName(k) == EventName(l)
    ensures k == l
  {
    var s, t := EventName(k), EventName(l);
    assert s[0] == t[0] && |s| == |t|;
    assert |s| == 20 ==> s[12] == t[12] && s[14] == t[14];
  }

  /** Exactly the rows of this name carry events of that kind. */
  ghost predicate NamesKind(rows: seq<Row>, action: string, log: seq<Event>, k: EventKind) {
    |rows| == |log| && forall i :: 0 <= i < |rows| ==> (rows[i].record.action == action <==> log[i].kind == k)
  }

  lemma CarriedNames(rows: seq<Row>, action: string, log: seq<Event>, k: EventKind)
    requires Carries(rows, log) && EventName(k) == action
    ensures NamesKind(rows, action, log, k)
  {
    forall i | 0 <= i < |rows| ensures rows[i].record.action == action <==> log[i].kind == k {
      assert CarriesOne(rows[i], log[i]);
      if rows[i].record.action == action {
        NamesApart(log[i].kind, k);
      }
    }
  }

  lemma {:induction false} NamedIsCount(rows: seq<Row>, action: string, log: seq<Event>, k: EventKind)
    requires NamesKind(rows, action, log, k)
    ensures Named(rows, action) == Count(log, k)
  {
    if rows != [] {
      NamedIsCount(rows[..|rows| - 1], action, log[..|log| - 1], k);
    }
  }

  lemma NamedCarried(rows: seq<Row>, action: string, log: seq<Event>, k: EventKind)
    requires Carries(rows, log) && EventName(k) == action
    ensures Named(rows, action) == Count(log, k)
  {
    CarriedNames(rows, action, log, k);
    NamedIsCount(rows, action, log, k);
  }

  /** The rows balance with the action table. */
  ghost predicate RowsBalance(rows: seq<Row>, actions: map<Id, ActionRow>) {
    && Named(rows, "remediation.proposed") == |actions|
    && Named(rows, "remediation.approved") + Named(rows, "remediation.rejected")
       == |set i | i in actions && actions[i].column != Proposed|
    && Named(rows, "remediation.applied") + Named(rows, "quarantine")
       == |set i | i in actions && (actions[i].column == Applied || actions[i].column == Reverted)|
    && Named(rows, "remediation.reverted") == |set i | i in actions && actions[i].column == Reverted|
  }

  lemma BalancedRows(rows: seq<Row>, w: World)
    requires Carries(rows, w.log) && Balanced(w)
    ensures RowsBalance(rows, w.actions)
  {
    NamedCarried(rows, "remediation.proposed", w.log, ActionProposed);
    NamedCarried(rows, "remediation.approved", w.log, ActionApproved);
    NamedCarried(rows, "remediation.rejected", w.log, ActionRejected);
    NamedCarried(rows, "remediation.applied", w.log, ActionApplied);
    NamedCarried(rows, "quarantine", w.log, Quarantined);
    NamedCarried(rows, "remediation.reverted", w.log, ActionReverted);
    TotalsAre(w.actions);
  }

  lemma TotalsAre(actions: map<Id, ActionRow>)
    ensures Totals(actions) ==
            Books(|actions|, |set i | i in actions && actions[i].column != Proposed|,
                  |set i | i in actions && (actions[i].column == Applied || actions[i].column == Reverted)|,
                  |set i | i in actions && actions[i].column == Reverted|)
  {
    var proposed, applied := InState(actions, Proposed), InState(actions, Applied);
    var reverted := InState(actions, Reverted);
    assert actions.Keys - proposed == set i | i in actions && actions[i].column != Proposed;
    assert applied + reverted
        == set i | i in actions && (actions[i].column == Applied || actions[i].column == Reverted);
    assert reverted == set i | i in actions && actions[i].column == Reverted;
    assert |actions.Keys - proposed| == |actions| - |proposed|;
    assert applied !! reverted;
  }

  // ---- the rows of an arrival ----

  ghost predicate RowNamed(rows: seq<Row>, action: string) {
    exists r :: r in rows && r.record.action == action
  }

  function One(holds: bool): nat {
    if holds then 1 else 0
  }

  /** The rows that an arrival adds are all about it: one for an anomaly of the escalation rate, one if the rail
      blocked it, one if a judge was asked, and one if it drifted. */
  lemma ArrivalTold(rows: seq<Row>, log: seq<Event>, x: Arrival)
    requires Carries(rows, ArrivalLogged(log, x)) && |log| <= |rows|
    ensures var added := rows[|log|..];
            && (forall r :: r in added ==> r.record.target == x.id.text)
            && (RowNamed(added, "escalation.anomaly") <==> x.anomaly)
            && (RowNamed(added, "action.blocked") <==> x.node.blocked)
            && (RowNamed(added, "escalation") <==> x.tier == SmallJudge || x.tier == DeepEscalation)
            && (RowNamed(added, "detection") <==> x.node.status == Flagged || x.node.status == Watch)
            && |added| == One(x.anomaly) + One(x.node.blocked) + One(x.tier == SmallJudge || x.tier == DeepEscalation)
                          + One(x.node.status == Flagged || x.node.status == Watch)
  {
    var added, events := rows[|log|..], ArrivalLogged([], x);
    AddedEvents(log, x);
    AddedCarried(rows, log, events);
    KindsOf(x);
    NamesOf(added, events);
    AboutOne(added, events, x.id);
  }

  lemma NamesOf(added: seq<Row>, events: seq<Event>)
    requires Carries(added, events)
    ensures RowNamed(added, "escalation.anomaly") <==> EscalationAnomaly in Kinds(events)
    ensures RowNamed(added, "action.blocked") <==> ActionBlocked in Kinds(events)
    ensures RowNamed(added, "escalation") <==> Escalation in Kinds(events)
    ensures RowNamed(added, "detection") <==> Detection in Kinds(events)
  {
    NamedIffKind(added, "escalation.anomaly", events, EscalationAnomaly);
    NamedIffKind(added, "action.blocked", events, ActionBlocked);
    NamedIffKind(added, "escalation", events, Escalation);
    NamedIffKind(added, "detection", events, Detection);
  }

  lemma AddedCarried(rows: seq<Row>, log: seq<Event>, more: seq<Event>)
    requires Carries(rows, log + more)
    ensures Carries(rows[|log|..], more)
  {
    forall i | 0 <= i < |more| ensures CarriesOne(rows[|log|..][i], more[i]) {
      assert CarriesOne(rows[|log| + i], (log + more)[|log| + i]);
    }
  }

  lemma AboutOne(rows: seq<Row>, events: seq<Event>, id: Id)
    requires Carries(rows, events) && AllAbout(events, id)
    ensures forall r :: r in rows ==> r.record.target == id.text
  {
    forall r | r in rows ensures r.record.target == id.text {
      var i :| 0 <= i < |rows| && rows[i] == r;
      assert CarriesOne(rows[i], events[i]) && events[i] in events;
    }
  }

  ghost function Kinds(events: seq<Event>): set<EventKind> {
    set e | e in events :: e.kind
  }

  ghost predicate AllAbout(events: seq<Event>, id: Id) {
    forall e :: e in events ==> e.target == id
  }

  lemma NamedIffKind(rows: seq<Row>, action: string, log: seq<Event>, k: EventKind)
    requires Carries(rows, log) && EventName(k) == action
    ensures RowNamed(rows, action) <==> k in Kinds(log)
  {
    CarriedNames(rows, action, log, k);
    if RowNamed(rows, action) {
      var r :| r in rows && r.record.action == action;
      var i :| 0 <= i < |rows| && rows[i] == r;
      assert log[i] in log && log[i].kind == k;
    }
    if k in Kinds(log) {
      var e :| e in log && e.kind == k;
      var i :| 0 <= i < |log| && log[i] == e;
      assert rows[i] in rows && rows[i].record.action == action;
    }
  }

  lemma AddedEvents(log: seq<Event>, x: Arrival)
    ensures ArrivalLogged(log, x) == log + ArrivalLogged([], x)
  {
  }

  lemma KindsOf(x: Arrival)
    ensures var events := ArrivalLogged([], x);
            && AllAbout(events, x.id)
            && (EscalationAnomaly in Kinds(events) <==> x.anomaly)
            && (ActionBlocked in Kinds(events) <==> x.node.blocked)
            && (Escalation in Kinds(events) <==> x.tier == SmallJudge || x.tier == DeepEscalation)
            && (Detection in Kinds(events) <==> x.node.status == Flagged || x.node.status == Watch)
            && |events| == One(x.anomaly) + One(x.node.blocked) + One(x.tier == SmallJudge || x.tier == DeepEscalation)
                           + One(x.node.status == Flagged || x.node.status == Watch)
  {
    var drifted := x.node.status == Flagged || x.node.status == Watch;
    FourJoined(x.anomaly, Event("system", EscalationAnomaly, x.id, x.anomalyText, true),
               x.node.blocked, Event("inline-rail", ActionBlocked, x.id, x.blockedText, true),
               Judged(x.tier), Event("system", Escalation, x.id, x.tierText, true),
               drifted, Event("system", Detection, x.id, x.driftText, true));
  }

  lemma FourJoined(h: bool, a: Event, i: bool, b: Event, j: bool, c: Event, k: bool, d: Event)
    requires a.target == b.target == c.target == d.target
    requires a.kind !in {b.kind, c.kind, d.kind} && b.kind !in {c.kind, d.kind} && c.kind != d.kind
    ensures var events := [] + If(h, a) + If(i, b) + If(j, c) + If(k, d);
            && AllAbout(events, a.target) && |events| == One(h) + One(i) + One(j) + One(k)
            && (a.kind in Kinds(events) <==> h) && (b.kind in Kinds(events) <==> i)
            && (c.kind in Kinds(events) <==> j) && (d.kind in Kinds(events) <==> k)
  {
    var half := [] + If(h, a) + If(i, b);
    TwoJoined([], h, a, i, b);
    TwoJoined(half, j, c, k, d);
    AllAboutJoined(h, a, i, b, j, c, k, d);
    assert Kinds([]) == {};
    KindsApart(Kinds(half + If(j, c) + If(k, d)), h, a, i, b, j, c, k, d);
  }

  lemma KindsApart(kinds: set<EventKind>, h: bool, a: Event, i: bool, b: Event, j: bool, c: Event, k: bool, d: Event)
    requires kinds == KindIf(h, a) + KindIf(i, b) + KindIf(j, c) + KindIf(k, d)
    requires a.kind !in {b.kind, c.kind, d.kind} && b.kind !in {c.kind, d.kind} && c.kind != d.kind
    ensures (a.kind in kinds <==> h) && (b.kind in kinds <==> i) && (c.kind in kinds <==> j) && (d.kind in kinds <==> k)
  {
  }

  function KindIf(holds: bool, e: Event): set<EventKind> {
    if holds then {e.kind} else {}
  }

  lemma TwoJoined(events: seq<Event>, h: bool, a: Event, i: bool, b: Event)
    ensures Kinds(events + If(h, a) + If(i, b)) == Kinds(events) + KindIf(h, a) + KindIf(i, b)
    ensures |events + If(h, a) + If(i, b)| == |events| + One(h) + One(i)
  {
    KindsJoined(events, h, a);
    KindsJoined(events + If(h, a), i, b);
  }

  lemma AllAboutJoined(h: bool, a: Event, i: bool, b: Event, j: bool, c: Event, k: bool, d: Event)
    requires a.target == b.target == c.target == d.target
    ensures AllAbout([] + If(h, a) + If(i, b) + If(j, c) + If(k, d), a.target)
  {
  }

  lemma KindsJoined(events: seq<Event>, holds: bool, e: Event)
    ensures Kinds(events + If(holds, e)) == Kinds(events) + KindIf(holds, e)
  {
    var all := events + If(holds, e);
    forall k ensures k in Kinds(all) <==> k in Kinds(events) || (holds && k == e.kind) {
      if k in Kinds(events) {
        var f :| f in events && f.kind == k;
        assert f in all;
      }
      if holds && k == e.kind {
        assert all[|events|] == e && e in all;
      }
    }
  }
}
