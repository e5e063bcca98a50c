/** One state of the service's tables, and what each operation makes of it. */
module Lifecycle {
  import opened Base
  import opened Graph
  import opened Model
  import opened Store

  datatype Kind = ContextEdit | Rollback | Quarantine | MessageFilter | Redeploy

  datatype ActionStatus = Proposed | Approved | Rejected | Applied | Reverted

  datatype Patch = Patch(intent: Option<string>, task: Option<string>)

  datatype Params = Params(edgeTo: Option<Id>, checkpoint: Option<Id>, patch: Patch)

  /** A before- or after-state: a JSON object whose keys may be missing. */
  datatype Saved = Saved(intent: Option<string>, output: Option<string>, task: Option<string>,
                         quarantined: Option<bool>, status: Option<DriftStatus>,
                         edgeTo: Option<Id>, filtered: Option<bool>)

  const NOTHING := Saved(None, None, None, None, None, None, None)

  datatype Action = Action(node: Id, kind: Kind, params: Params, status: ActionStatus, proposedBy: string,
                           approvedBy: Option<string>, before: Saved, after: Saved, rationale: string)

  /** A row of the action table: its indexed status column, and the JSON body. */
  datatype ActionRow = ActionRow(column: ActionStatus, body: Action)

  datatype Draft = Draft(id: Id, node: Id, kind: Kind, params: Params, proposedBy: string, rationale: string)

  datatype EventKind =
    | ActionProposed | ActionApproved | ActionRejected | ActionApplied | ActionReverted | Quarantined
    | EscalationAnomaly | ActionBlocked | Escalation | Detection | RetentionPruned

  datatype Event = Event(actor: string, kind: EventKind, target: Id, detail: string, reversible: bool)

  datatype World = World(nodes: map<Id, Node>, edges: map<Edge, real>, checkpoints: map<Id, Checkpoint>,
                         actions: map<Id, ActionRow>, log: seq<Event>)

  const EMPTY := World(map[], map[], map[], map[], [])

  datatype Outcome = Done(action: Action) | NotFound | WrongState(status: ActionStatus)

  function EventName(k: EventKind): string {
    match k
    case ActionProposed => "remediation.proposed"
    case ActionApproved => "remediation.approved"
    case ActionRejected => "remediation.rejected"
    case ActionApplied => "remediation.applied"
    case ActionReverted => "remediation.reverted"
    case Quarantined => "quarantine"
    case EscalationAnomaly => "escalation.anomaly"
    case ActionBlocked => "action.blocked"
    case Escalation => "escalation"
    case Detection => "detection"
    case RetentionPruned => "retention.pruned"
  }

  function KindName(k: Kind): string {
    match k
    case ContextEdit => "context_edit"
    case Rollback => "rollback"
    case Quarantine => "quarantine"
    case MessageFilter => "message_filter"
    case Redeploy => "redeploy"
  }

  function GetOr<T>(o: Option<T>, default: T): T {
    if o.Some? then o.value else default
  }

  function Logged(w: World, e: Event): World {
    w.(log := w.log + [e])
  }

  // ---- registering proposals ----

  predicate Live(s: ActionStatus) {
    s == Proposed || s == Approved || s == Applied
  }

  type Key = (Id, Kind, Option<Id>)

  function DedupeKey(a: Action): Key {
    (a.node, a.kind, a.params.edgeTo)
  }

  function LiveKeys(actions: map<Id, ActionRow>): set<Key> {
    set id | id in actions && Live(actions[id].column) :: DedupeKey(actions[id].body)
  }

  function Drafted(d: Draft): Action {
    Action(d.node, d.kind, d.params, Proposed, d.proposedBy, None, NOTHING, NOTHING, d.rationale)
  }

  function ProposedEvent(d: Draft): Event {
    Event(d.proposedBy, ActionProposed, d.node, KindName(d.kind) + ": " + d.rationale, true)
  }

  function Insert(w: World, d: Draft): World {
    Logged(w.(actions := w.actions[d.id := ActionRow(Proposed, Drafted(d))]), ProposedEvent(d))
  }

  /** Inserts the drafts whose key no live action has; None when an inserted id already exists, since the whole
      transaction then fails on the primary key. */
  function Register(w: World, drafts: seq<Draft>): Option<World>
    decreases |drafts|
  {
    if drafts == [] then Some(w)
    else if DedupeKey(Drafted(drafts[0])) in LiveKeys(w.actions) then Register(w, drafts[1..])
    else if drafts[0].id in w.actions then None
    else Register(Insert(w, drafts[0]), drafts[1..])
  }

  // ---- approving, rejecting, reverting ----

  function Snapshot(n: Node): Saved {
    NOTHING.(intent := Some(n.intent), output := Some(n.output), task := Some(n.task),
             quarantined := Some(n.quarantined), status := Some(n.status))
  }

  function Save(w: World, id: Id, a: Action): World {
    w.(actions := w.actions[id := ActionRow(a.status, a)])
  }

  function RolledBack(w: World, n: Node, checkpoint: Option<Id>): Node {
    var c := if Truthy(checkpoint) && checkpoint.value in w.checkpoints
             then w.checkpoints[checkpoint.value].context else Context(None, None, None);
    n.(intent := GetOr(c.intent, n.intent), output := GetOr(c.output, n.output), task := GetOr(c.task, n.task),
       status := Contained, score := MinReal(n.score, 0.2))
  }

  function Edited(n: Node, p: Patch): Node {
    n.(intent := GetOr(p.intent, n.intent), task := GetOr(p.task, n.task), status := Contained)
  }

  function Weighted(edges: map<Edge, real>, src: Id, dst: Id, weight: real): map<Edge, real> {
    if (src, dst) in edges then edges[(src, dst) := weight] else edges
  }

  function Calmed(nodes: map<Id, Node>, dst: Id): map<Id, Node> {
    if dst in nodes && (nodes[dst].status == Flagged || nodes[dst].status == Watch)
    then nodes[dst := nodes[dst].(status := Contained, score := MinReal(nodes[dst].score, 0.25))]
    else nodes
  }

  /** The effect of an approved action on its (present) node, and the action with its before- and after-state. */
  function Effect(w: World, a: Action, n: Node): (World, Action) {
    match a.kind
    case Rollback =>
      var m := RolledBack(w, n, a.params.checkpoint);
      (w.(nodes := w.nodes[a.node := m]), a.(before := Snapshot(n), after := Snapshot(m)))
    case Quarantine =>
      (w.(nodes := w.nodes[a.node := n.(quarantined := true, status := Contained)]),
       a.(before := NOTHING.(quarantined := Some(n.quarantined), status := Some(n.status)),
          after := NOTHING.(quarantined := Some(true), status := Some(Contained))))
    case MessageFilter =>
      var dst := a.params.edgeTo;
      var b := a.(before := NOTHING.(edgeTo := dst, filtered := Some(false)),
                  after := NOTHING.(edgeTo := dst, filtered := Some(true)));
      if Truthy(dst) then
        (w.(edges := Weighted(w.edges, a.node, dst.value, 0.0),
            nodes := Calmed(w.nodes, dst.value)[a.node := n]), b)
      else (w.(nodes := w.nodes[a.node := n]), b)
    case ContextEdit =>
      var m := Edited(n, a.params.patch);
      (w.(nodes := w.nodes[a.node := m]), a.(before := Snapshot(n), after := Snapshot(m)))
    case Redeploy =>
      (w.(nodes := w.nodes[a.node := n.(quarantined := false, status := Clean)]),
       a.(before := NOTHING.(quarantined := Some(n.quarantined)),
          after := NOTHING.(quarantined := Some(false))))
  }

  function ApprovedEvent(a: Action, who: string): Event {
    Event(who, ActionApproved, a.node, KindName(a.kind) + " authorised", true)
  }

  function RejectedEvent(a: Action, who: string): Event {
    Event(who, ActionRejected, a.node, KindName(a.kind) + " declined by operator", true)
  }

  function RevertedEvent(a: Action, who: string): Event {
    Event(who, ActionReverted, a.node, KindName(a.kind) + " reverted to prior state", true)
  }

  function AppliedEvent(a: Action, actor: string): Event {
    Event(actor, if a.kind == Quarantine then Quarantined else ActionApplied, a.node,
          KindName(a.kind) + " applied; reversible=True", true)
  }

  function Approve(w: World, id: Id, who: string): (World, Outcome) {
    if id !in w.actions then (w, NotFound)
    else if w.actions[id].body.status != Proposed then (w, WrongState(w.actions[id].body.status))
    else
      var a := w.actions[id].body.(status := Approved, approvedBy := Some(who));
      var w1 := Logged(w, ApprovedEvent(a, who));
      if a.node !in w1.nodes then
        var b := a.(status := Rejected);
        (Save(w1, id, b), Done(b))
      else
        var (w2, b) := Effect(w1, a, w1.nodes[a.node]);
        var c := b.(status := Applied);
        (Save(Logged(w2, AppliedEvent(c, who)), id, c), Done(c))
  }

  function Reject(w: World, id: Id, who: string): (World, Outcome) {
    if id !in w.actions then (w, NotFound)
    else if w.actions[id].body.status != Proposed then (w, WrongState(w.actions[id].body.status))
    else
      var a := w.actions[id].body.(status := Rejected, approvedBy := Some(who));
      (Save(Logged(w, RejectedEvent(a, who)), id, a), Done(a))
  }

  /** The undo of an applied action, read from its before-state with the source's defaults for missing keys. */
  function Undo(w: World, a: Action, n: Node): World {
    var b := a.before;
    match a.kind
    case Quarantine =>
      w.(nodes := w.nodes[a.node := n.(quarantined := GetOr(b.quarantined, false),
                                       status := GetOr(b.status, Flagged))])
    case MessageFilter =>
      if Truthy(b.edgeTo) then
        w.(edges := Weighted(w.edges, a.node, b.edgeTo.value, 1.0), nodes := w.nodes[a.node := n])
      else w.(nodes := w.nodes[a.node := n])
    case _ =>
      w.(nodes := w.nodes[a.node := n.(
           intent := GetOr(b.intent, n.intent), output := GetOr(b.output, n.output), task := GetOr(b.task, n.task),
           quarantined := GetOr(b.quarantined, n.quarantined), status := GetOr(b.status, n.status))])
  }

  function Revert(w: World, id: Id, who: string): (World, Outcome) {
    if id !in w.actions then (w, NotFound)
    else if w.actions[id].body.status != Applied then (w, WrongState(w.actions[id].body.status))
    else
      var a := w.actions[id].body;
      var w1 := if a.node in w.nodes && a.before != NOTHING then Undo(w, a, w.nodes[a.node]) else w;
      var b := a.(status := Reverted);
      (Save(Logged(w1, RevertedEvent(b, who)), id, b), Done(b))
  }

  // ---- ingest and retention ----

  datatype Tier = ZeroInference | Sampled | SmallJudge | DeepEscalation

  /** A span with the verdict of the detector, the rail and the monitor on it, and the text they log. */
  datatype Arrival = Arrival(id: Id, node: Node, inputs: seq<Id>, tier: Tier, anomaly: bool, savedAt: real,
                             anomalyText: string, blockedText: string, tierText: string, driftText: string)

  predicate Judged(t: Tier) {
    t == SmallJudge || t == DeepEscalation
  }

  function If(holds: bool, e: Event): seq<Event> {
    if holds then [e] else []
  }

  /** The log after the events of an arrival, each written only when its condition holds. */
  function ArrivalLogged(log: seq<Event>, x: Arrival): seq<Event> {
    log
    + If(x.anomaly, Event("system", EscalationAnomaly, x.id, x.anomalyText, true))
    + If(x.node.blocked, Event("inline-rail", ActionBlocked, x.id, x.blockedText, true))
    + If(Judged(x.tier), Event("system", Escalation, x.id, x.tierText, true))
    + If(x.node.status == Flagged || x.node.status == Watch, Event("system", Detection, x.id, x.driftText, true))
  }

  function FullContext(n: Node): Context {
    Context(Some(n.intent), Some(n.output), Some(n.task))
  }

  /** The edges a committed span brings: from each of its inputs that is stored, itself included. */
  function Influences(inputs: seq<Id>, id: Id, present: set<Id>): map<Edge, real> {
    map src | src in inputs && src in present :: (src, id) := 1.0
  }

  function Commit(w: World, x: Arrival): World {
    w.(nodes := w.nodes[x.id := x.node],
       checkpoints := w.checkpoints[CheckpointOf(x.id) :=
                        Checkpoint(x.id, x.node.agent, FullContext(x.node), x.savedAt)],
       edges := w.edges + Influences(x.inputs, x.id, w.nodes.Keys + {x.id}))
  }

  /** Idempotent ingest: a span that is already stored changes nothing. */
  function Ingest(w: World, x: Arrival): World {
    if x.id in w.nodes then w
    else var w1 := Commit(w, x); w1.(log := ArrivalLogged(w1.log, x))
  }

  function Retain(w: World, cutoff: real, who: string, detail: string): World {
    var gone := Aged(w.nodes, cutoff);
    Logged(w.(nodes := w.nodes - gone, edges := Without(w.edges, gone), checkpoints := Kept(w.checkpoints, gone)),
           Event(who, RetentionPruned, Id("twin"), detail, true))
  }

  // ---- runs ----

  datatype Op =
    | OpIngest(x: Arrival)
    | OpRegister(drafts: seq<Draft>)
    | OpApprove(id: Id, who: string)
    | OpReject(id: Id, who: string)
    | OpRevert(id: Id, who: string)
    | OpRetain(cutoff: real, who: string, detail: string)

  function Step(w: World, op: Op): World {
    match op
    case OpIngest(x) => Ingest(w, x)
    case OpRegister(drafts) => GetOr(Register(w, drafts), w)
    case OpApprove(id, who) => Approve(w, id, who).0
    case OpReject(id, who) => Reject(w, id, who).0
    case OpRevert(id, who) => Revert(w, id, who).0
    case OpRetain(cutoff, who, detail) => Retain(w, cutoff, who, detail)
  }

  function Exec(w: World, ops: seq<Op>): World {
    if ops == [] then w else Step(Exec(w, ops[..|ops| - 1]), ops[|ops| - 1])
  }
}
