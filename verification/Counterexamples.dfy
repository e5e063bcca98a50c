/** Runs the service can go through in which a promise that holds only under a condition fails. Each starts from the
    empty tables and registers only what the service itself proposes in that state. */
module Counterexamples {
  import opened Base
  import opened Graph
  import opened Model
  import opened Search
  import opened Store
  import opened Lifecycle
  import opened Runs
  import opened Weights
  import opened Attribution
  import opened Redact
  import opened Replay
  import opened Undo
  import opened Isolation
  import opened RevertOrder

  /** A span that no rule concerns, from an agent without privileges. */
  predicate Quiet(n: Node) {
    n.privilege == Low && n.status == Clean && !n.blocked
  }

  /** A span, and the time at which its checkpoint is saved. */
  function Span(id: Id, n: Node, inputs: seq<Id>, at: real): Arrival {
    Arrival(id, n, inputs, ZeroInference, false, at, "", "", "", "")
  }

  // ---- an edge created open under an applied filter ----

  /** A span a hands on to a span b that arrives after it with an older timestamp. */
  function Newer(n: Node): Node {
    n.(ts := 10.0)
  }

  function Older(n: Node): Node {
    n.(ts := 0.0)
  }

  function HandOff(a: Id, b: Id, n: Node): seq<Op> {
    [OpIngest(Span(a, Newer(n), [], 20.0))] + [OpIngest(Span(b, Older(n), [a], 21.0))]
  }

  /** What the service proposes at a after that. */
  function Remedies(a: Id, b: Id, i: Id, j: Id): seq<Draft> {
    [RollbackDraft(i, a, None, "system"), FilterDraft(j, a, b, "system")]
  }

  ghost predicate HandedOff(w: World, a: Id, b: Id, n: Node) {
    w == World(map[a := Newer(n), b := Older(n)], map[(a, b) := 1.0],
               map[CheckpointOf(a) := Checkpoint(a, n.agent, FullContext(n), 20.0),
                   CheckpointOf(b) := Checkpoint(b, n.agent, FullContext(n), 21.0)],
               map[], w.log)
  }

  lemma HandOffTables(a: Id, b: Id, n: Node)
    requires a != b
    ensures HandedOff(Exec(EMPTY, HandOff(a, b, n)), a, b, n)
  {
    var x, y := OpIngest(Span(a, Newer(n), [], 20.0)), OpIngest(Span(b, Older(n), [a], 21.0));
    ExecNext(EMPTY, [], x);
    assert [] + [x] == [x];
    ExecNext(EMPTY, [x], y);
    FirstStored(a, n);
    SecondStored(Exec(EMPTY, [x]), a, b, n);
  }

  lemma FirstStored(a: Id, n: Node)
    ensures var w := Ingest(EMPTY, Span(a, Newer(n), [], 20.0));
            w == World(map[a := Newer(n)], map[], map[CheckpointOf(a) := Checkpoint(a, n.agent, FullContext(n), 20.0)],
                       map[], w.log)
  {
  }

  lemma SecondStored(w: World, a: Id, b: Id, n: Node)
    requires a != b
    requires w == World(map[a := Newer(n)], map[], map[CheckpointOf(a) := Checkpoint(a, n.agent, FullContext(n), 20.0)],
                        map[], w.log)
    ensures HandedOff(Ingest(w, Span(b, Older(n), [a], 21.0)), a, b, n)
  {
    OneInfluence(a, b, {a, b});
  }

  lemma OneHandOff(a: Id, b: Id)
    ensures |Down({(a, b)}, a) - {a}| < 2
  {
    ClosedHoldsDown({(a, b)}, {b}, a);
    SubsetSize(Down({(a, b)}, a) - {a}, {b});
  }

  lemma NoneGood(w: World, a: Id, b: Id, n: Node)
    requires HandedOff(w, a, b, n)
    ensures LatestGood(w.checkpoints, n.agent, 10.0 - 0.000001, None)
  {
    assert forall c :: c in w.checkpoints ==> w.checkpoints[c].ts >= 20.0;
  }

  /** The two drafts are what the service proposes at a. */
  lemma RemediesProposed(a: Id, b: Id, n: Node, i: Id, j: Id)
    requires a != b && Quiet(n)
    ensures var w := Exec(EMPTY, HandOff(a, b, n));
            a in w.nodes && Proposal(w.nodes, w.edges.Keys, w.checkpoints, a, "system", [b], Remedies(a, b, i, j))
  {
    HandOffTables(a, b, n);
    RemediesFit(Exec(EMPTY, HandOff(a, b, n)), a, b, n, i, j);
  }

  lemma RemediesFit(w: World, a: Id, b: Id, n: Node, i: Id, j: Id)
    requires a != b && Quiet(n) && HandedOff(w, a, b, n)
    ensures Proposal(w.nodes, w.edges.Keys, w.checkpoints, a, "system", [b], Remedies(a, b, i, j))
  {
    var drafts := Remedies(a, b, i, j);
    assert w.edges.Keys == {(a, b)};
    OneHandOff(a, b);
    NoneGood(w, a, b, n);
    Assembled(w.nodes, w.edges.Keys, w.checkpoints, a, "system", [b], drafts[0], [drafts[1]],
              QuarantineDraft(i, a, "system"));
    assert drafts == [drafts[0]] + [drafts[1]] + [];
  }

  /** Two drafts of different kinds, registered while there is no action. */
  lemma TwoRegistered(w: World, d: Draft, e: Draft)
    requires w.actions == map[] && d.id != e.id && d.kind != e.kind
    ensures var v := Step(w, OpRegister([d, e]));
            && v == w.(actions := v.actions, log := v.log)
            && v.actions == map[d.id := ActionRow(Proposed, Drafted(d)), e.id := ActionRow(Proposed, Drafted(e))]
  {
    var u := Insert(w, d);
    assert LiveKeys(w.actions) == {};
    assert [d, e][1..] == [e] && [e][1..] == [];
    assert Register(w, [d, e]) == Register(u, [e]);
    assert forall k :: k in LiveKeys(u.actions) ==> k.1 == d.kind;
    assert DedupeKey(Drafted(e)).1 == e.kind;
    assert Register(u, [e]) == Register(Insert(u, e), []);
  }

  lemma FilterCloses(w: World, a: Id, b: Id, n: Node, j: Id, who: string)
    requires Ready(w, j, Proposed) && w.actions[j].body.kind == MessageFilter && w.actions[j].body.node == a
    requires w.actions[j].body.params.edgeTo == Some(b) && b.text != ""
    requires a != b && Quiet(n) && w.nodes == map[a := Newer(n), b := Older(n)]
    ensures var v := Step(w, OpApprove(j, who));
            v.nodes == w.nodes && v.edges.Keys == w.edges.Keys && Filtered(v.actions, (a, b))
  {
    ApproveShape(w, j, who);
    ApproveEdges(w, j, who);
    var v := Approve(w, j, who).0;
    assert v.nodes == w.nodes;
    assert v.actions[j].column == Applied && Targets(v.actions[j].body, (a, b));
  }

  /** Retention keeps a alone. */
  lemma OnlyTheNewerStays(w: World, a: Id, b: Id, n: Node, who: string)
    requires a != b && w.nodes == map[a := Newer(n), b := Older(n)] && w.edges.Keys == {(a, b)}
    ensures var v := Step(w, OpRetain(5.0, who, ""));
            v.nodes.Keys == {a} && v.edges == map[] && v.actions == w.actions
  {
    assert Aged(w.nodes, 5.0) == {b};
    assert forall e :: e in w.edges ==> e == (a, b);
  }

  lemma ReingestOf(w: World, a: Id, b: Id, n: Node)
    requires a != b && b.text != "" && Filtered(w.actions, (a, b)) && w.nodes.Keys == {a} && w.edges == map[]
    ensures var op := OpIngest(Span(b, Older(n), [a], 30.0));
            var after := Step(w, op);
            && Reopens(w, op)
            && after.edges == map[(a, b) := 1.0] && Filtered(after.actions, (a, b)) && !WeightsMatch(after)
  {
    var x := Span(b, Older(n), [a], 30.0);
    assert a in x.inputs;
    EdgeOpened(w, a, b, n);
    assert (a, b) in Ingest(w, x).edges;
  }

  lemma OneInfluence(a: Id, b: Id, present: set<Id>)
    requires a in present
    ensures Influences([a], b, present) == map[(a, b) := 1.0]
  {
    assert a in [a];
  }

  lemma EdgeOpened(w: World, a: Id, b: Id, n: Node)
    requires a != b && w.nodes.Keys == {a} && w.edges == map[]
    ensures var v := Ingest(w, Span(b, Older(n), [a], 30.0));
            v.edges == map[(a, b) := 1.0] && v.actions == w.actions
  {
    OneInfluence(a, b, {a, b});
  }

  /** Both drafts registered, the filter approved, then retention that drops only b. */
  function Filtering(a: Id, b: Id, n: Node, i: Id, j: Id, who: string): seq<Op> {
    HandOff(a, b, n) + [OpRegister(Remedies(a, b, i, j))] + [OpApprove(j, who)] + [OpRetain(5.0, who, "")]
  }

  lemma FilteringSteps(a: Id, b: Id, n: Node, i: Id, j: Id, who: string)
    ensures Exec(EMPTY, Filtering(a, b, n, i, j, who)) ==
            Step(Step(Step(Exec(EMPTY, HandOff(a, b, n)), OpRegister(Remedies(a, b, i, j))), OpApprove(j, who)),
                 OpRetain(5.0, who, ""))
  {
    var o1, o2, o3 := OpRegister(Remedies(a, b, i, j)), OpApprove(j, who), OpRetain(5.0, who, "");
    ExecNext(EMPTY, HandOff(a, b, n), o1);
    ExecNext(EMPTY, HandOff(a, b, n) + [o1], o2);
    ExecNext(EMPTY, HandOff(a, b, n) + [o1] + [o2], o3);
  }

  lemma AfterFiltering(w: World, a: Id, b: Id, n: Node, i: Id, j: Id, who: string)
    requires a != b && b.text != "" && i != j && Quiet(n) && HandedOff(w, a, b, n)
    ensures var v := Step(Step(Step(w, OpRegister(Remedies(a, b, i, j))), OpApprove(j, who)), OpRetain(5.0, who, ""));
            Filtered(v.actions, (a, b)) && v.nodes.Keys == {a} && v.edges == map[]
  {
    TwoRegistered(w, Remedies(a, b, i, j)[0], Remedies(a, b, i, j)[1]);
    var w3 := Step(w, OpRegister(Remedies(a, b, i, j)));
    FilterCloses(w3, a, b, n, j, who);
    OnlyTheNewerStays(Step(w3, OpApprove(j, who)), a, b, n, who);
  }

  /** Retention and re-ingest of b bring the edge back open, while the filter that closed it is still applied. */
  lemma ReingestReopens(a: Id, b: Id, n: Node, i: Id, j: Id, who: string)
    requires a != b && b.text != "" && i != j && Quiet(n)
    ensures var (before, op) := (Exec(EMPTY, Filtering(a, b, n, i, j, who)), OpIngest(Span(b, Older(n), [a], 30.0)));
            var after := Exec(EMPTY, Filtering(a, b, n, i, j, who) + [op]);
            && Reopens(before, op)
            && after.edges == map[(a, b) := 1.0] && Filtered(after.actions, (a, b)) && !WeightsMatch(after)
  {
    HandOffTables(a, b, n);
    FilteringSteps(a, b, n, i, j, who);
    AfterFiltering(Exec(EMPTY, HandOff(a, b, n)), a, b, n, i, j, who);
    ReingestOf(Exec(EMPTY, Filtering(a, b, n, i, j, who)), a, b, n);
    ExecNext(EMPTY, Filtering(a, b, n, i, j, who), OpIngest(Span(b, Older(n), [a], 30.0)));
  }

  // ---- a quarantine that no longer isolates ----

  /** What the service proposes at a flagged, privileged node that hands on to none. */
  function Pair(a: Id, i: Id, j: Id): seq<Draft> {
    [RollbackDraft(i, a, None, "system"), QuarantineDraft(j, a, "system")]
  }

  predicate Alarming(n: Node) {
    n.privilege != Low && n.status == Flagged && !n.quarantined
  }

  lemma AlarmStored(a: Id, n: Node)
    ensures var w := Exec(EMPTY, [OpIngest(Span(a, n, [], n.ts))]);
            w == World(map[a := n], map[], map[CheckpointOf(a) := Checkpoint(a, n.agent, FullContext(n), n.ts)],
                       map[], w.log)
  {
    ExecNext(EMPTY, [], OpIngest(Span(a, n, [], n.ts)));
    assert [] + [OpIngest(Span(a, n, [], n.ts))] == [OpIngest(Span(a, n, [], n.ts))];
  }

  /** The two drafts are what the service then registers. */
  lemma PairProposed(a: Id, n: Node, i: Id, j: Id)
    requires Alarming(n)
    ensures var w := Exec(EMPTY, [OpIngest(Span(a, n, [], n.ts))]);
            a in w.nodes && Proposal(w.nodes, w.edges.Keys, w.checkpoints, a, "system", [], Pair(a, i, j))
  {
    var w, drafts := Exec(EMPTY, [OpIngest(Span(a, n, [], n.ts))]), Pair(a, i, j);
    AlarmStored(a, n);
    Assembled(w.nodes, w.edges.Keys, w.checkpoints, a, "system", [], drafts[0], [], drafts[1]);
    assert drafts == [drafts[0]] + [] + [drafts[1]];
  }

  /** Both registered and then approved, the rollback first. */
  function PairRun(a: Id, n: Node, i: Id, j: Id, who: string): seq<Op> {
    [OpIngest(Span(a, n, [], n.ts))] + [OpRegister(Pair(a, i, j))] + [OpApprove(i, who)] + [OpApprove(j, who)]
  }

  lemma PairApproved(w: World, a: Id, i: Id, j: Id, who: string)
    requires a in w.nodes && Alarming(w.nodes[a]) && i != j && Ready(w, i, Proposed) && Ready(w, j, Proposed)
    requires w.actions[i].body == Drafted(Pair(a, i, j)[0]) && w.actions[j].body == Drafted(Pair(a, i, j)[1])
    ensures var v := Approve(Approve(w, i, who).0, j, who).0;
            && a in v.nodes && Ready(v, i, Applied) && Ready(v, j, Applied) && v.actions[j].column == Applied
            && v.actions[i].body.kind == Kind.Rollback && v.actions[i].body.node == a
            && v.actions[j].body.kind == Kind.Quarantine && v.actions[j].body.node == a
            && v.nodes[a].quarantined
            && Saves(v.actions[i].body, w.nodes[a]) && v.actions[j].body.before.status == Some(Contained)
  {
    var u := Approve(w, i, who).0;
    ApproveStep(w, i, who);
    OneRow(w, i, who);
    ApproveStep(u, j, who);
    ApproveShape(u, j, who);
    ApproveFlags(u, j, who);
    OneRow(u, j, who);
  }

  lemma PairCountermanded(v: World, a: Id, i: Id, j: Id, who: string, n: Node)
    requires a in v.nodes && i != j && Alarming(n) && Ready(v, i, Applied) && Ready(v, j, Applied)
    requires v.actions[i].body.kind == Kind.Rollback && v.actions[i].body.node == a
    requires v.actions[j].body.kind == Kind.Quarantine && v.actions[j].body.node == a
    requires v.actions[j].column == Applied
    requires Saves(v.actions[i].body, n) && v.actions[j].body.before.status == Some(Contained)
    ensures var u := Revert(v, i, who).0;
            && Lifts(v, OpRevert(i, who)) && !Isolated(u) && a in u.nodes && !u.nodes[a].quarantined
            && j in u.actions && Quarantines(u.actions[j], a)
            && a in Revert(u, j, who).0.nodes && Revert(u, j, who).0.nodes[a].status == Contained
  {
    var u := Revert(v, i, who).0;
    RevertStep(v, i, who, n);
    OneRow(v, i, who);
    assert Quarantines(v.actions[j], a) && j !in {i} && j !in {};
    assert Held(u.actions, a, {});
    RevertPutsBack(u, j, who);
  }

  /** The node is left unquarantined while its quarantine is still applied, and contained, not flagged, once that is
      reverted too. */
  lemma RevertLifts(a: Id, n: Node, i: Id, j: Id, who: string)
    requires Alarming(n) && i != j
    ensures var ops := PairRun(a, n, i, j, who);
            var (v, u) := (Exec(EMPTY, ops), Exec(EMPTY, ops + [OpRevert(i, who)]));
            var t := Exec(EMPTY, ops + [OpRevert(i, who)] + [OpRevert(j, who)]);
            && Lifts(v, OpRevert(i, who)) && !Isolated(u) && a in u.nodes && !u.nodes[a].quarantined
            && j in u.actions && Quarantines(u.actions[j], a)
            && a in t.nodes && t.nodes[a].status == Contained
  {
    var o1, o2 := OpIngest(Span(a, n, [], n.ts)), OpRegister(Pair(a, i, j));
    AlarmStored(a, n);
    ExecNext(EMPTY, [o1], o2);
    ExecNext(EMPTY, [o1] + [o2], OpApprove(i, who));
    ExecNext(EMPTY, [o1] + [o2] + [OpApprove(i, who)], OpApprove(j, who));
    var ops := PairRun(a, n, i, j, who);
    ExecNext(EMPTY, ops, OpRevert(i, who));
    ExecNext(EMPTY, ops + [OpRevert(i, who)], OpRevert(j, who));
    TwoRegistered(Exec(EMPTY, [o1]), Pair(a, i, j)[0], Pair(a, i, j)[1]);
    var w := Exec(EMPTY, [o1] + [o2]);
    PairApproved(w, a, i, j, who);
    PairCountermanded(Exec(EMPTY, ops), a, i, j, who, n);
  }

  // ---- a node that hears an uncorrected text ----

  const LEAK := "Acme Corp"

  /** A detector that takes the leak, where a node says nothing else, for a foreign entity. */
  function Spotter(): Detector {
    Detector((n: Node) => if n.output == LEAK then {LEAK} else {}, n => false, t => t, t => false,
             (n, output, effects, upstream) => (0.0, Clean))
  }

  lemma SpotterFindsEntities()
    ensures FindsEntities(Spotter())
  {
    assert LEAK[..4] == "Acme" && LEAK[5..] == "Corp";
    assert IsWord(LEAK[..4]) && IsSpace(LEAK[4]) && IsWord(LEAK[5..]);
    assert IsProper(LEAK);
  }

  function Leaky(n: Node): Node {
    n.(output := LEAK, effects := [])
  }

  /** r hands on to m, m to itself and to a, and the leak is in what m says. */
  function SelfFeeding(r: Id, m: Id, a: Id, n: Node): seq<Op> {
    [OpIngest(Span(r, n, [], 20.0))] + [OpIngest(Span(m, Leaky(n), [r, m], 21.0))]
    + [OpIngest(Span(a, n, [m], 22.0))]
  }

  ghost predicate SelfFed(w: World, r: Id, m: Id, a: Id, n: Node) {
    w.nodes == map[r := n, m := Leaky(n), a := n] && w.edges.Keys == {(r, m), (m, m), (m, a)}
  }

  lemma SelfFeedingTables(r: Id, m: Id, a: Id, n: Node)
    requires r != m && m != a && r != a
    ensures SelfFed(Exec(EMPTY, SelfFeeding(r, m, a, n)), r, m, a, n)
  {
    var x, y, z := OpIngest(Span(r, n, [], 20.0)), OpIngest(Span(m, Leaky(n), [r, m], 21.0)),
                   OpIngest(Span(a, n, [m], 22.0));
    ExecNext(EMPTY, [], x);
    assert [] + [x] == [x];
    ExecNext(EMPTY, [x], y);
    ExecNext(EMPTY, [x] + [y], z);
    var v := Step(EMPTY, x);
    assert v.nodes == map[r := n] && v.edges == map[];
    MiddleStored(v, r, m, n);
    LastStored(Step(v, y), r, m, a, n);
  }

  lemma MiddleStored(w: World, r: Id, m: Id, n: Node)
    requires r != m && w.nodes == map[r := n] && w.edges == map[]
    ensures var v := Ingest(w, Span(m, Leaky(n), [r, m], 21.0));
            v.nodes == map[r := n, m := Leaky(n)] && v.edges.Keys == {(r, m), (m, m)}
  {
    assert Influences([r, m], m, {r, m}).Keys == {(r, m), (m, m)};
  }

  lemma LastStored(w: World, r: Id, m: Id, a: Id, n: Node)
    requires r != m && m != a && r != a
    requires w.nodes == map[r := n, m := Leaky(n)] && w.edges.Keys == {(r, m), (m, m)}
    ensures SelfFed(Ingest(w, Span(a, n, [m], 22.0)), r, m, a, n)
  {
    assert Influences([m], a, {r, m, a}).Keys == {(m, a)};
  }

  /** The scope has one name off every cycle, its root; the other two follow in string order, a before m. */
  lemma SelfFedOrder(r: Id, m: Id, a: Id, g: Rel, order: seq<Id>)
    requires r != m && m != a && r != a && Less(a.text, m.text) && g == {(r, m), (m, m), (m, a)}
    requires TopoOrdered(g, {r, m, a}, order)
    ensures order == [r, a, m]
  {
    SelfFedOrderable(r, m, a, g);
    NoDupSize(order);
    assert |{r, m, a}| == 3;
    assert order[..1][0] == order[0] && order[0] in SetOf(order[..1]);
    assert order[1] in SetOf(order) && order[2] in SetOf(order);
    assert order[1..][0] == order[1] && order[1..][1] == order[2];
    LessTotal(a.text, m.text);
  }

  lemma SelfFedOrderable(r: Id, m: Id, a: Id, g: Rel)
    requires r != m && m != a && r != a && g == {(r, m), (m, m), (m, a)}
    ensures Orderable(g, {r, m, a}) == {r} && |Orderable(g, {r, m, a})| == 1
  {
    EdgeReaches(g, m, m);
    EdgeReaches(g, m, a);
    assert !OffCycles(g, m) && !OffCycles(g, a);
    forall c ensures !Reaches(g, c, r) {
      if Reaches(g, c, r) {
        var x := ReachesLast(g, c, r);
      }
    }
  }

  lemma SelfFedScope(r: Id, m: Id, a: Id, g: Rel)
    requires r != m && m != a && r != a && g == {(r, m), (m, m), (m, a)}
    ensures Down(g, r) + {r} == {r, m, a} && Induced(g, {r, m, a}) == g
  {
    EdgeReaches(g, r, m);
    EdgeReaches(g, m, a);
    ReachesTrans(g, r, m, a);
    ClosuresDual(g, r, m);
    ClosuresDual(g, r, a);
    ClosedHoldsDown(g, {m, a}, r);
  }

  lemma SelfFedPass(r: Id, m: Id, a: Id, g: Rel, pass: seq<Id>)
    requires r != m && m != a && r != a && Less(a.text, m.text) && g == {(r, m), (m, m), (m, a)}
    requires PassOrder(g, r, Down(g, r) + {r}, pass)
    ensures pass == [r, a, m]
  {
    var ids := Down(g, r) + {r};
    var order :| TopoOrdered(Induced(g, ids), ids, order) && pass == [r] + Others(order, r);
    SelfFedScope(r, m, a, g);
    SelfFedOrder(r, m, a, g, order);
    OthersOfThree(r, a, m);
  }

  lemma OthersOfThree(r: Id, a: Id, m: Id)
    requires r != a && r != m
    ensures [r] + Others([r, a, m], r) == [r, a, m]
  {
    assert [r, a, m][1..] == [a, m] && [a, m][1..] == [m] && [m][1..] == [];
    assert Others([m], r) == [m];
    assert Others([a, m], r) == [a] + [m];
  }

  lemma OnlyPredecessor(g: Rel, m: Id, a: Id, ps: seq<Id>)
    requires PredsOf(g, a, ps) && forall p :: (p, a) in g <==> p == m
    ensures ps == [m]
  {
    assert m in ps;
    assert forall i :: 0 <= i < |ps| ==> ps[i] in ps;
    assert |ps| > 1 ==> ps[0] == ps[1];
  }

  /** a comes before m in the pass, so it hears what m said, not what the replay made of it. */
  lemma HeardTooSoon(nodes: map<Id, Node>, r: Id, d: Detector, m: Id, a: Id, n: Node, past: seq<Id>,
                     notes: map<Id, Note>, preds: map<Id, seq<Id>>)
    requires m !in past && m in nodes && nodes[m] == Leaky(n)
    requires NotedAt(nodes, r, d, a, past, notes, preds) && preds[a] == [m]
    ensures notes[a].heard == LEAK + " "
  {
    assert m !in Corrected(Among(notes, past));
    assert Original(nodes, m) == LEAK + " " + "";
  }

  lemma {:induction false} ContainsMiddle(x: string, w: string, y: string)
    ensures Contains(x + w + y, w)
  {
    if x == [] {
      assert x + w + y == w + y;
    } else {
      assert (x + w + y)[1..] == x[1..] + w + y;
      ContainsMiddle(x[1..], w, y);
    }
  }

  /** m says the leak and is its own predecessor, so the leak counts as inherited, not as its own fault. */
  lemma LeakIsInherited(nodes: map<Id, Node>, r: Id, m: Id, n: Node, g: Rel, ps: seq<Id>)
    requires r != m && r in nodes && m in nodes && nodes[m] == Leaky(n)
    requires PredsOf(g, m, ps) && forall p :: (p, m) in g <==> p == r || p == m
    ensures Contains(HeardOriginally(nodes, ps), LEAK)
  {
    TwoPredecessors(g, r, m, ps);
    var said, leak := Original(nodes, r), Original(nodes, m);
    assert leak == LEAK + " " + "";
    assert Texts(nodes, [r]) == [said] && Texts(nodes, [m]) == [leak];
    if ps == [r, m] {
      assert Texts(nodes, [r, m]) == [said] + [leak];
      JoinTwo(said, leak);
      assert said + " " + leak == (said + " ") + LEAK + " ";
      ContainsMiddle(said + " ", LEAK, " ");
    } else {
      assert Texts(nodes, [m, r]) == [leak] + [said];
      JoinTwo(leak, said);
      assert leak + " " + said == "" + LEAK + ("  " + said);
      ContainsMiddle("", LEAK, "  " + said);
    }
  }

  lemma JoinTwo(x: string, y: string)
    ensures Join([x] + [y]) == x + " " + y
  {
    assert ([x] + [y])[1..] == [y];
  }

  lemma TwoPredecessors(g: Rel, r: Id, m: Id, ps: seq<Id>)
    requires r != m && PredsOf(g, m, ps) && forall p :: (p, m) in g <==> p == r || p == m
    ensures ps == [r, m] || ps == [m, r]
  {
    assert r in ps && m in ps;
    assert forall i :: 0 <= i < |ps| ==> ps[i] in ps;
    assert |ps| > 2 ==> ps[0] != ps[1] && ps[1] != ps[2] && ps[0] != ps[2];
  }

  /** So the replay takes the leak out of m. */
  lemma LeakRemoved(nodes: map<Id, Node>, r: Id, m: Id, n: Node, g: Rel, past: seq<Id>, notes: map<Id, Note>,
                    preds: map<Id, seq<Id>>)
    requires r != m && r in nodes && m in nodes && nodes[m] == Leaky(n)
    requires NotedAt(nodes, r, Spotter(), m, past, notes, preds)
    requires PredsOf(g, m, preds[m]) && forall p :: (p, m) in g <==> p == r || p == m
    ensures notes[m].corrected == notes[m].output + " " && !Occurs(LEAK, notes[m].output)
  {
    LeakIsInherited(nodes, r, m, n, g, preds[m]);
    var d, upstream := Spotter(), HeardOriginally(nodes, preds[m]);
    assert Intrinsic(d, nodes[m], upstream) == {};
    assert Removed(d, nodes[m], upstream, false) == {LEAK};
    assert Join(notes[m].effects) == "";
  }

  /** In this run of the service, whatever order the predecessors are read in, a replay from r hears the leak at a
      although it has taken it out of m. */
  lemma SelfFeederHeardUncorrected(r: Id, m: Id, a: Id, n: Node, p: Preview, preds: map<Id, seq<Id>>)
    requires r != m && m != a && r != a && Less(a.text, m.text)
    requires var w := Exec(EMPTY, SelfFeeding(r, m, a, n));
             Replayed(w.nodes, w.edges.Keys, r, Spotter(), p, preds)
    ensures FindsEntities(Spotter()) && p.order == [r, a, m]
    ensures m in p.notes && !Occurs(LEAK, p.notes[m].output)
    ensures a in p.notes && p.notes[a].heard == LEAK + " "
    ensures !AllCorrected(Exec(EMPTY, SelfFeeding(r, m, a, n)).nodes, p.notes, preds)
  {
    var w := Exec(EMPTY, SelfFeeding(r, m, a, n));
    SpotterFindsEntities();
    SelfFeedingTables(r, m, a, n);
    SelfFedReplay(w, r, m, a, n, p, preds);
  }

  lemma SelfFedReplay(w: World, r: Id, m: Id, a: Id, n: Node, p: Preview, preds: map<Id, seq<Id>>)
    requires r != m && m != a && r != a && Less(a.text, m.text)
    requires SelfFed(w, r, m, a, n) && Replayed(w.nodes, w.edges.Keys, r, Spotter(), p, preds)
    ensures p.order == [r, a, m]
    ensures m in p.notes && !Occurs(LEAK, p.notes[m].output)
    ensures a in p.notes && p.notes[a].heard == LEAK + " "
    ensures !AllCorrected(w.nodes, p.notes, preds)
  {
    var g := w.edges.Keys;
    SelfFedPass(r, m, a, g, p.order);
    SelfFedEdges(r, m, a, g);
    HeardAtA(w.nodes, g, r, m, a, n, Spotter(), p, preds);
    LeakOutOfM(w.nodes, g, r, m, a, n, p, preds);
    StillHeard(w.nodes, m, a, p.notes, preds);
  }

  lemma SelfFedEdges(r: Id, m: Id, a: Id, g: Rel)
    requires r != m && m != a && r != a && g == {(r, m), (m, m), (m, a)}
    ensures forall p :: (p, a) in g <==> p == m
    ensures forall p :: (p, m) in g <==> p == r || p == m
  {
  }

  lemma HeardAtA(nodes: map<Id, Node>, g: Rel, r: Id, m: Id, a: Id, n: Node, d: Detector, p: Preview,
                 preds: map<Id, seq<Id>>)
    requires r != m && m in nodes && nodes[m] == Leaky(n) && a in nodes && forall q :: (q, a) in g <==> q == m
    requires Replayed(nodes, g, r, d, p, preds) && p.order == [r, a, m]
    ensures a in p.notes && a in preds && preds[a] == [m] && p.notes[a].heard == LEAK + " "
  {
    assert p.order[1] == a && m !in p.order[..1];
    NotedInPlace(nodes, g, r, d, p, preds, 1);
    OnlyPredecessor(g, m, a, preds[a]);
    HeardTooSoon(nodes, r, d, m, a, n, p.order[..1], p.notes, preds);
  }

  lemma LeakOutOfM(nodes: map<Id, Node>, g: Rel, r: Id, m: Id, a: Id, n: Node, p: Preview, preds: map<Id, seq<Id>>)
    requires r != m && r in nodes && m in nodes && nodes[m] == Leaky(n)
    requires forall q :: (q, m) in g <==> q == r || q == m
    requires Replayed(nodes, g, r, Spotter(), p, preds) && p.order == [r, a, m]
    ensures m in p.notes && p.notes[m].corrected == p.notes[m].output + " " && !Occurs(LEAK, p.notes[m].output)
  {
    assert p.order[2] == m;
    NotedInPlace(nodes, g, r, Spotter(), p, preds, 2);
    LeakRemoved(nodes, r, m, n, g, p.order[..2], p.notes, preds);
  }

  lemma NotedInPlace(nodes: map<Id, Node>, g: Rel, root: Id, d: Detector, p: Preview, preds: map<Id, seq<Id>>, i: nat)
    requires Replayed(nodes, g, root, d, p, preds) && i < |p.order| && p.order[i] in nodes
    ensures NotedAt(nodes, root, d, p.order[i], p.order[..i], p.notes, preds)
    ensures PredsOf(g, p.order[i], preds[p.order[i]])
  {
    assert p.order[i] in p.order;
  }

  lemma StillHeard(nodes: map<Id, Node>, m: Id, a: Id, notes: map<Id, Note>, preds: map<Id, seq<Id>>)
    requires a in notes && m in notes && a in preds && preds[a] == [m] && notes[a].heard == LEAK + " "
    requires notes[m].corrected == notes[m].output + " " && !Occurs(LEAK, notes[m].output)
    ensures !AllCorrected(nodes, notes, preds)
  {
    var corrected := Corrected(notes);
    assert Heard(nodes, corrected, [m]) == corrected[m];
    if notes[m].output + " " == LEAK + " " {
      assert notes[m].output == (notes[m].output + " ")[..|notes[m].output|] == LEAK;
      assert OccursAt(LEAK, notes[m].output, 0);
      assert false;
    }
  }
}
