/** The service: every public operation in place, with the run it amounts to kept as a ghost trace. What holds in
    every run therefore holds in every state the service can reach. */
module Engine {
  import opened Base
  import opened Graph
  import opened Model
  import opened Store
  import opened Audit
  import opened Lifecycle
  import opened Runs
  import opened Weights
  import opened Attribution
  import opened Remediation
  import opened Replay
  import Accounts
  import Checkpoints
  import Effects

  ghost predicate NoRetention(ops: seq<Op>) {
    forall i :: 0 <= i < |ops| ==> !ops[i].OpRetain?
  }

  lemma TraceGrows(ops: seq<Op>, op: Op)
    requires NoRetention(ops) ==> GroundedRun(ops)
    requires op.OpRegister? ==> DraftsGrounded(Exec(EMPTY, ops), op.drafts)
    ensures Exec(EMPTY, ops + [op]) == Step(Exec(EMPTY, ops), op)
    ensures NoRetention(ops + [op]) ==> GroundedRun(ops + [op])
  {
    var all := ops + [op];
    assert all[..|all| - 1] == ops && all[|all| - 1] == op;
    if NoRetention(all) {
      assert forall i :: 0 <= i < |ops| ==> ops[i] == all[i];
    }
  }

  ghost function Scope(g: Rel, root: Id): set<Id> {
    Down(g, root) + {root}
  }

  /** Every node of a scope is stored, and only self-loops can be cycles in it. */
  lemma ScopeIsStored(w: World, root: Id)
    requires GraphInv(w) && root in w.nodes
    ensures var (g, ids) := (w.edges.Keys, Scope(w.edges.Keys, root));
            ids <= w.nodes.Keys && (Acyclic(Induced(g, ids)) <==> forall n :: n in ids ==> (n, n) !in g)
  {
    var g, ids := w.edges.Keys, Scope(w.edges.Keys, root);
    FewerEdgesKeepNearAcyclic(Induced(g, ids), g);
    OnlySelfLoops(Induced(g, ids));
  }

  /** So a replay over it notes all of it, and corrects all that is heard when no node of it feeds itself. */
  lemma ScopeReplayed(w: World, root: Id, d: Detector, r: Preview, preds: map<Id, seq<Id>>)
    requires GraphInv(w) && root in w.nodes && Replayed(w.nodes, w.edges.Keys, root, d, r, preds)
    requires Acyclic(Induced(w.edges.Keys, Scope(w.edges.Keys, root))) ==> AllCorrected(w.nodes, r.notes, preds)
    ensures r.notes.Keys == Scope(w.edges.Keys, root)
    ensures (forall n :: n in r.notes ==> (n, n) !in w.edges) ==> AllCorrected(w.nodes, r.notes, preds)
  {
    ScopeIsStored(w, root);
    ReplayedKeys(w.nodes, w.edges.Keys, root, d, r, preds);
  }

  /** One round of proposals: the root they are about, and the drafts. */
  datatype Round = Round(root: Id, drafts: seq<Draft>)

  ghost predicate Proposes(w: World, r: Round, who: string) {
    r.root in w.nodes
    && exists hops :: Proposal(w.nodes, w.edges.Keys, w.checkpoints, r.root, who, hops, r.drafts)
  }

  predicate LiveRollback(actions: map<Id, ActionRow>, root: Id) {
    (root, Kind.Rollback, None) in LiveKeys(actions)
  }

  /** A registered round leaves its root with a live rollback, this one or one it had. */
  lemma RoundLeavesRollback(w: World, r: Round, who: string)
    requires Proposes(w, r, who)
    ensures Register(w, r.drafts).Some? ==> LiveRollback(Register(w, r.drafts).value.actions, r.root)
  {
    var hops :| Proposal(w.nodes, w.edges.Keys, w.checkpoints, r.root, who, hops, r.drafts);
    assert DedupeKey(Drafted(r.drafts[0])) == (r.root, Kind.Rollback, None);
    if Register(w, r.drafts).Some? {
      RegisteredAreLive(w, r.drafts);
    }
  }

  /** The round answers the drift of a node: it is about the root cause, and unless an id clashed the root has a
      live rollback after it. */
  ghost predicate Answers(w: World, id: Id, watch: real, r: Round, after: World) {
    && Proposes(w, r, "system") && RootCause(w.nodes, w.edges.Keys, id, watch, r.root)
    && (Register(w, r.drafts).Some? ==> LiveRollback(after.actions, r.root))
  }

  lemma RootOfFlagged(w: World, id: Id, watch: real, root: Id)
    requires GraphInv(w) && id in w.nodes && w.nodes[id].status == Flagged
    requires RootCause(w.nodes, w.edges.Keys, id, watch, root)
    ensures IsOrigin(w.nodes, w.edges.Keys, id, watch, root)
  {
    OriginExists(w.nodes, w.edges.Keys, id, watch);
    assert id in Suspects(w.nodes, w.edges.Keys, id, watch);
  }

  function Cutoff(now: real, days: int): real {
    now - days as real * 86400.0
  }

  /** At most so many days of 24 hours old. */
  predicate WithinDays(now: real, days: int, ts: real) {
    (now - ts) / 3600.0 <= 24.0 * days as real
  }

  /** The row that retention leaves in the audit log. */
  predicate PrunedRow(r: Row, who: string, detail: string) {
    (r.record.action, r.record.actor, r.record.target, r.record.detail) == ("retention.pruned", who, "twin", detail)
  }

  lemma LastRowTells(rows: seq<Row>, log: seq<Event>, who: string, detail: string)
    requires Carries(rows, log) && log != [] && log[|log| - 1] == Event(who, RetentionPruned, Id("twin"), detail, true)
    ensures PrunedRow(rows[|log| - 1], who, detail)
  {
    assert CarriesOne(rows[|log| - 1], log[|log| - 1]);
  }

  lemma RetainedByAge(nodes: map<Id, Node>, now: real, days: int)
    ensures forall n :: n in nodes - Aged(nodes, Cutoff(now, days)) <==>
              n in nodes && WithinDays(now, days, nodes[n].ts)
  {
  }

  lemma RetainStep(w: World, v: World, cutoff: real, who: string, detail: string)
    requires v.nodes == w.nodes - Aged(w.nodes, cutoff) && v.edges == Without(w.edges, Aged(w.nodes, cutoff))
    requires v.checkpoints == Kept(w.checkpoints, Aged(w.nodes, cutoff)) && v.actions == w.actions
    requires v.log == w.log + [Event(who, RetentionPruned, Id("twin"), detail, true)]
    ensures v == Step(w, OpRetain(cutoff, who, detail))
  {
  }

  class Engine {
    const store: TwinStore
    const audit: AuditLog
    const remediation: RemediationEngine
    const watch: real
    /** Names for new actions: the k-th of the n-th proposal round. */
    const newId: (nat, nat) -> Id
    ghost var trace: seq<Op>

    constructor (h: Digest, watch: real, stamps: nat -> (string, string), newId: (nat, nat) -> Id)
      ensures Valid() && trace == []
      ensures fresh(store) && fresh(audit) && fresh(remediation)
    {
      var s := new TwinStore();
      var a := new AuditLog(LinkOf(h));
      var r := new RemediationEngine(s, a, stamps);
      store, audit, remediation := s, a, r;
      this.watch, this.newId := watch, newId;
      trace := [];
    }

    ghost predicate Valid()
      reads this, store, audit, remediation
    {
      && remediation.store == store && remediation.audit == audit
      && remediation.Valid()
      && remediation.World() == Exec(EMPTY, trace)
      && (NoRetention(trace) ==> GroundedRun(trace))
    }

    /** Every state of the service keeps what every run keeps. */
    lemma ReachableInvariants()
      requires Valid()
      ensures var w := remediation.World();
              && GraphInv(w) && ActionInv(w.actions) && Balanced(w) && ZeroExplained(w)
              && (NoRetention(trace) ==> WeightsMatch(w))
              && Checkpoints.CheckpointInv(w) && Effects.KeysSaved(w.actions)
    {
      EveryRunKeepsGraph(trace);
      EveryRunKeepsActions(trace);
      EveryRunBalances(trace);
      EveryRunExplainsZeros(trace);
      if NoRetention(trace) {
        EveryGroundedRunMatchesWeights(trace);
      }
      Checkpoints.EveryRunKeepsCheckpoints(trace);
      Effects.EveryRunSavesKeys(trace);
    }

    /** In every state of the service the rows of the audit log balance with the action table, and stand for what
        each action's record claims. */
    lemma AuditTellsActions()
      requires Valid()
      ensures Accounts.RowsBalance(audit.rows, remediation.rows)
      ensures forall i :: i in remediation.rows ==> Accounts.OnRecord(audit.rows, remediation.rows[i].body)
    {
      var w := remediation.World();
      EveryRunBalances(trace);
      Accounts.EveryRunAccounts(trace);
      Accounts.BalancedRows(audit.rows, w);
      forall i | i in remediation.rows ensures Accounts.OnRecord(audit.rows, remediation.rows[i].body) {
        Accounts.AccountedOnRecord(audit.rows, w.log, w.actions[i].body);
      }
    }

    /** Stores a span: its checkpoint, its node, then an edge from each input that is stored by now. */
    method Commit(x: Arrival)
      requires Valid() && x.id !in store.nodes
      modifies store
      ensures remediation.World() == Lifecycle.Commit(old(remediation.World()), x)
    {
      ghost var present := store.nodes.Keys + {x.id};
      store.SaveCheckpoint(CheckpointOf(x.id), Checkpoint(x.id, x.node.agent, FullContext(x.node), x.savedAt));
      store.UpsertNode(x.id, x.node);
      assert store.nodes.Keys == present;
      Connect(x.inputs, x.id);
    }

    /** An edge from each input that is stored by now. */
    method Connect(inputs: seq<Id>, id: Id)
      modifies store`edges
      ensures store.edges == old(store.edges) + Influences(inputs, id, store.nodes.Keys)
    {
      var existing := set n | n in inputs && n in store.nodes;
      ghost var e0, present := store.edges, store.nodes.Keys;
      for k := 0 to |inputs|
        invariant store.nodes.Keys == present
        invariant store.edges == e0 + Influences(inputs[..k], id, present)
      {
        InfluencesNext(inputs, k, id, present);
        if inputs[k] in existing {
          PlusUpdate(e0, Influences(inputs[..k], id, present), (inputs[k], id), 1.0);
          store.AddEdge(inputs[k], id);
        }
      }
      assert inputs[..|inputs|] == inputs;
    }

    static lemma PlusUpdate(m: map<Edge, real>, n: map<Edge, real>, e: Edge, weight: real)
      ensures m + n[e := weight] == (m + n)[e := weight]
    {
    }

    static lemma InfluencesNext(inputs: seq<Id>, k: nat, id: Id, present: set<Id>)
      requires k < |inputs|
      ensures Influences(inputs[..k + 1], id, present) ==
              if inputs[k] in present then Influences(inputs[..k], id, present)[(inputs[k], id) := 1.0]
              else Influences(inputs[..k], id, present)
    {
      TakeNext(inputs, k);
      assert forall s :: s in inputs[..k + 1] <==> s in inputs[..k] || s == inputs[k];
    }

    /** A stored span changes nothing. A new one is committed and logged; exactly when it is flagged, a round of
        proposals follows, at an origin of its drift. */
    method Ingest(x: Arrival) returns (node: Node, ghost round: Option<Round>)
      requires Valid()
      modifies this`trace, store, audit, remediation
      ensures Valid()
      ensures node == if x.id in old(store.nodes) then old(store.nodes)[x.id] else x.node
      ensures round.Some? <==> x.id !in old(store.nodes) && x.node.status == Flagged
      ensures round.None? ==> trace == old(trace) + [OpIngest(x)]
      ensures round.Some? ==> trace == old(trace) + [OpIngest(x)] + [OpRegister(round.value.drafts)]
      ensures round.Some? ==>
                var w := Lifecycle.Ingest(old(remediation.World()), x);
                && Answers(w, x.id, watch, round.value, remediation.World())
                && IsOrigin(w.nodes, w.edges.Keys, x.id, watch, round.value.root)
    {
      round := None;
      TraceGrows(trace, OpIngest(x));
      if x.id in store.nodes {
        node := store.nodes[x.id];
        trace := trace + [OpIngest(x)];
        return;
      }
      node := x.node;
      Commit(x);
      LogArrival(x);
      trace := trace + [OpIngest(x)];
      if node.status == Flagged {
        EveryRunKeepsGraph(trace);
        ghost var w := remediation.World();
        ghost var r := AutoPropose(x.id);
        RootOfFlagged(w, x.id, watch, r.root);
        round := Some(r);
      }
    }

    method LogArrival(x: Arrival)
      requires remediation.audit == audit && remediation.Valid()
      modifies audit, remediation`log
      ensures remediation.Valid()
      ensures remediation.log == ArrivalLogged(old(remediation.log), x)
    {
      LogIf(x.anomaly, Event("system", EscalationAnomaly, x.id, x.anomalyText, true));
      LogIf(x.node.blocked, Event("inline-rail", ActionBlocked, x.id, x.blockedText, true));
      LogIf(Judged(x.tier), Event("system", Escalation, x.id, x.tierText, true));
      LogIf(x.node.status == Flagged || x.node.status == Watch,
            Event("system", Detection, x.id, x.driftText, true));
    }

    method LogIf(holds: bool, e: Event)
      requires remediation.audit == audit && remediation.Valid()
      modifies audit, remediation`log
      ensures remediation.Valid() && remediation.log == old(remediation.log) + If(holds, e)
    {
      if holds {
        remediation.Log(e);
      }
    }

    /** Proposes remediations at the root cause of a stored node. */
    method AutoPropose(id: Id) returns (ghost r: Round)
      requires Valid()
      modifies this`trace, audit, remediation
      ensures Valid()
      ensures id !in store.nodes ==> trace == old(trace)
      ensures id in store.nodes ==>
                && trace == old(trace) + [OpRegister(r.drafts)]
                && Answers(old(remediation.World()), id, watch, r, remediation.World())
    {
      var root := FindRootCause(store, id, watch);
      r := Round(root, []);
      if root in store.nodes {
        var _, drafts := Propose(root, "system");
        r := Round(root, drafts);
      }
    }

    /** An operator's proposal, or the automatic one. */
    method Propose(root: Id, who: string) returns (registered: Option<seq<Draft>>, ghost drafts: seq<Draft>)
      requires Valid() && root in store.nodes
      modifies this`trace, audit, remediation
      ensures Valid() && trace == old(trace) + [OpRegister(drafts)]
      ensures Proposes(old(remediation.World()), Round(root, drafts), who)
      ensures registered.Some? <==> Register(old(remediation.World()), drafts).Some?
      ensures registered.Some? ==> LiveRollback(remediation.World().actions, root)
    {
      ghost var w := remediation.World();
      var ds, hops := ProposeRemediation(store, root, who, Namer(|audit.rows|));
      drafts := ds;
      ProposalGrounded(w, root, who, hops, ds);
      RoundLeavesRollback(w, Round(root, ds), who);
      registered := remediation.Register(ds);
      TraceGrows(trace, OpRegister(ds));
      trace := trace + [OpRegister(ds)];
    }

    function Namer(round: nat): nat -> Id {
      (k: nat) => newId(round, k)
    }

    method Approve(id: Id, who: string) returns (o: Outcome)
      requires Valid()
      modifies this`trace, store, audit, remediation
      ensures Valid() && trace == old(trace) + [OpApprove(id, who)]
      ensures o == Lifecycle.Approve(old(remediation.World()), id, who).1
    {
      TraceGrows(trace, OpApprove(id, who));
      o := remediation.Approve(id, who);
      trace := trace + [OpApprove(id, who)];
    }

    method Reject(id: Id, who: string) returns (o: Outcome)
      requires Valid()
      modifies this`trace, audit, remediation
      ensures Valid() && trace == old(trace) + [OpReject(id, who)]
      ensures o == Lifecycle.Reject(old(remediation.World()), id, who).1
    {
      TraceGrows(trace, OpReject(id, who));
      o := remediation.Reject(id, who);
      trace := trace + [OpReject(id, who)];
    }

    method Revert(id: Id, who: string) returns (o: Outcome)
      requires Valid()
      modifies this`trace, store, audit, remediation
      ensures Valid() && trace == old(trace) + [OpRevert(id, who)]
      ensures o == Lifecycle.Revert(old(remediation.World()), id, who).1
    {
      TraceGrows(trace, OpRevert(id, who));
      o := remediation.Revert(id, who);
      trace := trace + [OpRevert(id, who)];
    }

    /** Prunes what is older than the given days and logs a report of the counts; `report` words it. */
    method RunRetention(now: real, days: int, who: string, report: (nat, nat, nat) -> string)
      returns (nodes: nat, edges: nat, checkpoints: nat)
      requires Valid()
      modifies this`trace, store, audit, remediation
      ensures Valid()
      ensures trace == old(trace) + [OpRetain(Cutoff(now, days), who, report(nodes, edges, checkpoints))]
      ensures nodes == |old(store.nodes)| - |store.nodes| && edges == |old(store.edges)| - |store.edges|
      ensures checkpoints == |old(store.checkpoints)| - |store.checkpoints|
      ensures forall n :: n in store.nodes <==> n in old(store.nodes) && WithinDays(now, days, old(store.nodes)[n].ts)
      ensures checkpoints == nodes
      ensures |audit.rows| == |old(audit.rows)| + 1
      ensures PrunedRow(audit.rows[|old(audit.rows)|], who, report(nodes, edges, checkpoints))
    {
      var cutoff := Cutoff(now, days);
      ghost var w := remediation.World();
      nodes, edges, checkpoints := store.PruneOlderThan(cutoff);
      var detail := report(nodes, edges, checkpoints);
      LogPruned(who, detail);
      ghost var op := OpRetain(cutoff, who, detail);
      RetainedByAge(w.nodes, now, days);
      RetainStep(w, remediation.World(), cutoff, who, detail);
      TraceGrows(trace, op);
      AsManyDropped(w, op);
      trace := trace + [op];
    }

    method LogPruned(who: string, detail: string)
      requires remediation.audit == audit && remediation.Valid()
      modifies audit, remediation`log
      ensures remediation.Valid()
      ensures remediation.log == old(remediation.log) + [Event(who, RetentionPruned, Id("twin"), detail, true)]
      ensures |audit.rows| == |old(audit.rows)| + 1 && PrunedRow(audit.rows[|old(audit.rows)|], who, detail)
    {
      remediation.Log(Event(who, RetentionPruned, Id("twin"), detail, true));
      LastRowTells(audit.rows, remediation.log, who, detail);
    }

    lemma AsManyDropped(w: World, op: Op)
      requires w == Exec(EMPTY, trace)
      ensures |w.checkpoints| == |w.nodes| && |Step(w, op).checkpoints| == |Step(w, op).nodes|
    {
      Checkpoints.EveryRunKeepsCheckpoints(trace);
      Checkpoints.AsManyAsNodes(w);
      ExecNext(EMPTY, trace, op);
      Checkpoints.EveryRunKeepsCheckpoints(trace + [op]);
      Checkpoints.AsManyAsNodes(Step(w, op));
    }

    /** In any state the service can reach, the narrative of a drifted target names an origin, with a shortest
        path from it. */
    method Narrative(target: Id) returns (root: Id, path: seq<Id>, blast: set<Id>)
      requires Valid() && target in store.nodes
      ensures path != [] && WalkFromTo(store.edges.Keys, path, root, target) && NoDup(path)
      ensures Suspects(store.nodes, store.edges.Keys, target, watch) != {} ==>
                && IsOrigin(store.nodes, store.edges.Keys, target, watch, root)
                && forall x :: x in store.nodes && Reaches(store.edges.Keys, x, root) && x != root ==>
                     Calm(store.nodes[x], watch)
    {
      ReachableInvariants();
      root, path, blast := Narrate(store, target, watch);
      OriginExists(store.nodes, store.edges.Keys, target, watch);
    }

    /** In any state the service can reach, a replay notes every node of its scope; and unless a node of the scope
        feeds itself, each node is judged against the corrected texts of all its predecessors in the scope. */
    method WhatIf(root: Id, d: Detector) returns (r: Preview, ghost preds: map<Id, seq<Id>>)
      requires Valid() && root in store.nodes && FindsEntities(d)
      ensures Replayed(store.nodes, store.edges.Keys, root, d, r, preds)
      ensures r.notes.Keys == Scope(store.edges.Keys, root)
      ensures (forall n :: n in r.notes ==> (n, n) !in store.edges) ==> AllCorrected(store.nodes, r.notes, preds)
    {
      EveryRunKeepsGraph(trace);
      r, preds := RunReplay(store, root, d);
      ScopeReplayed(remediation.World(), root, d, r, preds);
    }

    /** In any state the service can reach, the audit log verifies. */
    method VerifyAudit() returns (v: Verdict)
      requires Valid()
      ensures v.valid && v.checked == |audit.rows|
    {
      v := VerifyChain(audit.link, audit.rows, Some(audit.head));
    }
  }
}
