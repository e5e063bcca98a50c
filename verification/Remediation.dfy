/** The remediation engine and the service around it, updating the tables in place. */
module Remediation {
  import opened Base
  import opened Model
  import opened Store
  import opened Audit
  import opened Lifecycle

  /** The audit rows carry the events of the log, in order. */
  ghost predicate Carries(rows: seq<Row>, log: seq<Event>) {
    |rows| == |log| && forall i :: 0 <= i < |rows| ==> CarriesOne(rows[i], log[i])
  }

  ghost predicate CarriesOne(r: Row, e: Event) {
    && r.record.actor == e.actor && r.record.action == EventName(e.kind) && r.record.target == e.target.text
    && r.record.detail == e.detail && r.reversible == e.reversible
  }

  lemma CarriesGrows(rows: seq<Row>, log: seq<Event>, after: seq<Row>, e: Event)
    requires Carries(rows, log) && |after| == |rows| + 1 && after[..|rows|] == rows && CarriesOne(after[|rows|], e)
    ensures Carries(after, log + [e])
  {
    forall i | 0 <= i < |rows| ensures after[i] == rows[i] {
      assert after[..|rows|][i] == rows[i];
    }
  }

  class RemediationEngine {
    const store: TwinStore
    const audit: AuditLog
    /** Entry ids and timestamps for audit rows, by row number. */
    const stamps: nat -> (string, string)
    var rows: map<Id, ActionRow>
    ghost var log: seq<Event>

    constructor (store: TwinStore, audit: AuditLog, stamps: nat -> (string, string))
      requires audit.Valid() && audit.rows == []
      ensures Valid() && this.store == store && this.audit == audit
      ensures rows == map[] && log == []
    {
      this.store, this.audit, this.stamps := store, audit, stamps;
      rows, log := map[], [];
    }

    ghost predicate Valid()
      reads this, audit
    {
      audit.Valid() && Carries(audit.rows, log)
    }

    ghost function World(): World
      reads this, store
    {
      Lifecycle.World(store.nodes, store.edges, store.checkpoints, rows, log)
    }

    method Log(e: Event)
      requires Valid()
      modifies this`log, audit
      ensures Valid() && log == old(log) + [e]
    {
      var stamp := stamps(|audit.rows|);
      audit.RecordEntry(Record(e.actor, EventName(e.kind), e.target.text, e.detail, stamp.1), e.reversible, stamp.0);
      CarriesGrows(old(audit.rows), log, audit.rows, e);
      log := log + [e];
    }

    method Save(id: Id, a: Action)
      modifies this`rows
      ensures rows == old(rows)[id := ActionRow(a.status, a)]
    {
      rows := rows[id := ActionRow(a.status, a)];
    }

    method Approve(id: Id, who: string) returns (o: Outcome)
      requires Valid()
      modifies this, store, audit
      ensures Valid() && World() == Step(old(World()), OpApprove(id, who))
      ensures o == Lifecycle.Approve(old(World()), id, who).1
    {
      if id !in rows {
        return NotFound;
      }
      var a := rows[id].body;
      if a.status != Proposed {
        return WrongState(a.status);
      }
      a := a.(status := Approved, approvedBy := Some(who));
      Log(ApprovedEvent(a, who));
      a := Apply(a, who);
      Save(id, a);
      o := Done(a);
    }

    /** Carries out an authorised action on its node; a missing node turns it into a rejection. */
    method Apply(a0: Action, who: string) returns (a: Action)
      requires Valid()
      modifies this`log, store, audit
      ensures Valid()
      ensures a0.node !in old(store.nodes) ==>
                a == a0.(status := Rejected) && World() == old(World())
      ensures a0.node in old(store.nodes) ==>
                var (w, b) := Effect(old(World()), a0, old(store.nodes)[a0.node]);
                a == b.(status := Applied) && World() == Logged(w, AppliedEvent(a, who))
    {
      a := a0;
      var found := store.GetNode(a.node);
      if found.None? {
        a := a.(status := Rejected);
        return;
      }
      var node := found.value;
      if a.kind == MessageFilter {
        a := CloseEdge(a);
      } else {
        node, a := ChangeNode(World(), store.checkpoints, a, node);
      }
      store.UpsertNode(a.node, node);
      a := a.(status := Applied);
      Log(AppliedEvent(a, who));
    }

    /** The part of apply that every kind but a filter has: the changed node, and the action with its before- and
        after-state. */
    static method ChangeNode(ghost w: World, checkpoints: map<Id, Checkpoint>, a0: Action, node0: Node)
      returns (node: Node, a: Action)
      requires checkpoints == w.checkpoints && a0.kind != MessageFilter
      ensures Effect(w, a0, node0) == (w.(nodes := w.nodes[a0.node := node]), a)
    {
      a, node := a0, node0;
      match a0.kind {
        case Rollback =>
          a := a.(before := Snapshot(node));
          var ckpt := a.params.checkpoint;
          if Truthy(ckpt) && ckpt.value in checkpoints {
            var ctx := checkpoints[ckpt.value].context;
            node := node.(intent := GetOr(ctx.intent, node.intent), output := GetOr(ctx.output, node.output),
                          task := GetOr(ctx.task, node.task));
          }
          node := node.(status := Contained, score := MinReal(node.score, 0.2));
          a := a.(after := Snapshot(node));
        case Quarantine =>
          a := a.(before := NOTHING.(quarantined := Some(node.quarantined), status := Some(node.status)));
          node := node.(quarantined := true, status := Contained);
          a := a.(after := NOTHING.(quarantined := Some(true), status := Some(node.status)));
        case ContextEdit =>
          a := a.(before := Snapshot(node));
          if a.params.patch.intent.Some? {
            node := node.(intent := a.params.patch.intent.value);
          }
          if a.params.patch.task.Some? {
            node := node.(task := a.params.patch.task.value);
          }
          node := node.(status := Contained);
          a := a.(after := Snapshot(node));
        case Redeploy =>
          a := a.(before := NOTHING.(quarantined := Some(node.quarantined)));
          node := node.(quarantined := false, status := Clean);
          a := a.(after := NOTHING.(quarantined := Some(false)));
      }
    }

    /** The filter's part of apply: zero the edge and calm a drifted child. */
    method CloseEdge(a0: Action) returns (a: Action)
      modifies store
      ensures a == a0.(before := NOTHING.(edgeTo := a0.params.edgeTo, filtered := Some(false)),
                       after := NOTHING.(edgeTo := a0.params.edgeTo, filtered := Some(true)))
      ensures store.checkpoints == old(store.checkpoints)
      ensures Truthy(a0.params.edgeTo) ==>
                && store.edges == Weighted(old(store.edges), a0.node, a0.params.edgeTo.value, 0.0)
                && store.nodes == Calmed(old(store.nodes), a0.params.edgeTo.value)
      ensures !Truthy(a0.params.edgeTo) ==> store.edges == old(store.edges) && store.nodes == old(store.nodes)
    {
      var dst := a0.params.edgeTo;
      a := a0.(before := NOTHING.(edgeTo := dst, filtered := Some(false)));
      if Truthy(dst) {
        var _ := store.SetEdgeWeight(a.node, dst.value, 0.0);
        var child := store.GetNode(dst.value);
        if child.Some? && (child.value.status == Flagged || child.value.status == Watch) {
          store.UpsertNode(dst.value, child.value.(status := Contained, score := MinReal(child.value.score, 0.25)));
        }
      }
      a := a.(after := NOTHING.(edgeTo := dst, filtered := Some(true)));
    }

    method Reject(id: Id, who: string) returns (o: Outcome)
      requires Valid()
      modifies this, audit
      ensures Valid() && World() == Step(old(World()), OpReject(id, who))
      ensures o == Lifecycle.Reject(old(World()), id, who).1
    {
      if id !in rows {
        return NotFound;
      }
      var a := rows[id].body;
      if a.status != Proposed {
        return WrongState(a.status);
      }
      a := a.(status := Rejected, approvedBy := Some(who));
      Log(RejectedEvent(a, who));
      Save(id, a);
      o := Done(a);
    }

    method Revert(id: Id, who: string) returns (o: Outcome)
      requires Valid()
      modifies this, store, audit
      ensures Valid() && World() == Step(old(World()), OpRevert(id, who))
      ensures o == Lifecycle.Revert(old(World()), id, who).1
    {
      if id !in rows {
        return NotFound;
      }
      var a := rows[id].body;
      if a.status != Applied {
        return WrongState(a.status);
      }
      var found := store.GetNode(a.node);
      if found.Some? && a.before != NOTHING {
        UndoAction(a, found.value);
      }
      a := a.(status := Reverted);
      Log(RevertedEvent(a, who));
      Save(id, a);
      o := Done(a);
    }

    /** Puts back what the before-state saved, or opens a filter's edge. */
    method UndoAction(a: Action, node0: Node)
      modifies store
      ensures World() == Undo(old(World()), a, node0)
    {
      var node := node0;
      if a.kind != MessageFilter {
        node := RestoreNode(World(), a, node);
      } else if Truthy(a.before.edgeTo) {
        var _ := store.SetEdgeWeight(a.node, a.before.edgeTo.value, 1.0);
      }
      store.UpsertNode(a.node, node);
    }

    /** The part of revert that every kind but a filter has. */
    static method RestoreNode(ghost w: World, a: Action, node0: Node) returns (node: Node)
      requires a.kind != MessageFilter
      ensures Undo(w, a, node0) == w.(nodes := w.nodes[a.node := node])
    {
      var b := a.before;
      if a.kind == Quarantine {
        node := node0.(quarantined := GetOr(b.quarantined, false), status := GetOr(b.status, Flagged));
      } else {
        node := node0.(intent := GetOr(b.intent, node0.intent), output := GetOr(b.output, node0.output),
                       task := GetOr(b.task, node0.task), quarantined := GetOr(b.quarantined, node0.quarantined),
                       status := GetOr(b.status, node0.status));
      }
    }

    /** Registers the drafts that repeat no live action. The live keys are read once, for the drafts' nodes only,
        and kept up to date by hand; a primary key that already exists fails the whole transaction. */
    method Register(drafts: seq<Draft>) returns (registered: Option<seq<Draft>>)
      requires Valid()
      modifies this, audit
      ensures Valid() && World() == GetOr(Lifecycle.Register(old(World()), drafts), old(World()))
      ensures registered.Some? <==> Lifecycle.Register(old(World()), drafts).Some?
      ensures registered.Some? ==> registered.value == Deduped(LiveKeys(old(rows)), drafts)
    {
      var kept := Dedupe(rows, drafts);
      RegisterIsInsertAll(World(), drafts);
      InsertAllFails(World(), kept);
      var conflict := HasConflict(rows.Keys, kept);
      if conflict {
        return None;
      }
      InsertKept(kept);
      registered := Some(kept);
    }

    static method Dedupe(rows: map<Id, ActionRow>, drafts: seq<Draft>) returns (kept: seq<Draft>)
      ensures kept == Deduped(LiveKeys(rows), drafts)
    {
      var nodes := set d | d in drafts :: d.node;
      var keys := set id | id in rows && Live(rows[id].column) && rows[id].body.node in nodes
                  :: DedupeKey(rows[id].body);
      KeysAgree(rows, drafts, keys, nodes);
      kept := [];
      assert drafts[0..] == drafts;
      for k := 0 to |drafts|
        invariant kept + Deduped(keys, drafts[k..]) == Deduped(LiveKeys(rows), drafts)
      {
        var d := drafts[k];
        assert drafts[k..][0] == d && drafts[k..][1..] == drafts[k + 1..];
        if DedupeKey(Drafted(d)) !in keys {
          kept, keys := kept + [d], keys + {DedupeKey(Drafted(d))};
        }
      }
    }

    method InsertKept(kept: seq<Draft>)
      requires Valid() && InsertAll(World(), kept).Some?
      modifies this, audit
      ensures Valid() && World() == InsertAll(old(World()), kept).value
    {
      assert kept[0..] == kept;
      for k := 0 to |kept|
        invariant Valid() && InsertAll(World(), kept[k..]) == InsertAll(old(World()), kept)
      {
        assert kept[k..][0] == kept[k] && kept[k..][1..] == kept[k + 1..];
        rows := rows[kept[k].id := ActionRow(Proposed, Drafted(kept[k]))];
        Log(ProposedEvent(kept[k]));
      }
    }
  }

  // ---- the two forms of register ----

  function Deduped(keys: set<Key>, drafts: seq<Draft>): seq<Draft>
    decreases |drafts|
  {
    if drafts == [] then []
    else if DedupeKey(Drafted(drafts[0])) in keys then Deduped(keys, drafts[1..])
    else [drafts[0]] + Deduped(keys + {DedupeKey(Drafted(drafts[0]))}, drafts[1..])
  }

  function InsertAll(w: World, kept: seq<Draft>): Option<World>
    decreases |kept|
  {
    if kept == [] then Some(w)
    else if kept[0].id in w.actions then None
    else InsertAll(Insert(w, kept[0]), kept[1..])
  }

  /** Deciding with keys kept by hand is deciding with the keys of the growing table. */
  lemma {:induction false} RegisterIsInsertAll(w: World, drafts: seq<Draft>)
    ensures Lifecycle.Register(w, drafts) == InsertAll(w, Deduped(LiveKeys(w.actions), drafts))
    decreases |drafts|
  {
    if drafts != [] {
      var d := drafts[0];
      if DedupeKey(Drafted(d)) in LiveKeys(w.actions) {
        RegisterIsInsertAll(w, drafts[1..]);
      } else if d.id !in w.actions {
        RegisterIsInsertAll(Insert(w, d), drafts[1..]);
        InsertedKeys(w, d);
      }
    }
  }

  lemma InsertedKeys(w: World, d: Draft)
    requires d.id !in w.actions
    ensures LiveKeys(Insert(w, d).actions) == LiveKeys(w.actions) + {DedupeKey(Drafted(d))}
  {
    var after := Insert(w, d).actions;
    forall k ensures k in LiveKeys(after) <==> k in LiveKeys(w.actions) || k == DedupeKey(Drafted(d)) {
      if k in LiveKeys(w.actions) {
        var id :| id in w.actions && Live(w.actions[id].column) && DedupeKey(w.actions[id].body) == k;
        assert id in after && after[id] == w.actions[id];
      }
      if k == DedupeKey(Drafted(d)) {
        assert d.id in after && Live(after[d.id].column);
      }
    }
  }

  lemma {:induction false} DedupedAgrees(keys: set<Key>, more: set<Key>, drafts: seq<Draft>)
    requires forall d :: d in drafts ==> (DedupeKey(Drafted(d)) in keys <==> DedupeKey(Drafted(d)) in more)
    ensures Deduped(keys, drafts) == Deduped(more, drafts)
    decreases |drafts|
  {
    if drafts != [] {
      var k := DedupeKey(Drafted(drafts[0]));
      assert drafts[0] in drafts;
      DedupedAgrees(if k in keys then keys else keys + {k}, if k in keys then more else more + {k}, drafts[1..]);
    }
  }

  lemma KeysAgree(rows: map<Id, ActionRow>, drafts: seq<Draft>, keys: set<Key>, nodes: set<Id>)
    requires nodes == set d | d in drafts :: d.node
    requires keys == set id | id in rows && Live(rows[id].column) && rows[id].body.node in nodes
                     :: DedupeKey(rows[id].body)
    ensures Deduped(keys, drafts) == Deduped(LiveKeys(rows), drafts)
  {
    forall d | d in drafts
      ensures DedupeKey(Drafted(d)) in keys <==> DedupeKey(Drafted(d)) in LiveKeys(rows)
    {
      if DedupeKey(Drafted(d)) in LiveKeys(rows) {
        var id :| id in rows && Live(rows[id].column) && DedupeKey(rows[id].body) == DedupeKey(Drafted(d));
        assert rows[id].body.node == d.node && d.node in nodes;
      }
    }
    DedupedAgrees(keys, LiveKeys(rows), drafts);
  }

  ghost predicate Conflict(taken: set<Id>, kept: seq<Draft>) {
    (exists i :: 0 <= i < |kept| && kept[i].id in taken)
    || (exists i, j :: 0 <= i < j < |kept| && kept[i].id == kept[j].id)
  }

  method HasConflict(taken: set<Id>, kept: seq<Draft>) returns (conflict: bool)
    ensures conflict <==> Conflict(taken, kept)
  {
    var ids := taken;
    for k := 0 to |kept|
      invariant !Conflict(taken, kept[..k])
      invariant forall x :: x in ids <==> x in taken || exists i :: 0 <= i < k && kept[i].id == x
    {
      if kept[k].id in ids {
        return true;
      }
      ids := ids + {kept[k].id};
    }
    assert kept[..|kept|] == kept;
    conflict := false;
  }

  lemma {:induction false} InsertAllFails(w: World, kept: seq<Draft>)
    ensures InsertAll(w, kept).None? <==> Conflict(w.actions.Keys, kept)
    decreases |kept|
  {
    if kept != [] && kept[0].id !in w.actions {
      InsertAllFails(Insert(w, kept[0]), kept[1..]);
      assert Insert(w, kept[0]).actions.Keys == w.actions.Keys + {kept[0].id};
      ConflictAfter(w.actions.Keys, kept);
    } else if kept != [] {
      assert kept[0].id in w.actions.Keys;
    }
  }

  lemma ConflictAfter(taken: set<Id>, kept: seq<Draft>)
    requires kept != [] && kept[0].id !in taken
    ensures Conflict(taken + {kept[0].id}, kept[1..]) <==> Conflict(taken, kept)
  {
    var rest := kept[1..];
    assert forall i :: 0 <= i < |rest| ==> rest[i] == kept[i + 1];
    if Conflict(taken, kept) {
      if i :| 0 <= i < |kept| && kept[i].id in taken {
        assert rest[i - 1].id in taken + {kept[0].id};
      } else {
        var i, j :| 0 <= i < j < |kept| && kept[i].id == kept[j].id;
        assert rest[j - 1].id == kept[i].id;
        assert i > 0 ==> rest[i - 1].id == rest[j - 1].id;
      }
    }
    if Conflict(taken + {kept[0].id}, rest) {
      if i :| 0 <= i < |rest| && rest[i].id in taken + {kept[0].id} {
        assert kept[i + 1].id in taken || kept[0].id == kept[i + 1].id;
      } else {
        var i, j :| 0 <= i < j < |rest| && rest[i].id == rest[j].id;
        assert kept[i + 1].id == kept[j + 1].id;
      }
    }
  }
}
