/** Interleaved transactions on the audit log: each locks the head row, appends through it, and commits or rolls
    back, on a database that honours the lock. */
module AuditTxn {
  import opened Base
  import opened Audit

  datatype Entry = Entry(record: Record, entryId: string, reversible: bool)

  datatype Step = Lock(txn: nat) | Append(txn: nat, entry: Entry) | Commit(txn: nat) | Rollback(txn: nat)

  /** The committed rows and head, and the lock holder's uncommitted rows and head. Sequence numbers are handed
      out once and are not returned by a rollback. */
  datatype Db = Db(rows: seq<Row>, head: Head, holder: Option<nat>, staged: seq<Row>, work: Head, nextSeq: nat)

  const EMPTY := Db([], Head(GENESIS, 0), None, [], Head(GENESIS, 0), 1)

  function NewRow(link: Link, seqNo: nat, prev: string, e: Entry): Row {
    Row(seqNo, e.entryId, e.record, e.reversible, prev, link(prev, e.record))
  }

  /** One step; a transaction that asks for a lock it cannot have waits, and the state does not change. */
  function Apply(link: Link, db: Db, s: Step): Db {
    match s
    case Lock(t) =>
      if db.holder.None? then db.(holder := Some(t), staged := [], work := db.head) else db
    case Append(t, e) =>
      if db.holder != Some(t) then db else
      var r := NewRow(link, db.nextSeq, db.work.lastHash, e);
      db.(staged := db.staged + [r], work := Head(r.hash, db.work.lastSeq + 1), nextSeq := db.nextSeq + 1)
    case Commit(t) =>
      if db.holder != Some(t) then db else
      db.(rows := db.rows + db.staged, head := db.work, holder := None, staged := [])
    case Rollback(t) =>
      if db.holder != Some(t) then db else db.(holder := None, staged := [])
  }

  function Run(link: Link, steps: seq<Step>): Db {
    if steps == [] then EMPTY else Apply(link, Run(link, steps[..|steps| - 1]), steps[|steps| - 1])
  }

  /** The same schedule without hashes: who holds the lock, what it has entered, and what has been published. */
  datatype Ledger = Ledger(holder: Option<nat>, entered: seq<Entry>, published: seq<Entry>)

  function Serial(steps: seq<Step>): Ledger {
    if steps == [] then Ledger(None, [], []) else
    var l := Serial(steps[..|steps| - 1]);
    match steps[|steps| - 1]
    case Lock(t) => if l.holder.None? then Ledger(Some(t), [], l.published) else l
    case Append(t, e) => if l.holder == Some(t) then l.(entered := l.entered + [e]) else l
    case Commit(t) => if l.holder == Some(t) then Ledger(None, [], l.published + l.entered) else l
    case Rollback(t) => if l.holder == Some(t) then Ledger(None, [], l.published) else l
  }

  ghost predicate Holds(rows: seq<Row>, entries: seq<Entry>) {
    |rows| == |entries| && forall i :: 0 <= i < |rows| ==> EntryOf(rows[i]) == entries[i]
  }

  function EntryOf(r: Row): Entry {
    Entry(r.record, r.entryId, r.reversible)
  }

  ghost predicate Sound(link: Link, rows: seq<Row>, head: Head, next: nat) {
    && Chained(link, rows) && InSeqOrder(rows)
    && head == Head(LastHash(rows), |rows|)
    && (forall i :: 0 <= i < |rows| ==> rows[i].seqNo < next)
  }

  ghost predicate Inv(link: Link, db: Db, l: Ledger) {
    && Sound(link, db.rows, db.head, db.nextSeq)
    && db.holder == l.holder
    && Holds(db.rows, l.published) && Holds(db.staged, l.entered)
    && (db.holder.Some? ==> Sound(link, db.rows + db.staged, db.work, db.nextSeq))
  }

  lemma SoundGrows(link: Link, rows: seq<Row>, head: Head, next: nat, e: Entry)
    requires Sound(link, rows, head, next)
    ensures var r := NewRow(link, next, head.lastHash, e);
            Sound(link, rows + [r], Head(r.hash, head.lastSeq + 1), next + 1)
  {
    var r := NewRow(link, next, head.lastHash, e);
    ChainGrows(link, rows, r);
  }

  lemma HoldsJoin(a: seq<Row>, x: seq<Entry>, b: seq<Row>, y: seq<Entry>)
    requires Holds(a, x) && Holds(b, y)
    ensures Holds(a + b, x + y)
  {
  }

  lemma {:induction false} RunKeepsInv(link: Link, steps: seq<Step>)
    ensures Inv(link, Run(link, steps), Serial(steps))
  {
    if steps != [] {
      var before, s := steps[..|steps| - 1], steps[|steps| - 1];
      RunKeepsInv(link, before);
      var db, l := Run(link, before), Serial(before);
      if s.Lock? {
        assert db.rows + [] == db.rows;
      } else if db.holder == Some(s.txn) {
        if s.Append? {
          var r := NewRow(link, db.nextSeq, db.work.lastHash, s.entry);
          SoundGrows(link, db.rows + db.staged, db.work, db.nextSeq, s.entry);
          assert db.rows + (db.staged + [r]) == db.rows + db.staged + [r];
          HoldsJoin(db.staged, l.entered, [r], [s.entry]);
        } else if s.Commit? {
          HoldsJoin(db.rows, l.published, db.staged, l.entered);
        }
      }
    }
  }

  /** Whatever the interleaving, the committed log verifies, sequence order is chain order, the head counts the
      committed rows, and the log holds exactly the entries of the committed transactions, one after another. */
  lemma EveryInterleavingVerifies(link: Link, steps: seq<Step>)
    ensures var db := Run(link, steps);
            && Accepted(link, db.rows, Some(db.head)) && InSeqOrder(db.rows)
            && db.head.lastSeq == |db.rows|
            && Holds(db.rows, Serial(steps).published)
  {
    RunKeepsInv(link, steps);
  }

  /** Nothing committed is ever changed or dropped by what other transactions do later. */
  lemma {:induction false} CommittedRowsStay(link: Link, steps: seq<Step>, k: nat)
    requires k <= |steps|
    ensures Run(link, steps[..k]).rows <= Run(link, steps).rows
    decreases |steps| - k
  {
    if k < |steps| {
      CommittedRowsStay(link, steps, k + 1);
      assert steps[..k + 1][..k] == steps[..k];
      assert Run(link, steps[..k]).rows <= Run(link, steps[..k + 1]).rows;
    } else {
      assert steps[..k] == steps;
    }
  }
}
