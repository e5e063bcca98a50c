/** The hash-chained audit log: appending, verifying, and what tampering cannot do. */
module Audit {
  import opened Base
  import opened Json

  /** The part of an entry that is hashed. The timestamp is its shortest decimal text. */
  datatype Record = Record(actor: string, action: string, target: string, detail: string, ts: string)

  /** A row of the log. Its entry id, reversibility and stored previous hash are not hashed as themselves. */
  datatype Row = Row(seqNo: nat, entryId: string, record: Record, reversible: bool, prevHash: string, hash: string)

  /** The hash of a link, from the hash it builds on and its record. */
  type Link = (string, Record) -> string

  /** The digest function, given as a value: SHA-256 in the service. */
  type Digest = string -> string

  /** The service's link: the digest of the previous hash followed by the JSON body. */
  function LinkOf(h: Digest): Link {
    (prev: string, r: Record) => h(prev + Body(r.actor, r.action, r.target, r.detail, r.ts, prev))
  }

  /** What the theorems need of the digest: it never collides, and its result is hexadecimal text. */
  ghost predicate IsDigest(h: Digest) {
    && (forall s, t :: h(s) == h(t) ==> s == t)
    && (forall s :: forall i :: 0 <= i < |h(s)| ==> IsHexDigit(h(s)[i]))
  }

  datatype Head = Head(lastHash: string, lastSeq: nat)

  datatype Verdict = Verdict(valid: bool, checked: nat, brokenAtSeq: Option<nat>, brokenEntry: Option<string>)

  const GENESIS := "genesis"

  /** The hash that row i must build on. */
  function Before(rows: seq<Row>, i: nat): string
    requires i <= |rows|
  {
    if i == 0 then GENESIS else rows[i - 1].hash
  }

  function LastHash(rows: seq<Row>): string {
    Before(rows, |rows|)
  }

  ghost predicate Linked(link: Link, rows: seq<Row>, i: nat)
    requires i < |rows|
  {
    rows[i].hash == link(Before(rows, i), rows[i].record)
  }

  ghost predicate Chained(link: Link, rows: seq<Row>) {
    forall i :: 0 <= i < |rows| ==> Linked(link, rows, i)
  }

  /** The verifier's answer: the chain holds and the head names its end, except that an empty log is never
      compared with the head. */
  ghost predicate Accepted(link: Link, rows: seq<Row>, head: Option<Head>) {
    Chained(link, rows) && head.Some? && (rows == [] || head.value.lastHash == LastHash(rows))
  }

  /** Rows in ascending order of their sequence numbers. */
  ghost predicate InSeqOrder(rows: seq<Row>) {
    forall i, j :: 0 <= i < j < |rows| ==> rows[i].seqNo < rows[j].seqNo
  }

  lemma ChainGrows(link: Link, rows: seq<Row>, r: Row)
    requires Chained(link, rows) && r.hash == link(LastHash(rows), r.record)
    ensures Chained(link, rows + [r]) && LastHash(rows + [r]) == r.hash
  {
    var all := rows + [r];
    forall i | 0 <= i < |all| ensures Linked(link, all, i) {
      assert Before(all, i) == Before(rows, i);
      if i < |rows| {
        assert Linked(link, rows, i);
      }
    }
  }

  class AuditLog {
    const link: Link
    var rows: seq<Row>
    var head: Head
    var nextSeq: nat

    constructor (link: Link)
      ensures this.link == link && rows == [] && head == Head(GENESIS, 0) && Valid()
    {
      this.link, rows, head, nextSeq := link, [], Head(GENESIS, 0), 1;
    }

    ghost predicate Valid()
      reads this
    {
      && Chained(link, rows) && InSeqOrder(rows)
      && head == Head(LastHash(rows), |rows|)
      && (forall r :: r in rows ==> r.seqNo < nextSeq)
    }

    /** Appends one entry under the head lock and moves the head to it. */
    method RecordEntry(record: Record, reversible: bool, entryId: string)
      requires Valid()
      modifies this
      ensures Valid() && |rows| == |old(rows)| + 1 && rows[..|old(rows)|] == old(rows)
      ensures var r := rows[|old(rows)|];
              && r.record == record && r.reversible == reversible && r.entryId == entryId
              && r.prevHash == old(head).lastHash && r.hash == link(old(head).lastHash, record)
    {
      var prev := head.lastHash;
      var digest := link(prev, record);
      var row := Row(nextSeq, entryId, record, reversible, prev, digest);
      ChainGrows(link, rows, row);
      rows := rows + [row];
      nextSeq := nextSeq + 1;
      head := Head(digest, head.lastSeq + 1);
    }
  }

  lemma PrefixChained(link: Link, rows: seq<Row>, k: nat)
    requires k <= |rows| && forall i :: 0 <= i < k ==> Linked(link, rows, i)
    ensures Chained(link, rows[..k])
  {
    forall i | 0 <= i < k ensures Linked(link, rows[..k], i) {
      assert Linked(link, rows, i) && Before(rows[..k], i) == Before(rows, i);
    }
  }

  /** The verifier walks the rows in sequence order and stops at the first one that does not match. */
  method VerifyChain(link: Link, rows: seq<Row>, head: Option<Head>) returns (v: Verdict)
    ensures v.valid <==> Accepted(link, rows, head)
    ensures v.brokenAtSeq.None? <==> Chained(link, rows)
    ensures v.brokenAtSeq.None? ==> v.checked == |rows| && v.brokenEntry.None?
    ensures v.brokenAtSeq.Some? ==>
              && v.checked < |rows| && Chained(link, rows[..v.checked]) && !Linked(link, rows, v.checked)
              && v.brokenAtSeq == Some(rows[v.checked].seqNo) && v.brokenEntry == Some(rows[v.checked].entryId)
  {
    var prev, checked := WalkChain(link, rows);
    PrefixChained(link, rows, checked);
    if checked < |rows| {
      return Verdict(false, checked, Some(rows[checked].seqNo), Some(rows[checked].entryId));
    }
    assert rows[..checked] == rows;
    var headOk := head.Some? && (checked == 0 || head.value.lastHash == prev);
    v := Verdict(headOk, checked, None, None);
  }

  /** Counts the links that hold before the first that does not. */
  method WalkChain(link: Link, rows: seq<Row>) returns (prev: string, checked: nat)
    ensures checked <= |rows| && prev == Before(rows, checked)
    ensures forall i :: 0 <= i < checked ==> Linked(link, rows, i)
    ensures checked < |rows| ==> !Linked(link, rows, checked)
  {
    prev, checked := GENESIS, 0;
    while checked < |rows|
      invariant checked <= |rows| && prev == Before(rows, checked)
      invariant forall i :: 0 <= i < checked ==> Linked(link, rows, i)
    {
      var row := rows[checked];
      var expected := link(prev, row.record);
      if expected != row.hash {
        return;
      }
      assert Linked(link, rows, checked);
      prev, checked := row.hash, checked + 1;
    }
  }

  // ---- tamper evidence ----

  /** The same record under the same hash. */
  ghost predicate SameEntry(a: Row, b: Row) {
    a.record == b.record && a.hash == b.hash
  }

  ghost predicate SameEntries(a: seq<Row>, b: seq<Row>) {
    |a| == |b| && forall i :: 0 <= i < |a| ==> SameEntry(a[i], b[i])
  }

  /** A link that tells its inputs apart, on hashes of its own making, and never makes the first hash. */
  ghost predicate TamperProof(link: Link) {
    && (forall p, r :: link(p, r) != GENESIS)
    && (forall p, r, q, s :: Linkable(link, p) && Linkable(link, q) && link(p, r) == link(q, s) ==> p == q && r == s)
  }

  ghost predicate Linkable(link: Link, p: string) {
    p == GENESIS || exists q, r :: link(q, r) == p
  }

  lemma BeforeIsLinkable(link: Link, rows: seq<Row>, i: nat)
    requires Chained(link, rows) && i <= |rows|
    ensures Linkable(link, Before(rows, i))
    ensures TamperProof(link) && i > 0 ==> Before(rows, i) != GENESIS
  {
    if i > 0 {
      assert Linked(link, rows, i - 1);
    }
  }

  /** The last hash of a chain determines its length and every record in it. */
  lemma {:induction false} LastHashDecides(link: Link, a: seq<Row>, b: seq<Row>)
    requires TamperProof(link) && Chained(link, a) && Chained(link, b) && LastHash(a) == LastHash(b)
    ensures SameEntries(a, b)
  {
    BeforeIsLinkable(link, a, |a|);
    BeforeIsLinkable(link, b, |b|);
    if a != [] && b != [] {
      var m, n := |a| - 1, |b| - 1;
      assert Linked(link, a, m) && Linked(link, b, n);
      BeforeIsLinkable(link, a, m);
      BeforeIsLinkable(link, b, n);
      PrefixChained(link, a, m);
      PrefixChained(link, b, n);
      assert LastHash(a[..m]) == Before(a, m) && LastHash(b[..n]) == Before(b, n);
      LastHashDecides(link, a[..m], b[..n]);
      SameEntriesSnoc(a, b);
    }
  }

  lemma SameEntriesSnoc(a: seq<Row>, b: seq<Row>)
    requires a != [] && b != [] && SameEntries(a[..|a| - 1], b[..|b| - 1]) && SameEntry(a[|a| - 1], b[|b| - 1])
    ensures SameEntries(a, b)
  {
    forall i | 0 <= i < |a| - 1 ensures SameEntry(a[i], b[i]) {
      assert SameEntry(a[..|a| - 1][i], b[..|b| - 1][i]);
    }
  }

  lemma SameEntriesChain(link: Link, a: seq<Row>, b: seq<Row>)
    requires Chained(link, a) && SameEntries(a, b)
    ensures Chained(link, b) && LastHash(a) == LastHash(b)
  {
    forall i | 0 <= i < |b| ensures Linked(link, b, i) {
      assert Linked(link, a, i) && SameEntry(a[i], b[i]);
      assert i > 0 ==> SameEntry(a[i - 1], b[i - 1]);
    }
    assert a != [] ==> SameEntry(a[|a| - 1], b[|b| - 1]);
  }

  /** Against an unchanged head, the verifier accepts replaced rows exactly when every record and hash is as it
      was, or when nothing is left at all. */
  lemma TamperEvident(h: Digest, rows: seq<Row>, forged: seq<Row>, head: Head)
    requires IsDigest(h) && rows != [] && Accepted(LinkOf(h), rows, Some(head))
    ensures Accepted(LinkOf(h), forged, Some(head)) <==> forged == [] || SameEntries(rows, forged)
  {
    DigestIsTamperProof(h);
    if forged != [] && Accepted(LinkOf(h), forged, Some(head)) {
      LastHashDecides(LinkOf(h), rows, forged);
    }
    if SameEntries(rows, forged) {
      SameEntriesChain(LinkOf(h), rows, forged);
    }
  }

  // ---- why the service's link is tamper-proof ----

  ghost predicate NoBrace(s: string) {
    forall i :: 0 <= i < |s| ==> s[i] != '{'
  }

  lemma BraceBound(p: string, x: string, q: string, y: string)
    requires p + x == q + y && NoBrace(q) && x != [] && x[0] == '{'
    ensures |q| <= |p|
  {
    assert (p + x)[|p|] == '{';
    assert forall k :: 0 <= k < |q| ==> (q + y)[k] == q[k];
  }

  lemma BodyStarts(actor: string, action: string, target: string, detail: string, ts: string, prev: string)
    ensures Body(actor, action, target, detail, ts, prev) != []
    ensures Body(actor, action, target, detail, ts, prev)[0] == '{'
  {
  }

  /** The previous hash holds no brace and the body starts with one, so the hashed text splits in one way; and
      the body is injective. */
  lemma TextDecides(p: string, a: Record, q: string, b: Record)
    requires NoBrace(p) && NoBrace(q)
    requires p + Body(a.actor, a.action, a.target, a.detail, a.ts, p)
             == q + Body(b.actor, b.action, b.target, b.detail, b.ts, q)
    ensures p == q && a == b
  {
    var x := Body(a.actor, a.action, a.target, a.detail, a.ts, p);
    var y := Body(b.actor, b.action, b.target, b.detail, b.ts, q);
    BodyStarts(a.actor, a.action, a.target, a.detail, a.ts, p);
    BodyStarts(b.actor, b.action, b.target, b.detail, b.ts, q);
    BraceBound(p, x, q, y);
    BraceBound(q, y, p, x);
    SameSplit(p, x, q, y);
    BodyInjective(a.actor, a.action, a.target, a.detail, a.ts, p, b.actor, b.action, b.target, b.detail, b.ts, q);
  }

  lemma DigestText(h: Digest, s: string)
    requires IsDigest(h)
    ensures NoBrace(h(s)) && h(s) != GENESIS
  {
    forall k | 0 <= k < |h(s)| ensures h(s)[k] != '{' {
      assert IsHexDigit(h(s)[k]);
    }
    assert !IsHexDigit(GENESIS[0]);
    assert h(s) != [] ==> IsHexDigit(h(s)[0]);
  }

  lemma LinkableText(h: Digest, p: string)
    requires IsDigest(h) && Linkable(LinkOf(h), p)
    ensures NoBrace(p)
  {
    if p != GENESIS {
      var q, r :| LinkOf(h)(q, r) == p;
      DigestText(h, q + Body(r.actor, r.action, r.target, r.detail, r.ts, q));
    }
  }

  lemma LinkIsNotGenesis(h: Digest, p: string, r: Record)
    requires IsDigest(h)
    ensures LinkOf(h)(p, r) != GENESIS
  {
    DigestText(h, p + Body(r.actor, r.action, r.target, r.detail, r.ts, p));
  }

  lemma LinkDecides(h: Digest, p: string, r: Record, q: string, s: Record)
    requires IsDigest(h) && NoBrace(p) && NoBrace(q) && LinkOf(h)(p, r) == LinkOf(h)(q, s)
    ensures p == q && r == s
  {
    TextDecides(p, r, q, s);
  }

  lemma DigestIsTamperProof(h: Digest)
    requires IsDigest(h)
    ensures TamperProof(LinkOf(h))
  {
    var link := LinkOf(h);
    forall p, r ensures link(p, r) != GENESIS {
      LinkIsNotGenesis(h, p, r);
    }
    forall p, r, q, s | Linkable(link, p) && Linkable(link, q) && link(p, r) == link(q, s)
      ensures p == q && r == s
    {
      LinkableText(h, p);
      LinkableText(h, q);
      LinkDecides(h, p, r, q, s);
    }
  }
}
