/** What the replay's answer means: what is taken out of each node, what a node hears, and who is saved. */
module Verdicts {
  import opened Base
  import opened Graph
  import opened Model
  import opened Redact
  import opened Replay

  // ---- what is taken out ----

  /** A foreign entity of the node that its upstream text names too, case aside. */
  predicate Inherited(d: Detector, n: Node, upstream: string, e: string) {
    e in d.foreign(n) && Contains(d.lower(upstream), d.lower(e))
  }

  predicate Introduced(d: Detector, n: Node, upstream: string, e: string) {
    e in d.foreign(n) && !Contains(d.lower(upstream), d.lower(e))
  }

  /** The detector's verdict on the node saying this, against what it hears. */
  function Verdict(d: Detector, n: Node, output: string, effects: seq<string>, heard: string): (real, DriftStatus) {
    d.assess(n, output, effects, if d.blank(heard) then None else Some(heard))
  }

  /** Judged on its own output and effects, not a character changed. */
  predicate JudgedAsIs(d: Detector, n: Node, t: Note) {
    && t.output == n.output && t.effects == n.effects
    && (t.score, t.status) == Verdict(d, n, n.output, n.effects, t.heard)
  }

  /** The root loses exactly what it introduced, and passes on the rest. */
  lemma RootLosesItsOwn(d: Detector, n: Node, upstream: string, t: Note)
    requires NoteRight(d, n, upstream, true, t)
    ensures forall e :: e in t.removed <==> Introduced(d, n, upstream, e)
    ensures t.corrected == t.output + " " + Join(t.effects)
  {
  }

  /** A node that did wrong of itself loses exactly what it inherited, and passes on what it said. */
  lemma FaultStays(d: Detector, n: Node, upstream: string, t: Note)
    requires NoteRight(d, n, upstream, false, t)
    requires d.dangerous(n) || exists e :: Introduced(d, n, upstream, e)
    ensures forall e :: e in t.removed <==> Inherited(d, n, upstream, e)
    ensures t.corrected == n.output + " " + Join(n.effects)
  {
    if !d.dangerous(n) {
      var e :| Introduced(d, n, upstream, e);
      assert e in Intrinsic(d, n, upstream);
    }
    assert OwnFault(d, n, upstream, false);
    assert t.removed == d.foreign(n) - Intrinsic(d, n, upstream);
  }

  lemma NothingRemoved(d: Detector, n: Node, upstream: string, isRoot: bool, t: Note)
    requires NoteRight(d, n, upstream, isRoot, t) && forall e :: e !in t.removed
    ensures JudgedAsIs(d, n, t)
  {
    assert t.removed == {};
    forall i | 0 <= i < |t.effects| ensures t.effects[i] == n.effects[i] {
      assert Cleaned(n.effects[i], t.removed, t.effects[i]);
    }
  }

  /** So if it inherited nothing it is judged as it is. */
  lemma FaultIsJudgedAsIs(d: Detector, n: Node, upstream: string, t: Note)
    requires NoteRight(d, n, upstream, false, t)
    requires d.dangerous(n) || exists e :: Introduced(d, n, upstream, e)
    requires forall e :: !Inherited(d, n, upstream, e)
    ensures JudgedAsIs(d, n, t)
  {
    FaultStays(d, n, upstream, t);
    NothingRemoved(d, n, upstream, false, t);
  }

  /** Any other node loses everything foreign, all of it inherited, and passes on the rest. */
  lemma InnocentIsCleaned(d: Detector, n: Node, upstream: string, t: Note)
    requires NoteRight(d, n, upstream, false, t)
    requires !d.dangerous(n) && forall e :: !Introduced(d, n, upstream, e)
    ensures t.removed == d.foreign(n) && forall e :: e in t.removed <==> Inherited(d, n, upstream, e)
    ensures t.corrected == t.output + " " + Join(t.effects)
  {
    assert forall e :: e in Intrinsic(d, n, upstream) ==> Introduced(d, n, upstream, e);
    assert Intrinsic(d, n, upstream) == {};
    forall e ensures e in t.removed <==> Inherited(d, n, upstream, e) {
      assert !Introduced(d, n, upstream, e);
    }
  }

  /** Below the root nothing is removed but what a node inherited, whatever its fault. */
  lemma OnlyInheritedGoes(d: Detector, n: Node, upstream: string, t: Note)
    requires NoteRight(d, n, upstream, false, t)
    ensures forall e :: e in t.removed <==> Inherited(d, n, upstream, e)
  {
    if d.dangerous(n) || exists e :: Introduced(d, n, upstream, e) {
      FaultStays(d, n, upstream, t);
    } else {
      InnocentIsCleaned(d, n, upstream, t);
    }
  }

  // ---- what is heard ----

  lemma {:induction false} JoinSplits(a: seq<string>, b: seq<string>)
    requires a != [] && b != []
    ensures Join(a + b) == Join(a) + " " + Join(b)
  {
    var s := a + b;
    assert s[0] == a[0] && s[1..] == a[1..] + b;
    if |a| == 1 {
      assert s[1..] == b;
    } else {
      JoinSplits(a[1..], b);
      JoinRightward(a[0], Join(a[1..]), Join(b));
    }
  }

  lemma JoinRightward(x: string, y: string, z: string)
    ensures x + " " + (y + " " + z) == x + " " + y + " " + z
  {
  }

  /** Substring search finds exactly the occurrences. */
  lemma {:induction false} ContainsExactly(t: string, w: string)
    ensures Contains(t, w) <==> Occurs(w, t)
  {
    if w <= t {
      assert OccursAt(w, t, 0);
    } else if t != [] {
      ContainsExactly(t[1..], w);
      if Occurs(w, t[1..]) {
        OccursLater(w, t, 1);
      }
      if i: nat :| OccursAt(w, t, i) {
        assert i > 0 && t[1..][i - 1..i - 1 + |w|] == t[i..i + |w|];
        assert OccursAt(w, t[1..], i - 1);
      }
    }
  }

  lemma {:induction false} TextsAre(nodes: map<Id, Node>, preds: seq<Id>)
    requires forall p :: p in preds ==> p in nodes
    ensures |Texts(nodes, preds)| == |preds|
    ensures forall i :: 0 <= i < |preds| ==>
              Texts(nodes, preds)[i] == nodes[preds[i]].output + " " + Join(nodes[preds[i]].effects)
  {
    if preds != [] {
      TextsAre(nodes, preds[1..]);
    }
  }

  /** When every predecessor is stored and none is corrected, a node hears what it heard originally. */
  lemma UncorrectedIsOriginal(nodes: map<Id, Node>, corrected: map<Id, string>, preds: seq<Id>)
    requires forall p :: p in preds ==> p in nodes && p !in corrected
    ensures Heard(nodes, corrected, preds) == HeardOriginally(nodes, preds)
  {
    TextsAre(nodes, preds);
    assert seq(|preds|, i requires 0 <= i < |preds| =>
             if preds[i] in corrected then corrected[preds[i]] else Original(nodes, preds[i]))
        == Texts(nodes, preds);
  }

  /** A node hears each predecessor's words, the corrected ones where there are any. */
  lemma WordsAreHeard(nodes: map<Id, Node>, corrected: map<Id, string>, preds: seq<Id>, i: nat)
    requires i < |preds| && preds[i] in nodes
    ensures var p := preds[i];
            Occurs(if p in corrected then corrected[p] else nodes[p].output + " " + Join(nodes[p].effects),
                   Heard(nodes, corrected, preds))
  {
    var parts := seq(|preds|, i requires 0 <= i < |preds| =>
      if preds[i] in corrected then corrected[preds[i]] else Original(nodes, preds[i]));
    PartOccurs(parts, i);
  }

  lemma {:induction false} PartOccurs(parts: seq<string>, i: nat)
    requires i < |parts|
    ensures Occurs(parts[i], Join(parts))
  {
    if |parts| == 1 {
      assert OccursAt(parts[0], Join(parts), 0);
    } else if i == 0 {
      assert Join(parts)[0..|parts[0]|] == parts[0];
      assert OccursAt(parts[0], Join(parts), 0);
    } else {
      PartOccurs(parts[1..], i - 1);
      var lead := parts[0] + " ";
      assert Join(parts)[|lead|..] == Join(parts[1..]);
      OccursLater(parts[i], Join(parts), |lead|);
    }
  }

  // ---- who is saved ----

  /** A drifted node below the root, as the preview finds it. */
  ghost predicate DriftedBelow(nodes: map<Id, Node>, g: Rel, root: Id, n: Id) {
    n in nodes && n != root && Reaches(g, root, n) && (nodes[n].status == Flagged || nodes[n].status == Watch)
  }

  lemma NotedBelow(nodes: map<Id, Node>, g: Rel, root: Id, d: Detector, r: Preview, preds: map<Id, seq<Id>>, n: Id)
    requires Replayed(nodes, g, root, d, r, preds) && n in nodes && n != root && Reaches(g, root, n)
    ensures n in r.order && n in r.notes && n in preds && PredsOf(g, n, preds[n])
    ensures NoteRight(d, nodes[n], HeardOriginally(nodes, preds[n]), false, r.notes[n])
  {
    ClosuresDual(g, root, n);
    assert n in SetOf(r.order);
    var i :| 0 <= i < |r.order| && r.order[i] == n;
    assert NotedAt(nodes, root, d, r.order[i], r.order[..i], r.notes, preds);
  }

  /** The drifted nodes below the root are exactly the saved ones and those still bad, by the detector's verdict on
      the text from which just what they inherited is masked, against what they hear. */
  lemma SavedExactly(nodes: map<Id, Node>, g: Rel, root: Id, d: Detector, r: Preview, preds: map<Id, seq<Id>>, n: Id)
    requires Replayed(nodes, g, root, d, r, preds) && n in nodes && n != root && Reaches(g, root, n)
    ensures n in r.notes && n in preds
    ensures var (t, upstream) := (r.notes[n], HeardOriginally(nodes, preds[n]));
            && (n in r.doNothing <==> DriftedBelow(nodes, g, root, n))
            && (n in r.saved <==> DriftedBelow(nodes, g, root, n)
                                  && Verdict(d, nodes[n], t.output, t.effects, t.heard).1 != Flagged)
            && (n in r.stillBad <==> DriftedBelow(nodes, g, root, n)
                                     && Verdict(d, nodes[n], t.output, t.effects, t.heard).1 == Flagged)
            && (forall e :: e in t.removed <==> Inherited(d, nodes[n], upstream, e))
            && Masked(nodes[n].output, t.removed, t.output)
  {
    NotedBelow(nodes, g, root, d, r, preds, n);
    OnlyInheritedGoes(d, nodes[n], HeardOriginally(nodes, preds[n]), r.notes[n]);
  }

  /** A drifted node that inherited nothing, and whose own text is flagged against what it hears, is never
      counted as saved. */
  lemma OwnFaultStaysBad(nodes: map<Id, Node>, g: Rel, root: Id, d: Detector, r: Preview, preds: map<Id, seq<Id>>,
                         n: Id)
    requires Replayed(nodes, g, root, d, r, preds) && DriftedBelow(nodes, g, root, n) && n in r.notes && n in preds
    requires forall e :: !Inherited(d, nodes[n], HeardOriginally(nodes, preds[n]), e)
    requires Verdict(d, nodes[n], nodes[n].output, nodes[n].effects, r.notes[n].heard).1 == Flagged
    ensures n in r.stillBad && n !in r.saved
  {
    SavedExactly(nodes, g, root, d, r, preds, n);
    NotedBelow(nodes, g, root, d, r, preds, n);
    NothingRemoved(d, nodes[n], HeardOriginally(nodes, preds[n]), false, r.notes[n]);
  }

  /** A root that introduced nothing is judged as it is: no entity that its upstream names is taken from it. */
  lemma RootKeepsInherited(nodes: map<Id, Node>, g: Rel, root: Id, d: Detector, r: Preview, preds: map<Id, seq<Id>>)
    requires Replayed(nodes, g, root, d, r, preds) && root in nodes
    ensures root in r.notes && root in preds
    ensures var (t, upstream) := (r.notes[root], HeardOriginally(nodes, preds[root]));
            && (forall e :: e in t.removed <==> Introduced(d, nodes[root], upstream, e))
            && ((forall e :: !Introduced(d, nodes[root], upstream, e)) ==> JudgedAsIs(d, nodes[root], t))
  {
    assert root in SetOf(r.order);
    var i :| 0 <= i < |r.order| && r.order[i] == root;
    assert NotedAt(nodes, root, d, r.order[i], r.order[..i], r.notes, preds);
    var t, upstream := r.notes[root], HeardOriginally(nodes, preds[root]);
    RootLosesItsOwn(d, nodes[root], upstream, t);
    if forall e :: !Introduced(d, nodes[root], upstream, e) {
      NothingRemoved(d, nodes[root], upstream, true, t);
    }
  }
}
