/** The counterfactual replay: detection re-run over a root's blast radius with corrected texts. */
module Replay {
  import opened Base
  import opened Graph
  import opened Model
  import opened Search
  import opened Store
  import opened Redact

  /** The detector seen from here: the foreign entities of a node, whether it used an undeclared dangerous tool,
      case folding, the blank test, and the assessment of a cleaned node against its upstream text. */
  datatype Detector = Detector(
    foreign: Node -> set<string>,
    dangerous: Node -> bool,
    lower: string -> string,
    blank: string -> bool,
    assess: (Node, string, seq<string>, Option<string>) -> (real, DriftStatus))

  ghost predicate FindsEntities(d: Detector) {
    forall n, e :: e in d.foreign(n) ==> IsEntity(e)
  }

  predicate Contains(t: string, w: string) {
    w <= t || (t != [] && Contains(t[1..], w))
  }

  function Join(parts: seq<string>): string {
    if parts == [] then ""
    else if |parts| == 1 then parts[0]
    else parts[0] + " " + Join(parts[1..])
  }

  function Said(output: string, effects: seq<string>): string {
    output + " " + Join(effects)
  }

  function Original(nodes: map<Id, Node>, p: Id): string {
    if p in nodes then Said(nodes[p].output, nodes[p].effects) else ""
  }

  /** What a node hears: the corrected text of a predecessor that has one, the original of any other. */
  function Heard(nodes: map<Id, Node>, corrected: map<Id, string>, preds: seq<Id>): string {
    Join(seq(|preds|, i requires 0 <= i < |preds| =>
      if preds[i] in corrected then corrected[preds[i]] else Original(nodes, preds[i])))
  }

  function HeardOriginally(nodes: map<Id, Node>, preds: seq<Id>): string {
    Join(Texts(nodes, preds))
  }

  /** The texts of the predecessors that are stored. */
  function Texts(nodes: map<Id, Node>, preds: seq<Id>): seq<string> {
    if preds == [] then []
    else (if preds[0] in nodes then [Original(nodes, preds[0])] else []) + Texts(nodes, preds[1..])
  }

  function Intrinsic(d: Detector, n: Node, upstream: string): set<string> {
    set e | e in d.foreign(n) && !Contains(d.lower(upstream), d.lower(e))
  }

  predicate OwnFault(d: Detector, n: Node, upstream: string, isRoot: bool) {
    d.dangerous(n) || (Intrinsic(d, n, upstream) != {} && !isRoot)
  }

  /** Which entities are taken out of a node: the root loses what it introduced, a node with a fault of its own
      only what it inherited, any other node everything foreign. */
  function Removed(d: Detector, n: Node, upstream: string, isRoot: bool): set<string> {
    if isRoot then Intrinsic(d, n, upstream)
    else if OwnFault(d, n, upstream, isRoot) then d.foreign(n) - Intrinsic(d, n, upstream)
    else d.foreign(n)
  }

  // ---- the order of the pass ----

  function Others(order: seq<Id>, root: Id): seq<Id> {
    if order == [] then []
    else if order[0] == root then Others(order[1..], root)
    else [order[0]] + Others(order[1..], root)
  }

  lemma {:induction false} OthersMembers(order: seq<Id>, root: Id)
    ensures forall n :: n in Others(order, root) <==> n in order && n != root
  {
    if order != [] {
      OthersMembers(order[1..], root);
    }
  }

  lemma {:induction false} OthersDistinct(order: seq<Id>, root: Id)
    requires NoDup(order)
    ensures NoDup(Others(order, root))
  {
    if order != [] {
      assert order == [order[0]] + order[1..];
      NoDupParts([order[0]], order[1..]);
      assert order[0] in [order[0]];
      OthersDistinct(order[1..], root);
      OthersMembers(order[1..], root);
      if order[0] != root {
        NoDupJoin([order[0]], Others(order[1..], root));
      }
    }
  }

  lemma {:induction false} OthersJoin(a: seq<Id>, b: seq<Id>, root: Id)
    ensures Others(a + b, root) == Others(a, root) + Others(b, root)
  {
    if a == [] {
      assert a + b == b;
    } else {
      assert (a + b)[1..] == a[1..] + b;
      OthersJoin(a[1..], b, root);
    }
  }

  /** Dropping the root keeps what precedes what. */
  lemma OthersForward(order: seq<Id>, root: Id, a: Id, q: nat, j: nat)
    requires NoDup(order) && q < |order| && a in order[..q] && a != root
    requires j < |Others(order, root)| && Others(order, root)[j] == order[q]
    ensures a in Others(order, root)[..j]
  {
    var x, y := Others(order[..q], root), Others(order[q..], root);
    assert order == order[..q] + order[q..];
    OthersJoin(order[..q], order[q..], root);
    OthersMembers(order, root);
    OthersMembers(order[..q], root);
    OthersDistinct(order, root);
    assert order[q] in Others(order, root) && order[q..][0] == order[q] && order[q] != root;
    assert y[0] == order[q];
    assert (x + y)[|x|] == order[q];
    assert j == |x|;
    assert (x + y)[..j] == x;
  }

  /** The pass reaches every in-scope predecessor before its node exactly when the scope has no cycle. */
  lemma PassIsForward(g: Rel, root: Id, ids: set<Id>, order: seq<Id>)
    requires ids == Down(g, root) + {root} && TopoOrdered(Induced(g, ids), ids, order)
    ensures var pass := [root] + Others(order, root);
            && NoDup(pass) && SetOf(pass) == ids
            && (ForwardEdges(Induced(g, ids), pass) <==> Acyclic(Induced(g, ids)))
  {
    var h := Induced(g, ids);
    var others := Others(order, root);
    var pass := [root] + others;
    OthersMembers(order, root);
    OthersDistinct(order, root);
    NoDupJoin([root], others);
    assert forall n :: n in order <==> n in SetOf(order);
    AllOrderable(h, ids);
    if ForwardEdges(h, pass) {
      ForwardOffCycles(h, pass);
      assert forall n :: n in ids ==> n in pass;
      assert Orderable(h, ids) == ids;
    }
    if Acyclic(h) {
      NoDupSize(order);
      assert order[..|order|] == order;
      AcyclicPass(g, root, ids, order);
    }
  }

  lemma AcyclicPass(g: Rel, root: Id, ids: set<Id>, order: seq<Id>)
    requires ids == Down(g, root) + {root} && NoDup(order) && SetOf(order) == ids
    requires Acyclic(Induced(g, ids)) && ForwardEdges(Induced(g, ids), order)
    ensures ForwardEdges(Induced(g, ids), [root] + Others(order, root))
  {
    var h, others := Induced(g, ids), Others(order, root);
    var pass := [root] + others;
    OthersMembers(order, root);
    forall a, j | 0 <= j < |pass| && (a, pass[j]) in h ensures a in pass[..j] {
      if j == 0 {
        RootHasNoPredecessor(g, root, ids, a);
      } else {
        assert pass[..j] == [root] + others[..j - 1];
        if a != root {
          assert others[j - 1] in others;
          var q :| 0 <= q < |order| && order[q] == others[j - 1];
          assert (a, order[q]) in h;
          OthersForward(order, root, a, q, j - 1);
        }
      }
    }
  }

  lemma RootHasNoPredecessor(g: Rel, root: Id, ids: set<Id>, a: Id)
    requires ids == Down(g, root) + {root} && Acyclic(Induced(g, ids))
    ensures (a, root) !in Induced(g, ids)
  {
    if (a, root) in Induced(g, ids) {
      EdgeReaches(Induced(g, ids), a, root);
      if a != root {
        ClosuresDual(g, root, a);
        var p :| |p| >= 2 && WalkFromTo(g, p, root, a);
        WalkStaysInScope(g, p, ids);
        assert Reaches(Induced(g, ids), root, a);
        ReachesTrans(Induced(g, ids), root, a, root);
      }
    }
  }

  // ---- the pass ----

  /** What the pass notes about one node. */
  datatype Note = Note(removed: set<string>, output: string, effects: seq<string>, heard: string,
                       corrected: string, score: real, status: DriftStatus)

  datatype Preview = Preview(order: seq<Id>, notes: map<Id, Note>, doNothing: seq<Id>, saved: seq<Id>,
                             stillBad: seq<Id>)

  function Corrected(notes: map<Id, Note>): map<Id, string> {
    map n | n in notes :: notes[n].corrected
  }

  /** A text after the removed entities are masked in it, each once, longest first. */
  ghost predicate Masked(text: string, removed: set<string>, out: string) {
    exists order :: SetOf(order) == removed && NoDup(order) && LongestFirst(order) && NoneEmpty(order)
                    && out == MaskAll(text, order)
  }

  /** And with none of them left in it. */
  ghost predicate Cleaned(text: string, removed: set<string>, out: string) {
    && Masked(text, removed, out) && (forall e :: e in removed ==> !Occurs(e, out))
    && (removed == {} ==> out == text)
  }

  /** A note is right: the removed entities are masked and gone from its output and effects, the text it passes on
      is the cleaned one unless the node has a fault of its own, and the verdict is the detector's. */
  ghost predicate NoteRight(d: Detector, n: Node, upstream: string, isRoot: bool, t: Note) {
    && t.removed == Removed(d, n, upstream, isRoot)
    && Cleaned(n.output, t.removed, t.output) && AllCleaned(n.effects, t.removed, t.effects)
    && t.corrected == (if !isRoot && OwnFault(d, n, upstream, isRoot) then Said(n.output, n.effects)
                       else Said(t.output, t.effects))
    && (t.score, t.status) == d.assess(n, t.output, t.effects, if d.blank(t.heard) then None else Some(t.heard))
  }

  method Predecessors(store: TwinStore, id: Id) returns (ps: seq<Id>)
    ensures NoDup(ps) && forall p :: p in ps <==> (p, id) in store.edges
  {
    ps := [];
    var left := set e | e in store.edges.Keys && e.1 == id :: e.0;
    assert forall p :: (p, id) in store.edges ==> (p, id).0 in left;
    while left != {}
      invariant NoDup(ps) && forall p :: (p, id) in store.edges <==> p in left || p in ps
      invariant forall p :: p in left ==> p !in ps
      decreases left
    {
      var p :| p in left;
      ps, left := ps + [p], left - {p};
    }
  }

  ghost predicate AllCleaned(effects: seq<string>, removed: set<string>, out: seq<string>) {
    |out| == |effects| && forall i :: 0 <= i < |out| ==> Cleaned(effects[i], removed, out[i])
  }

  method CleanEffects(effects: seq<string>, removed: set<string>) returns (out: seq<string>)
    requires forall e :: e in removed ==> IsEntity(e)
    ensures AllCleaned(effects, removed, out)
  {
    out := [];
    for k := 0 to |effects|
      invariant |out| == k && forall i :: 0 <= i < k ==> Cleaned(effects[i], removed, out[i])
    {
      var text := Clean(effects[k], removed);
      out := out + [text];
    }
  }

  method Clean(text: string, removed: set<string>) returns (out: string)
    requires forall e :: e in removed ==> IsEntity(e)
    ensures Cleaned(text, removed, out)
  {
    ghost var order;
    out, order := RedactText(text, removed);
    NothingMasked(text, order, removed);
  }

  lemma NothingMasked(text: string, order: seq<string>, removed: set<string>)
    requires SetOf(order) == removed && NoneEmpty(order)
    ensures removed == {} ==> MaskAll(text, order) == text
  {
    if order != [] {
      assert order[0] in SetOf(order);
    }
  }

  /** One node of the pass. */
  method AssessNode(d: Detector, n: Node, upstream: string, heard: string, isRoot: bool) returns (t: Note)
    requires FindsEntities(d)
    ensures NoteRight(d, n, upstream, isRoot, t) && t.heard == heard
  {
    var ents := d.foreign(n);
    var intrinsic := set e | e in ents && !Contains(d.lower(upstream), d.lower(e));
    var ownFault := d.dangerous(n) || (intrinsic != {} && !isRoot);
    var removed := if isRoot then intrinsic else if ownFault then ents - intrinsic else ents;
    var output := Clean(n.output, removed);
    var effects := CleanEffects(n.effects, removed);
    var corrected := if !isRoot && ownFault then Said(n.output, n.effects) else Said(output, effects);
    var verdict := d.assess(n, output, effects, if d.blank(heard) then None else Some(heard));
    t := Note(removed, output, effects, heard, corrected, verdict.0, verdict.1);
  }

  /** The order of the pass: the root, then the rest of its scope in topological order. */
  ghost predicate PassOrder(g: Rel, root: Id, ids: set<Id>, pass: seq<Id>) {
    exists order :: TopoOrdered(Induced(g, ids), ids, order) && pass == [root] + Others(order, root)
  }

  /** The drifted nodes below the root, split by whether the replay still flags them. */
  ghost predicate SplitRight(nodes: map<Id, Node>, root: Id, scope: seq<Id>, notes: map<Id, Note>,
                             doNothing: seq<Id>, saved: seq<Id>, stillBad: seq<Id>)
    requires forall n :: n in scope && n in nodes ==> n in notes
  {
    && (forall n :: n in doNothing <==>
          n in scope && n != root && n in nodes && (nodes[n].status == Flagged || nodes[n].status == Watch))
    && (forall n :: n in saved <==> n in doNothing && notes[n].status != Flagged)
    && (forall n :: n in stillBad <==> n in doNothing && notes[n].status == Flagged)
    && |saved| + |stillBad| == |doNothing|
  }

  /** A replay is right: its scope is the root and its blast radius, each name once; each stored node of it has one
      note, taken at its place in the pass; and the drifted nodes are split. `preds` lists each node's
      predecessors in the order they were read. */
  ghost predicate Replayed(nodes: map<Id, Node>, g: Rel, root: Id, d: Detector, r: Preview, preds: map<Id, seq<Id>>) {
    var ids := Down(g, root) + {root};
    && PassOrder(g, root, ids, r.order) && NoDup(r.order) && SetOf(r.order) == ids
    && r.notes.Keys == ids * nodes.Keys && preds.Keys == ids && (forall n :: n in preds ==> PredsOf(g, n, preds[n]))
    && NotedBefore(nodes, root, d, r.order, |r.order|, r.notes, preds)
    && (forall n :: n in r.order && n in nodes ==> n in r.notes)
    && SplitRight(nodes, root, r.order, r.notes, r.doNothing, r.saved, r.stillBad)
  }

  lemma ReplayedKeys(nodes: map<Id, Node>, g: Rel, root: Id, d: Detector, r: Preview, preds: map<Id, seq<Id>>)
    requires Replayed(nodes, g, root, d, r, preds)
    ensures r.notes.Keys == (Down(g, root) + {root}) * nodes.Keys
  {
  }

  /** Each noted node heard the corrected text of every predecessor that has a note. */
  ghost predicate AllCorrected(nodes: map<Id, Node>, notes: map<Id, Note>, preds: map<Id, seq<Id>>) {
    forall n :: n in notes ==> n in preds && notes[n].heard == Heard(nodes, Corrected(notes), preds[n])
  }

  /** Re-runs detection over the root and its blast radius. Whatever the scope, each node hears the texts of its
      predecessors corrected so far; without a cycle in the scope that is the corrected text of every one in it. */
  method RunReplay(store: TwinStore, root: Id, d: Detector)
    returns (r: Preview, ghost preds: map<Id, seq<Id>>)
    requires FindsEntities(d) && root in store.nodes
    ensures Replayed(store.nodes, store.edges.Keys, root, d, r, preds)
    ensures Acyclic(Induced(store.edges.Keys, Down(store.edges.Keys, root) + {root})) ==>
              AllCorrected(store.nodes, r.notes, preds)
  {
    var radius := store.BlastRadius(root);
    var order := store.TopoOrder(radius + {root});
    ghost var g := store.edges.Keys;
    assert radius + {root} == Down(g, root) + {root};
    var scope := [root] + Others(order, root);
    PassIsForward(g, root, Down(g, root) + {root}, order);
    var notes;
    notes, preds := Pass(store, root, d, scope);
    PassRight(store.nodes, g, root, d, order, notes, preds);
    var doNothing, saved, stillBad := Split(store, root, scope, notes);
    r := Preview(scope, notes, doNothing, saved, stillBad);
  }

  /** What a finished pass amounts to. */
  lemma PassRight(nodes: map<Id, Node>, g: Rel, root: Id, d: Detector, order: seq<Id>, notes: map<Id, Note>,
                  preds: map<Id, seq<Id>>)
    requires var (ids, scope) := (Down(g, root) + {root}, [root] + Others(order, root));
             && TopoOrdered(Induced(g, ids), ids, order) && NoDup(scope) && SetOf(scope) == ids
             && PassTo(nodes, g, root, d, scope, |scope|, notes, preds)
    ensures var (ids, scope) := (Down(g, root) + {root}, [root] + Others(order, root));
            && PassOrder(g, root, ids, scope) && notes.Keys == ids * nodes.Keys && preds.Keys == ids
            && (forall n :: n in scope && n in nodes ==> n in notes)
            && (Acyclic(Induced(g, ids)) ==> AllCorrected(nodes, notes, preds))
  {
    var ids, scope := Down(g, root) + {root}, [root] + Others(order, root);
    assert scope[..|scope|] == scope;
    forall n | n in scope && n in nodes ensures n in notes {
      assert n in SetOf(scope);
    }
    PassIsForward(g, root, ids, order);
    if Acyclic(Induced(g, ids)) {
      AllHeardCorrected(nodes, root, d, g, ids, scope, notes, preds);
    }
  }

  /** The notes of the first k nodes of a pass, each against the corrections made before it. */
  ghost predicate PassTo(nodes: map<Id, Node>, g: Rel, root: Id, d: Detector, scope: seq<Id>, k: nat,
                         notes: map<Id, Note>, preds: map<Id, seq<Id>>)
    requires k <= |scope|
  {
    && preds.Keys == SetOf(scope[..k]) && notes.Keys == SetOf(scope[..k]) * nodes.Keys
    && (forall n :: n in preds ==> PredsOf(g, n, preds[n]))
    && NotedBefore(nodes, root, d, scope, k, notes, preds)
  }

  /** The note of n, taken after the nodes in `past`. */
  ghost predicate NotedAt(nodes: map<Id, Node>, root: Id, d: Detector, n: Id, past: seq<Id>, notes: map<Id, Note>,
                          preds: map<Id, seq<Id>>) {
    && n in notes && n in nodes && n in preds
    && NoteRight(d, nodes[n], HeardOriginally(nodes, preds[n]), n == root, notes[n])
    && notes[n].heard == Heard(nodes, Corrected(Among(notes, past)), preds[n])
  }

  lemma NotedStays(nodes: map<Id, Node>, root: Id, d: Detector, n: Id, past: seq<Id>, notes0: map<Id, Note>,
                   preds0: map<Id, seq<Id>>, notes: map<Id, Note>, preds: map<Id, seq<Id>>)
    requires NotedAt(nodes, root, d, n, past, notes0, preds0)
    requires n in notes && notes[n] == notes0[n] && n in preds && preds[n] == preds0[n]
    requires Among(notes, past) == Among(notes0, past)
    ensures NotedAt(nodes, root, d, n, past, notes, preds)
  {
  }

  ghost predicate PredsOf(g: Rel, n: Id, ps: seq<Id>) {
    NoDup(ps) && forall p :: p in ps <==> (p, n) in g
  }

  function Among(notes: map<Id, Note>, ids: seq<Id>): map<Id, Note> {
    map n | n in notes && n in ids :: notes[n]
  }

  method Pass(store: TwinStore, root: Id, d: Detector, scope: seq<Id>)
    returns (notes: map<Id, Note>, ghost preds: map<Id, seq<Id>>)
    requires FindsEntities(d) && NoDup(scope)
    ensures PassTo(store.nodes, store.edges.Keys, root, d, scope, |scope|, notes, preds)
  {
    notes, preds := map[], map[];
    for k := 0 to |scope|
      invariant PassTo(store.nodes, store.edges.Keys, root, d, scope, k, notes, preds)
    {
      var nid := scope[k];
      var ps := Predecessors(store, nid);
      NotYetNoted(scope, k, notes, store.nodes);
      ghost var notes0, preds0 := notes, preds;
      preds := preds[nid := ps];
      if nid in store.nodes {
        var heard := Heard(store.nodes, Corrected(notes), ps);
        var t := AssessNode(d, store.nodes[nid], HeardOriginally(store.nodes, ps), heard, nid == root);
        notes := notes[nid := t];
        AmongStays(notes0, notes, nid, scope[..k]);
      }
      PassGrows(store.nodes, store.edges.Keys, root, d, scope, k, notes0, preds0, notes, preds);
    }
  }

  lemma NotYetNoted(scope: seq<Id>, k: nat, notes: map<Id, Note>, nodes: map<Id, Node>)
    requires NoDup(scope) && k < |scope| && notes.Keys == SetOf(scope[..k]) * nodes.Keys
    ensures scope[k] !in notes && scope[k] !in scope[..k] && Among(notes, scope[..k]) == notes
  {
    assert forall n :: n in notes ==> n in SetOf(scope[..k]);
  }

  lemma PassGrows(nodes: map<Id, Node>, g: Rel, root: Id, d: Detector, scope: seq<Id>, k: nat,
                  notes0: map<Id, Note>, preds0: map<Id, seq<Id>>, notes: map<Id, Note>, preds: map<Id, seq<Id>>)
    requires NoDup(scope) && k < |scope| && PassTo(nodes, g, root, d, scope, k, notes0, preds0)
    requires scope[k] in preds && preds == preds0[scope[k] := preds[scope[k]]]
    requires PredsOf(g, scope[k], preds[scope[k]])
    requires scope[k] !in nodes ==> notes == notes0
    requires scope[k] in nodes ==>
               && scope[k] in notes && notes == notes0[scope[k] := notes[scope[k]]]
               && NotedAt(nodes, root, d, scope[k], scope[..k], notes, preds)
    ensures PassTo(nodes, g, root, d, scope, k + 1, notes, preds)
  {
    KeysGrow(scope, k, nodes.Keys, notes0.Keys, notes.Keys, preds0.Keys, preds.Keys);
    EarlierNotesStay(nodes, root, d, scope, k, notes0, preds0, notes, preds);
    NotedBeforeNext(nodes, root, d, scope, k, notes, preds);
    PredsGrow(g, scope[k], preds0, preds);
  }

  lemma PredsGrow(g: Rel, n: Id, preds0: map<Id, seq<Id>>, preds: map<Id, seq<Id>>)
    requires forall m :: m in preds0 ==> PredsOf(g, m, preds0[m])
    requires n in preds && preds == preds0[n := preds[n]] && PredsOf(g, n, preds[n])
    ensures forall m :: m in preds ==> PredsOf(g, m, preds[m])
  {
  }

  lemma NotedBeforeNext(nodes: map<Id, Node>, root: Id, d: Detector, scope: seq<Id>, k: nat,
                        notes: map<Id, Note>, preds: map<Id, seq<Id>>)
    requires k < |scope| && NotedBefore(nodes, root, d, scope, k, notes, preds)
    requires scope[k] in notes ==> NotedAt(nodes, root, d, scope[k], scope[..k], notes, preds)
    ensures NotedBefore(nodes, root, d, scope, k + 1, notes, preds)
  {
  }

  ghost predicate NotedBefore(nodes: map<Id, Node>, root: Id, d: Detector, scope: seq<Id>, k: nat,
                              notes: map<Id, Note>, preds: map<Id, seq<Id>>)
    requires k <= |scope|
  {
    forall i :: 0 <= i < k && scope[i] in notes ==> NotedAt(nodes, root, d, scope[i], scope[..i], notes, preds)
  }

  lemma EarlierNotesStay(nodes: map<Id, Node>, root: Id, d: Detector, scope: seq<Id>, k: nat,
                         notes0: map<Id, Note>, preds0: map<Id, seq<Id>>, notes: map<Id, Note>,
                         preds: map<Id, seq<Id>>)
    requires NoDup(scope) && k < |scope| && NotedBefore(nodes, root, d, scope, k, notes0, preds0)
    requires notes == notes0 || (scope[k] in notes && notes == notes0[scope[k] := notes[scope[k]]])
    requires scope[k] in preds && preds == preds0[scope[k] := preds[scope[k]]]
    ensures NotedBefore(nodes, root, d, scope, k, notes, preds)
  {
    forall i | 0 <= i < k && scope[i] in notes
      ensures NotedAt(nodes, root, d, scope[i], scope[..i], notes, preds)
    {
      assert scope[i] != scope[k] && scope[i] in notes0;
      assert scope[k] !in scope[..i];
      AmongStays(notes0, notes, scope[k], scope[..i]);
      NotedStays(nodes, root, d, scope[i], scope[..i], notes0, preds0, notes, preds);
    }
  }

  lemma KeysGrow(scope: seq<Id>, k: nat, stored: set<Id>, notes0: set<Id>, notes: set<Id>, preds0: set<Id>,
                 preds: set<Id>)
    requires k < |scope| && notes0 == SetOf(scope[..k]) * stored && preds0 == SetOf(scope[..k])
    requires notes == if scope[k] in stored then notes0 + {scope[k]} else notes0
    requires preds == preds0 + {scope[k]}
    ensures notes == SetOf(scope[..k + 1]) * stored && preds == SetOf(scope[..k + 1])
  {
    TakeNext(scope, k);
    assert SetOf(scope[..k + 1]) == SetOf(scope[..k]) + {scope[k]};
  }

  lemma AmongStays(notes0: map<Id, Note>, notes: map<Id, Note>, n: Id, past: seq<Id>)
    requires n !in past && (notes == notes0 || (n in notes && notes == notes0[n := notes[n]]))
    ensures Among(notes, past) == Among(notes0, past)
  {
  }

  /** In a forward order a node hears what it would hear from the finished notes. */
  lemma AllHeardCorrected(nodes: map<Id, Node>, root: Id, d: Detector, g: Rel, ids: set<Id>, scope: seq<Id>,
                          notes: map<Id, Note>, preds: map<Id, seq<Id>>)
    requires NoDup(scope) && SetOf(scope) == ids && ForwardEdges(Induced(g, ids), scope)
    requires notes.Keys == ids * nodes.Keys && preds.Keys == ids
    requires forall n :: n in preds ==> PredsOf(g, n, preds[n])
    requires NotedBefore(nodes, root, d, scope, |scope|, notes, preds)
    ensures AllCorrected(nodes, notes, preds)
  {
    forall n | n in notes ensures notes[n].heard == Heard(nodes, Corrected(notes), preds[n]) {
      assert n in SetOf(scope);
      var i :| 0 <= i < |scope| && scope[i] == n;
      assert NotedAt(nodes, root, d, scope[i], scope[..i], notes, preds);
      var early := Corrected(Among(notes, scope[..i]));
      forall p | p in preds[n] ensures p in early <==> p in Corrected(notes) {
        assert (p, n) in g;
        if p in ids {
          assert (p, scope[i]) in Induced(g, ids);
        }
      }
      SameHeard(nodes, early, Corrected(notes), preds[n]);
    }
  }

  lemma SameHeard(nodes: map<Id, Node>, a: map<Id, string>, b: map<Id, string>, ps: seq<Id>)
    requires forall p :: p in ps ==> (p in a <==> p in b) && (p in a ==> a[p] == b[p])
    ensures Heard(nodes, a, ps) == Heard(nodes, b, ps)
  {
    assert seq(|ps|, i requires 0 <= i < |ps| => if ps[i] in a then a[ps[i]] else Original(nodes, ps[i]))
        == seq(|ps|, i requires 0 <= i < |ps| => if ps[i] in b then b[ps[i]] else Original(nodes, ps[i]));
  }

  /** The drifted nodes downstream, and which of them the replay no longer flags. */
  method Split(store: TwinStore, root: Id, scope: seq<Id>, notes: map<Id, Note>)
    returns (doNothing: seq<Id>, saved: seq<Id>, stillBad: seq<Id>)
    requires forall n :: n in scope && n in store.nodes ==> n in notes
    ensures SplitRight(store.nodes, root, scope, notes, doNothing, saved, stillBad)
  {
    doNothing, saved, stillBad := [], [], [];
    for k := 0 to |scope|
      invariant forall n :: n in doNothing <==>
                  n in scope[..k] && n != root && n in store.nodes
                  && (store.nodes[n].status == Flagged || store.nodes[n].status == Watch)
      invariant forall n :: n in saved <==> n in doNothing && notes[n].status != Flagged
      invariant forall n :: n in stillBad <==> n in doNothing && notes[n].status == Flagged
      invariant |saved| + |stillBad| == |doNothing|
    {
      var n := scope[k];
      TakeNext(scope, k);
      if n != root && n in store.nodes && (store.nodes[n].status == Flagged || store.nodes[n].status == Watch) {
        doNothing := doNothing + [n];
        if notes[n].status != Flagged {
          saved := saved + [n];
        } else {
          stillBad := stillBad + [n];
        }
      }
    }
    assert scope[..|scope|] == scope;
  }
}
