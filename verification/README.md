# A verified model of the drift-containment twin

This project models, in Dafny 4.11, the state that the agent-drift twin keeps and the algorithms that run over it,
and proves what they promise. `dafny verify dfyconfig.toml` checks everything.

The tables become maps and sequences held by classes; every committed transaction is one step. Names are strings,
compared and ordered as Python does; the empty name is false, as in the source. Text is `seq<char>`, and a Dafny
`char` is a Unicode scalar value. Scores, distances, weights and clock readings are reals. Clocks, fresh ids, the
embedding distances, the text tests behind the detector's rules and the digest function are parameters.

| file | what it models |
|---|---|
| `Base.dfy`, `Model.dfy`, `Graph.dfy` | names, records, walks and cycles in the influence graph |
| `Store.dfy`, `Search.dfy` | the twin store in place: closures, breadth-first search, Kahn's ordering, retention |
| `Attribution.dfy` | root cause, narrative path, proposed remediations |
| `Redact.dfy`, `Replay.dfy`, `Verdicts.dfy` | entity removal, the counterfactual replay, and what its answer means |
| `Lifecycle.dfy` | one state of all tables as a value, and what each operation makes of it |
| `Remediation.dfy`, `Engine.dfy` | the remediation engine and the service, updating tables in place, each proved equal to `Lifecycle` |
| `Runs.dfy`, `Weights.dfy`, `Isolation.dfy`, `Checkpoints.dfy`, `Accounts.dfy` | what every run keeps |
| `Effects.dfy` | what an approved action leaves, kind by kind, and what its revert puts back |
| `Undo.dfy`, `RevertOrder.dfy` | which sequences of approvals and reverts restore the nodes |
| `Counterexamples.dfy` | runs in which a promise that needs a condition fails |
| `Json.dfy`, `Audit.dfy`, `AuditTxn.dfy` | hashed text, hash chain, interleaved transactions |
| `SignalsCache.dfy`, `Escalation.dfy`, `RateLimiter.dfy` | the bounded and windowed structures, against their whole history |
| `Detection.dfy`, `Metrics.dfy`, `Calibration.dfy` | flagging arithmetic and threshold calibration |

`Engine.Engine` carries a ghost trace: its state is always `Exec(EMPTY, trace)`, so what `Runs`, `Weights`,
`Checkpoints`, `Effects` and `Accounts` prove of every run holds in every state the service can reach
(`ReachableInvariants`, `AuditTellsActions`).

Some promises hold only under a condition, which is stated and proved exact:

- A topological pass corrects every in-scope predecessor exactly when the scope has no cycle, self-loops included
  (`Replay.PassIsForward`). Runs of the service create no cycle through two nodes, but a span that lists itself as an
  input gets a self-loop, and Kahn's ordering then leaves it and its descendants to the sorted remainder; a node
  that sorts before its predecessor there is judged on the uncorrected text
  (`Counterexamples.SelfFeederHeardUncorrected`).
- Edge weights agree with the applied filters until a span is ingested over whose incoming edge a filter is already
  applied; that edge is created open (`Weights.StepClosesExactly`). It takes retention followed by re-ingest
  (`Counterexamples.ReingestReopens`), or a filter registered for an edge that does not exist. A filter whose target
  is the empty name closes nothing.
- Approve followed by revert restores the tables for every rollback, quarantine and context edit; for a redeploy and
  a message filter exactly under the guard `Undo.RevertsCleanly` (`Undo.RoundTripExact`).
- The request limiter reads its clock before it takes its lock, so a reading may be late. With a limit of one, no
  closed minute ever holds two admissions of a key, whatever the clock does. With a higher limit n and readings up to
  a lag late, no closed interval of a given width holds more than n if and only if the width is at most 60 seconds
  less the lag (`RateLimiter.LimitIsExact`); at lag 0 that is any closed minute.
- A stored node is quarantined while a quarantine is applied to it, until a step lifts it: the revert of an action that
  had found the node unquarantined, a redeploy, or the re-ingest of a pruned name (`Isolation.StepIsolatesExactly`).
  The service's own rollback and quarantine of one node do this when the rollback is reverted first
  (`Counterexamples.RevertLifts`).
- Rollbacks, quarantines and context edits reverted out of nesting order restore a node exactly when the one reverted
  last was approved on its original status and flag, and the context-saving one reverted last on its original context
  (`RevertOrder.RestoredExactly`). If all approvals come first and the node was not contained, the first part says
  that the action approved first on it is reverted last (`RevertOrder.RestoredInOrder`).
- A span is flagged exactly when it fires under exactly the policies of `Detection.Calibrated`. The bound on the hard
  flag severity must be positive: at 0 or below, the test on the default severity 0 escalates a span without flags.
- The verifier of the audit log reports every change but one: it accepts a log emptied altogether.
- A per-workflow calibration report has an entry for each workflow exactly unless there is both an unnamed one and one
  literally called `(default)` (`Calibration.EntriesLostExactly`); the unnamed one's entry is then lost
  (`Calibration.UnnamedLost`).

Where documentation and code differ the code is followed: the README of the service speaks of the "earliest drifted
ancestor", the search returns one without drifted ancestors and consults timestamps only when there is none.

## Model

| member | source | states |
|---|---|---|
| Store.TwinStore.SetEdgeWeight | twin/store.py:216-222 | an existing edge takes the weight, a missing one is not created, and the answer says which |
| Store.TwinStore.EdgesForNodes | twin/store.py:224-233 | each edge with both ends among the names, once, in an unspecified order |
| Store.TwinStore.Closure | twin/store.py:20-40 | the recursive query's working table computes exactly the nodes reached by one or more edges |
| Store.TwinStore.BlastRadius | twin/store.py:245-248 | everything the node reaches, itself excluded |
| Store.TwinStore.Upstream | twin/store.py:250-253 | everything that reaches the node, itself excluded |
| Graph.ClosuresDual | twin/store.py:20-40 | the two closures are dual: b is downstream of a exactly when a is upstream of b, exactly when a walk leads from a to b |
| Store.TwinStore.PropagationPath | twin/store.py:255-279 | empty exactly when the target is another node the root does not reach; otherwise a walk of edges from root to target without repetition, and no walk is shorter |
| Store.TwinStore.ShortestPath | twin/store.py:262-279 | the search over the adjacency dictionary finds a shortest walk whenever the scope holds one |
| Search.FrontierBound | twin/store.py:263-273 | along any walk from the root, each position is seen within its distance or the queue's front is at least as near |
| Search.WalkStaysInScope | twin/store.py:258-261 | restricting the search to the blast radius and the two ends loses no walk from the root |
| Store.TwinStore.WalkBack | twin/store.py:276-279 | the backward walk over parents ends at the root and gives a walk of the target's distance |
| Store.TwinStore.TopoOrder | twin/store.py:281-300 | each name once; first exactly the names off every cycle and not below one, each after all its predecessors; then the rest in string order |
| Store.TwinStore.Kahn | twin/store.py:289-297 | the queue stops only when every name left over still has a pending edge |
| Search.KahnComplete | twin/store.py:289-299 | what Kahn's loop finishes is exactly the set of names that neither lie on a cycle nor descend from one |
| Search.AllOrderable | twin/store.py:298-300 | the remainder is empty exactly when the induced graph has no cycle, self-loops included |
| Store.TwinStore.PruneOlderThan | twin/store.py:401-424 | exactly the nodes older than the cutoff go, with every edge they touch and their checkpoints, and the rest stays as it is; the reported counts are the rows removed over all chunks |
| Checkpoints.RetainedExactly | twin/store.py:401-424 | in a reachable state retention keeps exactly the nodes at or after the cutoff, the edges between two of them and their checkpoints, unchanged |
| Checkpoints.EveryRunKeepsCheckpoints | twin/router.py:154-198 | in every run each checkpoint belongs to a stored node, with its agent and a whole context, and each stored node has its own |
| Checkpoints.AsManyAsNodes | twin/store.py:414-423 | so there are as many checkpoints as nodes |
| Attribution.FindRootCause | twin/attribution.py:19-35 | the target itself if it is missing or nothing above is drifted; else a drifted candidate with no drifted ancestor if one exists, else the oldest drifted candidate |
| Attribution.OriginExists | twin/attribution.py:24-35 | without cycles through two nodes such a candidate exists exactly when any is drifted, it reaches the target, and no drifted node of the whole store is above it |
| Attribution.CycleHasNoOrigin | twin/attribution.py:30-35 | when two drifted candidates reach each other and one of them reaches every other candidate, none qualifies, so the timestamp fallback is reached |
| Attribution.Narrate | twin/attribution.py:82-85 | the path is always a shortest real walk from root to target, so the single-node fallback is never taken |
| Attribution.LatestGoodCheckpoint | twin/store.py:322-330 | none exactly when the agent has no checkpoint up to the time, else one with the latest time |
| Attribution.ProposeRemediation | twin/attribution.py:38-67 | exactly one rollback to the latest good checkpoint, then one filter for each hand-off of the root and no other, then one quarantine exactly for a privileged root or one with two or more downstream nodes; nothing else |
| Attribution.ProposalKinds | twin/attribution.py:38-67 | a rollback first and once, filters towards exactly the direct successors, and a quarantine exactly for a privileged root or one that reaches two different other nodes |
| Remediation.RemediationEngine.Register | twin/remediation.py:41-68 | the loop with keys kept by hand inserts what deciding against the growing table inserts; a clash of primary keys leaves everything unchanged |
| Remediation.RegisterIsInsertAll | twin/remediation.py:54-66 | filtering drafts by a set of keys read once and extended by hand is the same as testing each against the live actions at its turn |
| Remediation.InsertAllFails | twin/remediation.py:60-67 | registration fails exactly when an accepted id repeats or already exists |
| Accounts.RegisteredExactly | twin/remediation.py:41-68 | without a clash of ids, exactly the drafts that repeat no waiting, authorised or applied action of their node, kind and edge, and no earlier draft, become waiting rows, with their own content; no other row changes |
| Remediation.RemediationEngine.Approve | twin/remediation.py:113-131 | the engine's tables move as the specified approval does, with the answers for a missing action and a wrong state |
| Remediation.RemediationEngine.Apply | twin/remediation.py:152-217 | each kind of action has its specified effect on its node, edge and saved states, and a missing node turns it into a rejection |
| Checkpoints.RollbackRestores | twin/remediation.py:159-168 | after an approved rollback to a stored checkpoint the node has the intent, output and task that it holds, contained, at a score of at most 0.2 |
| Checkpoints.RollbackReturnsSpan | twin/remediation.py:159-168 | after any run that follows a span's ingest, short of retention that takes it, a rollback to its checkpoint gives it the intent, output and task it came with |
| Checkpoints.ProposedRollbackRestores | twin/attribution.py:43-50 | the rollback proposed at a root, registered and approved, gives it the context of its agent's newest checkpoint from a microsecond or more before; without one it leaves the context |
| Effects.EditSets | twin/remediation.py:193-201 | a context edit sets just the keys its patch names and contains the node |
| Effects.QuarantineSets | twin/remediation.py:170-207 | a quarantine flags and contains its node, a redeploy unflags and clears it, and nothing else changes |
| Effects.FilterSets | twin/remediation.py:180-191 | a filter closes just its edge and calms just its target, if that is drifted and not its own node |
| Effects.BothStatesSaved | twin/remediation.py:159-207 | an applied action records its node as it was before and as it is after, under the keys of its kind |
| Effects.SavedIsPutBack | twin/remediation.py:227-246 | a revert puts back what its action saved, and nothing else |
| Effects.EveryRunSavesKeys | twin/remediation.py:159-207 | in every run applied actions have all keys of their kind, so no revert uses a default |
| Remediation.RemediationEngine.CloseEdge | twin/remediation.py:180-191 | a filter zeroes its edge and calms a flagged or watched child, and does neither for an empty target |
| Remediation.RemediationEngine.Reject | twin/remediation.py:133-150 | the tables move as the specified rejection does |
| Remediation.RemediationEngine.Revert | twin/remediation.py:219-255 | the tables move as the specified revert does, with the source's defaults for missing saved keys |
| Undo.WellNestedRestores | twin/remediation.py:159-246 | any well-nested sequence of approvals and reverts, of any kinds and length, leaves every node as it was but for a score that may have dropped, and edges and checkpoints untouched, if each approval reverts cleanly from the state it meets |
| Undo.SavingKindsRestore | twin/remediation.py:159-246 | for rollbacks, quarantines and context edits no such condition is needed: any well-nested sequence of them restores every node |
| Undo.RoundTripExact | twin/remediation.py:152-246 | for every kind of action, approve then revert restores the tables if and only if a guard on the state before holds |
| RevertOrder.RestoredExactly | twin/remediation.py:159-246 | for rollbacks, quarantines and context edits approved and reverted in any order, a node is restored if and only if the action reverted last was approved on its original status and quarantine flag, and the context-saving action reverted last on its original context |
| RevertOrder.RestoredInOrder | twin/remediation.py:159-246 | when all approvals come first, a node that was not contained is restored if and only if the action approved first is reverted last, under the same condition on the context |
| RevertOrder.RunFollows | twin/remediation.py:113-255 | every run of approvals and reverts is such a sequence: its states are those of the run, the last one included |
| Runs.EveryRunKeepsGraph | twin/router.py:189-197 | in every run, with retention and re-ingest, edges join stored nodes and no cycle runs through two nodes |
| Runs.IngestLinks | twin/router.py:189-197 | a new span comes with open edges from exactly those inputs that are stored, itself included |
| Graph.NewSinkKeepsNearAcyclic | twin/router.py:192-197 | edges that only enter a node absent from the graph close no cycle other than its self-loop |
| Runs.StepMoves | twin/remediation.py:92-150 | every step moves each action at most one stage along its lifecycle, never changes whom it is about, and deletes none |
| Runs.EveryRunKeepsActions | twin/remediation.py:38-68 | in every run at most one live action per node, kind and edge, none left approved, and status columns equal to the statuses in the bodies |
| Runs.FinalRowsStay | twin/remediation.py:92-106 | a rejected or reverted action is never changed by the rest of a run |
| Runs.RegisteredAreLive | twin/remediation.py:54-66 | after a registration without a clash of ids, each draft's node, kind and edge have a live action, new or old |
| Runs.EveryRunBalances | twin/remediation.py:61-66 | in every run the audit log's proposed, approved and rejected, applied and quarantine, and reverted entries equal the action table's totals by status |
| Accounts.BalancedRows | twin/remediation.py:61-66 | so do the rows of the audit log, counted by their action names |
| Accounts.EveryRunAccounts | twin/remediation.py:113-252 | in every run what an action's record claims is on the log: that its proposer proposed it, its approver approved and applied or rejected it, and that someone reverted it |
| Engine.Engine.AuditTellsActions | twin/remediation.py:61-252 | in every reachable state the audit rows balance with the action table and stand for each action's record, by the names of actions, actors and nodes |
| Accounts.ArrivalTold | twin/engine.py:83-100 | a new span adds one row, all about it, for each of: a rate anomaly, a blocked action, an asked judge, drift |
| Weights.EveryRunExplainsZeros | twin/remediation.py:180-191 | in every run weights are 0 or 1 and only an applied filter of a named target explains a 0 |
| Weights.StepClosesExactly | twin/router.py:192-197 | a step breaks the agreement between weights and applied filters if and only if it ingests a new span over whose incoming edge a filter is applied |
| Weights.WeightsMatchUntilReopened | twin/remediation.py:180-237 | after any run the weights match the applied filters exactly when no step has reopened a filtered edge |
| Weights.EveryGroundedRunMatchesWeights | twin/remediation.py:180-237 | without retention, with filters drafted for existing edges, an edge weighs 0 exactly when an applied filter targets it and 1 otherwise |
| Counterexamples.ReingestReopens | twin/router.py:192-197 | two spans, the proposals at the first approved for its filter, retention that drops the second and its re-ingest: the edge weighs 1 while the filter is applied |
| Counterexamples.RemediesProposed | twin/attribution.py:38-67 | the drafts registered in that run are those the service proposes |
| Isolation.StepIsolatesExactly | twin/remediation.py:170-246 | while each applied quarantine is in force, a step ends that if and only if it reverts an action that found its node unquarantined, redeploys a node, or ingests a name, under a quarantine that stays applied |
| Isolation.IsolatedUntilLifted | twin/remediation.py:170-246 | after any run every stored node under an applied quarantine is quarantined exactly when no step has lifted one |
| Counterexamples.RevertLifts | twin/remediation.py:227-246 | a flagged, privileged span; its rollback and quarantine approved; the rollback reverted: the quarantine is applied but the node is not quarantined; the quarantine reverted too: the node is contained, not flagged |
| Counterexamples.PairProposed | twin/attribution.py:38-67 | the two drafts of that run are those the service proposes |
| Engine.Engine.Commit | twin/router.py:154-198 | checkpoint, node and an edge from each stored input, itself included, as the specified commit |
| Engine.Engine.Ingest | twin/engine.py:73-107 | a stored span changes nothing; a new one is committed and audited, and exactly when it is flagged a round of proposals follows at an origin of its drift, which unless an id clashes leaves that origin with a live rollback |
| Engine.Engine.AutoPropose | twin/engine.py:109-122 | one registration of exactly the remediations proposed at the root cause of a stored node; none for a missing one |
| Engine.Engine.RunRetention | twin/engine.py:241-249 | one retention step that keeps exactly what is at most the given days of 24 hours old, audited with a report of the very counts by which the tables shrank, as many checkpoints as nodes |
| Engine.Engine.ReachableInvariants | twin/engine.py:73-122 | every reachable state of the service keeps the graph, lifecycle, balance and weight properties together |
| Engine.Engine.Narrative | twin/engine.py:126-127 | in every reachable state the narrative of a drifted target names a node without drifted ancestors and a shortest walk from it |
| Engine.Engine.WhatIf | twin/engine.py:133-135 | in every reachable state a replay is right, split included, and covers its whole scope; without self-loops in it every node is judged on corrected texts |
| Engine.Engine.VerifyAudit | twin/audit.py:182-203 | in every reachable state the audit log verifies, all rows checked |
| Redact.RedactText | twin/replay.py:22-26 | for every text and finite set of entities, masked longest first, no entity occurs in the result |
| Redact.EntityIsAlien | twin/detection.py:126-127 | every string of the two entity shapes has no bracket and a character the mask lacks |
| Redact.AccountShape | twin/detection.py:126 | two or more digits, a dash or slash and one to six letters or digits always make such a string |
| Redact.ProperShape | twin/detection.py:127 | so does a capitalised word with space and one or more such words after it |
| Redact.MaskRemoves | twin/replay.py:24-25 | masking an entity leaves no occurrence of it |
| Redact.MaskCreatesNone | twin/replay.py:24-25 | masking one entity creates no occurrence of another |
| Redact.UnmaskRestores | twin/replay.py:24-25 | on a text without brackets, putting the entity back for the mask gives the text back |
| Redact.RedactedStays | twin/replay.py:22-26 | redacting again changes nothing, in any order |
| Replay.RunReplay | twin/replay.py:29-129 | the scope once each, root first, then in topological order; each stored node judged after the right entities are removed, against the texts of its predecessors corrected before it; on a scope without cycles against the corrected text of every predecessor in it; the drifted nodes split into saved and still bad |
| Replay.PassIsForward | twin/replay.py:35-38 | the pass reaches every in-scope predecessor before its node if and only if the scope has no cycle |
| Counterexamples.SelfFeederHeardUncorrected | twin/replay.py:57-66 | in a run where a span lists itself as an input, a replay judges its successor on the original text, which still holds what was removed from it |
| Replay.AssessNode | twin/replay.py:75-108 | what is removed from a root, a node at fault and any other; the removed entities occur nowhere in the judged text; a node at fault passes on its original text |
| Verdicts.RootLosesItsOwn | twin/replay.py:90-93 | from the root exactly the foreign entities that its upstream text does not name are removed |
| Verdicts.FaultStays | twin/replay.py:94-97 | from a node at fault exactly those that its upstream names are removed, and it passes on its own words |
| Verdicts.FaultIsJudgedAsIs | twin/replay.py:94-97 | a node at fault none of whose foreign entities its upstream names is judged on its own output and effects unchanged |
| Verdicts.InnocentIsCleaned | twin/replay.py:98-101 | any other node loses everything foreign, all of it inherited |
| Verdicts.RootKeepsInherited | twin/replay.py:90-93 | in a preview nothing that its upstream names is taken from the root, and a root that introduced nothing is judged as it is |
| Verdicts.SavedExactly | twin/replay.py:110-118 | a node below the root is saved, or still bad, exactly when it is drifted and the detector does not, or does, flag it with just what it inherited masked |
| Verdicts.OwnFaultStaysBad | twin/replay.py:94-118 | a drifted node that inherited nothing and is flagged on its own text is never counted as saved |
| Verdicts.WordsAreHeard | twin/replay.py:65-74 | what a node hears holds each predecessor's words, the corrected ones where there are any |
| Verdicts.UncorrectedIsOriginal | twin/replay.py:46-66 | while no predecessor is corrected and all are stored, a node hears just what it heard originally |
| Verdicts.ContainsExactly | twin/replay.py:79-80 | the test for an entity in a text finds exactly the occurrences |
| Replay.Split | twin/replay.py:110-118 | the drifted nodes downstream split into those no longer flagged and the rest, with no overlap and none lost |
| Json.QuotedUnique | twin/audit.py:97-102 | escaped strings are uniquely readable: equal texts give equal strings and equal rests |
| Json.ReadsBack | twin/audit.py:97-102 | a reader of JSON strings by section 7 of RFC 8259 gives back the escaped string and what follows it |
| Json.BodyInjective | twin/audit.py:97-102 | different records never give the same hashed text |
| Audit.AuditLog.RecordEntry | twin/audit.py:139-160 | one row is appended under the head's hash, earlier rows stay, and the head names the new end and count |
| Audit.VerifyChain | twin/audit.py:182-203 | valid exactly for an unbroken chain whose end the head names, or an empty log with a head; otherwise the first broken row is reported, with the count of good rows before it |
| Audit.DigestIsTamperProof | twin/audit.py:146-149 | with a collision-free hexadecimal digest a link's hash determines its record and the hash before it, and is never the first hash |
| Audit.LastHashDecides | twin/audit.py:182-203 | two unbroken chains with the same last hash have equal length and equal records and hashes row by row |
| Audit.TamperEvident | twin/audit.py:182-203 | against an unchanged head the verifier accepts replaced rows if and only if every record and hash is as it was, or no row is left |
| AuditTxn.EveryInterleavingVerifies | twin/audit.py:126-160 | for every interleaving of transactions the committed log verifies, sequence order is chain order, the head counts the rows, and the rows are the committed transactions' entries one transaction after another |
| AuditTxn.CommittedRowsStay | twin/audit.py:126-160 | later steps never change or drop a committed row |
| SignalsCache.Cache.Get | twin/router.py:37-43 | a hit, with the last value put, exactly when fewer than maxsize other keys were touched since this one |
| SignalsCache.Cache.Put | twin/router.py:45-50 | keeps that promise for every key, whatever it evicts |
| SignalsCache.Cache.Bounded | twin/router.py:49-50 | never more than maxsize entries |
| Escalation.EscalationMonitor.Evict | twin/escalation.py:37-41 | both queues lose exactly their leading timestamps older than the window |
| Escalation.EscalationMonitor.RecordSpan | twin/escalation.py:43-54 | one more call in the run; the snapshot judges the queues; the anomaly counter rises exactly on an anomaly |
| Escalation.EscalationMonitor.TakeSnapshot | twin/escalation.py:56-60 | a read evicts and judges but never counts an anomaly |
| Escalation.EscalatedIsSuffix | twin/escalation.py:37-60 | on any clock the escalated queue is a suffix of the escalated part of the analysed one, so never longer |
| Escalation.QueuesAreTheWindow | twin/escalation.py:37-60 | on a clock that never goes back the queues are the history filtered to the current window |
| Escalation.CountsAreTheWindow | twin/escalation.py:37-64 | so on such a clock the numbers judged are those of the spans, and of the escalated spans, recorded in the last window |
| Escalation.SnapshotMeaning | twin/escalation.py:62-66 | the ratio is the escalated share, between 0 and 1, and the rate is per 60 seconds |
| Escalation.JudgedInCounts | twin/escalation.py:65-78 | in counts: the ratio is exceeded exactly by enough samples with more escalated ones than the threshold's share of them, the rate exactly by more escalated spans than the threshold allows in the window |
| RateLimiter.RateLimiter.Allow | twin/security.py:155-167 | on any clock refuses exactly when the key's queue, cut to the last 60 seconds, holds per_minute admissions; while the key has seen no reading go back, exactly when it was admitted per_minute times in those seconds; other keys' queues stay; 0 or less admits all |
| RateLimiter.RateLimiter.EveryMinuteBounded | twin/security.py:155-167 | over any run, with readings up to a given lag late, a closed interval holds at most per_minute admissions of a key if it is no longer than 60 seconds less the lag, or than 60 seconds when per_minute is 1 |
| RateLimiter.AdmissionsApart | twin/security.py:161-165 | admissions per_minute or more places apart are more than 60 seconds less the lag apart |
| RateLimiter.QueueIsEnd | twin/security.py:158-167 | on any clock a key's admissions are, in order, those its queue has dropped and then those it holds |
| RateLimiter.GoneOvertaken | twin/security.py:160-163 | on any clock, of each admission dropped some request of the key saw the clock more than a minute past it |
| RateLimiter.QueueShort | twin/security.py:164-166 | on any clock a queue holds at most per_minute admissions |
| RateLimiter.QueueIsLastMinute | twin/security.py:160-164 | on a forward clock what is left of the queue counts exactly the admissions of the last 60 seconds |
| RateLimiter.KeysApart | twin/security.py:159 | a key's queue and admissions are those of its own requests alone |
| RateLimiter.LimitIsExact | twin/security.py:155-167 | those lengths are the longest: for any limit, lag and width, every run keeps the limit over every closed interval of the width if and only if the width is within them |
| RateLimiter.OneApart | twin/security.py:160-166 | with a limit of one, on any clock, each admission comes more than 60 seconds after the one before |
| Detection.RunDeterministic | twin/detection.py:158-214 | the flags of the rules in their order: one for each dangerous call and each unexplained effect, at most one of each other rule |
| Detection.FlagsRaised | twin/detection.py:158-214 | a flag is among them exactly when some rule raises it for the span |
| Detection.StatedVsRevealed | twin/detection.py:217-265 | the gap is the heaviest reason that applies and the primary names it, the semantic distance winning ties |
| Detection.GapUnique | twin/detection.py:227-260 | that description fixes gap and primary |
| Detection.GapMeaning | twin/detection.py:227-260 | in numbers: 0.90, 0.82, 0.80 or 0.62 with the fact behind it, or the semantic distance, and never less than what another reason that holds weighs |
| Detection.AssessSpan | twin/detection.py:346-384 | the statuses by threshold; under a calibrated policy flagged exactly when the span fires, and on watch exactly when it does not and 0.35 times its top severity plus 0.15 times its trajectory reaches the watch threshold; when the judge is asked and when it objects |
| Detection.ScoreExactly | twin/detection.py:108-117 | the score is half the structural gap plus 0.35 and 0.15 of severity and trajectory, raised to 0.746, or 0.77 with injection markers, exactly when the judge objects |
| Detection.WatchExactly | twin/detection.py:108-117 | under a calibrated policy a span that does not fire scores by severity and trajectory alone, under the flag threshold |
| Detection.NothingScoresZero | twin/detection.py:108-117 | a span without flags, structural primary or trajectory scores 0, unless it introduced content under a hard bound that is not positive |
| Detection.FlaggedExactlyWhenFiring | twin/detection.py:108-115 | under a calibrated policy the score reaches the flag threshold exactly on a structural primary, a hard flag, or introduced content with a severity of at least one half |
| Detection.CalibrationIsExact | twin/detection.py:367-384 | the policies for which this holds of every span are exactly the calibrated ones |
| Detection.CalibratedEnough | twin/detection.py:36-40 | 0.35 times a positive hard severity plus 0.15, at most the threshold, at most 0.746, is calibrated; the defaults are |
| Metrics.MetricsAt | twin/calibration.py:21-45 | precision is the share of drift among the labels at or over the threshold, recall the share of all drift that is there, and F1 twice the hits over both together, each to three places |
| Metrics.CountsPartition | twin/calibration.py:22-32 | at every threshold the four counts sum to the labels, and true positives and misses to the positives |
| Metrics.CountsAre | twin/calibration.py:22-32 | the counts are the sizes of the sets of labels they name |
| Metrics.RoundedNearest | twin/calibration.py:39-45 | rounding goes to the nearest thousandth, halves to an even digit, and nowhere else |
| Metrics.CountsFall | twin/calibration.py:22-32 | a higher threshold gains neither true nor false positives |
| Calibration.Sweep | twin/calibration.py:48-52 | one row for each step of the grid, at its rounded threshold |
| Calibration.GridSpans | twin/calibration.py:48-52 | a step that divides 1 spans the grid from exactly 0 to exactly 1 |
| Calibration.LowestHasBestRecall | twin/calibration.py:88-98 | the lowest eligible threshold has the best recall of all eligible rows |
| Calibration.HighestF1 | twin/calibration.py:100-103 | the best rounded F1, nearest to the current threshold among equals |
| Calibration.Recommend | twin/calibration.py:55-109 | in counted labels: no choice exactly on fewer than 10 labels or no drift; with a target, the lowest grid threshold at or over which drift is the target share of the labels, or none if there is none; without one, the best F1, nearest to the current among equals |
| Calibration.MetShare | twin/calibration.py:88-98 | at such a threshold the drift labels are at least the target share, less half a thousandth, of the labels there |
| Calibration.GroupsSumToAll | twin/calibration.py:122-134 | for any partition by workflow the groups' confusion counts sum to the overall ones |
| Calibration.CellOfLabels | twin/calibration.py:122-130 | each cell of a workflow, or of all, counts exactly its true or its false positives on that side of the threshold; an uncertain label is in none |
| Calibration.Calibrate | twin/calibration.py:112-141 | sound advice on all counted labels and on each workflow under its own threshold; only the unnamed workflow's entry can be displaced |
| Calibration.EntriesLostExactly | twin/calibration.py:122-134 | each workflow has its own entry in the report unless there are both an unnamed workflow and one called "(default)" |
| Calibration.UnnamedLost | twin/calibration.py:122-134 | with one label of the unnamed workflow and two of "(default)", advice sound for the latter is never sound for the former |

## Left out

- HTTP routes, authentication, metrics, logging, configuration and the user interface: plumbing around the operations.
- SQLAlchemy and the databases: row locks appear only in `AuditTxn`, for a database that honours the lock on the head row; SQLite ignores it.
- Language-model, LlamaFirewall and NeMo adapters, the deep-judge tier and token counters: foreign calls; the stub judge is the judge.
- Embeddings: distances are arbitrary reals in [0, 1]; floating-point rounding and the rounding of reported scores are not modelled, except in `Calibration`, whose three-decimal rounding decides eligibility.
- OpenTelemetry and hand-off parsing, the inline rail, the taxonomy, risk classification and the compliance map: lookups.
- Ingest that is not idempotent, concurrent ingest of spans that name each other, and crashes between a store commit and the commit of its action.
- The detection cache's key, and agreement of a cached verdict with a fresh one: the key omits upstream text, so there is none.
- Lone surrogates: a Python string may hold two surrogates that escape like one character; a Dafny string holds neither.
- Engine.Engine.Ingest: takes the verdicts of detector, rail and monitor, and the texts they log, as part of the arriving span.
- Redact.EntityIsAlien: its shapes let every character beyond ASCII pass as a digit or a space, since the patterns' classes reach beyond ASCII; the theorem covers more strings than the patterns match.
- SignalsCache.Cache.Put: needs a maxsize of at least 0; below that the source raises.
- Edge kinds: the service creates one kind only. The blast radius copied into a quarantine's parameters.
- Replay.AssessNode: which entities are foreign, case folding and the final assessment are functions given to it.
- Detection.RunDeterministic: the text tests behind each rule are given as facts of the span.
- Node fields no modelled operation reads, action timestamps, and the wording of rationales and summaries.
- Labelled points, counters, meta rows and traces in the store: rows written and read back.
