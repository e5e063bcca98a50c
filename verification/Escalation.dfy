/** The escalation-rate monitor: two queues of timestamps cut to a sliding window. */
module Escalation {
  import opened Base

  /** One analysed span: when, and whether it was escalated. */
  datatype Mark = Mark(at: real, escalated: bool)

  datatype Snapshot = Snapshot(analysed: nat, escalated: nat, ratio: real, ratePerMin: real,
                               ratioExceeded: bool, rateExceeded: bool, anomaliesSeen: nat)

  predicate Anomalous(s: Snapshot) {
    s.ratioExceeded || s.rateExceeded
  }

  function Times(marks: seq<Mark>): seq<real> {
    seq(|marks|, i requires 0 <= i < |marks| => marks[i].at)
  }

  /** The escalated subsequence. */
  function Escalated(marks: seq<Mark>): seq<real> {
    if marks == [] then []
    else if marks[0].escalated then [marks[0].at] + Escalated(marks[1..])
    else Escalated(marks[1..])
  }

  function CutMarks(marks: seq<Mark>, cutoff: real): seq<Mark> {
    if marks != [] && marks[0].at < cutoff then CutMarks(marks[1..], cutoff) else marks
  }

  ghost predicate Nondecreasing(marks: seq<Mark>) {
    forall i, j :: 0 <= i < j < |marks| ==> marks[i].at <= marks[j].at
  }

  /** What a window means: the marks not older than the cutoff. */
  function Recent(marks: seq<Mark>, cutoff: real): seq<Mark> {
    if marks == [] then []
    else if marks[0].at >= cutoff then [marks[0]] + Recent(marks[1..], cutoff)
    else Recent(marks[1..], cutoff)
  }

  lemma {:induction false} CutTimes(marks: seq<Mark>, cutoff: real)
    ensures Times(CutMarks(marks, cutoff)) == CutBefore(Times(marks), cutoff)
  {
    if marks != [] && marks[0].at < cutoff {
      assert Times(marks)[1..] == Times(marks[1..]);
      CutTimes(marks[1..], cutoff);
    }
  }

  /** Cutting the two queues by the same cutoff keeps one a suffix of the other's escalated part, even when the
      timestamps are out of order. */
  lemma {:induction false} CutKeepsSuffix(marks: seq<Mark>, esc: seq<real>, cutoff: real)
    requires Suffix(esc, Escalated(marks))
    ensures Suffix(CutBefore(esc, cutoff), Escalated(CutMarks(marks, cutoff)))
    decreases |marks|
  {
    if marks != [] && marks[0].at < cutoff {
      var rest := marks[1..];
      if marks[0].escalated && |esc| == |Escalated(marks)| {
        assert esc[0] == marks[0].at && esc[1..] == Escalated(rest);
        CutKeepsSuffix(rest, esc[1..], cutoff);
      } else {
        CutKeepsSuffix(rest, esc, cutoff);
      }
    } else {
      CutIsSuffix(esc, cutoff);
    }
  }

  lemma {:induction false} EscalatedJoins(a: seq<Mark>, b: seq<Mark>)
    ensures Escalated(a + b) == Escalated(a) + Escalated(b)
  {
    if a == [] {
      assert a + b == b;
    } else {
      assert (a + b)[1..] == a[1..] + b;
      EscalatedJoins(a[1..], b);
    }
  }

  lemma {:induction false} EscalatedShort(marks: seq<Mark>)
    ensures |Escalated(marks)| <= |marks|
  {
    if marks != [] {
      EscalatedShort(marks[1..]);
    }
  }

  lemma {:induction false} RecentJoins(a: seq<Mark>, b: seq<Mark>, cutoff: real)
    ensures Recent(a + b, cutoff) == Recent(a, cutoff) + Recent(b, cutoff)
  {
    if a == [] {
      assert a + b == b;
    } else {
      assert (a + b)[1..] == a[1..] + b;
      RecentJoins(a[1..], b, cutoff);
    }
  }

  /** On an ordered history, cutting from the front is filtering. */
  lemma {:induction false} CutIsRecent(marks: seq<Mark>, cutoff: real)
    requires Nondecreasing(marks)
    ensures CutMarks(marks, cutoff) == Recent(marks, cutoff)
  {
    if marks != [] {
      if marks[0].at < cutoff {
        CutIsRecent(marks[1..], cutoff);
      } else {
        AllRecent(marks, cutoff);
      }
    }
  }

  lemma {:induction false} AllRecent(marks: seq<Mark>, cutoff: real)
    requires forall i :: 0 <= i < |marks| ==> marks[i].at >= cutoff
    ensures Recent(marks, cutoff) == marks
  {
    if marks != [] {
      AllRecent(marks[1..], cutoff);
    }
  }

  /** A later, larger cutoff makes an earlier one pointless. */
  lemma {:induction false} RecentTwice(marks: seq<Mark>, early: real, late: real)
    requires early <= late
    ensures Recent(Recent(marks, early), late) == Recent(marks, late)
  {
    if marks != [] {
      RecentTwice(marks[1..], early, late);
    }
  }

  lemma {:induction false} RecentWithin(marks: seq<Mark>, cutoff: real)
    ensures forall m :: m in Recent(marks, cutoff) ==> m in marks
  {
    if marks != [] {
      RecentWithin(marks[1..], cutoff);
      forall m | m in Recent(marks, cutoff) ensures m in marks {
        assert m == marks[0] || m in marks[1..];
      }
    }
  }

  lemma {:induction false} RecentOrdered(marks: seq<Mark>, cutoff: real)
    requires Nondecreasing(marks)
    ensures Nondecreasing(Recent(marks, cutoff))
  {
    if marks != [] {
      var rest := Recent(marks[1..], cutoff);
      RecentOrdered(marks[1..], cutoff);
      RecentWithin(marks[1..], cutoff);
      forall j | 0 <= j < |rest| ensures marks[0].at <= rest[j].at {
        assert rest[j] in marks[1..];
      }
      OrderedCons(marks[0], rest);
    }
  }

  lemma OrderedCons(m: Mark, rest: seq<Mark>)
    requires Nondecreasing(rest) && forall j :: 0 <= j < |rest| ==> m.at <= rest[j].at
    ensures Nondecreasing([m] + rest)
  {
  }

  lemma {:induction false} EscalatedOfRecent(marks: seq<Mark>, cutoff: real)
    requires Nondecreasing(marks)
    ensures Escalated(Recent(marks, cutoff)) == CutBefore(Escalated(marks), cutoff)
  {
    if marks != [] {
      EscalatedOfRecent(marks[1..], cutoff);
      if marks[0].at >= cutoff {
        AllRecent(marks, cutoff);
        EscalatedIn(marks);
        assert CutBefore(Escalated(marks), cutoff) == Escalated(marks);
      }
    }
  }

  lemma {:induction false} EscalatedIn(marks: seq<Mark>)
    ensures forall t :: t in Escalated(marks) ==> exists i :: 0 <= i < |marks| && marks[i].at == t
  {
    if marks != [] {
      EscalatedIn(marks[1..]);
      forall t | t in Escalated(marks) ensures exists i :: 0 <= i < |marks| && marks[i].at == t {
        if t in Escalated(marks[1..]) {
          var i :| 0 <= i < |marks[1..]| && marks[1..][i].at == t;
          assert marks[i + 1].at == t;
        } else {
          assert marks[0].at == t;
        }
      }
    }
  }

  // ---- runs of the monitor ----

  /** A call: one analysed span, or a reader's snapshot. Each carries its own reading of the clock. */
  datatype Call = Record(now: real, escalated: bool) | Look(now: real)

  datatype Queues = Queues(analysed: seq<real>, escalated: seq<real>)

  function Marked(c: Call): seq<Mark> {
    match c
    case Record(now, escalated) => [Mark(now, escalated)]
    case Look(_) => []
  }

  /** The two queues after a run: append what the call brings, then cut both to the call's window. */
  function Run(calls: seq<Call>, window: real): Queues {
    if calls == [] then Queues([], []) else
    var q, c := Run(calls[..|calls| - 1], window), calls[|calls| - 1];
    Queues(CutBefore(q.analysed + Times(Marked(c)), c.now - window),
           CutBefore(q.escalated + Escalated(Marked(c)), c.now - window))
  }

  /** All the marks of a run, and those the analysed queue still holds. */
  function History(calls: seq<Call>): seq<Mark> {
    if calls == [] then [] else History(calls[..|calls| - 1]) + Marked(calls[|calls| - 1])
  }

  function Held(calls: seq<Call>, window: real): seq<Mark> {
    if calls == [] then [] else
    CutMarks(Held(calls[..|calls| - 1], window) + Marked(calls[|calls| - 1]), calls[|calls| - 1].now - window)
  }

  lemma SuffixJoins(esc: seq<real>, marks: seq<Mark>, more: seq<Mark>)
    requires Suffix(esc, Escalated(marks))
    ensures Suffix(esc + Escalated(more), Escalated(marks + more))
  {
    EscalatedJoins(marks, more);
  }

  /** Whatever the clock does, the escalated queue is a suffix of the escalated part of the analysed one, so the
      ratio never exceeds one. */
  lemma {:induction false} EscalatedIsSuffix(calls: seq<Call>, window: real)
    ensures var q := Run(calls, window);
            && q.analysed == Times(Held(calls, window))
            && Suffix(q.escalated, Escalated(Held(calls, window)))
            && |q.escalated| <= |q.analysed|
  {
    if calls != [] {
      var before, c := calls[..|calls| - 1], calls[|calls| - 1];
      var held := Held(before, window);
      EscalatedIsSuffix(before, window);
      CutTimes(held + Marked(c), c.now - window);
      assert Times(held + Marked(c)) == Times(held) + Times(Marked(c));
      SuffixJoins(Run(before, window).escalated, held, Marked(c));
      CutKeepsSuffix(held + Marked(c), Run(before, window).escalated + Escalated(Marked(c)), c.now - window);
    }
    EscalatedShort(Held(calls, window));
  }

  ghost predicate ClockForward(calls: seq<Call>) {
    forall i, j :: 0 <= i < j < |calls| ==> calls[i].now <= calls[j].now
  }

  lemma {:induction false} HistoryOrdered(calls: seq<Call>)
    requires ClockForward(calls)
    ensures Nondecreasing(History(calls))
    ensures forall i :: 0 <= i < |History(calls)| ==> calls != [] && History(calls)[i].at <= calls[|calls| - 1].now
  {
    if calls != [] {
      HistoryOrdered(calls[..|calls| - 1]);
    }
  }

  /** On a clock that never goes back, the queues are the recorded history filtered to the current window. */
  lemma {:induction false} QueuesAreTheWindow(calls: seq<Call>, window: real)
    requires calls != [] && ClockForward(calls)
    ensures Run(calls, window) == Window(History(calls), calls[|calls| - 1].now - window)
  {
    var before, c := calls[..|calls| - 1], calls[|calls| - 1];
    var late := c.now - window;
    var early := if before == [] then late else before[|before| - 1].now - window;
    if before == [] {
      EmptyWindow(before, window, early);
    } else {
      QueuesAreTheWindow(before, window);
    }
    HistoryBefore(before, c);
    WindowMoves(History(before), early, c, late);
  }

  /** The spans recorded since the cutoff; all of them, or the escalated ones. */
  ghost function Since(calls: seq<Call>, cutoff: real, escalated: bool): set<nat> {
    set i: nat | i < |calls| && calls[i].Record? && calls[i].now >= cutoff && (escalated ==> calls[i].escalated)
  }

  lemma {:induction false} HistoryCounts(calls: seq<Call>, cutoff: real)
    ensures |Recent(History(calls), cutoff)| == |Since(calls, cutoff, false)|
    ensures |Escalated(Recent(History(calls), cutoff))| == |Since(calls, cutoff, true)|
  {
    if calls == [] {
      assert Since(calls, cutoff, false) == {} && Since(calls, cutoff, true) == {};
    } else {
      var before, c := calls[..|calls| - 1], calls[|calls| - 1];
      HistoryCounts(before, cutoff);
      RecentJoins(History(before), Marked(c), cutoff);
      EscalatedJoins(Recent(History(before), cutoff), Recent(Marked(c), cutoff));
      OneMore(c, cutoff);
      SinceGrows(calls, cutoff, false);
      SinceGrows(calls, cutoff, true);
    }
  }

  lemma OneMore(c: Call, cutoff: real)
    ensures var recent := Recent(Marked(c), cutoff);
            && |recent| == (if c.Record? && c.now >= cutoff then 1 else 0)
            && |Escalated(recent)| == if c.Record? && c.now >= cutoff && c.escalated then 1 else 0
  {
    if c.Record? {
      assert Marked(c)[1..] == [];
    }
  }

  lemma SinceGrows(calls: seq<Call>, cutoff: real, escalated: bool)
    requires calls != []
    ensures var (n, c) := (|calls| - 1, calls[|calls| - 1]);
            |Since(calls, cutoff, escalated)| == |Since(calls[..n], cutoff, escalated)|
              + if c.Record? && c.now >= cutoff && (escalated ==> c.escalated) then 1 else 0
  {
    var n := |calls| - 1;
    var before, all := Since(calls[..n], cutoff, escalated), Since(calls, cutoff, escalated);
    forall i: nat ensures i in all - {n} <==> i in before {
      if i < n {
        assert calls[..n][i] == calls[i];
      }
    }
    assert all - {n} == before;
  }

  /** So on such a clock the numbers judged are those of the spans of the last `window` seconds. */
  lemma CountsAreTheWindow(calls: seq<Call>, window: real)
    requires calls != [] && ClockForward(calls)
    ensures var (q, cutoff) := (Run(calls, window), calls[|calls| - 1].now - window);
            |q.analysed| == |Since(calls, cutoff, false)| && |q.escalated| == |Since(calls, cutoff, true)|
  {
    QueuesAreTheWindow(calls, window);
    WindowCounts(calls, Run(calls, window), calls[|calls| - 1].now - window);
  }

  lemma WindowCounts(calls: seq<Call>, q: Queues, cutoff: real)
    requires q == Window(History(calls), cutoff)
    ensures |q.analysed| == |Since(calls, cutoff, false)| && |q.escalated| == |Since(calls, cutoff, true)|
  {
    HistoryCounts(calls, cutoff);
  }

  lemma EmptyWindow(calls: seq<Call>, window: real, cutoff: real)
    requires calls == []
    ensures Run(calls, window) == Window(History(calls), cutoff)
  {
    assert Times(Recent(History(calls), cutoff)) == [];
  }

  lemma HistoryBefore(calls: seq<Call>, c: Call)
    requires ClockForward(calls) && (calls != [] ==> calls[|calls| - 1].now <= c.now)
    ensures Nondecreasing(History(calls)) && forall i :: 0 <= i < |History(calls)| ==> History(calls)[i].at <= c.now
  {
    HistoryOrdered(calls);
  }

  function Window(history: seq<Mark>, cutoff: real): Queues {
    Queues(Times(Recent(history, cutoff)), Escalated(Recent(history, cutoff)))
  }

  lemma WindowMoves(history: seq<Mark>, early: real, c: Call, late: real)
    requires Nondecreasing(history) && early <= late && forall i :: 0 <= i < |history| ==> history[i].at <= c.now
    ensures var q := Window(history, early);
            Window(history + Marked(c), late) ==
            Queues(CutBefore(q.analysed + Times(Marked(c)), late), CutBefore(q.escalated + Escalated(Marked(c)), late))
  {
    RecentJoins(history, Marked(c), late);
    RecentTwice(history, early, late);
    RecentOrdered(history, early);
    RecentWithin(history, early);
    CutWindow(Recent(history, early), c, late);
  }

  lemma CutWindow(held: seq<Mark>, c: Call, cutoff: real)
    requires Nondecreasing(held) && forall m :: m in held ==> m.at <= c.now
    ensures var seen := Recent(held, cutoff) + Recent(Marked(c), cutoff);
            && CutBefore(Times(held) + Times(Marked(c)), cutoff) == Times(seen)
            && CutBefore(Escalated(held) + Escalated(Marked(c)), cutoff) == Escalated(seen)
  {
    var all := held + Marked(c);
    assert Nondecreasing(all);
    RecentJoins(held, Marked(c), cutoff);
    EscalatedJoins(held, Marked(c));
    assert Times(all) == Times(held) + Times(Marked(c));
    CutTimes(all, cutoff);
    CutIsRecent(all, cutoff);
    EscalatedOfRecent(all, cutoff);
  }

  class EscalationMonitor {
    const window: real
    const ratioThreshold: real
    const rateThreshold: Option<real>
    const minSamples: nat
    var analysed: seq<real>
    var escalated: seq<real>
    var anomalies: nat
    ghost var calls: seq<Call>

    constructor (window: real, ratioThreshold: real, rateThreshold: Option<real>, minSamples: int)
      ensures Valid() && calls == [] && anomalies == 0
      ensures this.window == (if window < 1.0 then 1.0 else window)
      ensures this.minSamples == (if minSamples < 1 then 1 else minSamples)
      ensures this.ratioThreshold == ratioThreshold && this.rateThreshold == rateThreshold
    {
      this.window := if window < 1.0 then 1.0 else window;
      this.ratioThreshold, this.rateThreshold := ratioThreshold, rateThreshold;
      this.minSamples := if minSamples < 1 then 1 else minSamples;
      analysed, escalated, anomalies, calls := [], [], 0, [];
    }

    ghost predicate Valid()
      reads this
    {
      && window >= 1.0 && minSamples >= 1
      && Queues(analysed, escalated) == Run(calls, window)
    }

    method Evict(now: real)
      modifies this`analysed, this`escalated
      ensures analysed == CutBefore(old(analysed), now - window)
      ensures escalated == CutBefore(old(escalated), now - window)
    {
      var cutoff := now - window;
      while analysed != [] && analysed[0] < cutoff
        invariant CutBefore(analysed, cutoff) == CutBefore(old(analysed), cutoff)
        invariant escalated == old(escalated)
        decreases |analysed|
      {
        analysed := analysed[1..];
      }
      while escalated != [] && escalated[0] < cutoff
        invariant CutBefore(escalated, cutoff) == CutBefore(old(escalated), cutoff)
        invariant analysed == CutBefore(old(analysed), cutoff)
        decreases |escalated|
      {
        escalated := escalated[1..];
      }
    }

    /** Counts and judges the window; it changes nothing. */
    method SnapshotLocked() returns (s: Snapshot)
      requires Valid()
      ensures Judged(s, analysed, escalated, window, ratioThreshold, rateThreshold, minSamples)
      ensures s.anomaliesSeen == anomalies && s.escalated <= s.analysed
    {
      EscalatedIsSuffix(calls, window);
      var n, m := |analysed|, |escalated|;
      var ratio, rate := RatioOf(m, n), RateOf(m, window);
      s := Snapshot(n, m, ratio, rate, n >= minSamples && ratio > ratioThreshold,
                    rateThreshold.Some? && rate > rateThreshold.value, anomalies);
    }

    /** Queues a span, if the call brings one, and evicts. */
    method Enter(c: Call)
      requires Valid()
      modifies this`analysed, this`escalated, this`calls
      ensures Valid() && calls == old(calls) + [c]
    {
      Append(c);
      ghost var a, e := analysed, escalated;
      Evict(c.now);
      EnteredIsRun(calls, c, window, a, e, analysed, escalated);
      calls := calls + [c];
    }

    method Append(c: Call)
      modifies this`analysed, this`escalated
      ensures analysed == if c.Record? then old(analysed) + [c.now] else old(analysed)
      ensures escalated == if c.Record? && c.escalated then old(escalated) + [c.now] else old(escalated)
    {
      if c.Record? {
        analysed := analysed + [c.now];
        if c.escalated {
          escalated := escalated + [c.now];
        }
      }
    }

    method RecordSpan(isEscalated: bool, now: real) returns (s: Snapshot)
      requires Valid()
      modifies this
      ensures Valid() && calls == old(calls) + [Record(now, isEscalated)]
      ensures Judged(s, analysed, escalated, window, ratioThreshold, rateThreshold, minSamples)
      ensures anomalies == old(anomalies) + (if Anomalous(s) then 1 else 0) && s.anomaliesSeen == anomalies
    {
      Enter(Record(now, isEscalated));
      s := SnapshotLocked();
      if Anomalous(s) {
        anomalies := anomalies + 1;
        s := s.(anomaliesSeen := anomalies);
      }
    }

    /** A read evicts too, but never counts an anomaly. */
    method TakeSnapshot(now: real) returns (s: Snapshot)
      requires Valid()
      modifies this
      ensures Valid() && calls == old(calls) + [Look(now)] && anomalies == old(anomalies)
      ensures Judged(s, analysed, escalated, window, ratioThreshold, rateThreshold, minSamples)
      ensures s.anomaliesSeen == anomalies
    {
      Enter(Look(now));
      s := SnapshotLocked();
    }
  }

  /** One call's effect on the queues: append, then cut both. */
  function StepQueues(q: Queues, c: Call, window: real): Queues {
    Queues(CutBefore(if c.Record? then q.analysed + [c.now] else q.analysed, c.now - window),
           CutBefore(if c.Record? && c.escalated then q.escalated + [c.now] else q.escalated, c.now - window))
  }

  lemma RunStep(calls: seq<Call>, c: Call, window: real)
    ensures Run(calls + [c], window) == StepQueues(Run(calls, window), c, window)
  {
    assert (calls + [c])[..|calls + [c]| - 1] == calls;
    MarkedQueues(Run(calls, window), c);
  }

  /** What a call has entered and then cut is what the run makes of it. */
  lemma EnteredIsRun(calls: seq<Call>, c: Call, window: real, a: seq<real>, e: seq<real>, analysed: seq<real>,
                     escalated: seq<real>)
    requires var q := Run(calls, window);
             && a == (if c.Record? then q.analysed + [c.now] else q.analysed)
             && e == (if c.Record? && c.escalated then q.escalated + [c.now] else q.escalated)
    requires analysed == CutBefore(a, c.now - window) && escalated == CutBefore(e, c.now - window)
    ensures Queues(analysed, escalated) == Run(calls + [c], window)
  {
    RunStep(calls, c, window);
  }

  lemma MarkedQueues(q: Queues, c: Call)
    ensures q.analysed + Times(Marked(c)) == if c.Record? then q.analysed + [c.now] else q.analysed
    ensures q.escalated + Escalated(Marked(c)) ==
            if c.Record? && c.escalated then q.escalated + [c.now] else q.escalated
  {
    assert Times([]) == [] && q.analysed + [] == q.analysed && q.escalated + [] == q.escalated;
    if c.Record? {
      assert Times(Marked(c)) == [c.now] && Marked(c)[1..] == [];
      assert Escalated(Marked(c)) == if c.escalated then [c.now] else [];
    } else {
      assert Marked(c) == [];
    }
  }

  /** What a snapshot says about the queues. */
  ghost predicate Judged(s: Snapshot, analysed: seq<real>, escalated: seq<real>, window: real, ratioThreshold: real,
                         rateThreshold: Option<real>, minSamples: nat)
    requires window >= 1.0
  {
    && s.analysed == |analysed| && s.escalated == |escalated|
    && s.ratio == RatioOf(|escalated|, |analysed|) && s.ratePerMin == RateOf(|escalated|, window)
    && (s.ratioExceeded <==> s.analysed >= minSamples && s.ratio > ratioThreshold)
    && (s.rateExceeded <==> rateThreshold.Some? && s.ratePerMin > rateThreshold.value)
  }

  function RatioOf(m: nat, n: nat): real {
    if n > 0 then m as real / n as real else 0.0
  }

  function RateOf(m: nat, window: real): real
    requires window >= 1.0
  {
    m as real / (window / 60.0)
  }

  /** In counts: an anomaly of the ratio takes enough samples and more escalated ones than the threshold's share of
      them; one of the rate takes more per window than the threshold allows. */
  lemma JudgedInCounts(s: Snapshot, analysed: seq<real>, escalated: seq<real>, window: real, ratioThreshold: real,
                       rateThreshold: Option<real>, minSamples: nat)
    requires window >= 1.0 && minSamples >= 1
    requires Judged(s, analysed, escalated, window, ratioThreshold, rateThreshold, minSamples)
    ensures s.ratioExceeded <==>
              |analysed| >= minSamples && |escalated| as real > ratioThreshold * |analysed| as real
    ensures s.rateExceeded <==>
              rateThreshold.Some? && 60.0 * |escalated| as real > rateThreshold.value * window
  {
    var n, m := |analysed| as real, |escalated| as real;
    if |analysed| > 0 {
      Exceeds(m / n, ratioThreshold, n);
    }
    RateMeaning(|escalated|, window);
    if rateThreshold.Some? {
      Exceeds(RateOf(|escalated|, window), rateThreshold.value, window);
    }
  }

  lemma Exceeds(x: real, y: real, n: real)
    requires n > 0.0
    ensures x > y <==> x * n > y * n
  {
    assert x * n - y * n == (x - y) * n;
  }

  /** The ratio is the escalated share, between 0 and 1, and the rate is per 60 seconds. */
  lemma SnapshotMeaning(m: nat, n: nat, window: real)
    requires m <= n && window >= 1.0
    ensures Meant(m, n, window)
  {
    RatioMeaning(m, n);
    RateMeaning(m, window);
  }

  ghost predicate Meant(m: nat, n: nat, window: real)
    requires window >= 1.0
  {
    && 0.0 <= RatioOf(m, n) <= 1.0 && RatioOf(m, n) * n as real == m as real
    && RateOf(m, window) * window == 60.0 * m as real
  }

  lemma RatioMeaning(m: nat, n: nat)
    requires m <= n
    ensures 0.0 <= RatioOf(m, n) <= 1.0 && RatioOf(m, n) * n as real == m as real
  {
    if n > 0 {
      assert m as real / n as real * n as real == m as real;
    }
  }

  lemma RateMeaning(m: nat, window: real)
    requires window >= 1.0
    ensures RateOf(m, window) * window == 60.0 * m as real
  {
    var r, minutes := RateOf(m, window), window / 60.0;
    assert r * minutes == m as real;
    assert window == 60.0 * minutes;
    assert r * (60.0 * minutes) == 60.0 * (r * minutes);
  }
}
