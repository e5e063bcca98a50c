/** The per-key request limiter: a queue of admission times for each key. */
module RateLimiter {
  import opened Base

  /** A request with the clock it saw and the answer it got. The clock is read before the lock is taken, so a
      reading may be older than one handled before it. */
  datatype Request = Request(key: Id, now: real, admitted: bool)

  const SPAN := 60.0

  /** The admission times of one key, in order. */
  function Admissions(requests: seq<Request>, key: Id): seq<real> {
    if requests == [] then [] else
    var r := requests[|requests| - 1];
    Admissions(requests[..|requests| - 1], key) + (if r.key == key && r.admitted then [r.now] else [])
  }

  /** The queue of one key after a run: each of its requests cuts the front, and joins the end if admitted. */
  function Queue(requests: seq<Request>, key: Id): seq<real> {
    if requests == [] then [] else
    var q, r := Queue(requests[..|requests| - 1], key), requests[|requests| - 1];
    if r.key != key then q else CutBefore(q, r.now - SPAN) + (if r.admitted then [r.now] else [])
  }

  /** The rule: fewer than n admissions are left in the key's queue. */
  predicate Admits(requests: seq<Request>, key: Id, now: real, n: int) {
    |CutBefore(Queue(requests, key), now - SPAN)| < n
  }

  /** Every request of a run was answered by the rule. */
  predicate Answered(requests: seq<Request>, n: int) {
    requests == [] ||
    var front, r := requests[..|requests| - 1], requests[|requests| - 1];
    Answered(front, n) && (r.admitted <==> Admits(front, r.key, r.now, n))
  }

  lemma RequestsNext(requests: seq<Request>, r: Request, key: Id)
    ensures Admissions(requests + [r], key) ==
            Admissions(requests, key) + (if r.key == key && r.admitted then [r.now] else [])
    ensures Queue(requests + [r], key) ==
            if r.key != key then Queue(requests, key)
            else CutBefore(Queue(requests, key), r.now - SPAN) + (if r.admitted then [r.now] else [])
  {
    assert (requests + [r])[..|requests + [r]| - 1] == requests;
  }

  lemma AnsweredNext(requests: seq<Request>, r: Request, n: int)
    ensures Answered(requests + [r], n) <==>
              Answered(requests, n) && (r.admitted <==> Admits(requests, r.key, r.now, n))
  {
    assert (requests + [r])[..|requests + [r]| - 1] == requests;
  }

  // ---- on any clock ----

  /** Whatever the clock does, a key's queue never outgrows the limit. */
  lemma {:induction false} QueueShort(requests: seq<Request>, key: Id, n: nat)
    requires Answered(requests, n)
    ensures |Queue(requests, key)| <= n
  {
    if requests != [] {
      var front, r := requests[..|requests| - 1], requests[|requests| - 1];
      QueueShort(front, key, n);
      CutIsSuffix(Queue(front, key), r.now - SPAN);
    }
  }

  /** Some request of the key saw the clock more than a minute past t. */
  ghost predicate Overtaken(requests: seq<Request>, key: Id, t: real) {
    exists m :: 0 <= m < |requests| && requests[m].key == key && requests[m].now - SPAN > t
  }

  /** The admissions a key's queue has dropped, in order. */
  function Gone(requests: seq<Request>, key: Id): seq<real> {
    if requests == [] then [] else
    var q, r := Queue(requests[..|requests| - 1], key), requests[|requests| - 1];
    var dropped := if r.key == key then |q| - |CutBefore(q, r.now - SPAN)| else 0;
    Gone(requests[..|requests| - 1], key) + (if 0 < dropped <= |q| then q[..dropped] else [])
  }

  /** Whatever the clock does, a key's admissions are those dropped and then those queued. */
  lemma {:induction false} QueueIsEnd(requests: seq<Request>, key: Id)
    ensures Admissions(requests, key) == Gone(requests, key) + Queue(requests, key)
  {
    if requests != [] {
      var front, r := requests[..|requests| - 1], requests[|requests| - 1];
      QueueIsEnd(front, key);
      CutSplits(Queue(front, key), r.now - SPAN);
    }
  }

  lemma CutSplits(q: seq<real>, cutoff: real)
    ensures var d := |q| - |CutBefore(q, cutoff)|; d >= 0 && q == q[..d] + CutBefore(q, cutoff)
  {
    CutIsSuffix(q, cutoff);
  }

  /** Whatever the clock does, each admission dropped was overtaken by a minute. */
  lemma {:induction false} GoneOvertaken(requests: seq<Request>, key: Id, i: nat)
    requires i < |Gone(requests, key)|
    ensures Overtaken(requests, key, Gone(requests, key)[i])
  {
    var front, r := requests[..|requests| - 1], requests[|requests| - 1];
    if i < |Gone(front, key)| {
      GoneOvertaken(front, key, i);
      OvertakenStays(front, requests, key, Gone(front, key)[i]);
    } else {
      CutIsSuffix(Queue(front, key), r.now - SPAN);
      assert requests[|requests| - 1].now - SPAN > Gone(requests, key)[i];
    }
  }

  lemma OvertakenStays(front: seq<Request>, requests: seq<Request>, key: Id, t: real)
    requires front <= requests && Overtaken(front, key, t)
    ensures Overtaken(requests, key, t)
  {
    var m :| 0 <= m < |front| && front[m].key == key && front[m].now - SPAN > t;
    assert requests[m] == front[m];
  }

  /** The requests of one key. */
  function Own(requests: seq<Request>, key: Id): seq<Request> {
    if requests == [] then [] else
    var r := requests[|requests| - 1];
    Own(requests[..|requests| - 1], key) + (if r.key == key then [r] else [])
  }

  /** A key's queue and admissions are what they would be had no other key made a request. */
  lemma {:induction false} KeysApart(requests: seq<Request>, key: Id)
    ensures Queue(requests, key) == Queue(Own(requests, key), key)
    ensures Admissions(requests, key) == Admissions(Own(requests, key), key)
  {
    if requests != [] {
      var front, r := requests[..|requests| - 1], requests[|requests| - 1];
      KeysApart(front, key);
      if r.key == key {
        RequestsNext(Own(front, key), r, key);
      } else {
        assert Own(front, key) + [] == Own(front, key) && Admissions(front, key) + [] == Admissions(front, key);
      }
    }
  }

  // ---- on a clock read late by at most a given lag ----

  /** No request of the key saw a reading more than `lag` behind an earlier one; at lag 0 the clock never goes
      back. */
  ghost predicate LateBy(requests: seq<Request>, key: Id, lag: real) {
    forall i, j :: 0 <= i <= j < |requests| && requests[i].key == key && requests[j].key == key ==>
      requests[i].now <= requests[j].now + lag
  }

  /** Times n or more places apart differ by more than the gap. */
  ghost predicate Spaced(times: seq<real>, n: nat, gap: real) {
    forall i, j :: 0 <= i <= j - n && j < |times| ==> times[j] - times[i] > gap
  }

  /** Admissions n or more places apart are more than a minute less the lag apart. */
  lemma {:induction false} AdmissionsApart(requests: seq<Request>, key: Id, n: nat, lag: real)
    requires Answered(requests, n) && LateBy(requests, key, lag)
    ensures Spaced(Admissions(requests, key), n, SPAN - lag)
  {
    if requests != [] {
      var front, r := requests[..|requests| - 1], requests[|requests| - 1];
      AdmissionsApart(front, key, n, lag);
      var times, all := Admissions(front, key), Admissions(requests, key);
      forall i, j | 0 <= i <= j - n && j < |all| ensures all[j] - all[i] > SPAN - lag {
        if j < |times| {
          assert all[j] == times[j] && all[i] == times[i];
        } else {
          LastIsApart(requests, key, n, lag, i);
        }
      }
    }
  }

  lemma LastIsApart(requests: seq<Request>, key: Id, n: nat, lag: real, i: nat)
    requires requests != [] && Answered(requests, n) && LateBy(requests, key, lag)
    requires requests[|requests| - 1].key == key && requests[|requests| - 1].admitted
    requires i <= |Admissions(requests[..|requests| - 1], key)| - n
    ensures i < |Admissions(requests, key)| - 1
    ensures requests[|requests| - 1].now - Admissions(requests, key)[i] > SPAN - lag
  {
    QueueIsEnd(requests, key);
    assert i < |Gone(requests, key)|;
    GoneOvertaken(requests, key, i);
    OvertakenBy(requests, key, lag, Gone(requests, key)[i]);
  }

  lemma OvertakenBy(requests: seq<Request>, key: Id, lag: real, t: real)
    requires requests != [] && requests[|requests| - 1].key == key && LateBy(requests, key, lag)
    requires Overtaken(requests, key, t)
    ensures requests[|requests| - 1].now - t > SPAN - lag
  {
    var m :| 0 <= m < |requests| && requests[m].key == key && requests[m].now - SPAN > t;
    assert requests[m].now <= requests[|requests| - 1].now + lag;
  }

  predicate Within(t: real, from: real, to: real) {
    from <= t <= to
  }

  function CountIn(times: seq<real>, from: real, to: real): nat {
    if times == [] then 0
    else (if Within(times[0], from, to) then 1 else 0) + CountIn(times[1..], from, to)
  }

  lemma {:induction false} CountBound(times: seq<real>, from: real, to: real)
    ensures CountIn(times, from, to) <= |times|
  {
    if times != [] {
      CountBound(times[1..], from, to);
    }
  }

  /** Spaced times put at most n into an interval no longer than the gap: none but the next n can follow the first
      one that falls into it. */
  lemma {:induction false} SpacedBounds(times: seq<real>, n: nat, gap: real, from: real, to: real)
    requires Spaced(times, n, gap) && to - from <= gap
    ensures CountIn(times, from, to) <= n
  {
    if times != [] {
      if !Within(times[0], from, to) {
        SpacedBounds(times[1..], n, gap, from, to);
      } else if n < |times| {
        assert times == times[..n] + times[n..];
        CountJoins(times[..n], times[n..], from, to);
        CountBound(times[..n], from, to);
        forall i | 0 <= i < |times[n..]| ensures !Within(times[n..][i], from, to) {
          assert times[n..][i] == times[n + i] && times[n + i] - times[0] > gap;
        }
        CountAll(times[n..], from, to);
      } else {
        CountBound(times, from, to);
      }
    }
  }

  lemma {:induction false} LastIsHeld(requests: seq<Request>, key: Id, n: nat)
    requires n >= 1 && Answered(requests, n)
    ensures Admissions(requests, key) != [] ==> Queue(requests, key) != []
  {
    if requests != [] {
      LastIsHeld(requests[..|requests| - 1], key, n);
    }
  }

  lemma OneHeld(requests: seq<Request>, key: Id, now: real)
    requires Answered(requests, 1) && Admits(requests, key, now, 1)
    ensures var times := Admissions(requests, key); times != [] ==> now - times[|times| - 1] > SPAN
  {
    LastIsHeld(requests, key, 1);
    QueueShort(requests, key, 1);
    QueueIsEnd(requests, key);
    CutIsSuffix(Queue(requests, key), now - SPAN);
  }

  /** With a limit of one the lag does not matter: the queue always holds the last admission, so on any clock the
      next comes more than a minute after it. */
  lemma {:induction false} OneApart(requests: seq<Request>, key: Id)
    requires Answered(requests, 1)
    ensures Spaced(Admissions(requests, key), 1, SPAN)
  {
    if requests != [] {
      var front, r := requests[..|requests| - 1], requests[|requests| - 1];
      OneApart(front, key);
      if r.key == key && r.admitted {
        OneHeld(front, key, r.now);
        SpacedNext(Admissions(front, key), r.now, SPAN);
      } else {
        assert Admissions(front, key) + [] == Admissions(front, key);
      }
    }
  }

  lemma SpacedNext(times: seq<real>, t: real, gap: real)
    requires Spaced(times, 1, gap) && gap >= 0.0 && (times != [] ==> t - times[|times| - 1] > gap)
    ensures Spaced(times + [t], 1, gap)
  {
    forall i, j | 0 <= i <= j - 1 && j < |times + [t]| ensures (times + [t])[j] - (times + [t])[i] > gap {
      if j == |times| && i < |times| - 1 {
        assert times[|times| - 1] - times[i] > gap;
      }
    }
  }

  // ---- exactly which intervals the limit holds over ----

  /** Whatever a key's requests, with readings up to `lag` late, no closed interval of the width holds more than n
      of its admissions. */
  ghost predicate KeepsLimit(n: nat, lag: real, width: real) {
    forall requests, key, from, to {:trigger Answered(requests, n), CountIn(Admissions(requests, key), from, to)} ::
      Answered(requests, n) && LateBy(requests, key, lag) && to - from <= width ==>
        CountIn(Admissions(requests, key), from, to) <= n
  }

  /** The longest such interval: a minute less the lag, or, with a limit of one, a minute whatever the lag. */
  function Reach(n: nat, lag: real): real {
    if n == 1 then 60.0 else 60.0 - lag
  }

  /** A negative width leaves nothing to hold; any other is kept exactly up to that reach. */
  lemma LimitIsExact(n: nat, lag: real, width: real)
    requires n >= 1 && lag >= 0.0
    ensures KeepsLimit(n, lag, width) <==> width < 0.0 || width <= Reach(n, lag)
  {
    if width < 0.0 || width <= Reach(n, lag) {
      forall requests, key, from, to
        | Answered(requests, n) && LateBy(requests, key, lag) && to - from <= width
        ensures CountIn(Admissions(requests, key), from, to) <= n
      {
        LimitKept(requests, key, n, lag, width, from, to);
      }
    } else {
      var requests := Overrun(Id(""), n, lag, width);
      OverrunAnswered(Id(""), n, lag, width);
      OverrunLate(Id(""), n, lag, width);
      OverrunCount(n, lag, width);
      assert CountIn(Admissions(requests, Id("")), 0.0, width) > n;
    }
  }

  lemma LimitKept(requests: seq<Request>, key: Id, n: nat, lag: real, width: real, from: real, to: real)
    requires n >= 1 && Answered(requests, n) && LateBy(requests, key, lag)
    requires to - from <= width && (width < 0.0 || width <= Reach(n, lag))
    ensures CountIn(Admissions(requests, key), from, to) <= n
  {
    var times := Admissions(requests, key);
    if to < from {
      CountAll(times, from, to);
    } else if n == 1 {
      OneApart(requests, key);
      SpacedBounds(times, 1, SPAN, from, to);
    } else {
      AdmissionsApart(requests, key, n, lag);
      SpacedBounds(times, n, SPAN - lag, from, to);
    }
  }

  function Burst(key: Id, k: nat): seq<Request> {
    if k == 0 then [] else Burst(key, k - 1) + [Request(key, 0.0, true)]
  }

  function Zeros(k: nat): (s: seq<real>)
    ensures |s| == k && forall i :: 0 <= i < k ==> s[i] == 0.0
  {
    if k == 0 then [] else Zeros(k - 1) + [0.0]
  }

  /** n requests at once; for a limit above one, a request that clears the queue; and a last one, read `lag` before
      it. */
  function Overrun(key: Id, n: nat, lag: real, width: real): seq<Request> {
    Burst(key, n) + (if n == 1 then [] else [Request(key, width + lag, true)]) + [Request(key, width, true)]
  }

  function OverrunTimes(n: nat, lag: real, width: real): seq<real> {
    Zeros(n) + (if n == 1 then [] else [width + lag]) + [width]
  }

  lemma {:induction false} BurstAnswered(key: Id, k: nat, n: nat)
    requires k <= n
    ensures Answered(Burst(key, k), n) && Queue(Burst(key, k), key) == Admissions(Burst(key, k), key) == Zeros(k)
  {
    if k > 0 {
      BurstAnswered(key, k - 1, n);
      RequestsNext(Burst(key, k - 1), Request(key, 0.0, true), key);
      AnsweredNext(Burst(key, k - 1), Request(key, 0.0, true), n);
    }
  }

  lemma {:induction false} AllCut(q: seq<real>, cutoff: real)
    requires forall i :: 0 <= i < |q| ==> q[i] < cutoff
    ensures CutBefore(q, cutoff) == []
  {
    if q != [] {
      AllCut(q[1..], cutoff);
    }
  }

  /** A burst, and a request late enough to clear it. */
  lemma BurstCleared(key: Id, n: nat, now: real)
    requires n >= 1 && now > SPAN
    ensures var requests := Burst(key, n) + [Request(key, now, true)];
            Answered(requests, n) && Queue(requests, key) == [now] && Admissions(requests, key) == Zeros(n) + [now]
  {
    BurstAnswered(key, n, n);
    AllCut(Zeros(n), now - SPAN);
    RequestsNext(Burst(key, n), Request(key, now, true), key);
    AnsweredNext(Burst(key, n), Request(key, now, true), n);
    assert [] + [now] == [now];
  }

  lemma OverrunAnswered(key: Id, n: nat, lag: real, width: real)
    requires n >= 1 && lag >= 0.0 && width >= 0.0 && width > Reach(n, lag)
    ensures Answered(Overrun(key, n, lag, width), n)
    ensures Admissions(Overrun(key, n, lag, width), key) == OverrunTimes(n, lag, width)
  {
    var burst, top, last := Burst(key, n), Request(key, width + lag, true), Request(key, width, true);
    if n == 1 {
      BurstCleared(key, n, width);
      assert burst + [] == burst && Zeros(n) + [] == Zeros(n);
    } else {
      BurstCleared(key, n, width + lag);
      RequestsNext(burst + [top], last, key);
      AnsweredNext(burst + [top], last, n);
    }
  }

  lemma {:induction false} BurstAtZero(key: Id, k: nat)
    ensures |Burst(key, k)| == k && forall i :: 0 <= i < k ==> Burst(key, k)[i] == Request(key, 0.0, true)
  {
    if k > 0 {
      BurstAtZero(key, k - 1);
    }
  }

  lemma OverrunLate(key: Id, n: nat, lag: real, width: real)
    requires lag >= 0.0 && width >= 0.0
    ensures LateBy(Overrun(key, n, lag, width), key, lag)
  {
    BurstAtZero(key, n);
  }

  lemma OverrunCount(n: nat, lag: real, width: real)
    requires n >= 1 && width >= 0.0
    ensures CountIn(OverrunTimes(n, lag, width), 0.0, width) > n
  {
    var more := if n == 1 then [] else [width + lag];
    CountJoins(Zeros(n) + more, [width], 0.0, width);
    CountJoins(Zeros(n), more, 0.0, width);
    CountAll(Zeros(n), 0.0, width);
    CountAll([width], 0.0, width);
  }

  // ---- what the queue counts on a forward clock ----

  lemma {:induction false} CountJoins(a: seq<real>, b: seq<real>, from: real, to: real)
    ensures CountIn(a + b, from, to) == CountIn(a, from, to) + CountIn(b, from, to)
  {
    if a == [] {
      assert a + b == b;
    } else {
      assert (a + b)[1..] == a[1..] + b;
      CountJoins(a[1..], b, from, to);
    }
  }

  lemma {:induction false} CountAll(times: seq<real>, from: real, to: real)
    ensures (forall i :: 0 <= i < |times| ==> Within(times[i], from, to)) ==> CountIn(times, from, to) == |times|
    ensures (forall i :: 0 <= i < |times| ==> !Within(times[i], from, to)) ==> CountIn(times, from, to) == 0
  {
    if times != [] {
      CountAll(times[1..], from, to);
    }
  }

  ghost predicate Ascending(times: seq<real>) {
    forall i, j :: 0 <= i < j < |times| ==> times[i] <= times[j]
  }

  lemma {:induction false} AdmissionsAscend(requests: seq<Request>, key: Id, now: real)
    requires LateBy(requests, key, 0.0)
    requires forall i :: 0 <= i < |requests| && requests[i].key == key ==> requests[i].now <= now
    ensures Ascending(Admissions(requests, key) + [now])
  {
    if requests != [] {
      var front, r := requests[..|requests| - 1], requests[|requests| - 1];
      var t := if r.key == key then r.now else now;
      AdmissionsAscend(front, key, t);
      AscendingLater(Admissions(front, key), t, now);
      if !(r.key == key && r.admitted) {
        assert Admissions(front, key) + [] == Admissions(front, key);
      }
    }
  }

  lemma AscendingLater(times: seq<real>, t: real, now: real)
    requires Ascending(times + [t]) && t <= now
    ensures Ascending(times + [now]) && Ascending(times + [t] + [now])
  {
    forall i | 0 <= i < |times| ensures times[i] <= t {
      assert (times + [t])[i] <= (times + [t])[|times|];
    }
    forall i, j | 0 <= i < j < |times| ensures times[i] <= times[j] {
      assert (times + [t])[i] <= (times + [t])[j];
    }
  }

  /** On a clock that never goes back, what is left of the queue is exactly the admissions of the last minute. */
  lemma QueueIsLastMinute(requests: seq<Request>, r: Request)
    requires LateBy(requests + [r], r.key, 0.0)
    ensures |CutBefore(Queue(requests, r.key), r.now - SPAN)|
            == CountIn(Admissions(requests, r.key), r.now - SPAN, r.now)
  {
    var left := CutBefore(Queue(requests, r.key), r.now - SPAN);
    var gone := GoneAndLeft(requests, r);
    CutIsSuffix(Queue(requests, r.key), r.now - SPAN);
    ReadingsBefore(requests, r);
    AdmissionsAscend(requests, r.key, r.now);
    SplitCounts(gone, left, r.now);
  }

  /** The admissions before a request: those over a minute old at it, then what it leaves of the queue. */
  lemma GoneAndLeft(requests: seq<Request>, r: Request) returns (gone: seq<real>)
    requires LateBy(requests + [r], r.key, 0.0)
    ensures Admissions(requests, r.key) == gone + CutBefore(Queue(requests, r.key), r.now - SPAN)
    ensures forall i :: 0 <= i < |gone| ==> gone[i] < r.now - SPAN
  {
    gone := Gone(requests + [r], r.key);
    RequestsNext(requests, r, r.key);
    QueueIsEnd(requests + [r], r.key);
    SameEnd(gone, CutBefore(Queue(requests, r.key), r.now - SPAN), Admissions(requests, r.key),
            if r.admitted then [r.now] else []);
    forall i | 0 <= i < |gone| ensures gone[i] < r.now - SPAN {
      GoneOvertaken(requests + [r], r.key, i);
      OvertakenBy(requests + [r], r.key, 0.0, gone[i]);
    }
  }

  lemma SameEnd(gone: seq<real>, left: seq<real>, times: seq<real>, more: seq<real>)
    requires times + more == gone + (left + more)
    ensures times == gone + left
  {
    assert gone + (left + more) == (gone + left) + more;
    assert (times + more)[..|times|] == times && ((gone + left) + more)[..|times|] == gone + left;
  }

  lemma ReadingsBefore(requests: seq<Request>, r: Request)
    requires LateBy(requests + [r], r.key, 0.0)
    ensures LateBy(requests, r.key, 0.0)
    ensures forall i :: 0 <= i < |requests| && requests[i].key == r.key ==> requests[i].now <= r.now
  {
    var all := requests + [r];
    assert forall i :: 0 <= i < |requests| ==> all[i] == requests[i];
    assert all[|requests|] == r;
  }

  lemma SplitCounts(gone: seq<real>, left: seq<real>, now: real)
    requires Ascending(gone + left + [now]) && forall i :: 0 <= i < |gone| ==> gone[i] < now - SPAN
    requires left != [] ==> left[0] >= now - SPAN
    ensures CountIn(gone + left, now - SPAN, now) == |left|
  {
    CountJoins(gone, left, now - SPAN, now);
    CountAll(gone, now - SPAN, now);
    forall i | 0 <= i < |left| ensures Within(left[i], now - SPAN, now) {
      BetweenEnds(gone, left, now, i);
    }
    CountAll(left, now - SPAN, now);
  }

  lemma BetweenEnds(gone: seq<real>, left: seq<real>, now: real, i: nat)
    requires Ascending(gone + left + [now]) && i < |left|
    ensures left[0] <= left[i] <= now
  {
    var all := gone + left + [now];
    assert left[i] == all[|gone| + i] && left[0] == all[|gone|] && all[|gone| + |left|] == now;
  }

  // ---- the limiter ----

  function QueueIn(hits: map<Id, seq<real>>, key: Id): seq<real> {
    if key in hits then hits[key] else []
  }

  ghost predicate QueuesKept(hits: map<Id, seq<real>>, requests: seq<Request>) {
    forall key :: QueueIn(hits, key) == Queue(requests, key)
  }

  /** One answer by the rule keeps the books, and changes those of its own key only. */
  lemma AnswerKept(hits: map<Id, seq<real>>, requests: seq<Request>, n: int, key: Id, now: real, q: seq<real>)
    requires QueuesKept(hits, requests) && Answered(requests, n)
    requires var ok := Admits(requests, key, now, n);
             q == CutBefore(QueueIn(hits, key), now - SPAN) + (if ok then [now] else [])
    ensures var after := requests + [Request(key, now, Admits(requests, key, now, n))];
            QueuesKept(hits[key := q], after) && Answered(after, n)
  {
    var r := Request(key, now, Admits(requests, key, now, n));
    AnsweredNext(requests, r, n);
    forall k ensures QueueIn(hits[key := q], k) == Queue(requests + [r], k) {
      RequestsNext(requests, r, k);
    }
  }

  class RateLimiter {
    const perMinute: int
    var hits: map<Id, seq<real>>
    ghost var requests: seq<Request>

    constructor (perMinute: int)
      ensures Valid() && requests == [] && this.perMinute == perMinute
    {
      this.perMinute, hits, requests := perMinute, map[], [];
    }

    /** The queues are those of the run, and every request was answered by the rule; without a limit all are
        admitted and nothing is kept. */
    ghost predicate Valid()
      reads this
    {
      if perMinute > 0
      then Answered(requests, perMinute) && QueuesKept(hits, requests)
      else hits == map[] && forall k :: 0 <= k < |requests| ==> requests[k].admitted
    }

    /** Refuses, on any clock, exactly when the key's queue, cut to the last 60 seconds, is full; while the key
        has seen no reading go back, that is exactly when perMinute admissions of the key lie in those seconds.
        Only the key's own queue changes. */
    method Allow(key: Id, now: real) returns (ok: bool)
      requires Valid()
      modifies this
      ensures Valid() && requests == old(requests) + [Request(key, now, ok)]
      ensures perMinute <= 0 ==> ok
      ensures perMinute > 0 ==> (ok <==> Admits(old(requests), key, now, perMinute))
      ensures perMinute > 0 && LateBy(requests, key, 0.0) ==>
                (ok <==> CountIn(Admissions(old(requests), key), now - SPAN, now) < perMinute)
      ensures hits - {key} == old(hits) - {key}
    {
      if perMinute <= 0 {
        ok := true;
      } else {
        var q := CutOld(QueueIn(hits, key), now - SPAN);
        ok := |q| < perMinute;
        if ok {
          q := q + [now];
        }
        AnswerKept(hits, requests, perMinute, key, now, q);
        if LateBy(requests + [Request(key, now, ok)], key, 0.0) {
          QueueIsLastMinute(requests, Request(key, now, ok));
        }
        hits := hits[key := q];
      }
      requests := requests + [Request(key, now, ok)];
    }

    static method CutOld(q0: seq<real>, cutoff: real) returns (q: seq<real>)
      ensures q == CutBefore(q0, cutoff)
    {
      q := q0;
      while q != [] && q[0] < cutoff
        invariant CutBefore(q, cutoff) == CutBefore(q0, cutoff)
        decreases |q|
      {
        q := q[1..];
      }
    }

    /** Over any run, a closed interval no longer than the reach holds at most perMinute admissions of a key: with a
        limit of one, or on a clock that never goes back, any closed minute. */
    lemma EveryMinuteBounded(key: Id, lag: real, from: real, to: real)
      requires Valid() && perMinute > 0 && LateBy(requests, key, lag) && to - from <= Reach(perMinute, lag)
      ensures CountIn(Admissions(requests, key), from, to) <= perMinute
    {
      LimitKept(requests, key, perMinute, lag, Reach(perMinute, lag), from, to);
    }
  }
}
