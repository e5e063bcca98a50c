/** How good a flag threshold is on labelled points: the confusion counts, and the rounded rates made of them. */
module Metrics {
  import opened Base

  datatype Point = Point(score: real, drift: bool)

  datatype Tally = Tally(tp: nat, fp: nat, fn: nat, tn: nat)

  datatype Row = Row(threshold: real, tally: Tally, precision: Option<real>, recall: Option<real>, f1: real)

  // ---- rounding ----

  /** Nearest integer, halves to even. */
  function RoundInt(x: real): int {
    var n := x.Floor;
    var rest := x - n as real;
    if rest < 0.5 || (rest == 0.5 && n % 2 == 0) then n else n + 1
  }

  function Round3(x: real): real {
    RoundInt(x * 1000.0) as real / 1000.0
  }

  lemma RoundIntMonotone(x: real, y: real)
    requires x <= y
    ensures RoundInt(x) <= RoundInt(y)
  {
  }

  lemma Round3Monotone(x: real, y: real)
    requires x <= y
    ensures Round3(x) <= Round3(y)
  {
    RoundIntMonotone(x * 1000.0, y * 1000.0);
  }

  // ---- counting ----

  predicate Matches(p: Point, t: real, drift: bool, over: bool) {
    p.drift == drift && (p.score >= t) == over
  }

  /** One cell of the confusion table: labels that are drift or not, at or over the threshold or not. */
  function Cell(points: seq<Point>, t: real, drift: bool, over: bool): nat {
    if points == [] then 0
    else Cell(points[..|points| - 1], t, drift, over)
         + (if Matches(points[|points| - 1], t, drift, over) then 1 else 0)
  }

  function Counts(points: seq<Point>, t: real): Tally {
    Tally(Cell(points, t, true, true), Cell(points, t, false, true),
          Cell(points, t, true, false), Cell(points, t, false, false))
  }

  function Positives(points: seq<Point>): nat {
    if points == [] then 0 else Positives(points[..|points| - 1]) + (if points[|points| - 1].drift then 1 else 0)
  }

  /** At every threshold each label is counted once, and tp + fn are the positives. */
  lemma {:induction false} CountsPartition(points: seq<Point>, t: real)
    ensures var c := Counts(points, t);
            c.tp + c.fp + c.fn + c.tn == |points| && c.tp + c.fn == Positives(points)
  {
    if points != [] {
      CountsPartition(points[..|points| - 1], t);
    }
  }

  /** Raising the threshold never gains a true or a false positive. */
  lemma {:induction false} CountsFall(points: seq<Point>, low: real, high: real)
    requires low <= high
    ensures Counts(points, high).tp <= Counts(points, low).tp && Counts(points, high).fp <= Counts(points, low).fp
  {
    if points != [] {
      CountsFall(points[..|points| - 1], low, high);
    }
  }

  function Ratio(a: nat, b: nat): Option<real> {
    if a + b == 0 then None else Some(a as real / (a + b) as real)
  }

  function F1(precision: Option<real>, recall: Option<real>): real {
    if precision.Some? && recall.Some? && precision.value != 0.0 && recall.value != 0.0
       && precision.value + recall.value != 0.0
    then 2.0 * precision.value * recall.value / (precision.value + recall.value) else 0.0
  }

  function Rounded(x: Option<real>): Option<real> {
    if x.Some? then Some(Round3(x.value)) else None
  }

  /** The row of metrics for a tally. */
  function RowFor(t: real, c: Tally): Row {
    var precision, recall := Ratio(c.tp, c.fp), Ratio(c.tp, c.fn);
    Row(Round3(t), c, Rounded(precision), Rounded(recall), Round3(F1(precision, recall)))
  }

  method MetricsAt(points: seq<Point>, t: real) returns (row: Row)
    ensures row == RowFor(t, Counts(points, t)) && Measures(row, points, t)
  {
    var c := Confusion(points, t);
    row := RowFor(t, c);
    RowMeasures(points, t);
  }

  method Confusion(points: seq<Point>, t: real) returns (c: Tally)
    ensures c == Counts(points, t)
  {
    var tp, fp, fn, tn := 0, 0, 0, 0;
    for k := 0 to |points|
      invariant tp == Cell(points[..k], t, true, true) && fp == Cell(points[..k], t, false, true)
      invariant fn == Cell(points[..k], t, true, false) && tn == Cell(points[..k], t, false, false)
    {
      var p := points[k];
      assert points[..k + 1][..|points[..k + 1]| - 1] == points[..k];
      var predicted := p.score >= t;
      if p.drift && predicted {
        tp := tp + 1;
      } else if p.drift && !predicted {
        fn := fn + 1;
      } else if !p.drift && predicted {
        fp := fp + 1;
      } else {
        tn := tn + 1;
      }
    }
    assert points[..|points|] == points;
    c := Tally(tp, fp, fn, tn);
  }

  // ---- what the counts and the rates are ----

  /** The labels of one kind at or over the threshold, or under it. */
  ghost function Where(points: seq<Point>, t: real, drift: bool, over: bool): set<nat> {
    set i: nat | i < |points| && points[i].drift == drift && (points[i].score >= t <==> over)
  }

  lemma {:induction false} CellIsSize(points: seq<Point>, t: real, drift: bool, over: bool)
    ensures Cell(points, t, drift, over) == |Where(points, t, drift, over)|
  {
    if points == [] {
      assert Where(points, t, drift, over) == {};
    } else {
      CellIsSize(points[..|points| - 1], t, drift, over);
      WhereGrows(points, t, drift, over);
    }
  }

  lemma WhereGrows(points: seq<Point>, t: real, drift: bool, over: bool)
    requires points != []
    ensures var n := |points| - 1;
            |Where(points, t, drift, over)| ==
            |Where(points[..n], t, drift, over)| + (if Matches(points[n], t, drift, over) then 1 else 0)
  {
    var n := |points| - 1;
    var before, all := Where(points[..n], t, drift, over), Where(points, t, drift, over);
    forall i: nat ensures i in all - {n} <==> i in before {
      if i < n {
        assert points[..n][i] == points[i];
      }
    }
    assert all - {n} == before && (n in all <==> Matches(points[n], t, drift, over));
  }

  /** Drift labels at or over the threshold, and all labels there. */
  ghost function Hits(points: seq<Point>, t: real): nat {
    |set i: nat | i < |points| && points[i].drift && points[i].score >= t|
  }

  ghost function Over(points: seq<Point>, t: real): nat {
    |set i: nat | i < |points| && points[i].score >= t|
  }

  ghost function Drifts(points: seq<Point>): nat {
    |set i: nat | i < |points| && points[i].drift|
  }

  lemma CountsAre(points: seq<Point>, t: real)
    ensures var c := Counts(points, t);
            c.tp == Hits(points, t) && c.tp + c.fp == Over(points, t) && c.tp + c.fn == Drifts(points)
            && Positives(points) == Drifts(points)
  {
    CellIsSize(points, t, true, true);
    CellIsSize(points, t, false, true);
    CellIsSize(points, t, true, false);
    CountsPartition(points, t);
    var hits, wrong := Where(points, t, true, true), Where(points, t, false, true);
    var missed := Where(points, t, true, false);
    assert hits == set i: nat | i < |points| && points[i].drift && points[i].score >= t;
    assert hits + wrong == set i: nat | i < |points| && points[i].score >= t;
    assert hits + missed == set i: nat | i < |points| && points[i].drift;
    assert |hits + wrong| == |hits| + |wrong| && |hits + missed| == |hits| + |missed|;
  }

  /** k is an integer nearest to y, and an even one when y lies halfway. */
  predicate Nearest(y: real, k: int) {
    -0.5 < y - k as real < 0.5 || (k % 2 == 0 && -0.5 <= y - k as real <= 0.5)
  }

  /** Rounding to three places moves a number to the nearest thousandth, and halves to an even last digit. */
  lemma RoundedNearest(x: real, k: int)
    ensures Round3(x) == k as real / 1000.0 <==> Nearest(x * 1000.0, k)
  {
    NearestInt(x * 1000.0, k);
  }

  lemma NearestInt(y: real, k: int)
    ensures k == RoundInt(y) <==> Nearest(y, k)
  {
    if Nearest(y, k) {
      assert -1 <= k - RoundInt(y) <= 1;
    }
  }

  /** The share of drift among the labels at or over the threshold is the reported precision, rounded; the share of
      drift at or over it among all drift is the recall; and F1 is their harmonic mean, in counted labels. */
  ghost predicate Measures(row: Row, points: seq<Point>, t: real) {
    var (h, o, d) := (Hits(points, t), Over(points, t), Drifts(points));
    && row.threshold == Round3(t) && row.tally.tp == h && row.tally.tp + row.tally.fp == o
    && row.tally.tp + row.tally.fn == d && row.tally.tp + row.tally.fp + row.tally.fn + row.tally.tn == |points|
    && row.precision == (if o == 0 then None else Some(Round3(h as real / o as real)))
    && row.recall == (if d == 0 then None else Some(Round3(h as real / d as real)))
    && row.f1 == (if h == 0 then 0.0 else Round3(2.0 * h as real / (o + d) as real))
  }

  lemma RowMeasures(points: seq<Point>, t: real)
    ensures Measures(RowFor(t, Counts(points, t)), points, t)
  {
    CountsAre(points, t);
    CountsPartition(points, t);
    HarmonicMean(Counts(points, t));
  }

  lemma HarmonicMean(c: Tally)
    ensures F1(Ratio(c.tp, c.fp), Ratio(c.tp, c.fn)) ==
            if c.tp == 0 then 0.0 else 2.0 * c.tp as real / (2 * c.tp + c.fp + c.fn) as real
  {
    if c.tp > 0 {
      var a, b, h := (c.tp + c.fp) as real, (c.tp + c.fn) as real, c.tp as real;
      PositiveQuotient(h, a);
      PositiveQuotient(h, b);
      Harmonic(h / a, h / b, a, b, h);
    } else {
      ZeroShare(c.fp);
    }
  }

  lemma PositiveQuotient(h: real, a: real)
    requires h > 0.0 && a > 0.0
    ensures h / a > 0.0 && h / a * a == h
  {
  }

  lemma ZeroShare(n: nat)
    ensures Ratio(0, n).Some? ==> Ratio(0, n).value == 0.0
  {
  }

  lemma Harmonic(p: real, r: real, a: real, b: real, h: real)
    requires p > 0.0 && r > 0.0 && a > 0.0 && b > 0.0 && h > 0.0 && p * a == h && r * b == h
    ensures p + r != 0.0 && 2.0 * p * r / (p + r) == 2.0 * h / (a + b)
  {
    assert p * r * (a + b) == r * (p * a) + p * (r * b);
    assert p * r * (a + b) == h * (p + r);
    assert 2.0 * p * r / (p + r) * (p + r) == 2.0 * p * r;
    assert 2.0 * h / (a + b) * (a + b) == 2.0 * h;
    SameQuotient(2.0 * p * r, p + r, 2.0 * h, a + b);
  }

  lemma SameQuotient(x: real, m: real, y: real, n: real)
    requires m > 0.0 && n > 0.0 && x * n == y * m
    ensures x / m == y / n
  {
    assert x == (x / m) * m && y == (y / n) * n;
    assert ((x / m) - (y / n)) * (m * n) == x * n - y * m;
    assert m * n > 0.0;
  }
}
