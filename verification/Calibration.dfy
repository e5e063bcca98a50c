/** Choosing a flag threshold from human labels: the sweep, the recommendation, and the report per workflow. */
module Calibration {
  import opened Base
  import opened Search
  import opened Store
  import opened Metrics

  // ---- the sweep ----

  function Steps(gridStep: real): nat
    requires gridStep > 0.0
  {
    var n := RoundInt(1.0 / gridStep);
    if n < 1 then 1 else n
  }

  function GridAt(gridStep: real, i: nat): real {
    Round3(i as real * gridStep)
  }

  lemma GridAscends(gridStep: real, i: nat, j: nat)
    requires gridStep > 0.0 && i <= j
    ensures GridAt(gridStep, i) <= GridAt(gridStep, j)
  {
    assert (j - i) as real * gridStep >= 0.0;
    assert j as real * gridStep == i as real * gridStep + (j - i) as real * gridStep;
    Round3Monotone(i as real * gridStep, j as real * gridStep);
  }

  /** The rows of a sweep, in ascending order of threshold. */
  ghost predicate IsSweep(points: seq<Point>, gridStep: real, grid: seq<Row>)
    requires gridStep > 0.0
  {
    && |grid| == Steps(gridStep) + 1
    && forall i :: 0 <= i < |grid| ==> grid[i] == RowFor(GridAt(gridStep, i), Counts(points, GridAt(gridStep, i)))
  }

  method Sweep(points: seq<Point>, gridStep: real) returns (grid: seq<Row>)
    requires gridStep > 0.0
    ensures IsSweep(points, gridStep, grid)
  {
    grid := [];
    for i := 0 to Steps(gridStep) + 1
      invariant |grid| == i
      invariant forall j :: 0 <= j < i ==> grid[j] == RowFor(GridAt(gridStep, j), Counts(points, GridAt(gridStep, j)))
    {
      var row := MetricsAt(points, GridAt(gridStep, i));
      grid := grid + [row];
    }
  }

  // ---- the recommendation ----

  const MIN_LABELS := 10

  datatype Choice = TooFewLabels | NoThreshold | Chosen(row: Row, delta: real)

  datatype Advice = Advice(labels: nat, positives: nat, current: Row, grid: seq<Row>, sufficient: bool, choice: Choice)

  predicate Eligible(r: Row, target: real) {
    r.precision.Some? && r.precision.value >= target && r.tally.tp > 0
  }

  function Abs(x: real): real {
    if x < 0.0 then -x else x
  }

  /** The lowest eligible threshold, and with it the best recall the required precision allows. */
  ghost predicate BestRecall(grid: seq<Row>, target: real, r: Row) {
    && r in grid && Eligible(r, target)
    && forall i :: 0 <= i < |grid| && Eligible(grid[i], target) ==>
         && r.threshold <= grid[i].threshold && grid[i].tally.tp <= r.tally.tp
         && grid[i].recall.Some? && r.recall.Some? && grid[i].recall.value <= r.recall.value
  }

  /** The best F1, nearest to the current threshold among equals. */
  ghost predicate BestF1(grid: seq<Row>, current: real, r: Row) {
    && r in grid
    && forall i :: 0 <= i < |grid| ==>
         && grid[i].f1 <= r.f1
         && (grid[i].f1 == r.f1 ==> Abs(r.threshold - current) <= Abs(grid[i].threshold - current))
  }

  /** Row `at` is the first of the eligible rows with the lowest threshold. */
  ghost predicate LowestAt(grid: seq<Row>, target: real, at: nat) {
    && at < |grid| && Eligible(grid[at], target)
    && forall j :: 0 <= j < |grid| && Eligible(grid[j], target) ==>
         grid[at].threshold < grid[j].threshold || (grid[at].threshold == grid[j].threshold && at <= j)
  }

  method LowestEligible(grid: seq<Row>, target: real, current: real) returns (best: Option<Row>, ghost at: nat)
    ensures best.None? <==> forall i :: 0 <= i < |grid| ==> !Eligible(grid[i], target)
    ensures best.Some? ==> LowestAt(grid, target, at) && grid[at] == best.value
  {
    best, at := None, 0;
    for k := 0 to |grid|
      invariant best.None? <==> forall i :: 0 <= i < k ==> !Eligible(grid[i], target)
      invariant best.Some? ==> 0 <= at < k && grid[at] == best.value && Eligible(grid[at], target)
      invariant best.Some? ==> forall j :: 0 <= j < k && Eligible(grid[j], target) ==>
                  best.value.threshold < grid[j].threshold || (best.value.threshold == grid[j].threshold && at <= j)
    {
      var r := grid[k];
      if Eligible(r, target)
         && (best.None? || r.threshold < best.value.threshold
             || (r.threshold == best.value.threshold
                 && Abs(r.threshold - current) < Abs(best.value.threshold - current))) {
        best, at := Some(r), k;
      }
    }
  }

  method HighestF1(grid: seq<Row>, current: real) returns (best: Row)
    requires grid != []
    ensures BestF1(grid, current, best)
  {
    best := grid[0];
    for k := 1 to |grid|
      invariant best in grid
      invariant forall i :: 0 <= i < k ==>
                  && grid[i].f1 <= best.f1
                  && (grid[i].f1 == best.f1 ==> Abs(best.threshold - current) <= Abs(grid[i].threshold - current))
    {
      var r := grid[k];
      if r.f1 > best.f1 || (r.f1 == best.f1 && Abs(r.threshold - current) < Abs(best.threshold - current)) {
        best := r;
      }
    }
  }

  /** On a sweep, the lowest eligible threshold has maximal recall. */
  lemma LowestHasBestRecall(points: seq<Point>, gridStep: real, grid: seq<Row>, target: real, at: nat)
    requires gridStep > 0.0 && IsSweep(points, gridStep, grid) && Positives(points) > 0
    requires LowestAt(grid, target, at)
    ensures BestRecall(grid, target, grid[at])
  {
    forall j | 0 <= j < |grid| && Eligible(grid[j], target)
      ensures grid[at].threshold <= grid[j].threshold && grid[j].tally.tp <= grid[at].tally.tp
      ensures grid[j].recall.Some? && grid[at].recall.Some? && grid[j].recall.value <= grid[at].recall.value
    {
      EarlierOnGrid(gridStep, at, j);
      RecallFalls(points, GridAt(gridStep, at), GridAt(gridStep, j));
    }
  }

  /** On the grid the order of the reported thresholds is the order of the thresholds. */
  lemma EarlierOnGrid(gridStep: real, at: nat, j: nat)
    requires gridStep > 0.0
    requires Round3(GridAt(gridStep, at)) < Round3(GridAt(gridStep, j))
             || (Round3(GridAt(gridStep, at)) == Round3(GridAt(gridStep, j)) && at <= j)
    ensures GridAt(gridStep, at) <= GridAt(gridStep, j)
  {
    if j < at {
      GridAscends(gridStep, j, at);
      Round3Monotone(GridAt(gridStep, j), GridAt(gridStep, at));
    } else {
      GridAscends(gridStep, at, j);
    }
  }

  lemma RecallFalls(points: seq<Point>, low: real, high: real)
    requires low <= high && Positives(points) > 0
    ensures Counts(points, high).tp <= Counts(points, low).tp
    ensures var (r, s) := (RowFor(high, Counts(points, high)).recall, RowFor(low, Counts(points, low)).recall);
            r.Some? && s.Some? && r.value <= s.value
  {
    CountsFall(points, low, high);
    CountsPartition(points, low);
    CountsPartition(points, high);
    var n := Positives(points) as real;
    Quotients(Counts(points, high).tp as real, Counts(points, low).tp as real, n);
    Round3Monotone(Counts(points, high).tp as real / n, Counts(points, low).tp as real / n);
  }

  lemma Quotients(a: real, b: real, n: real)
    requires a <= b && n > 0.0
    ensures a / n <= b / n
  {
  }

  method CountPositives(points: seq<Point>) returns (n: nat)
    ensures n == Positives(points)
  {
    n := 0;
    for k := 0 to |points|
      invariant n == Positives(points[..k])
    {
      assert points[..k + 1][..|points[..k + 1]| - 1] == points[..k];
      if points[k].drift {
        n := n + 1;
      }
    }
    assert points[..|points|] == points;
  }

  /** What a choice may be, when the labels suffice. */
  ghost predicate RightChoice(choice: Choice, grid: seq<Row>, current: real, target: Option<real>) {
    match choice
    case TooFewLabels => false
    case NoThreshold => target.Some? && forall i :: 0 <= i < |grid| ==> !Eligible(grid[i], target.value)
    case Chosen(row, delta) =>
      && delta == Round3(row.threshold - current)
      && (target.Some? ==> BestRecall(grid, target.value, row))
      && (target.None? ==> BestF1(grid, current, row))
  }

  /** What an advice may say about its labels. */
  ghost predicate Sound(a: Advice, points: seq<Point>, current: real, target: Option<real>, gridStep: real)
    requires gridStep > 0.0
  {
    && a.labels == |points| && a.positives == Positives(points) && a.sufficient == (|points| >= MIN_LABELS)
    && a.current == RowFor(current, Counts(points, current)) && IsSweep(points, gridStep, a.grid)
    && (if |points| < MIN_LABELS || Positives(points) == 0 then a.choice == TooFewLabels
        else RightChoice(a.choice, a.grid, current, target))
  }

  // ---- the advice in counted labels ----

  /** Some drift scores at or over t, and it is the required share of all labels there, to three places. */
  ghost predicate Meets(points: seq<Point>, t: real, target: real) {
    Hits(points, t) > 0 && Over(points, t) > 0
    && Round3(Hits(points, t) as real / Over(points, t) as real) >= target
  }

  /** Twice the hits over the labels at or over t and the drift labels together, to three places. */
  ghost function HitRate(points: seq<Point>, t: real): real {
    if Hits(points, t) == 0 || Over(points, t) == 0 then 0.0
    else Round3(2.0 * Hits(points, t) as real / (Over(points, t) + Drifts(points)) as real)
  }

  /** What an advice says of the labels: with too few there is no threshold; with a target it is the lowest one of
      the grid that meets it, if any does; without one the best by hit rate, nearest to the current among equals. */
  ghost predicate Meant(a: Advice, points: seq<Point>, current: real, target: Option<real>, gridStep: real) {
    if |points| < 10 || Drifts(points) == 0 then a.choice == TooFewLabels else
    match a.choice
    case TooFewLabels => false
    case NoThreshold =>
      target.Some? && forall j :: 0 <= j < |a.grid| ==> !Meets(points, GridAt(gridStep, j), target.value)
    case Chosen(row, delta) =>
      exists i :: 0 <= i < |a.grid| && row == a.grid[i] && delta == Round3(GridAt(gridStep, i) - current)
                  && PickedAt(points, gridStep, |a.grid|, row.threshold, i, current, target)
  }

  ghost predicate PickedAt(points: seq<Point>, gridStep: real, n: nat, threshold: real, i: nat, current: real,
                           target: Option<real>) {
    && threshold == GridAt(gridStep, i)
    && if target.Some? then FirstToMeet(points, gridStep, n, i, target.value)
       else BestRate(points, gridStep, n, i, current)
  }

  ghost predicate FirstToMeet(points: seq<Point>, gridStep: real, n: nat, i: nat, target: real) {
    && Meets(points, GridAt(gridStep, i), target)
    && forall j :: 0 <= j < n && GridAt(gridStep, j) < GridAt(gridStep, i) ==>
         !Meets(points, GridAt(gridStep, j), target)
  }

  ghost predicate BestRate(points: seq<Point>, gridStep: real, n: nat, i: nat, current: real) {
    forall j :: 0 <= j < n ==>
      && HitRate(points, GridAt(gridStep, j)) <= HitRate(points, GridAt(gridStep, i))
      && (HitRate(points, GridAt(gridStep, j)) == HitRate(points, GridAt(gridStep, i)) ==>
            Nearer(GridAt(gridStep, i), GridAt(gridStep, j), current))
  }

  /** x is no farther from c than y is. */
  predicate Nearer(x: real, y: real, c: real) {
    if y >= c then 2.0 * c - y <= x <= y else y <= x <= 2.0 * c - y
  }

  /** So at the chosen threshold the hits are the target share of the labels, up to the rounding. */
  lemma MetShare(points: seq<Point>, t: real, target: real)
    requires Meets(points, t, target)
    ensures Hits(points, t) as real >= (target - 0.0005) * Over(points, t) as real
  {
    var h, o := Hits(points, t) as real, Over(points, t) as real;
    var q := h / o;
    assert q * o == h;
    NearestInt(q * 1000.0, RoundInt(q * 1000.0));
    assert q >= target - 0.0005;
    Scaled(target - 0.0005, q, o);
  }

  lemma Scaled(a: real, b: real, o: real)
    requires a <= b && o > 0.0
    ensures a * o <= b * o
  {
  }

  /** The thresholds of the grid have three places, so reporting them loses nothing; and a step that divides 1
      spans the grid from 0 to 1 exactly. */
  lemma GridFixed(gridStep: real, i: nat)
    ensures Round3(GridAt(gridStep, i)) == GridAt(gridStep, i)
  {
    var k := RoundInt(i as real * gridStep * 1000.0);
    assert GridAt(gridStep, i) * 1000.0 == k as real;
    NearestInt(k as real, k);
  }

  lemma GridSpans(n: nat, step: real)
    requires n > 0 && step > 0.0 && n as real * step == 1.0
    ensures Steps(step) == n && GridAt(step, 0) == 0.0 && GridAt(step, n) == 1.0
  {
    StepsOf(n, step);
    FirstOfGrid(step);
    LastOfGrid(n, step);
  }

  lemma StepsOf(n: nat, step: real)
    requires n > 0 && step > 0.0 && n as real * step == 1.0
    ensures Steps(step) == n
  {
    Reciprocal(n as real, step);
    NearestInt(n as real, n);
  }

  lemma FirstOfGrid(step: real)
    ensures GridAt(step, 0) == 0.0
  {
    assert 0 as real * step == 0.0;
    RoundedNearest(0.0, 0);
  }

  lemma LastOfGrid(n: nat, step: real)
    requires n as real * step == 1.0
    ensures GridAt(step, n) == 1.0
  {
    RoundedNearest(1.0, 1000);
  }

  lemma Reciprocal(n: real, r: real)
    requires n > 0.0 && r > 0.0 && n * r == 1.0
    ensures 1.0 / r == n
  {
    assert 1.0 / r * r == 1.0;
    assert (1.0 / r - n) * r == 0.0;
  }

  /** What a row of the sweep says. */
  lemma RowSays(points: seq<Point>, gridStep: real, grid: seq<Row>, i: nat, target: real)
    requires gridStep > 0.0 && IsSweep(points, gridStep, grid) && i < |grid|
    ensures grid[i].threshold == GridAt(gridStep, i) && grid[i].f1 == HitRate(points, GridAt(gridStep, i))
    ensures Eligible(grid[i], target) <==> Meets(points, GridAt(gridStep, i), target)
  {
    var t, r := GridAt(gridStep, i), grid[i];
    assert r == RowFor(t, Counts(points, t));
    RowMeasures(points, t);
    GridFixed(gridStep, i);
    assert r.tally.tp + r.tally.fp == Over(points, t) && r.tally.tp == Hits(points, t);
  }

  lemma FirstIsLowest(points: seq<Point>, gridStep: real, grid: seq<Row>, target: real, i: nat)
    requires gridStep > 0.0 && IsSweep(points, gridStep, grid) && i < |grid| && BestRecall(grid, target, grid[i])
    ensures FirstToMeet(points, gridStep, |grid|, i, target)
  {
    RowSays(points, gridStep, grid, i, target);
    forall j | 0 <= j < |grid| && GridAt(gridStep, j) < GridAt(gridStep, i)
      ensures !Meets(points, GridAt(gridStep, j), target)
    {
      RowSays(points, gridStep, grid, j, target);
    }
  }

  lemma BestIsBest(points: seq<Point>, gridStep: real, grid: seq<Row>, current: real, i: nat)
    requires gridStep > 0.0 && IsSweep(points, gridStep, grid) && i < |grid| && BestF1(grid, current, grid[i])
    ensures BestRate(points, gridStep, |grid|, i, current)
  {
    RowSays(points, gridStep, grid, i, 0.0);
    forall j | 0 <= j < |grid|
      ensures HitRate(points, GridAt(gridStep, j)) <= HitRate(points, GridAt(gridStep, i))
      ensures HitRate(points, GridAt(gridStep, j)) == HitRate(points, GridAt(gridStep, i)) ==>
                Nearer(GridAt(gridStep, i), GridAt(gridStep, j), current)
    {
      RowSays(points, gridStep, grid, j, 0.0);
    }
  }

  lemma NoneMeets(points: seq<Point>, gridStep: real, grid: seq<Row>, target: real)
    requires gridStep > 0.0 && IsSweep(points, gridStep, grid)
    requires forall i :: 0 <= i < |grid| ==> !Eligible(grid[i], target)
    ensures forall j :: 0 <= j < |grid| ==> !Meets(points, GridAt(gridStep, j), target)
  {
    forall j | 0 <= j < |grid| ensures !Meets(points, GridAt(gridStep, j), target) {
      RowSays(points, gridStep, grid, j, target);
    }
  }

  lemma PickIsRight(points: seq<Point>, gridStep: real, grid: seq<Row>, row: Row, current: real, target: Option<real>)
    returns (i: nat)
    requires gridStep > 0.0 && IsSweep(points, gridStep, grid)
    requires if target.Some? then BestRecall(grid, target.value, row) else BestF1(grid, current, row)
    ensures i < |grid| && grid[i] == row && PickedAt(points, gridStep, |grid|, row.threshold, i, current, target)
  {
    i :| 0 <= i < |grid| && grid[i] == row;
    RowSays(points, gridStep, grid, i, 0.0);
    if target.Some? {
      FirstIsLowest(points, gridStep, grid, target.value, i);
    } else {
      BestIsBest(points, gridStep, grid, current, i);
    }
  }

  lemma AdviceMeant(a: Advice, points: seq<Point>, current: real, target: Option<real>, gridStep: real)
    requires gridStep > 0.0 && Sound(a, points, current, target, gridStep)
    ensures Meant(a, points, current, target, gridStep)
  {
    CountsAre(points, 0.0);
    match a.choice
    case TooFewLabels =>
    case NoThreshold => NoneMeets(points, gridStep, a.grid, target.value);
    case Chosen(row, delta) =>
      var i := PickIsRight(points, gridStep, a.grid, row, current, target);
  }

  method Recommend(points: seq<Point>, current: real, target: Option<real>, gridStep: real) returns (a: Advice)
    requires gridStep > 0.0
    ensures Sound(a, points, current, target, gridStep) && Meant(a, points, current, target, gridStep)
  {
    var positives := CountPositives(points);
    var grid := Sweep(points, gridStep);
    var row := MetricsAt(points, current);
    a := Advice(|points|, positives, row, grid, |points| >= MIN_LABELS, TooFewLabels);
    if |points| >= MIN_LABELS && positives != 0 {
      var choice := Choose(points, current, target, gridStep, grid);
      a := a.(choice := choice);
    }
    AdviceMeant(a, points, current, target, gridStep);
  }

  method Choose(points: seq<Point>, current: real, target: Option<real>, gridStep: real, grid: seq<Row>)
    returns (choice: Choice)
    requires gridStep > 0.0 && IsSweep(points, gridStep, grid) && Positives(points) > 0
    ensures RightChoice(choice, grid, current, target)
  {
    if target.Some? {
      var found, at := LowestEligible(grid, target.value, current);
      if found.None? {
        return NoThreshold;
      }
      LowestHasBestRecall(points, gridStep, grid, target.value, at);
      choice := Chosen(found.value, Round3(found.value.threshold - current));
    } else {
      var best := HighestF1(grid, current);
      choice := Chosen(best, Round3(best.threshold - current));
    }
  }

  // ---- the report per workflow ----

  datatype Label = TruePositive | FalsePositive | OtherLabel

  datatype Labelled = Labelled(score: real, mark: Label, workflow: Id)

  predicate Counted(x: Labelled) {
    x.mark != OtherLabel
  }

  function PointOf(x: Labelled): Point {
    Point(x.score, x.mark == TruePositive)
  }

  /** The labels of one workflow, and all labels that count, in their order. */
  function Group(xs: seq<Labelled>, w: Id): seq<Point> {
    if xs == [] then [] else
    var x := xs[|xs| - 1];
    Group(xs[..|xs| - 1], w) + (if Counted(x) && x.workflow == w then [PointOf(x)] else [])
  }

  function AllCounted(xs: seq<Labelled>): seq<Point> {
    if xs == [] then [] else
    AllCounted(xs[..|xs| - 1]) + (if Counted(xs[|xs| - 1]) then [PointOf(xs[|xs| - 1])] else [])
  }

  /** The groups one after another, and the sum of their cells. */
  function Pooled(xs: seq<Labelled>, keys: seq<Id>): seq<Point> {
    if keys == [] then [] else Pooled(xs, keys[..|keys| - 1]) + Group(xs, keys[|keys| - 1])
  }

  function SumOfCells(xs: seq<Labelled>, keys: seq<Id>, t: real, drift: bool, over: bool): nat {
    if keys == [] then 0
    else SumOfCells(xs, keys[..|keys| - 1], t, drift, over) + Cell(Group(xs, keys[|keys| - 1]), t, drift, over)
  }

  lemma {:induction false} CellJoins(a: seq<Point>, b: seq<Point>, t: real, drift: bool, over: bool)
    ensures Cell(a + b, t, drift, over) == Cell(a, t, drift, over) + Cell(b, t, drift, over)
  {
    if b == [] {
      assert a + b == a;
    } else {
      CellJoins(a, b[..|b| - 1], t, drift, over);
      assert (a + b)[..|a + b| - 1] == a + b[..|b| - 1];
    }
  }

  lemma {:induction false} PooledCells(xs: seq<Labelled>, keys: seq<Id>, t: real, drift: bool, over: bool)
    ensures Cell(Pooled(xs, keys), t, drift, over) == SumOfCells(xs, keys, t, drift, over)
  {
    if keys != [] {
      PooledCells(xs, keys[..|keys| - 1], t, drift, over);
      CellJoins(Pooled(xs, keys[..|keys| - 1]), Group(xs, keys[|keys| - 1]), t, drift, over);
    }
  }

  lemma CellSnoc(ps: seq<Point>, p: Point, t: real, drift: bool, over: bool)
    ensures Cell(ps + [p], t, drift, over) == Cell(ps, t, drift, over) + (if Matches(p, t, drift, over) then 1 else 0)
  {
    assert (ps + [p])[..|ps + [p]| - 1] == ps;
  }

  lemma GroupGrows(xs: seq<Labelled>, w: Id, t: real, drift: bool, over: bool)
    requires xs != []
    ensures var x := xs[|xs| - 1];
            Cell(Group(xs, w), t, drift, over) == Cell(Group(xs[..|xs| - 1], w), t, drift, over)
              + (if Counted(x) && x.workflow == w && Matches(PointOf(x), t, drift, over) then 1 else 0)
  {
    CellSnoc(Group(xs[..|xs| - 1], w), PointOf(xs[|xs| - 1]), t, drift, over);
    assert Group(xs[..|xs| - 1], w) + [] == Group(xs[..|xs| - 1], w);
  }

  lemma AllGrows(xs: seq<Labelled>, t: real, drift: bool, over: bool)
    requires xs != []
    ensures var x := xs[|xs| - 1];
            Cell(AllCounted(xs), t, drift, over) == Cell(AllCounted(xs[..|xs| - 1]), t, drift, over)
              + (if Counted(x) && Matches(PointOf(x), t, drift, over) then 1 else 0)
  {
    CellSnoc(AllCounted(xs[..|xs| - 1]), PointOf(xs[|xs| - 1]), t, drift, over);
    assert AllCounted(xs[..|xs| - 1]) + [] == AllCounted(xs[..|xs| - 1]);
  }

  /** One more label adds to exactly one group's cell. */
  lemma {:induction false} SumGrows(xs: seq<Labelled>, keys: seq<Id>, t: real, drift: bool, over: bool)
    requires xs != [] && NoDup(keys)
    ensures var x := xs[|xs| - 1];
            SumOfCells(xs, keys, t, drift, over) == SumOfCells(xs[..|xs| - 1], keys, t, drift, over)
              + (if Counted(x) && x.workflow in keys && Matches(PointOf(x), t, drift, over) then 1 else 0)
  {
    if keys != [] {
      var front, last := keys[..|keys| - 1], keys[|keys| - 1];
      SumGrows(xs, front, t, drift, over);
      GroupGrows(xs, last, t, drift, over);
      LastIsNew(keys, xs[|xs| - 1].workflow);
    }
  }

  lemma LastIsNew(keys: seq<Id>, w: Id)
    requires keys != [] && NoDup(keys)
    ensures w in keys <==> w in keys[..|keys| - 1] || w == keys[|keys| - 1]
    ensures keys[|keys| - 1] !in keys[..|keys| - 1]
  {
  }

  lemma {:induction false} EmptySum(xs: seq<Labelled>, keys: seq<Id>, t: real, drift: bool, over: bool)
    requires xs == []
    ensures SumOfCells(xs, keys, t, drift, over) == 0
  {
    if keys != [] {
      EmptySum(xs, keys[..|keys| - 1], t, drift, over);
    }
  }

  /** For any partition of the labels by workflow, the groups' confusion counts sum to the overall ones. */
  lemma {:induction false} GroupsSumToAll(xs: seq<Labelled>, keys: seq<Id>, t: real, drift: bool, over: bool)
    requires NoDup(keys) && forall i :: 0 <= i < |xs| && Counted(xs[i]) ==> xs[i].workflow in keys
    ensures SumOfCells(xs, keys, t, drift, over) == Cell(AllCounted(xs), t, drift, over)
    ensures Cell(Pooled(xs, keys), t, drift, over) == Cell(AllCounted(xs), t, drift, over)
  {
    PooledCells(xs, keys, t, drift, over);
    if xs == [] {
      EmptySum(xs, keys, t, drift, over);
    } else {
      GroupsSumToAll(xs[..|xs| - 1], keys, t, drift, over);
      SumGrows(xs, keys, t, drift, over);
      AllGrows(xs, t, drift, over);
    }
  }

  // ---- the groups in terms of the labels ----

  /** The true positives, or the false ones, at or over the threshold, or under it; of one workflow or of all. */
  ghost function Marked(xs: seq<Labelled>, w: Option<Id>, t: real, drift: bool, over: bool): set<nat> {
    set i: nat | i < |xs| && xs[i].mark == (if drift then TruePositive else FalsePositive)
                 && (xs[i].score >= t <==> over) && (w.None? || xs[i].workflow == w.value)
  }

  function Part(xs: seq<Labelled>, w: Option<Id>): seq<Point> {
    if w.Some? then Group(xs, w.value) else AllCounted(xs)
  }

  /** A cell counts exactly those labels; an uncertain one is in no cell. */
  lemma {:induction false} CellOfLabels(xs: seq<Labelled>, w: Option<Id>, t: real, drift: bool, over: bool)
    ensures Cell(Part(xs, w), t, drift, over) == |Marked(xs, w, t, drift, over)|
  {
    if xs == [] {
      assert Marked(xs, w, t, drift, over) == {};
    } else {
      CellOfLabels(xs[..|xs| - 1], w, t, drift, over);
      if w.Some? {
        GroupGrows(xs, w.value, t, drift, over);
      } else {
        AllGrows(xs, t, drift, over);
      }
      MarkedGrows(xs, w, t, drift, over);
    }
  }

  lemma MarkedGrows(xs: seq<Labelled>, w: Option<Id>, t: real, drift: bool, over: bool)
    requires xs != []
    ensures var (n, x) := (|xs| - 1, xs[|xs| - 1]);
            |Marked(xs, w, t, drift, over)| == |Marked(xs[..n], w, t, drift, over)|
              + (if x.mark == (if drift then TruePositive else FalsePositive) && (x.score >= t <==> over)
                    && (w.None? || x.workflow == w.value) then 1 else 0)
  {
    var n := |xs| - 1;
    var before, all := Marked(xs[..n], w, t, drift, over), Marked(xs, w, t, drift, over);
    forall i: nat ensures i in all - {n} <==> i in before {
      if i < n {
        assert xs[..n][i] == xs[i];
      }
    }
    assert all - {n} == before;
  }

  const UNNAMED := Id("")
  const DEFAULT_NAME := Id("(default)")

  /** The name a workflow is reported under. */
  function ReportName(w: Id): Id {
    if w.text == "" then DEFAULT_NAME else w
  }

  /** The groups built so far are those of the labels read so far. */
  ghost predicate Grouped(xs: seq<Labelled>, groups: map<Id, seq<Point>>, keys: seq<Id>) {
    && NoDup(keys) && SetOf(keys) == groups.Keys
    && (forall w :: w in groups ==> groups[w] == Group(xs, w) && groups[w] != [])
    && (forall w :: w !in groups ==> Group(xs, w) == [])
  }

  lemma {:induction false} CountedIsGrouped(xs: seq<Labelled>, i: nat)
    requires i < |xs| && Counted(xs[i])
    ensures Group(xs, xs[i].workflow) != []
  {
    if i < |xs| - 1 {
      CountedIsGrouped(xs[..|xs| - 1], i);
    }
  }

  lemma GroupSnoc(xs: seq<Labelled>, x: Labelled, w: Id)
    ensures Group(xs + [x], w) == if Counted(x) && x.workflow == w then Group(xs, w) + [PointOf(x)] else Group(xs, w)
  {
    assert (xs + [x])[..|xs + [x]| - 1] == xs;
  }

  lemma UncountedStays(xs: seq<Labelled>, x: Labelled, groups: map<Id, seq<Point>>, keys: seq<Id>)
    requires Grouped(xs, groups, keys) && !Counted(x)
    ensures Grouped(xs + [x], groups, keys)
  {
    forall w { GroupSnoc(xs, x, w); }
  }

  lemma KnownGrows(xs: seq<Labelled>, x: Labelled, groups: map<Id, seq<Point>>, keys: seq<Id>)
    requires Grouped(xs, groups, keys) && Counted(x) && x.workflow in groups
    ensures Grouped(xs + [x], groups[x.workflow := groups[x.workflow] + [PointOf(x)]], keys)
  {
    var after := groups[x.workflow := groups[x.workflow] + [PointOf(x)]];
    assert after.Keys == groups.Keys;
    GroupsOf(xs, x, groups, after);
  }

  lemma NewStarts(xs: seq<Labelled>, x: Labelled, groups: map<Id, seq<Point>>, keys: seq<Id>)
    requires Grouped(xs, groups, keys) && Counted(x) && x.workflow !in groups
    ensures Grouped(xs + [x], groups[x.workflow := [PointOf(x)]], keys + [x.workflow])
  {
    assert x.workflow !in SetOf(keys);
    assert SetOf(keys + [x.workflow]) == SetOf(keys) + {x.workflow};
    assert Group(xs, x.workflow) + [PointOf(x)] == [PointOf(x)];
    GroupsOf(xs, x, groups, groups[x.workflow := [PointOf(x)]]);
  }

  /** One more counted label belongs to one group; the others stay. */
  lemma GroupsOf(xs: seq<Labelled>, x: Labelled, groups: map<Id, seq<Point>>, after: map<Id, seq<Point>>)
    requires Counted(x) && after == groups[x.workflow := Group(xs, x.workflow) + [PointOf(x)]]
    requires forall w :: w in groups ==> groups[w] == Group(xs, w) && groups[w] != []
    requires forall w :: w !in groups ==> Group(xs, w) == []
    ensures forall w :: w in after ==> after[w] == Group(xs + [x], w) && after[w] != []
    ensures forall w :: w !in after ==> Group(xs + [x], w) == []
  {
    forall w | w in after ensures after[w] == Group(xs + [x], w) && after[w] != [] {
      GroupSnoc(xs, x, w);
    }
    forall w | w !in after ensures Group(xs + [x], w) == [] {
      GroupSnoc(xs, x, w);
    }
  }

  method GroupByWorkflow(xs: seq<Labelled>) returns (groups: map<Id, seq<Point>>, keys: seq<Id>)
    ensures Grouped(xs, groups, keys)
    ensures forall i :: 0 <= i < |xs| && Counted(xs[i]) ==> xs[i].workflow in keys
  {
    groups, keys := map[], [];
    for k := 0 to |xs|
      invariant Grouped(xs[..k], groups, keys)
    {
      var x := xs[k];
      TakeNext(xs, k);
      if !Counted(x) {
        UncountedStays(xs[..k], x, groups, keys);
      } else if x.workflow in groups {
        KnownGrows(xs[..k], x, groups, keys);
        groups := groups[x.workflow := groups[x.workflow] + [PointOf(x)]];
      } else {
        NewStarts(xs[..k], x, groups, keys);
        groups := groups[x.workflow := [PointOf(x)]];
        keys := keys + [x.workflow];
      }
    }
    assert xs[..|xs|] == xs;
    forall i | 0 <= i < |xs| && Counted(xs[i]) ensures xs[i].workflow in keys {
      CountedIsGrouped(xs, i);
      assert xs[i].workflow in SetOf(keys);
    }
  }

  lemma PooledNext(xs: seq<Labelled>, keys: seq<Id>, k: nat)
    requires k < |keys|
    ensures Pooled(xs, keys[..k + 1]) == Pooled(xs, keys[..k]) + Group(xs, keys[k])
  {
    assert keys[..k + 1][..k] == keys[..k];
  }

  method Pool(ghost xs: seq<Labelled>, groups: map<Id, seq<Point>>, keys: seq<Id>) returns (pooled: seq<Point>)
    requires Grouped(xs, groups, keys)
    ensures pooled == Pooled(xs, keys)
  {
    pooled := [];
    for k := 0 to |keys|
      invariant pooled == Pooled(xs, keys[..k])
    {
      assert keys[k] in SetOf(keys);
      PooledNext(xs, keys, k);
      pooled := pooled + groups[keys[k]];
    }
    assert keys[..|keys|] == keys;
  }

  /** The report: advice on all labels together and for each workflow. An unnamed workflow is reported as
      "(default)"; a workflow of that very name, coming later in string order, then takes its place. */
  method Calibrate(xs: seq<Labelled>, base: real, profiles: map<Id, real>, target: Option<real>, gridStep: real)
    returns (overall: Advice, report: map<Id, Advice>, ghost keys: seq<Id>)
    requires gridStep > 0.0
    ensures NoDup(keys) && forall i :: 0 <= i < |xs| && Counted(xs[i]) ==> xs[i].workflow in keys
    ensures Sound(overall, Pooled(xs, keys), base, target, gridStep)
    ensures forall t :: Counts(Pooled(xs, keys), t) == Counts(AllCounted(xs), t)
    ensures forall t, drift, over :: SumOfCells(xs, keys, t, drift, over) == Cell(AllCounted(xs), t, drift, over)
    ensures report.Keys == set w | w in keys :: ReportName(w)
    ensures forall w :: w in keys && !(w == UNNAMED && DEFAULT_NAME in keys) ==>
              Sound(report[ReportName(w)], Group(xs, w), if w in profiles then profiles[w] else base, target, gridStep)
  {
    var groups, ks := GroupByWorkflow(xs);
    keys := ks;
    var pooled := Pool(xs, groups, ks);
    forall t, drift, over
      ensures SumOfCells(xs, keys, t, drift, over) == Cell(AllCounted(xs), t, drift, over)
      ensures Cell(Pooled(xs, keys), t, drift, over) == Cell(AllCounted(xs), t, drift, over)
    {
      GroupsSumToAll(xs, keys, t, drift, over);
    }
    overall := Recommend(pooled, base, target, gridStep);
    report := ReportGroups(xs, groups, base, profiles, target, gridStep);
    assert forall w :: w in ks <==> w in SetOf(ks);
  }

  /** Each workflow has its own entry unless there are both an unnamed one and one called "(default)". */
  lemma EntriesLostExactly(keys: seq<Id>)
    requires NoDup(keys)
    ensures |set w | w in keys :: ReportName(w)| == |keys| <==> !(UNNAMED in keys && DEFAULT_NAME in keys)
  {
    NoDupSize(keys);
    NamesRenamed(keys);
    var all := SetOf(keys);
    assert all - {UNNAMED} + {DEFAULT_NAME} == all - {UNNAMED} + ({DEFAULT_NAME} - all);
  }

  lemma NamesRenamed(keys: seq<Id>)
    ensures (set w | w in keys :: ReportName(w)) ==
            if UNNAMED in keys then SetOf(keys) - {UNNAMED} + {DEFAULT_NAME} else SetOf(keys)
  {
    var names := set w | w in keys :: ReportName(w);
    forall n ensures n in names <==> (n in keys && n != UNNAMED) || (UNNAMED in keys && n == DEFAULT_NAME) {
      if n in keys && n != UNNAMED {
        assert ReportName(n) == n;
      }
      if UNNAMED in keys && n == DEFAULT_NAME {
        assert ReportName(UNNAMED) == n;
      }
    }
  }

  /** Then the one entry left is wrong for the unnamed workflow, as here, where it has one label and the other
      two. */
  lemma UnnamedLost(score: real, a: Advice, current: real, other: real, target: Option<real>, gridStep: real)
    requires gridStep > 0.0
    ensures var xs := [Labelled(score, TruePositive, UNNAMED)] + [Labelled(score, TruePositive, DEFAULT_NAME)]
                      + [Labelled(score, FalsePositive, DEFAULT_NAME)];
            Sound(a, Group(xs, DEFAULT_NAME), current, target, gridStep) ==>
              !Sound(a, Group(xs, UNNAMED), other, target, gridStep)
  {
    OneAndTwo(score, UNNAMED);
    OneAndTwo(score, DEFAULT_NAME);
  }

  lemma OneAndTwo(score: real, w: Id)
    ensures |Group([Labelled(score, TruePositive, UNNAMED)] + [Labelled(score, TruePositive, DEFAULT_NAME)]
                   + [Labelled(score, FalsePositive, DEFAULT_NAME)], w)|
            == (if w == UNNAMED then 1 else 0) + (if w == DEFAULT_NAME then 2 else 0)
  {
    var x, y, z := Labelled(score, TruePositive, UNNAMED), Labelled(score, TruePositive, DEFAULT_NAME),
                   Labelled(score, FalsePositive, DEFAULT_NAME);
    GroupSnoc([], x, w);
    assert [] + [x] == [x];
    GroupSnoc([x], y, w);
    GroupSnoc([x] + [y], z, w);
  }

  method ReportGroups(ghost xs: seq<Labelled>, groups: map<Id, seq<Point>>, base: real, profiles: map<Id, real>,
                      target: Option<real>, gridStep: real)
    returns (report: map<Id, Advice>)
    requires gridStep > 0.0 && forall w :: w in groups ==> groups[w] == Group(xs, w)
    ensures report.Keys == set w | w in groups :: ReportName(w)
    ensures forall w :: w in groups && !(w == UNNAMED && DEFAULT_NAME in groups) ==>
              Sound(report[ReportName(w)], Group(xs, w), if w in profiles then profiles[w] else base, target, gridStep)
  {
    var order := TwinStore.Sorted(groups.Keys);
    assert forall w :: w in groups <==> w in SetOf(order);
    report := map[];
    for k := 0 to |order|
      invariant ReportedTo(xs, order, k, base, profiles, target, gridStep, report)
    {
      var w := order[k];
      assert w in SetOf(order);
      var current := if w in profiles then profiles[w] else base;
      var advice := Recommend(groups[w], current, target, gridStep);
      ReportGrows(xs, order, k, base, profiles, target, gridStep, report, advice);
      report := report[ReportName(w) := advice];
    }
    assert order[..|order|] == order;
  }

  /** The first k groups are reported, each soundly; the unnamed one only until "(default)" takes its place. */
  ghost predicate ReportedTo(xs: seq<Labelled>, order: seq<Id>, k: nat, base: real, profiles: map<Id, real>,
                             target: Option<real>, gridStep: real, report: map<Id, Advice>)
    requires gridStep > 0.0 && k <= |order|
  {
    && (report.Keys == set w | w in order[..k] :: ReportName(w))
    && forall i :: 0 <= i < k && !(order[i] == UNNAMED && DEFAULT_NAME in order[..k]) ==>
         && ReportName(order[i]) in report
         && Sound(report[ReportName(order[i])], Group(xs, order[i]),
                  if order[i] in profiles then profiles[order[i]] else base, target, gridStep)
  }

  lemma ReportGrows(xs: seq<Labelled>, order: seq<Id>, k: nat, base: real, profiles: map<Id, real>,
                    target: Option<real>, gridStep: real, report: map<Id, Advice>, advice: Advice)
    requires gridStep > 0.0 && Ascending(order) && NoDup(order) && k < |order|
    requires ReportedTo(xs, order, k, base, profiles, target, gridStep, report)
    requires Sound(advice, Group(xs, order[k]), if order[k] in profiles then profiles[order[k]] else base, target,
                   gridStep)
    ensures ReportedTo(xs, order, k + 1, base, profiles, target, gridStep, report[ReportName(order[k]) := advice])
  {
    var after := report[ReportName(order[k]) := advice];
    TakeNext(order, k);
    forall i | 0 <= i < k + 1 && !(order[i] == UNNAMED && DEFAULT_NAME in order[..k + 1])
      ensures ReportName(order[i]) in after
      ensures Sound(after[ReportName(order[i])], Group(xs, order[i]),
                    if order[i] in profiles then profiles[order[i]] else base, target, gridStep)
    {
      if i < k {
        NameKept(order, i, k);
        assert after[ReportName(order[i])] == report[ReportName(order[i])];
      }
    }
  }

  /** A later group takes no earlier one's name, unless that was the unnamed one. */
  lemma NameKept(order: seq<Id>, i: nat, k: nat)
    requires Ascending(order) && NoDup(order) && i < k < |order|
    requires !(order[i] == UNNAMED && DEFAULT_NAME in order[..k + 1])
    ensures ReportName(order[i]) != ReportName(order[k])
    ensures !(order[i] == UNNAMED && DEFAULT_NAME in order[..k])
  {
    UnnamedFirst(order, k);
    TakeNext(order, k);
    assert order[i] != order[k];
  }

  /** In string order nothing precedes the unnamed workflow. */
  lemma UnnamedFirst(order: seq<Id>, k: nat)
    requires Ascending(order) && k < |order|
    ensures order[k] == UNNAMED ==> k == 0
  {
    if k > 0 {
      assert Less(order[0].text, order[k].text);
    }
  }
}
