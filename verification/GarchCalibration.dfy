/** The bounded grid search with shrinking refinement that fits the GJR-GARCH baseline:
    calibrate_gjr_garch of src/neuralmarket/baselines/garch.py. */
module GarchCalibration {
  import opened Common
  import opened Garch

  datatype Point = Point(alpha: real, gamma: real, beta: real)

  const ALPHA_HI := 0.3
  const GAMMA_HI := 0.4
  const BETA_LO := 0.3
  const BETA_HI := 0.995
  const MAX_PERSISTENCE := 0.999

  predicate InBounds(x: Point) {
    0.0 <= x.alpha <= ALPHA_HI && 0.0 <= x.gamma <= GAMMA_HI && BETA_LO <= x.beta <= BETA_HI
  }

  function PointPersistence(x: Point): real {
    x.alpha + 0.5 * x.gamma + x.beta
  }

  predicate Feasible(x: Point) {
    && x.alpha >= 0.0 && x.beta >= 0.0 && x.alpha + x.gamma >= 0.0
    && 0.0 < PointPersistence(x) < MAX_PERSISTENCE
  }

  /** Inside the bounds only the persistence decides what is feasible. */
  lemma FeasibleInBounds(x: Point)
    requires InBounds(x)
    ensures 0.0 <= x.alpha <= 0.3 && 0.0 <= x.gamma <= 0.4 && 0.3 <= x.beta <= 0.995
    ensures Feasible(x) <==> x.alpha + x.gamma / 2.0 + x.beta < 0.999
  {
  }

  /** Variance targeting: omega makes the long-run variance the sample variance. */
  function Targeted(x: Point, mean: real, sampleVariance: real): Parameters {
    Parameters(mean, Mul(sampleVariance, 1.0 - PointPersistence(x)), x.alpha, x.gamma, x.beta)
  }

  /** What evaluate minimises; the log-likelihood of a feasible point may be anything. */
  function Score(likelihood: Parameters -> Float, mean: real, sampleVariance: real, x: Point): (s: Float)
    ensures s.Fin? || s.PosInf?
    ensures s.Fin? ==> Feasible(x)
  {
    if !Feasible(x) then PosInf
    else match likelihood(Targeted(x, mean, sampleVariance)) case Fin(v) => Fin(-v) case _ => PosInf
  }

  /** Over the reals evaluate's except branch is dead: the filter accepts the targeted
      parameters of every feasible point. The sampler accepts them as well, and their
      long-run variance is the sample variance. */
  lemma TargetedIsAccepted(x: Point, mean: real, sampleVariance: real)
    requires Feasible(x) && sampleVariance > 0.0
    ensures var p := Targeted(x, mean, sampleVariance);
            && Stationary(p) && Persistence(p) == PointPersistence(x) && Unconditional(p) == sampleVariance
            && p.mu == mean && p.alpha == x.alpha && p.gamma == x.gamma && p.beta == x.beta
  {
    var d := 1.0 - PointPersistence(x);
    assert Mul(sampleVariance, d) / d == sampleVariance;
    assert Mul(sampleVariance, d) > 0.0;
  }

  // ----- the points evaluated, in order -----

  function Linspace(lo: real, hi: real, n: nat, k: nat): real
    requires k < n
  {
    if n == 1 then lo else lo + Mul(hi - lo, k as real / (n - 1) as real)
  }

  lemma LinspaceWithin(lo: real, hi: real, n: nat, k: nat)
    requires k < n && lo <= hi
    ensures lo <= Linspace(lo, hi, n, k) <= hi
  {
    hide Mul;
    if n > 1 {
      FractionWithin(k as real, (n - 1) as real);
      ScaleWithin(hi - lo, k as real / (n - 1) as real);
    }
  }

  /** The ends of the range are grid points. */
  lemma LinspaceEnds(lo: real, hi: real, n: nat)
    requires n >= 1
    ensures Linspace(lo, hi, n, 0) == lo && (n > 1 ==> Linspace(lo, hi, n, n - 1) == hi)
  {
    if n > 1 {
      FractionWithin((n - 1) as real, (n - 1) as real);
      assert 0.0 / (n - 1) as real == 0.0;
    }
  }

  /** Neighbouring grid points are equally far apart. */
  lemma LinspaceEven(lo: real, hi: real, n: nat, k: nat)
    requires k + 1 < n
    ensures Mul(Linspace(lo, hi, n, k + 1) - Linspace(lo, hi, n, k), (n - 1) as real) == hi - lo
  {
    var d := (n - 1) as real;
    var a, b := k as real / d, (k + 1) as real / d;
    assert a * d == k as real && b * d == (k + 1) as real;
    assert (Mul(hi - lo, b) - Mul(hi - lo, a)) * d == (hi - lo) * (b * d - a * d);
  }

  lemma FractionWithin(k: real, n: real)
    requires 0.0 <= k <= n && n > 0.0
    ensures 0.0 <= k / n <= 1.0 && n / n == 1.0
  {
  }

  lemma ScaleWithin(w: real, f: real)
    requires w >= 0.0 && 0.0 <= f <= 1.0
    ensures 0.0 <= Mul(w, f) <= w
  {
    assert w * (1.0 - f) >= 0.0;
    assert w - w * f == w * (1.0 - f);
  }

  function GridPoint(n: nat, i: nat, j: nat, k: nat): Point
    requires i < n && j < n && k < n
  {
    Point(Linspace(0.0, ALPHA_HI, n, i), Linspace(0.0, GAMMA_HI, n, j), Linspace(BETA_LO, BETA_HI, n, k))
  }

  function GridLine(n: nat, i: nat, j: nat, k: nat): (xs: seq<Point>)
    requires i < n && j < n && k <= n
    ensures |xs| == k
  {
    if k == 0 then [] else GridLine(n, i, j, k - 1) + [GridPoint(n, i, j, k - 1)]
  }

  function GridPlane(n: nat, i: nat, j: nat): (xs: seq<Point>)
    requires i < n && j <= n
    ensures |xs| == j * n
  {
    if j == 0 then [] else GridPlane(n, i, j - 1) + GridLine(n, i, j - 1, n)
  }

  function Grid(n: nat, i: nat): (xs: seq<Point>)
    requires i <= n
    ensures |xs| == i * (n * n)
  {
    if i == 0 then [] else Grid(n, i - 1) + GridPlane(n, i - 1, n)
  }

  function Clip(x: real, lo: real, hi: real): real {
    if x < lo then lo else if x > hi then hi else x
  }

  /** Moving one coordinate by -1, 0 or 1 times the step. */
  function Move(x: real, d: nat, step: real): real {
    if d == 0 then x - step else if d == 1 then x else x + step
  }

  function Half(level: nat): real {
    if level == 0 then 1.0 else 0.5 * Half(level - 1)
  }

  /** The grid's spacing, halved at every level. */
  function Step(n: nat, level: nat): Point
    requires n >= 2
  {
    var f := Half(level + 1) / (n - 1) as real;
    Point(Mul(ALPHA_HI, f), Mul(GAMMA_HI, f), Mul(BETA_HI - BETA_LO, f))
  }

  function Neighbour(c: Point, step: Point, i: nat, j: nat, k: nat): Point {
    Point(Clip(Move(c.alpha, i, step.alpha), 0.0, ALPHA_HI), Clip(Move(c.gamma, j, step.gamma), 0.0, GAMMA_HI),
          Clip(Move(c.beta, k, step.beta), BETA_LO, BETA_HI))
  }

  /** x is the point of the range that is nearest to the target. */
  predicate Nearest(x: real, target: real, lo: real, hi: real) {
    lo <= x <= hi && (lo <= target <= hi ==> x == target) && (target < lo ==> x == lo) && (target > hi ==> x == hi)
  }

  /** A neighbour lies -1, 0 or 1 steps away in each coordinate, or on the bound met first. */
  lemma NeighbourAt(c: Point, step: Point, i: nat, j: nat, k: nat)
    requires i < 3 && j < 3 && k < 3
    ensures var x := Neighbour(c, step, i, j, k);
            && Nearest(x.alpha, c.alpha + Mul(i as real - 1.0, step.alpha), 0.0, 0.3)
            && Nearest(x.gamma, c.gamma + Mul(j as real - 1.0, step.gamma), 0.0, 0.4)
            && Nearest(x.beta, c.beta + Mul(k as real - 1.0, step.beta), 0.3, 0.995)
  {
  }

  predicate Centre(i: nat, j: nat, k: nat) {
    i == 1 && j == 1 && k == 1
  }

  function RingLine(c: Point, step: Point, i: nat, j: nat, k: nat): (xs: seq<Point>)
    ensures |xs| == if i == 1 && j == 1 && k >= 2 then k - 1 else k
  {
    if k == 0 then []
    else RingLine(c, step, i, j, k - 1) + if Centre(i, j, k - 1) then [] else [Neighbour(c, step, i, j, k - 1)]
  }

  function RingPlane(c: Point, step: Point, i: nat, j: nat): (xs: seq<Point>)
    ensures |xs| == if i == 1 && j >= 2 then 3 * j - 1 else 3 * j
  {
    if j == 0 then [] else RingPlane(c, step, i, j - 1) + RingLine(c, step, i, j - 1, 3)
  }

  function Ring(c: Point, step: Point, i: nat): (xs: seq<Point>)
    ensures |xs| == if i >= 2 then 9 * i - 1 else 9 * i
  {
    if i == 0 then [] else Ring(c, step, i - 1) + RingPlane(c, step, i - 1, 3)
  }

  function Scores(f: Point -> Float, xs: seq<Point>): (ss: seq<Float>)
    ensures |ss| == |xs|
  {
    seq(|xs|, k requires 0 <= k < |xs| => f(xs[k]))
  }

  /** The earliest of the points with the least score. */
  function BestPoint(f: Point -> Float, xs: seq<Point>): Point
    requires xs != []
  {
    xs[ArgMin(Scores(f, xs))]
  }

  /** All points evaluated up to the end of the given number of refinement passes. */
  function Evaluated(f: Point -> Float, n: nat, passes: nat): (xs: seq<Point>)
    requires n >= 2
    ensures |xs| == n * (n * n) + 26 * passes && |xs| > 0
  {
    if passes == 0 then
      GridIsNotEmpty(n);
      Grid(n, n)
    else
      var before := Evaluated(f, n, passes - 1);
      before + Ring(BestPoint(f, before), Step(n, passes - 1), 3)
  }

  lemma GridIsNotEmpty(n: nat)
    requires n >= 1
    ensures |Grid(n, n)| > 0
  {
    assert n * n >= 1;
  }

  // ----- which points these are -----

  lemma {:induction false} LineAt(n: nat, i: nat, j: nat, m: nat, k: nat)
    requires i < n && j < n && k < m <= n
    ensures GridLine(n, i, j, m)[k] == GridPoint(n, i, j, k)
  {
    hide GridPoint;
    if k < m - 1 {
      LineAt(n, i, j, m - 1, k);
    }
  }

  /** Row j of m rows of n entries, entry k. */
  function RowMajor(j: nat, n: nat, k: nat): nat {
    j * n + k
  }

  lemma RowMajorWithin(j: nat, m: nat, n: nat, k: nat)
    requires j < m && k < n
    ensures RowMajor(j, n, k) < m * n
    ensures j < m - 1 ==> RowMajor(j, n, k) < (m - 1) * n
    ensures j == m - 1 ==> RowMajor(j, n, k) == (m - 1) * n + k
  {
    RowsUp(j + 1, m, n);
    assert (j + 1) * n == j * n + n;
    if j < m - 1 {
      RowsUp(j + 1, m - 1, n);
    }
  }

  lemma RowsUp(a: nat, b: nat, n: nat)
    requires a <= b
    ensures a * n <= b * n
  {
    assert (b - a) * n >= 0;
    assert b * n == a * n + (b - a) * n;
  }

  lemma {:induction false} PlaneAt(n: nat, i: nat, m: nat, j: nat, k: nat)
    requires i < n && j < m <= n && k < n
    ensures RowMajor(j, n, k) < |GridPlane(n, i, m)|
    ensures GridPlane(n, i, m)[RowMajor(j, n, k)] == GridPoint(n, i, j, k)
  {
    hide GridPoint, GridLine, RowMajor;
    RowMajorWithin(j, m, n, k);
    if j < m - 1 {
      PlaneAt(n, i, m - 1, j, k);
    } else {
      LineAt(n, i, j, n, k);
    }
  }

  /** The grid is exactly the n^3 index triples, each once: triple (i, j, k) stands at
      position i * n^2 + (j * n + k). */
  lemma {:induction false} GridAt(n: nat, m: nat, i: nat, j: nat, k: nat)
    requires i < m <= n && j < n && k < n
    ensures RowMajor(j, n, k) < n * n
    ensures RowMajor(i, n * n, RowMajor(j, n, k)) < |Grid(n, m)| == m * (n * n)
    ensures Grid(n, m)[RowMajor(i, n * n, RowMajor(j, n, k))] == GridPoint(n, i, j, k)
  {
    hide GridPoint, GridPlane, RowMajor;
    PlaneAt(n, i, n, j, k);
    RowMajorWithin(i, m, n * n, RowMajor(j, n, k));
    if i < m - 1 {
      GridAt(n, m - 1, i, j, k);
    }
  }

  lemma {:induction false} RingLineHas(c: Point, step: Point, i: nat, j: nat, m: nat, k: nat)
    requires k < m && !Centre(i, j, k)
    ensures Neighbour(c, step, i, j, k) in RingLine(c, step, i, j, m)
  {
    hide Neighbour;
    if k < m - 1 {
      RingLineHas(c, step, i, j, m - 1, k);
    }
  }

  lemma {:induction false} RingPlaneHas(c: Point, step: Point, i: nat, m: nat, j: nat, k: nat)
    requires j < m && k < 3 && !Centre(i, j, k)
    ensures Neighbour(c, step, i, j, k) in RingPlane(c, step, i, m)
  {
    hide Neighbour;
    if j < m - 1 {
      RingPlaneHas(c, step, i, m - 1, j, k);
    } else {
      RingLineHas(c, step, i, j, 3, k);
    }
  }

  /** The 26 points of a ring are the 26 moves other than standing still. */
  lemma {:induction false} RingHas(c: Point, step: Point, m: nat, i: nat, j: nat, k: nat)
    requires i < m && j < 3 && k < 3 && !Centre(i, j, k)
    ensures Neighbour(c, step, i, j, k) in Ring(c, step, m)
  {
    hide Neighbour;
    if i < m - 1 {
      RingHas(c, step, m - 1, i, j, k);
    } else {
      RingPlaneHas(c, step, i, 3, j, k);
    }
  }

  ghost predicate CoversGrid(n: nat, xs: seq<Point>) {
    forall i, j, k :: 0 <= i < n && 0 <= j < n && 0 <= k < n ==> GridPoint(n, i, j, k) in xs
  }

  lemma GridCovers(n: nat)
    ensures CoversGrid(n, Grid(n, n))
  {
    hide GridPoint, Grid, RowMajor;
    forall i, j, k | 0 <= i < n && 0 <= j < n && 0 <= k < n
      ensures GridPoint(n, i, j, k) in Grid(n, n)
    {
      GridAt(n, n, i, j, k);
    }
  }

  ghost predicate CoversRing(c: Point, step: Point, xs: seq<Point>) {
    forall i, j, k :: 0 <= i < 3 && 0 <= j < 3 && 0 <= k < 3 && !Centre(i, j, k) ==> Neighbour(c, step, i, j, k) in xs
  }

  lemma RingCovers(c: Point, step: Point)
    ensures CoversRing(c, step, Ring(c, step, 3)) && |Ring(c, step, 3)| == 26
  {
    hide Neighbour, Centre, Ring;
    forall i, j, k | 0 <= i < 3 && 0 <= j < 3 && 0 <= k < 3 && !Centre(i, j, k)
      ensures Neighbour(c, step, i, j, k) in Ring(c, step, 3)
    {
      RingHas(c, step, 3, i, j, k);
    }
  }

  /** The eight corners of the bounds are grid points. */
  lemma CornersAreGridPoints(n: nat, x: Point)
    requires n >= 2
    requires x.alpha == 0.0 || x.alpha == ALPHA_HI
    requires x.gamma == 0.0 || x.gamma == GAMMA_HI
    requires x.beta == BETA_LO || x.beta == BETA_HI
    ensures x in Grid(n, n)
  {
    hide Linspace, Grid;
    LinspaceEnds(0.0, ALPHA_HI, n);
    LinspaceEnds(0.0, GAMMA_HI, n);
    LinspaceEnds(BETA_LO, BETA_HI, n);
    var i, j := if x.alpha == 0.0 then 0 else n - 1, if x.gamma == 0.0 then 0 else n - 1;
    var k := if x.beta == BETA_LO then 0 else n - 1;
    GridAt(n, n, i, j, k);
    assert GridPoint(n, i, j, k) == x;
  }

  // ----- the search -----

  datatype Scored = Scored(point: Point, score: Float)

  datatype Search = Search(best: Option<Scored>, evaluations: nat)

  /** The search has evaluated exactly these points and holds the best of them. */
  predicate Tracks(f: Point -> Float, xs: seq<Point>, s: Search) {
    && s.evaluations == |xs|
    && s.best == if xs == [] then None else Some(Scored(BestPoint(f, xs), f(BestPoint(f, xs))))
  }

  method Try(f: Point -> Float, s: Search, x: Point, ghost xs: seq<Point>) returns (s': Search)
    requires Tracks(f, xs, s)
    ensures Tracks(f, xs + [x], s')
  {
    assert (xs + [x])[..|xs|] == xs;
    assert Scores(f, xs + [x])[..|xs|] == Scores(f, xs);
    var score := f(x);
    s' := s.(evaluations := s.evaluations + 1);
    if s.best.None? || Less(score, s.best.value.score) {
      s' := s'.(best := Some(Scored(x, score)));
    }
  }

  /** Every index triple is evaluated, once each. */
  method SearchGrid(f: Point -> Float, n: nat) returns (s: Search)
    ensures Tracks(f, Grid(n, n), s) && |Grid(n, n)| == n * (n * n)
    ensures CoversGrid(n, Grid(n, n))
  {
    hide Tracks, GridPoint, CoversGrid, Grid, GridPlane, GridLine;
    s := Search(None, 0);
    NothingTracked(f);
    GridStep(n, 0);
    for i := 0 to n
      invariant Tracks(f, Grid(n, i), s)
    {
      ghost var planes := Grid(n, i);
      GridStep(n, i);
      PlaneStep(planes, n, i, 0);
      for j := 0 to n
        invariant Tracks(f, planes + GridPlane(n, i, j), s)
      {
        ghost var lines := planes + GridPlane(n, i, j);
        PlaneStep(planes, n, i, j);
        LineStep(lines, n, i, j, 0);
        for k := 0 to n
          invariant Tracks(f, lines + GridLine(n, i, j, k), s)
        {
          LineStep(lines, n, i, j, k);
          s := Try(f, s, GridPoint(n, i, j, k), lines + GridLine(n, i, j, k));
        }
      }
    }
    GridCovers(n);
    GridIsCube(n);
  }

  lemma GridIsCube(n: nat)
    ensures |Grid(n, n)| == n * (n * n)
  {
  }

  lemma GridStep(n: nat, i: nat)
    ensures Grid(n, 0) == []
    ensures i < n ==> Grid(n, i + 1) == Grid(n, i) + GridPlane(n, i, n)
  {
  }

  lemma PlaneStep(planes: seq<Point>, n: nat, i: nat, j: nat)
    requires i < n
    ensures planes + GridPlane(n, i, 0) == planes
    ensures j < n ==> planes + GridPlane(n, i, j + 1) == planes + GridPlane(n, i, j) + GridLine(n, i, j, n)
  {
  }

  lemma LineStep(lines: seq<Point>, n: nat, i: nat, j: nat, k: nat)
    requires i < n && j < n
    ensures lines + GridLine(n, i, j, 0) == lines
    ensures k < n ==> lines + GridLine(n, i, j, k + 1) == lines + GridLine(n, i, j, k) + [GridPoint(n, i, j, k)]
  {
  }

  lemma NothingTracked(f: Point -> Float)
    ensures Tracks(f, [], Search(None, 0))
  {
  }

  /** The 26 neighbours of the point that was best when the pass began. */
  method SearchRing(f: Point -> Float, c: Point, step: Point, s0: Search, ghost xs: seq<Point>) returns (s: Search)
    requires Tracks(f, xs, s0)
    ensures Tracks(f, xs + Ring(c, step, 3), s)
    ensures CoversRing(c, step, Ring(c, step, 3))
  {
    hide Tracks, Neighbour, CoversRing;
    s := s0;
    assert xs + Ring(c, step, 0) == xs;
    for i := 0 to 3
      invariant Tracks(f, xs + Ring(c, step, i), s)
    {
      ghost var planes := xs + Ring(c, step, i);
      assert planes + RingPlane(c, step, i, 0) == planes;
      for j := 0 to 3
        invariant Tracks(f, planes + RingPlane(c, step, i, j), s)
      {
        ghost var lines := planes + RingPlane(c, step, i, j);
        assert lines + RingLine(c, step, i, j, 0) == lines;
        for k := 0 to 3
          invariant Tracks(f, lines + RingLine(c, step, i, j, k), s)
        {
          if !Centre(i, j, k) {
            s := Try(f, s, Neighbour(c, step, i, j, k), lines + RingLine(c, step, i, j, k));
          }
          RingLineStep(lines, c, step, i, j, k);
        }
        assert planes + RingPlane(c, step, i, j + 1) == lines + RingLine(c, step, i, j, 3);
      }
      assert xs + Ring(c, step, i + 1) == planes + RingPlane(c, step, i, 3);
    }
    RingCovers(c, step);
  }

  lemma RingLineStep(lines: seq<Point>, c: Point, step: Point, i: nat, j: nat, k: nat)
    ensures lines + RingLine(c, step, i, j, k + 1) ==
              if Centre(i, j, k) then lines + RingLine(c, step, i, j, k)
              else lines + RingLine(c, step, i, j, k) + [Neighbour(c, step, i, j, k)]
  {
  }

  // ----- how far the refinement reaches -----

  /** Each coordinate of x is at most the step away from c. */
  predicate Near(x: Point, c: Point, step: Point) {
    Abs(x.alpha - c.alpha) <= step.alpha && Abs(x.gamma - c.gamma) <= step.gamma && Abs(x.beta - c.beta) <= step.beta
  }

  predicate Positive(step: Point) {
    step.alpha > 0.0 && step.gamma > 0.0 && step.beta > 0.0
  }

  lemma {:induction false} RingIsNear(c: Point, step: Point, i: nat)
    requires InBounds(c) && Positive(step)
    ensures forall x :: x in Ring(c, step, i) ==> Near(x, c, step)
  {
    hide InBounds, Near, Positive, RingPlane;
    if i > 0 {
      RingIsNear(c, step, i - 1);
      RingPlaneIsNear(c, step, i - 1, 3);
    }
  }

  lemma {:induction false} RingPlaneIsNear(c: Point, step: Point, i: nat, j: nat)
    requires InBounds(c) && Positive(step)
    ensures forall x :: x in RingPlane(c, step, i, j) ==> Near(x, c, step)
  {
    hide InBounds, Near, Positive, RingLine;
    if j > 0 {
      RingPlaneIsNear(c, step, i, j - 1);
      RingLineIsNear(c, step, i, j - 1, 3);
    }
  }

  lemma {:induction false} RingLineIsNear(c: Point, step: Point, i: nat, j: nat, k: nat)
    requires InBounds(c) && Positive(step)
    ensures forall x :: x in RingLine(c, step, i, j, k) ==> Near(x, c, step)
  {
    hide InBounds, Near, Positive, Neighbour;
    if k > 0 {
      RingLineIsNear(c, step, i, j, k - 1);
      NeighbourIsNear(c, step, i, j, k - 1);
    }
  }

  lemma NeighbourIsNear(c: Point, step: Point, i: nat, j: nat, k: nat)
    requires InBounds(c) && Positive(step)
    ensures Near(Neighbour(c, step, i, j, k), c, step)
  {
    ClipIsNear(c.alpha, i, step.alpha, 0.0, ALPHA_HI);
    ClipIsNear(c.gamma, j, step.gamma, 0.0, GAMMA_HI);
    ClipIsNear(c.beta, k, step.beta, BETA_LO, BETA_HI);
  }

  lemma ClipIsNear(x: real, d: nat, step: real, lo: real, hi: real)
    requires lo <= x <= hi && step >= 0.0
    ensures Abs(Clip(Move(x, d, step), lo, hi) - x) <= step
  {
  }

  /** The first step is half the spacing of the grid, and every later one half the one before. */
  lemma StepsHalve(n: nat, level: nat)
    requires n >= 2
    ensures Positive(Step(n, level))
    ensures var s, t, a, b := Step(n, level), Step(n, level + 1), GridPoint(n, 0, 0, 0), GridPoint(n, 1, 1, 1);
            && 2.0 * t.alpha == s.alpha && 2.0 * t.gamma == s.gamma && 2.0 * t.beta == s.beta
            && (level == 0 ==>
                  2.0 * s.alpha == b.alpha - a.alpha && 2.0 * s.gamma == b.gamma - a.gamma && 2.0 * s.beta == b.beta - a.beta)
  {
    HalfPositive(level + 1);
    var d := (n - 1) as real;
    StepCoordinate(ALPHA_HI, Half(level + 1), d);
    StepCoordinate(GAMMA_HI, Half(level + 1), d);
    StepCoordinate(BETA_HI - BETA_LO, Half(level + 1), d);
    assert Half(level + 2) == 0.5 * Half(level + 1);
    assert Half(1) == 0.5;
    assert 0.0 / d == 0.0;
  }

  lemma StepCoordinate(w: real, h: real, d: real)
    requires w > 0.0 && h > 0.0 && d >= 1.0
    ensures Mul(w, h / d) > 0.0 && 2.0 * Mul(w, (0.5 * h) / d) == Mul(w, h / d)
    ensures h == 0.5 ==> 2.0 * Mul(w, h / d) == Mul(w, 1.0 / d)
    ensures Mul(w, 0.0 / d) == 0.0
  {
    QuotientPositive(h, d);
    var q := h / d;
    assert (0.5 * h) / d == 0.5 * q;
    assert h == 0.5 ==> 1.0 / d == 2.0 * q;
    assert w * (0.5 * q) == 0.5 * (w * q);
    assert w * q > 0.0;
    assert w * (2.0 * q) == 2.0 * (w * q);
  }

  lemma {:induction false} HalfPositive(level: nat)
    ensures Half(level) > 0.0
  {
    if level > 0 {
      HalfPositive(level - 1);
    }
  }

  /** The best of more points is the best so far or one of the new ones. */
  lemma {:induction false} BestOfMore(f: Point -> Float, xs: seq<Point>, ys: seq<Point>)
    requires xs != []
    ensures BestPoint(f, xs + ys) == BestPoint(f, xs) || BestPoint(f, xs + ys) in ys
  {
    if ys == [] {
      assert xs + ys == xs;
    } else {
      var init, last := ys[..|ys| - 1], ys[|ys| - 1];
      BestOfMore(f, xs, init);
      var all := xs + ys;
      assert all[..|all| - 1] == xs + init;
      assert Scores(f, all)[..|all| - 1] == Scores(f, xs + init);
      assert all[|all| - 1] == last;
    }
  }

  /** The distance a coordinate may travel in the passes up to level: one spacing, less
      twice the step that comes next. */
  ghost predicate WithinReach(n: nat, level: nat, x: Point, start: Point)
    requires n >= 2
  {
    var a, b, step := GridPoint(n, 0, 0, 0), GridPoint(n, 1, 1, 1), Step(n, level);
    && Abs(x.alpha - start.alpha) <= b.alpha - a.alpha - 2.0 * step.alpha
    && Abs(x.gamma - start.gamma) <= b.gamma - a.gamma - 2.0 * step.gamma
    && Abs(x.beta - start.beta) <= b.beta - a.beta - 2.0 * step.beta
  }

  /** The refinement never leaves the cells around the best grid point: each coordinate
      of the point it ends with is less than one grid spacing away. */
  lemma {:induction false} RefinementStaysNear(f: Point -> Float, n: nat, passes: nat)
    requires n >= 2
    ensures WithinReach(n, passes, BestPoint(f, Evaluated(f, n, passes)), BestPoint(f, Evaluated(f, n, 0)))
    ensures Positive(Step(n, passes))
  {
    hide BestPoint, Evaluated, Step, GridPoint, Ring, Grid, InBounds;
    StepsHalve(n, passes);
    StepsHalve(n, 0);
    if passes > 0 {
      RefinementStaysNear(f, n, passes - 1);
      StepsHalve(n, passes - 1);
      EvaluatedSteps(f, n, passes - 1);
      var before, step := Evaluated(f, n, passes - 1), Step(n, passes - 1);
      var c := BestPoint(f, before);
      BestIsEvaluated(f, before);
      EvaluatedInBounds(f, n, passes - 1);
      RingIsNear(c, step, 3);
      BestOfMore(f, before, Ring(c, step, 3));
    }
  }

  lemma BestIsEvaluated(f: Point -> Float, xs: seq<Point>)
    requires xs != []
    ensures BestPoint(f, xs) in xs
  {
  }

  // ----- the calibration -----

  datatype CalibrationError = TooShort | NoVariance | NoFeasiblePoint | SpacingIndex | NegativeGrid

  datatype Calibration = Calibration(
    parameters: Parameters,
    logLikelihood: real,
    objective: real,
    persistence: real,
    unconditional: real,
    initial: real,
    evaluations: nat)

  lemma {:induction false} GridInBounds(n: nat, i: nat)
    requires i <= n
    ensures forall x :: x in Grid(n, i) ==> InBounds(x)
  {
    hide InBounds, GridPoint, GridPlane;
    if i > 0 {
      GridInBounds(n, i - 1);
      PlaneInBounds(n, i - 1, n);
    }
  }

  lemma {:induction false} PlaneInBounds(n: nat, i: nat, j: nat)
    requires i < n && j <= n
    ensures forall x :: x in GridPlane(n, i, j) ==> InBounds(x)
  {
    hide InBounds, GridPoint;
    if j > 0 {
      PlaneInBounds(n, i, j - 1);
      LineInBounds(n, i, j - 1, n);
    }
  }

  lemma {:induction false} LineInBounds(n: nat, i: nat, j: nat, k: nat)
    requires i < n && j < n && k <= n
    ensures forall x :: x in GridLine(n, i, j, k) ==> InBounds(x)
  {
    hide InBounds, GridPoint;
    if k > 0 {
      LineInBounds(n, i, j, k - 1);
      GridPointInBounds(n, i, j, k - 1);
    }
  }

  lemma GridPointInBounds(n: nat, i: nat, j: nat, k: nat)
    requires i < n && j < n && k < n
    ensures InBounds(GridPoint(n, i, j, k))
  {
    hide Linspace;
    LinspaceWithin(0.0, ALPHA_HI, n, i);
    LinspaceWithin(0.0, GAMMA_HI, n, j);
    LinspaceWithin(BETA_LO, BETA_HI, n, k);
  }

  lemma {:induction false} RingInBounds(c: Point, step: Point, i: nat)
    ensures forall x :: x in Ring(c, step, i) ==> InBounds(x)
  {
    hide InBounds, Neighbour;
    if i > 0 {
      RingInBounds(c, step, i - 1);
      RingPlaneInBounds(c, step, i - 1, 3);
    }
  }

  lemma {:induction false} RingPlaneInBounds(c: Point, step: Point, i: nat, j: nat)
    ensures forall x :: x in RingPlane(c, step, i, j) ==> InBounds(x)
  {
    hide InBounds, Neighbour;
    if j > 0 {
      RingPlaneInBounds(c, step, i, j - 1);
      RingLineInBounds(c, step, i, j - 1, 3);
    }
  }

  lemma {:induction false} RingLineInBounds(c: Point, step: Point, i: nat, j: nat, k: nat)
    ensures forall x :: x in RingLine(c, step, i, j, k) ==> InBounds(x)
  {
    if k > 0 {
      RingLineInBounds(c, step, i, j, k - 1);
    }
  }

  lemma {:induction false} EvaluatedInBounds(f: Point -> Float, n: nat, passes: nat)
    requires n >= 2
    ensures forall x :: x in Evaluated(f, n, passes) ==> InBounds(x)
  {
    hide InBounds, Grid, Ring, BestPoint, Step;
    if passes == 0 {
      GridInBounds(n, n);
    } else {
      EvaluatedInBounds(f, n, passes - 1);
      RingInBounds(BestPoint(f, Evaluated(f, n, passes - 1)), Step(n, passes - 1), 3);
    }
  }

  /** The best point scores no worse than any point evaluated, and strictly better than
      those evaluated before it; one finite score anywhere makes its score finite. */
  lemma BestPointIsLeast(f: Point -> Float, xs: seq<Point>, j: nat)
    requires j < |xs| && forall x :: f(x).Fin? || f(x).PosInf?
    ensures BestPoint(f, xs) in xs && LessEq(f(BestPoint(f, xs)), f(xs[j]))
    ensures j < ArgMin(Scores(f, xs)) ==> Less(f(BestPoint(f, xs)), f(xs[j]))
    ensures f(xs[j]).Fin? ==> f(BestPoint(f, xs)).Fin?
  {
    var ss := Scores(f, xs);
    assert ss[j] == f(xs[j]) && ss[0] == f(xs[0]);
    assert ss[ArgMin(ss)] == f(BestPoint(f, xs));
    ArgMinIsEarliestLeast(ss, j);
  }

  /** What the calibration promises about the point it returns. */
  ghost predicate Optimal(f: Point -> Float, xs: seq<Point>, x: Point) {
    && x in xs && InBounds(x) && Feasible(x) && f(x).Fin?
    && forall y :: y in xs ==> LessEq(f(x), f(y))
  }

  lemma BestIsOptimal(f: Point -> Float, n: nat, passes: nat)
    requires n >= 2 && forall x :: f(x).Fin? || f(x).PosInf?
    requires forall x :: f(x).Fin? ==> Feasible(x)
    requires exists x :: x in Grid(n, n) && f(x).Fin?
    ensures Optimal(f, Evaluated(f, n, passes), BestPoint(f, Evaluated(f, n, passes)))
  {
    hide BestPoint, Evaluated, InBounds, Feasible, LessEq, Less, Grid;
    var xs := Evaluated(f, n, passes);
    var x := BestPoint(f, xs);
    EvaluatedInBounds(f, n, passes);
    var y :| y in Grid(n, n) && f(y).Fin?;
    GridIsEvaluated(f, n, passes);
    forall j | 0 <= j < |xs|
      ensures x in xs && LessEq(f(x), f(xs[j])) && (f(xs[j]).Fin? ==> f(x).Fin?)
    {
      BestPointIsLeast(f, xs, j);
    }
  }

  lemma {:induction false} GridIsEvaluated(f: Point -> Float, n: nat, passes: nat)
    requires n >= 2
    ensures Grid(n, n) <= Evaluated(f, n, passes)
  {
    hide Grid, Ring, BestPoint, Step;
    if passes > 0 {
      GridIsEvaluated(f, n, passes - 1);
    }
  }

  /** Of the points of the grid, the first is always feasible, so the search can only
      come up empty when the likelihood itself is not finite there. */
  lemma FirstGridPointIsFeasible(n: nat)
    requires n >= 1
    ensures |Grid(n, n)| > 0 && Grid(n, n)[0] == Point(0.0, 0.0, BETA_LO) && Feasible(Point(0.0, 0.0, BETA_LO))
  {
    GridIsNotEmpty(n);
    GridStart(n, n);
  }

  lemma {:induction false} GridStart(n: nat, i: nat)
    requires 1 <= i <= n
    ensures |Grid(n, i)| > 0 && Grid(n, i)[0] == Point(0.0, 0.0, BETA_LO)
  {
    if i > 1 {
      GridStart(n, i - 1);
    } else {
      PlaneStart(n, n);
      assert Grid(n, 1) == [] + GridPlane(n, 0, n);
    }
  }

  lemma {:induction false} PlaneStart(n: nat, j: nat)
    requires 1 <= j <= n
    ensures |GridPlane(n, 0, j)| > 0 && GridPlane(n, 0, j)[0] == Point(0.0, 0.0, BETA_LO)
  {
    if j > 1 {
      PlaneStart(n, j - 1);
    } else {
      LineStart(n, n);
      assert GridPlane(n, 0, 1) == [] + GridLine(n, 0, 0, n);
    }
  }

  lemma {:induction false} LineStart(n: nat, k: nat)
    requires 1 <= k <= n
    ensures |GridLine(n, 0, 0, k)| > 0 && GridLine(n, 0, 0, k)[0] == Point(0.0, 0.0, BETA_LO)
  {
    if k > 1 {
      LineStart(n, k - 1);
    } else {
      assert GridLine(n, 0, 0, 1) == [] + [GridPoint(n, 0, 0, 0)];
    }
  }

  function ScoreOf(likelihood: Parameters -> Float, mean: real, sampleVariance: real): Point -> Float {
    x => Score(likelihood, mean, sampleVariance, x)
  }

  lemma ScoresAreNumbers(likelihood: Parameters -> Float, mean: real, sampleVariance: real)
    ensures var f := ScoreOf(likelihood, mean, sampleVariance);
            && (forall x :: f(x).Fin? || f(x).PosInf?)
            && forall x :: f(x).Fin? ==> Feasible(x)
  {
  }

  /** The parameters of x have a finite likelihood, and no evaluated point that is
      feasible and has one has a greater. */
  ghost predicate Likeliest(likelihood: Parameters -> Float, mean: real, sampleVariance: real, xs: seq<Point>, x: Point) {
    && likelihood(Targeted(x, mean, sampleVariance)).Fin?
    && forall y :: y in xs && Feasible(y) && likelihood(Targeted(y, mean, sampleVariance)).Fin? ==>
         likelihood(Targeted(y, mean, sampleVariance)).value <= likelihood(Targeted(x, mean, sampleVariance)).value
  }

  lemma OptimalIsLikeliest(likelihood: Parameters -> Float, mean: real, sampleVariance: real, xs: seq<Point>, x: Point)
    requires Optimal(ScoreOf(likelihood, mean, sampleVariance), xs, x)
    ensures Likeliest(likelihood, mean, sampleVariance, xs, x)
    ensures ScoreOf(likelihood, mean, sampleVariance)(x).Fin?
    ensures likelihood(Targeted(x, mean, sampleVariance))
         == Fin(-ScoreOf(likelihood, mean, sampleVariance)(x).value)
  {
    hide InBounds, Feasible, Targeted;
    var f := ScoreOf(likelihood, mean, sampleVariance);
    assert f(x).Fin?;
    forall y | y in xs && Feasible(y) && likelihood(Targeted(y, mean, sampleVariance)).Fin?
      ensures likelihood(Targeted(y, mean, sampleVariance)).value <= likelihood(Targeted(x, mean, sampleVariance)).value
    {
      assert LessEq(f(x), f(y));
    }
  }

  /** x scores no worse than every grid point. */
  ghost predicate BeatsGrid(f: Point -> Float, n: nat, x: Point) {
    forall i, j, k :: 0 <= i < n && 0 <= j < n && 0 <= k < n ==> LessEq(f(x), f(GridPoint(n, i, j, k)))
  }

  /** x scores no worse than every neighbour of the point that was best before pass
      number level. */
  ghost predicate BeatsPass(f: Point -> Float, n: nat, level: nat, x: Point)
    requires n >= 2
  {
    var c, step := BestPoint(f, Evaluated(f, n, level)), Step(n, level);
    forall i, j, k :: 0 <= i < 3 && 0 <= j < 3 && 0 <= k < 3 && !Centre(i, j, k) ==>
      LessEq(f(x), f(Neighbour(c, step, i, j, k)))
  }

  lemma {:induction false} EvaluatedPrefix(f: Point -> Float, n: nat, level: nat, passes: nat)
    requires n >= 2 && level <= passes
    ensures Evaluated(f, n, level) <= Evaluated(f, n, passes)
    decreases passes
  {
    hide Grid, Ring, BestPoint, Step;
    if level < passes {
      EvaluatedPrefix(f, n, level, passes - 1);
    }
  }

  lemma OptimalBeats(f: Point -> Float, n: nat, passes: nat, x: Point)
    requires n >= 2 && Optimal(f, Evaluated(f, n, passes), x)
    ensures BeatsGrid(f, n, x) && forall level :: 0 <= level < passes ==> BeatsPass(f, n, level, x)
  {
    hide Evaluated, Grid, Ring, GridPoint, Neighbour, LessEq, InBounds, Feasible, Centre, BestPoint, Step;
    var xs := Evaluated(f, n, passes);
    GridIsEvaluated(f, n, passes);
    GridCovers(n);
    forall level | 0 <= level < passes
      ensures BeatsPass(f, n, level, x)
    {
      EvaluatedSteps(f, n, level);
      EvaluatedPrefix(f, n, level + 1, passes);
      var c, step := BestPoint(f, Evaluated(f, n, level)), Step(n, level);
      RingCovers(c, step);
      forall i, j, k | 0 <= i < 3 && 0 <= j < 3 && 0 <= k < 3 && !Centre(i, j, k)
        ensures LessEq(f(x), f(Neighbour(c, step, i, j, k)))
      {
        assert Neighbour(c, step, i, j, k) in Ring(c, step, 3);
        assert Neighbour(c, step, i, j, k) in Evaluated(f, n, level + 1);
      }
    }
  }

  ghost predicate SomeFinite(f: Point -> Float, n: nat) {
    exists x :: x in Grid(n, n) && f(x).Fin?
  }

  /** The calibrated point is the best of all grid^3 + 26 * passes points evaluated; it
      is within the bounds and feasible, the sampler accepts its parameters, and their
      long-run variance is the sample variance. A grid of one point per dimension has
      no spacing and fails after its only evaluation. */
  method CalibrateGjrGarch(series: seq<real>, gridPoints: int, refinementPasses: int, likelihood: Parameters -> Float)
    returns (r: Result<Calibration, CalibrationError>)
    ensures r == Err(TooShort) <==> |series| < 100
    ensures r == Err(NoVariance) <==> |series| >= 100 && SampleVariance(series) <= 0.0
    ensures |series| >= 100 && SampleVariance(series) > 0.0 ==>
              var f := ScoreOf(likelihood, Mean(series), SampleVariance(series));
              && (r == Err(NegativeGrid) <==> gridPoints < 0)
              && (r == Err(NoFeasiblePoint) <==> gridPoints >= 0 && !SomeFinite(f, gridPoints))
              && (r == Err(SpacingIndex) <==> gridPoints == 1 && SomeFinite(f, gridPoints))
    ensures r.Ok? ==>
              && |series| >= 100 && SampleVariance(series) > 0.0 && gridPoints >= 2
              && var f := ScoreOf(likelihood, Mean(series), SampleVariance(series));
                 var passes: nat := if refinementPasses > 0 then refinementPasses else 0;
                 var xs := Evaluated(f, gridPoints, passes);
                 var x := BestPoint(f, xs);
                 && Optimal(f, xs, x)
                 && BeatsGrid(f, gridPoints, x)
                 && (forall level :: 0 <= level < passes ==> BeatsPass(f, gridPoints, level, x))
                 && r.value.parameters == Targeted(x, Mean(series), SampleVariance(series))
                 && Fin(r.value.objective) == f(x)
                 && likelihood(r.value.parameters) == Fin(r.value.logLikelihood)
                 && r.value.objective == -r.value.logLikelihood
                 && Likeliest(likelihood, Mean(series), SampleVariance(series), xs, x)
                 && WithinReach(gridPoints, passes, x, BestPoint(f, Grid(gridPoints, gridPoints)))
                 && r.value.evaluations == gridPoints * (gridPoints * gridPoints) + 26 * passes
                 && Stationary(r.value.parameters)
                 && r.value.persistence == Persistence(r.value.parameters)
                 && r.value.unconditional == Unconditional(r.value.parameters) == SampleVariance(series)
                 && r.value.initial == SampleVariance(series)
  {
    hide Optimal, Tracks, BestPoint, Evaluated, Grid, Ring, Step, ScoreOf, Targeted, Stationary, SomeFinite;
    hide Likeliest, WithinReach;
    hide SampleVariance, Mean, Persistence, PointPersistence, Feasible, BeatsGrid, BeatsPass, CoversGrid, CoversRing;
    if |series| < 100 {
      return Err(TooShort);
    }
    var mean := Mean(series);
    var sampleVariance := SampleVariance(series);
    if sampleVariance <= 0.0 {
      return Err(NoVariance);
    }
    if gridPoints < 0 {
      return Err(NegativeGrid);
    }
    var f := ScoreOf(likelihood, mean, sampleVariance);
    ScoresAreNumbers(likelihood, mean, sampleVariance);
    var s := SearchGrid(f, gridPoints);
    GridOutcome(f, gridPoints, s);
    if s.best.None? || !s.best.value.score.Fin? {
      return Err(NoFeasiblePoint);
    }
    if gridPoints == 1 {
      return Err(SpacingIndex);
    }
    var level := 0;
    ghost var passes: nat := if refinementPasses > 0 then refinementPasses else 0;
    EvaluatedSteps(f, gridPoints, 0);
    while level < refinementPasses
      invariant 0 <= level <= passes
      invariant Tracks(f, Evaluated(f, gridPoints, level), s)
    {
      ghost var xs := Evaluated(f, gridPoints, level);
      EvaluatedSteps(f, gridPoints, level);
      TracksMeans(f, xs, s);
      s := SearchRing(f, s.best.value.point, Step(gridPoints, level), s, xs);
      level := level + 1;
    }
    TracksMeans(f, Evaluated(f, gridPoints, passes), s);
    BestOfRun(f, gridPoints, passes);
    OptimalBeats(f, gridPoints, passes, BestPoint(f, Evaluated(f, gridPoints, passes)));
    var x := s.best.value.point;
    OptimalIsLikeliest(likelihood, mean, sampleVariance, Evaluated(f, gridPoints, passes), x);
    RefinementStaysNear(f, gridPoints, passes);
    EvaluatedSteps(f, gridPoints, 0);
    OptimalIsFinite(f, Evaluated(f, gridPoints, passes), x);
    TargetedIsAccepted(x, mean, sampleVariance);
    var parameters := Targeted(x, mean, sampleVariance);
    return Ok(Calibration(parameters, -s.best.value.score.value, s.best.value.score.value, PointPersistence(x),
                          parameters.omega / (1.0 - PointPersistence(x)), sampleVariance, s.evaluations));
  }

  lemma TracksMeans(f: Point -> Float, xs: seq<Point>, s: Search)
    requires Tracks(f, xs, s) && xs != []
    ensures s.evaluations == |xs| && s.best == Some(Scored(BestPoint(f, xs), f(BestPoint(f, xs))))
  {
  }

  lemma GridOutcome(f: Point -> Float, n: nat, s: Search)
    requires Tracks(f, Grid(n, n), s) && forall x :: f(x).Fin? || f(x).PosInf?
    ensures SomeFinite(f, n) <==> s.best.Some? && s.best.value.score.Fin?
    ensures SomeFinite(f, n) ==> n > 0
  {
    hide BestPoint, Grid;
    var xs := Grid(n, n);
    if n > 0 {
      GridIsNotEmpty(n);
      forall j | 0 <= j < |xs|
        ensures BestPoint(f, xs) in xs && (f(xs[j]).Fin? ==> f(BestPoint(f, xs)).Fin?)
      {
        BestPointIsLeast(f, xs, j);
      }
      assert BestPoint(f, xs) in xs by {
        BestPointIsLeast(f, xs, 0);
      }
    }
  }

  lemma EvaluatedSteps(f: Point -> Float, n: nat, level: nat)
    requires n >= 2
    ensures Evaluated(f, n, 0) == Grid(n, n)
    ensures Evaluated(f, n, level + 1) ==
              Evaluated(f, n, level) + Ring(BestPoint(f, Evaluated(f, n, level)), Step(n, level), 3)
  {
    hide Grid, Ring, Step, BestPoint;
  }

  lemma BestOfRun(f: Point -> Float, n: nat, passes: nat)
    requires n >= 2 && SomeFinite(f, n)
    requires (forall x :: f(x).Fin? || f(x).PosInf?) && forall x :: f(x).Fin? ==> Feasible(x)
    ensures Optimal(f, Evaluated(f, n, passes), BestPoint(f, Evaluated(f, n, passes)))
  {
    hide Optimal, Evaluated, BestPoint, Grid, Feasible;
    BestIsOptimal(f, n, passes);
  }

  lemma OptimalIsFinite(f: Point -> Float, xs: seq<Point>, x: Point)
    requires Optimal(f, xs, x)
    ensures f(x).Fin? && Feasible(x)
    ensures 1.0 - PointPersistence(x) > 0.0
  {
  }
}
