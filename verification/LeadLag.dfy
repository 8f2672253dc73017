/** The two liftings of a return series into a path, and what their signatures
    can and cannot see: src/neuralmarket/models/leadlag.py and augment_path in
    src/neuralmarket/models/signature.py. */
module LeadLag {
  import opened Common
  import opened Signature

  datatype BadInput = BadReturns | BadContext | BadScale

  function Cumulative(r: seq<real>, i: nat): real
    requires i <= |r|
  {
    Sum(r[..i])
  }

  function SumOfSquares(r: seq<real>): real {
    Sum(seq(|r|, i requires 0 <= i < |r| => Square(r[i])))
  }

  // ----- the lead-lag path -----

  /** Coordinate c (time, lead, lag, context...) of point p: origin, context
      point, then a lead advance and a lag catch for every return. */
  function Coordinate(r: seq<real>, ctx: seq<real>, scale: real, p: nat, c: nat): real
    requires p < 2 + 2 * |r| && c < 3 + |ctx| && scale > 0.0
  {
    if p == 0 then 0.0
    else if c >= 3 then ctx[c - 3]
    else if p == 1 then 0.0
    else
      var i := (p - 2) / 2;
      var caught := (p - 2) % 2;
      if c == 0 then (2 * i + 1 + caught) as real / (2 * |r|) as real
      else if c == 1 then Cumulative(r, i + 1) / scale
      else Cumulative(r, i + caught) / scale
  }

  function Point(r: seq<real>, ctx: seq<real>, scale: real, p: nat): (x: Vec)
    requires p < 2 + 2 * |r| && scale > 0.0
    ensures |x| == 3 + |ctx|
  {
    seq(3 + |ctx|, c requires 0 <= c < 3 + |ctx| => Coordinate(r, ctx, scale, p, c))
  }

  function LeadLagPath(r: seq<real>, ctx: seq<real>, scale: real): (points: seq<Vec>)
    requires scale > 0.0
    ensures |points| == 2 + 2 * |r| && AllDim(points, 3 + |ctx|)
  {
    seq(2 + 2 * |r|, p requires 0 <= p < 2 + 2 * |r| => Point(r, ctx, scale, p))
  }

  ghost predicate Rows(m: seq<seq<real>>, width: nat) {
    forall b :: 0 <= b < |m| ==> |m[b]| == width
  }

  /** Fills one body point of every row: path[:, idx, :] = (t, lead, lag, context). */
  method SetPoint(path: array3<real>, idx: nat, t: real, lead: seq<real>, lag: seq<real>, ctx: seq<seq<real>>)
    requires idx < path.Length1 && path.Length2 >= 3
    requires |lead| == |lag| == |ctx| == path.Length0 && Rows(ctx, path.Length2 - 3)
    modifies path
    ensures forall b, p, c :: 0 <= b < path.Length0 && 0 <= p < path.Length1 && 0 <= c < path.Length2 ==>
              path[b, p, c] == (if p != idx then old(path[b, p, c])
                                else if c == 0 then t else if c == 1 then lead[b]
                                else if c == 2 then lag[b] else ctx[b][c - 3])
  {
    forall b | 0 <= b < path.Length0 {
      path[b, idx, 0] := t;
    }
    forall b | 0 <= b < path.Length0 {
      path[b, idx, 1] := lead[b];
    }
    forall b | 0 <= b < path.Length0 {
      path[b, idx, 2] := lag[b];
    }
    forall b, c | 0 <= b < path.Length0 && 3 <= c < path.Length2 {
      path[b, idx, c] := ctx[b][c - 3];
    }
  }

  /** The two body points of return i: the lead moves first, then the lag catches up. */
  lemma BodyCoordinates(r: seq<real>, ctx: seq<real>, scale: real, i: nat, c: nat)
    requires i < |r| && c < 3 + |ctx| && scale > 0.0
    ensures Coordinate(r, ctx, scale, 2 + 2 * i, c) ==
              if c == 0 then (2 * i + 1) as real / (2 * |r|) as real
              else if c == 1 then Cumulative(r, i + 1) / scale
              else if c == 2 then Cumulative(r, i) / scale else ctx[c - 3]
    ensures Coordinate(r, ctx, scale, 3 + 2 * i, c) ==
              if c == 0 then (2 * i + 2) as real / (2 * |r|) as real
              else if c < 3 then Cumulative(r, i + 1) / scale else ctx[c - 3]
  {
    hide Cumulative;
    assert (2 * i) / 2 == i && (2 * i) % 2 == 0 && (2 * i + 1) / 2 == i && (2 * i + 1) % 2 == 1;
  }

  lemma FirstCoordinates(r: seq<real>, ctx: seq<real>, scale: real, c: nat)
    requires c < 3 + |ctx| && scale > 0.0
    ensures Coordinate(r, ctx, scale, 0, c) == 0.0
    ensures Coordinate(r, ctx, scale, 1, c) == if c < 3 then 0.0 else ctx[c - 3]
  {
  }

  /** Fills both body points of return number i in every row. */
  method SetBodyPoints(path: array3<real>, returns_: seq<seq<real>>, ctx: seq<seq<real>>, scale: real, horizon: nat,
                       i: nat, before: seq<real>, after: seq<real>)
    requires path.Length0 == |returns_| == |ctx| == |before| == |after|
    requires path.Length1 == 2 + 2 * horizon && path.Length2 >= 3 && i < horizon && scale > 0.0
    requires Rows(returns_, horizon) && Rows(ctx, path.Length2 - 3)
    requires forall b :: 0 <= b < |returns_| ==> before[b] == Cumulative(returns_[b], i) / scale
    requires forall b :: 0 <= b < |returns_| ==> after[b] == Cumulative(returns_[b], i + 1) / scale
    modifies path
    ensures forall b, p, c :: 0 <= b < path.Length0 && 0 <= p < path.Length1 && 0 <= c < path.Length2 ==>
              path[b, p, c] == if p == 2 + 2 * i || p == 3 + 2 * i then Coordinate(returns_[b], ctx[b], scale, p, c)
                               else old(path[b, p, c])
  {
    hide Coordinate, Cumulative;
    var lead, caught := 2 + 2 * i, 3 + 2 * i;
    SetPoint(path, lead, (2 * i + 1) as real / (2 * horizon) as real, after, before, ctx);
    SetPoint(path, caught, (2 * i + 2) as real / (2 * horizon) as real, after, after, ctx);
    forall b, c | 0 <= b < path.Length0 && 0 <= c < path.Length2
      ensures path[b, lead, c] == Coordinate(returns_[b], ctx[b], scale, lead, c)
      ensures path[b, caught, c] == Coordinate(returns_[b], ctx[b], scale, caught, c)
    {
      BodyCoordinates(returns_[b], ctx[b], scale, i, c);
    }
  }

  /** leadlag_augment_path: the path tensor is allocated as zeros and filled in place. */
  method LeadLagAugmentPath(returns_: seq<seq<real>>, width: nat, ctx: seq<seq<real>>, nContext: nat,
                            scale: real, horizon: nat)
    returns (r: Result<array3<real>, BadInput>)
    requires Rows(returns_, width) && Rows(ctx, nContext)
    ensures r.Err? <==> width != horizon || |ctx| != |returns_| || scale <= 0.0
    ensures r.Ok? ==>
              && fresh(r.value)
              && r.value.Length0 == |returns_|
              && r.value.Length1 == 2 + 2 * horizon
              && r.value.Length2 == 3 + nContext
              && forall b, p, c :: 0 <= b < |returns_| && 0 <= p < 2 + 2 * horizon && 0 <= c < 3 + nContext ==>
                   r.value[b, p, c] == Coordinate(returns_[b], ctx[b], scale, p, c)
  {
    hide Coordinate, Cumulative;
    if width != horizon {
      return Err(BadReturns);
    }
    if |ctx| != |returns_| {
      return Err(BadContext);
    }
    if scale <= 0.0 {
      return Err(BadScale);
    }
    var batch, dim := |returns_|, 3 + nContext;
    var path := new real[batch, 2 + 2 * horizon, dim]((b, p, c) => 0.0);
    forall b, c | 0 <= b < batch && 3 <= c < dim {
      path[b, 1, c] := ctx[b][c - 3];
    }
    var cumret := seq(batch, b requires 0 <= b < batch =>
      seq(horizon + 1, i requires 0 <= i < horizon + 1 => Cumulative(returns_[b], i)));
    forall b, c | 0 <= b < batch && 0 <= c < dim
      ensures path[b, 0, c] == Coordinate(returns_[b], ctx[b], scale, 0, c)
      ensures path[b, 1, c] == Coordinate(returns_[b], ctx[b], scale, 1, c)
    {
      FirstCoordinates(returns_[b], ctx[b], scale, c);
    }
    for i := 0 to horizon
      invariant forall b, p, c :: 0 <= b < batch && 0 <= p < 2 + 2 * i && 0 <= c < dim ==>
                  path[b, p, c] == Coordinate(returns_[b], ctx[b], scale, p, c)
    {
      var before := seq(batch, b requires 0 <= b < batch => cumret[b][i] / scale);
      var after := seq(batch, b requires 0 <= b < batch => cumret[b][i + 1] / scale);
      SetBodyPoints(path, returns_, ctx, scale, horizon, i, before, after);
    }
    r := Ok(path);
  }

  // ----- what level 2 of the lead-lag signature sees -----

  /** Twice the signed area between coordinates i and j. */
  function Area(s: Sig, d: nat, i: nat, j: nat): real
    requires i < d && j < d && |s.l2| == d && |s.l2[i]| == d && |s.l2[j]| == d
  {
    s.l2[i][j] - s.l2[j][i]
  }

  /** One segment adds the cross term of the displacement so far with the segment. */
  lemma AreaStep(a: Sig, x: Vec, d: nat, i: nat, j: nat)
    requires Shaped(a, d) && |x| == d && i < d && j < d
    ensures Area(Chen(a, Exp(x)), d, i, j) == Area(a, d, i, j) + Mul(a.l1[i], x[j]) - Mul(a.l1[j], x[i])
  {
    hide Mul, Chen, Exp;
    StepAt(a, x, d, i, j, i);
    StepAt(a, x, d, j, i, j);
    MulCommutes(x[i], x[j]);
  }

  lemma MulCommutes(x: real, y: real)
    ensures Mul(x, y) == Mul(y, x)
  {
  }

  lemma PrefixStep(points: seq<Vec>, d: nat, n: nat)
    requires AllDim(points, d) && 1 <= n < |points|
    ensures SigOf(points[..n + 1], d) == Chen(SigOf(points[..n], d), Exp(Diff(points[n - 1], points[n])))
  {
    hide SigOf, Chen, Exp;
    IncrementsSnoc(points[..n + 1], d);
    assert points[..n + 1][..n] == points[..n];
  }

  /** Coordinates 1 and 2 follow the levels c, coordinate 2 one step behind. */
  ghost predicate Interleaved(points: seq<Vec>, d: nat, c: seq<real>) {
    && d >= 3 && AllDim(points, d) && |points| == 2 * |c| && |c| >= 1 && c[0] == 0.0
    && points[0][1] == points[0][2] == 0.0
    && points[1][1] == points[1][2] == 0.0
    && forall i :: 1 <= i < |c| ==> Trails(points, d, c, i)
  }

  ghost predicate Trails(points: seq<Vec>, d: nat, c: seq<real>, i: nat)
    requires d >= 3 && AllDim(points, d) && 1 <= i < |c| && |points| == 2 * |c|
  {
    && points[2 * i][1] == c[i] && points[2 * i][2] == c[i - 1]
    && points[2 * i + 1][1] == points[2 * i + 1][2] == c[i]
  }

  function SquaredSteps(c: seq<real>, i: nat): real
    requires i < |c|
  {
    if i == 0 then 0.0 else SquaredSteps(c, i - 1) + Square(c[i] - c[i - 1])
  }

  /** The lead/lag area of the first n points. */
  function AreaUpTo(points: seq<Vec>, d: nat, n: nat): real
    requires AllDim(points, d) && d >= 3 && 1 <= n <= |points|
  {
    Area(SigOf(points[..n], d), d, 1, 2)
  }

  /** The area gained on the segment from point m - 1 to point m. */
  lemma SegmentArea(points: seq<Vec>, d: nat, m: nat, p: real, q: real, p': real, q': real)
    requires AllDim(points, d) && d >= 3 && 1 <= m < |points|
    requires points[0][1] == points[0][2] == 0.0
    requires points[m - 1][1] == p && points[m - 1][2] == q && points[m][1] == p' && points[m][2] == q'
    ensures AreaUpTo(points, d, m + 1) == AreaUpTo(points, d, m) + Mul(p, q' - q) - Mul(q, p' - p)
  {
    hide Mul, SigOf, Chen, Exp;
    var a, x := SigOf(points[..m], d), Diff(points[m - 1], points[m]);
    LevelOneIsDisplacement(points[..m], d, 1);
    LevelOneIsDisplacement(points[..m], d, 2);
    assert a.l1[1] == p && a.l1[2] == q && x[1] == p' - p && x[2] == q' - q;
    PrefixStep(points, d, m);
    AreaStep(a, x, d, 1, 2);
  }

  lemma CrossTerms(a: real, b: real)
    ensures Mul(a, a - a) - Mul(a, b - a) + Mul(b, b - a) - Mul(a, b - b) == Square(b - a)
    ensures Mul(0.0, 0.0 - 0.0) == 0.0
  {
  }

  /** A lead move from a to b followed by the lag catch. */
  lemma TwoSegments(points: seq<Vec>, d: nat, m: nat, a: real, b: real)
    requires AllDim(points, d) && d >= 3 && 1 <= m && m + 1 < |points|
    requires points[0][1] == points[0][2] == 0.0
    requires points[m - 1][1] == a && points[m - 1][2] == a && points[m][1] == b && points[m][2] == a
    requires points[m + 1][1] == b && points[m + 1][2] == b
    ensures AreaUpTo(points, d, m + 2) == AreaUpTo(points, d, m) + Square(b - a)
  {
    hide Mul, Square, AreaUpTo;
    SegmentArea(points, d, m, a, a, b, a);
    SegmentArea(points, d, m + 1, b, a, b, b);
    CrossTerms(a, b);
  }

  lemma AreaOfStart(points: seq<Vec>, d: nat)
    requires AllDim(points, d) && d >= 3 && |points| >= 2
    requires points[0][1] == points[0][2] == points[1][1] == points[1][2] == 0.0
    ensures AreaUpTo(points, d, 2) == 0.0
  {
    hide Mul, SigOf;
    SegmentArea(points, d, 1, 0.0, 0.0, 0.0, 0.0);
    CrossTerms(0.0, 0.0);
    EmptyProduct(points[..1], d);
  }

  /** The area collects the squared steps, one per lead move and lag catch. */
  lemma {:induction false} AreaAfter(points: seq<Vec>, d: nat, c: seq<real>, i: nat)
    requires Interleaved(points, d, c) && i < |c|
    ensures AreaUpTo(points, d, 2 + 2 * i) == SquaredSteps(c, i)
    decreases i
  {
    hide Square, AreaUpTo;
    if i == 0 {
      AreaOfStart(points, d);
    } else {
      AreaAfter(points, d, c, i - 1);
      assert Trails(points, d, c, i) && (i > 1 ==> Trails(points, d, c, i - 1));
      TwoSegments(points, d, 2 * i, c[i - 1], c[i]);
    }
  }

  lemma InterleavedEnds(points: seq<Vec>, d: nat, c: seq<real>)
    requires Interleaved(points, d, c)
    ensures |points| == 2 * |c| && |c| >= 1 && d >= 3 && AllDim(points, d)
    ensures points[|points| - 1][1] - points[0][1] == c[|c| - 1]
    ensures points[|points| - 1][2] - points[0][2] == c[|c| - 1]
  {
    if |c| > 1 {
      assert Trails(points, d, c, |c| - 1);
    }
  }

  /** Level 2 of any interleaved path: symmetric part from the end level t,
      antisymmetric part from the squared steps q. */
  ghost predicate SeesStepsAndEnd(s: Sig, d: nat, q: real, t: real)
    requires Shaped(s, d) && d >= 3
  {
    && Area(s, d, 1, 2) == q
    && s.l2[1][2] + s.l2[2][1] == Square(t)
    && s.l2[1][1] == Square(t) / 2.0
    && s.l2[2][2] == Square(t) / 2.0
  }

  lemma InterleavedSignature(points: seq<Vec>, d: nat, c: seq<real>)
    requires Interleaved(points, d, c)
    ensures SeesStepsAndEnd(SigOf(points, d), d, SquaredSteps(c, |c| - 1), c[|c| - 1])
  {
    hide SigOf, GroupLike, SeesStepsAndEnd, SquaredSteps, Interleaved;
    var n := |c| - 1;
    assert |points| == 2 * |c| && |c| >= 1 && d >= 3 && AllDim(points, d) by { InterleavedEnds(points, d, c); }
    assert points[..2 + 2 * n] == points;
    AreaAfter(points, d, c, n);
    InterleavedEnds(points, d, c);
    LevelOneIsDisplacement(points, d, 1);
    LevelOneIsDisplacement(points, d, 2);
    assert GroupLike(SigOf(points, d), d) by { SigGroupLike(points, d); }
    SymmetricPart(SigOf(points, d), d, c[n]);
  }

  lemma SigGroupLike(points: seq<Vec>, d: nat)
    requires |points| >= 1 && AllDim(points, d)
    ensures GroupLike(SigOf(points, d), d)
  {
    hide GroupLike, Product;
    ProductGroupLike(Increments(points, d), d);
  }

  lemma SymmetricPart(s: Sig, d: nat, t: real)
    requires GroupLike(s, d) && d >= 3 && s.l1[1] == t && s.l1[2] == t
    ensures SeesStepsAndEnd(s, d, Area(s, d, 1, 2), t)
  {
    assert Shuffle2At(s, d, 1, 2) && Shuffle2At(s, d, 1, 1) && Shuffle2At(s, d, 2, 2);
    hide Mul, Square;
    Powers(t);
  }

  function Levels(r: seq<real>, scale: real): (c: seq<real>)
    requires scale > 0.0
    ensures |c| == |r| + 1
  {
    seq(|r| + 1, i requires 0 <= i < |r| + 1 => Cumulative(r, i) / scale)
  }

  lemma LevelsStart(r: seq<real>, scale: real)
    requires scale > 0.0
    ensures Levels(r, scale)[0] == 0.0
  {
    assert r[..0] == [];
  }

  lemma LeadLagInterleaves(r: seq<real>, ctx: seq<real>, scale: real)
    requires scale > 0.0
    ensures Interleaved(LeadLagPath(r, ctx, scale), 3 + |ctx|, Levels(r, scale))
  {
    hide Sum;
    var points, d, c := LeadLagPath(r, ctx, scale), 3 + |ctx|, Levels(r, scale);
    LevelsStart(r, scale);
    forall i | 1 <= i < |c|
      ensures Trails(points, d, c, i)
    {
      assert points[2 * i] == Point(r, ctx, scale, 2 * i);
      assert points[2 * i + 1] == Point(r, ctx, scale, 2 * i + 1);
      assert Coordinate(r, ctx, scale, 2 * i, 1) == c[i];
      assert Coordinate(r, ctx, scale, 2 * i, 2) == c[i - 1];
      assert Coordinate(r, ctx, scale, 2 * i + 1, 1) == c[i];
      assert Coordinate(r, ctx, scale, 2 * i + 1, 2) == c[i];
    }
  }

  lemma PositiveSquare(x: real)
    requires x > 0.0
    ensures Square(x) > 0.0
  {
    assert Square(x) / x == x;
  }

  /** One more squared return over the squared scale. */
  lemma ScaledSquare(c: real, r: real, q: real, scale: real, a: real, b: real)
    requires scale > 0.0 && Mul(a, scale) == c && Mul(b, scale) == c + r
    ensures Mul(q + Square(b - a), Square(scale)) == Mul(q, Square(scale)) + Square(r)
  {
    AddsMul(q, Square(b - a), Square(scale));
    AddsMul(b - a, a, scale);
    SquareOfProduct(b - a, scale);
    hide Mul, Square;
    assert Mul(b - a, scale) == r;
  }

  lemma SquareOfProduct(u: real, v: real)
    ensures Mul(Square(u), Square(v)) == Square(Mul(u, v))
  {
    assert (u * u) * (v * v) == (u * v) * (u * v);
  }

  lemma SquaresPrefix(r: seq<real>, i: nat)
    requires i < |r|
    ensures SumOfSquares(r[..i + 1]) == SumOfSquares(r[..i]) + Square(r[i])
  {
    hide Square;
    var t, u := r[..i + 1], r[..i];
    var longer := seq(|t|, k requires 0 <= k < |t| => Square(t[k]));
    var shorter := seq(|u|, k requires 0 <= k < |u| => Square(u[k]));
    assert longer == shorter + [Square(r[i])];
    SumSnoc(shorter, Square(r[i]));
  }

  /** The squared steps of the scaled levels, times scale squared, are the squared returns. */
  lemma {:induction false} StepsAreSquaredReturns(r: seq<real>, scale: real, i: nat)
    requires scale > 0.0 && i <= |r|
    ensures Mul(SquaredSteps(Levels(r, scale), i), Square(scale)) == SumOfSquares(r[..i])
  {
    hide Mul, Square;
    if i == 0 {
      assert r[..0] == [];
      NoProduct(Square(scale));
    } else {
      StepsAreSquaredReturns(r, scale, i - 1);
      SumPrefix(r, i - 1);
      SquaresPrefix(r, i - 1);
      var c := Levels(r, scale);
      LevelTimesScale(r, scale, i - 1);
      LevelTimesScale(r, scale, i);
      ScaledSquare(Cumulative(r, i - 1), r[i - 1], SquaredSteps(c, i - 1), scale, c[i - 1], c[i]);
    }
  }

  lemma LevelTimesScale(r: seq<real>, scale: real, i: nat)
    requires scale > 0.0 && i <= |r|
    ensures Mul(Levels(r, scale)[i], scale) == Cumulative(r, i)
  {
  }

  /** The claim of the construction: scale squared times the antisymmetric part of
      level 2 between lead and lag is the realised quadratic variation, while the
      symmetric part and the lead (or lag) channel alone only see the total return. */
  lemma LeadLagSeesQuadraticVariation(r: seq<real>, ctx: seq<real>, scale: real)
    requires scale > 0.0
    ensures
      var s, total := SigOf(LeadLagPath(r, ctx, scale), 3 + |ctx|), Sum(r) / scale;
      && Mul(s.l2[1][2] - s.l2[2][1], Square(scale)) == SumOfSquares(r)
      && s.l2[1][2] + s.l2[2][1] == Square(total)
      && s.l2[1][1] == Square(total) / 2.0
      && s.l2[2][2] == Square(total) / 2.0
  {
    hide Mul, Square, SigOf, LeadLagPath, Sum, SquaredSteps, Interleaved, Levels;
    LeadLagInterleaves(r, ctx, scale);
    LevelsEnd(r, scale);
    InterleavedSignature(LeadLagPath(r, ctx, scale), 3 + |ctx|, Levels(r, scale));
  }

  lemma LevelsEnd(r: seq<real>, scale: real)
    requires scale > 0.0
    ensures Mul(SquaredSteps(Levels(r, scale), |r|), Square(scale)) == SumOfSquares(r)
    ensures Levels(r, scale)[|r|] == Sum(r) / scale
  {
    assert r[..|r|] == r;
    StepsAreSquaredReturns(r, scale, |r|);
  }

  /** Two return series with the same total have the same lead/lag block at level
      2 exactly when they have the same sum of squares. */
  lemma LeadLagSeparates(r: seq<real>, q: seq<real>, ctx: seq<real>, scale: real)
    requires scale > 0.0 && Sum(r) == Sum(q)
    ensures
      var s := SigOf(LeadLagPath(r, ctx, scale), 3 + |ctx|);
      var t := SigOf(LeadLagPath(q, ctx, scale), 3 + |ctx|);
      (s.l2[1][2] == t.l2[1][2] && s.l2[2][1] == t.l2[2][1]) <==> SumOfSquares(r) == SumOfSquares(q)
  {
    hide Mul, Square, SigOf, LeadLagPath, Sum, SumOfSquares;
    var s, t := SigOf(LeadLagPath(r, ctx, scale), 3 + |ctx|), SigOf(LeadLagPath(q, ctx, scale), 3 + |ctx|);
    LeadLagSeesQuadraticVariation(r, ctx, scale);
    LeadLagSeesQuadraticVariation(q, ctx, scale);
    Cancel(s.l2[1][2] - s.l2[2][1], t.l2[1][2] - t.l2[2][1], scale);
  }

  lemma Cancel(x: real, y: real, scale: real)
    requires scale > 0.0
    ensures Mul(x, Square(scale)) == Mul(y, Square(scale)) <==> x == y
  {
    PositiveSquare(scale);
    var h := Square(scale);
    assert x * h / h == x && y * h / h == y;
  }

  // ----- the cumulative-only lifting -----

  /** augment_path: origin, context point, then (time, cumulative return, context). */
  function AugmentedPath(r: seq<real>, ctx: seq<real>, scale: real): (points: seq<Vec>)
    requires scale > 0.0
    ensures |points| == |r| + 2 && AllDim(points, 2 + |ctx|)
  {
    var origin := seq(2 + |ctx|, c => 0.0);
    var contextPoint := [0.0, 0.0] + ctx;
    var body := seq(|r|, i requires 0 <= i < |r| =>
      [(i + 1) as real / |r| as real, Cumulative(r, i + 1) / scale] + ctx);
    [origin, contextPoint] + body
  }

  function AugmentPath(returns_: seq<seq<real>>, width: nat, ctx: seq<seq<real>>, scale: real, horizon: nat)
    : (out: Result<seq<seq<Vec>>, BadInput>)
    ensures out.Err? <==> width != horizon || |ctx| != |returns_| || scale <= 0.0
    ensures out.Ok? ==> |out.value| == |returns_|
    ensures out.Ok? ==> forall b :: 0 <= b < |returns_| ==> out.value[b] == AugmentedPath(returns_[b], ctx[b], scale)
  {
    if width != horizon then Err(BadReturns)
    else if |ctx| != |returns_| then Err(BadContext)
    else if scale <= 0.0 then Err(BadScale)
    else Ok(seq(|returns_|, b requires 0 <= b < |returns_| => AugmentedPath(returns_[b], ctx[b], scale)))
  }

  /** The path itself forgets nothing: after the context point its steps are equal in time
      and are the scaled returns one by one. */
  lemma AugmentedSteps(r: seq<real>, ctx: seq<real>, scale: real, i: nat)
    requires scale > 0.0 && i < |r|
    ensures var points := AugmentedPath(r, ctx, scale);
            && Mul(points[i + 2][1] - points[i + 1][1], scale) == r[i]
            && points[i + 2][0] - points[i + 1][0] == 1.0 / |r| as real
            && points[i + 2][2..] == points[i + 1][2..] == ctx
  {
    var points := AugmentedPath(r, ctx, scale);
    SumPrefix(r, i);
    assert r[..0] == [];
    var before, after := Sum(r[..i]), Sum(r[..i + 1]);
    assert points[i + 2][1] == after / scale && points[i + 1][1] == before / scale;
    assert (after / scale - before / scale) * scale == after / scale * scale - before / scale * scale == after - before;
    assert (i + 1) as real / |r| as real - i as real / |r| as real == 1.0 / |r| as real;
  }

  /** The return channel of the cumulative-only path is blind to local variation
      at every level: its pure powers are functions of the total return. */
  lemma CumulativePathSeesOnlyTheTotal(r: seq<real>, ctx: seq<real>, scale: real)
    requires scale > 0.0
    ensures SigOf(AugmentedPath(r, ctx, scale), 2 + |ctx|).l1[1] == Sum(r) / scale
    ensures SigOf(AugmentedPath(r, ctx, scale), 2 + |ctx|).l2[1][1] == Square(Sum(r) / scale) / 2.0
    ensures SigOf(AugmentedPath(r, ctx, scale), 2 + |ctx|).l3[1][1][1] == CubeOf(Sum(r) / scale) / 6.0
  {
    hide SigOf, Square, CubeOf;
    var points := AugmentedPath(r, ctx, scale);
    assert r[..|r|] == r;
    assert points[|points| - 1][1] == Sum(r) / scale && points[0][1] == 0.0;
    DiagonalIsDisplacement(points, 2 + |ctx|, 1, Sum(r) / scale);
  }

  // ----- the context -----

  /** A path as both liftings make it: base channels and the context channels, first all
      zeros, then zeros and the context, and the same context ever after. */
  ghost predicate CarriesContext(points: seq<Vec>, ctx: seq<real>, base: nat) {
    && |points| >= 2 && AllDim(points, base + |ctx|)
    && (forall c :: 0 <= c < base + |ctx| ==> points[0][c] == 0.0)
    && (forall c :: 0 <= c < base ==> points[1][c] == 0.0)
    && forall p :: 1 <= p < |points| ==> points[p][base..] == ctx
  }

  lemma ContextChannel(points: seq<Vec>, ctx: seq<real>, base: nat, p: nat, i: nat)
    requires CarriesContext(points, ctx, base) && 1 <= p < |points| && i < |ctx|
    ensures points[p][base + i] == ctx[i]
  {
    assert points[p][base..][i] == ctx[i];
  }

  /** What the signature holds of the context: at context channels i, j, k the levels are
      those of one straight segment to the context; with another channel c the context
      comes first, so that one order holds the product and the other nothing. */
  ghost predicate SeesContext(s: Sig, ctx: seq<real>, base: nat, i: nat, j: nat, k: nat, c: nat)
    requires Shaped(s, base + |ctx|) && i < |ctx| && j < |ctx| && k < |ctx| && c < base
  {
    && s.l1[base + i] == ctx[i] && s.l1[base + j] == ctx[j]
    && s.l2[base + i][base + j] == ctx[i] * ctx[j] / 2.0
    && s.l3[base + i][base + j][base + k] == ctx[i] * ctx[j] * ctx[k] / 6.0
    && s.l2[base + i][c] == ctx[i] * s.l1[c]
    && s.l2[c][base + i] == 0.0
  }

  lemma FirstSegment(a: Sig, x: Vec, ctx: seq<real>, base: nat, i: nat, j: nat, k: nat, c: nat)
    requires Shaped(a, base + |ctx|) && a == Unit(base + |ctx|) && |x| == base + |ctx|
    requires i < |ctx| && j < |ctx| && k < |ctx| && c < base
    requires x[base + i] == ctx[i] && x[base + j] == ctx[j] && x[base + k] == ctx[k] && x[c] == 0.0
    ensures SeesContext(Chen(a, Exp(x)), ctx, base, i, j, k, c)
  {
    hide Chen, Exp;
    var d := base + |ctx|;
    StepAt(a, x, d, base + i, base + j, base + k);
    StepAt(a, x, d, base + j, c, c);
    StepAt(a, x, d, base + i, c, c);
    StepAt(a, x, d, c, base + i, c);
  }

  lemma LaterSegment(a: Sig, x: Vec, ctx: seq<real>, base: nat, i: nat, j: nat, k: nat, c: nat)
    requires Shaped(a, base + |ctx|) && |x| == base + |ctx|
    requires i < |ctx| && j < |ctx| && k < |ctx| && c < base
    requires x[base + i] == 0.0 && x[base + j] == 0.0 && x[base + k] == 0.0
    requires SeesContext(a, ctx, base, i, j, k, c)
    ensures SeesContext(Chen(a, Exp(x)), ctx, base, i, j, k, c)
  {
    hide Chen, Exp;
    var d := base + |ctx|;
    StepAt(a, x, d, base + i, base + j, base + k);
    StepAt(a, x, d, base + j, c, c);
    StepAt(a, x, d, base + i, c, c);
    StepAt(a, x, d, c, base + i, c);
  }

  lemma {:induction false} ContextIsSeen(points: seq<Vec>, ctx: seq<real>, base: nat, n: nat,
                                         i: nat, j: nat, k: nat, c: nat)
    requires CarriesContext(points, ctx, base) && 2 <= n <= |points|
    requires i < |ctx| && j < |ctx| && k < |ctx| && c < base
    ensures SeesContext(SigOf(points[..n], base + |ctx|), ctx, base, i, j, k, c)
    decreases n
  {
    hide SigOf, Chen, Exp, SeesContext, Unit;
    var d := base + |ctx|;
    PrefixStep(points, d, n - 1);
    ContextChannel(points, ctx, base, n - 1, i);
    ContextChannel(points, ctx, base, n - 1, j);
    ContextChannel(points, ctx, base, n - 1, k);
    var x := Diff(points[n - 2], points[n - 1]);
    if n == 2 {
      EmptyProduct(points[..1], d);
      FirstSegment(SigOf(points[..1], d), x, ctx, base, i, j, k, c);
    } else {
      ContextIsSeen(points, ctx, base, n - 1, i, j, k, c);
      ContextChannel(points, ctx, base, n - 2, i);
      ContextChannel(points, ctx, base, n - 2, j);
      ContextChannel(points, ctx, base, n - 2, k);
      LaterSegment(SigOf(points[..n - 1], d), x, ctx, base, i, j, k, c);
    }
  }

  /** Level 1 of a path that starts at zero is its last point. */
  lemma LevelOneIsLastPoint(points: seq<Vec>, d: nat)
    requires |points| >= 1 && AllDim(points, d) && forall c :: 0 <= c < d ==> points[0][c] == 0.0
    ensures SigOf(points, d).l1 == points[|points| - 1]
  {
    hide SigOf;
    forall c: nat | c < d
      ensures SigOf(points, d).l1[c] == points[|points| - 1][c]
    {
      LevelOneIsDisplacement(points, d, c);
    }
  }

  lemma AugmentedCarriesContext(r: seq<real>, ctx: seq<real>, scale: real)
    requires scale > 0.0
    ensures CarriesContext(AugmentedPath(r, ctx, scale), ctx, 2)
  {
  }

  lemma LeadLagCarriesContext(r: seq<real>, ctx: seq<real>, scale: real)
    requires scale > 0.0
    ensures CarriesContext(LeadLagPath(r, ctx, scale), ctx, 3)
  {
  }

  function Elapsed(r: seq<real>): real {
    if r == [] then 0.0 else 1.0
  }

  function Total(r: seq<real>, scale: real): real
    requires scale > 0.0
  {
    Sum(r) / scale
  }

  /** A vector that holds these base channels and then the context. */
  predicate Reads(x: Vec, base: seq<real>, ctx: seq<real>) {
    |x| == |base| + |ctx| && x[..|base|] == base && x[|base|..] == ctx
  }

  /** The first point is the origin and the second the context point, and level 1 of the
      cumulative path reads time, total return and context. */
  lemma AugmentedSignature(r: seq<real>, ctx: seq<real>, scale: real)
    requires scale > 0.0
    ensures AugmentedPath(r, ctx, scale)[0] == seq(2 + |ctx|, c => 0.0)
    ensures AugmentedPath(r, ctx, scale)[1] == [0.0, 0.0] + ctx
    ensures Reads(SigOf(AugmentedPath(r, ctx, scale), 2 + |ctx|).l1, [Elapsed(r), Total(r, scale)], ctx)
  {
    hide SigOf, Total;
    LevelOneIsLastPoint(AugmentedPath(r, ctx, scale), 2 + |ctx|);
    AugmentedEnd(r, ctx, scale);
  }

  lemma NoReturns(r: seq<real>, scale: real)
    requires r == [] && scale > 0.0
    ensures Total(r, scale) == 0.0
  {
  }

  lemma AugmentedEnd(r: seq<real>, ctx: seq<real>, scale: real)
    requires scale > 0.0
    ensures Reads(AugmentedPath(r, ctx, scale)[1 + |r|], [Elapsed(r), Total(r, scale)], ctx)
  {
    hide Total, Cumulative;
    if r == [] {
      NoReturns(r, scale);
    } else {
      AllReturns(r, scale);
      LastDay(|r|);
    }
  }

  lemma AllReturns(r: seq<real>, scale: real)
    requires scale > 0.0
    ensures Cumulative(r, |r|) / scale == Total(r, scale)
  {
    assert r[..|r|] == r;
  }

  lemma LastDay(n: nat)
    requires n >= 1
    ensures n as real / n as real == 1.0
  {
  }

  lemma AugmentedSeesContext(r: seq<real>, ctx: seq<real>, scale: real, i: nat, j: nat, k: nat, c: nat)
    requires scale > 0.0 && i < |ctx| && j < |ctx| && k < |ctx| && c < 2
    ensures SeesContext(SigOf(AugmentedPath(r, ctx, scale), 2 + |ctx|), ctx, 2, i, j, k, c)
  {
    hide SigOf, SeesContext, AugmentedPath;
    var points := AugmentedPath(r, ctx, scale);
    AugmentedCarriesContext(r, ctx, scale);
    assert points[..|points|] == points;
    ContextIsSeen(points, ctx, 2, |points|, i, j, k, c);
  }

  /** The same for the lead-lag path. */
  lemma LeadLagSignature(r: seq<real>, ctx: seq<real>, scale: real)
    requires scale > 0.0
    ensures LeadLagPath(r, ctx, scale)[0] == seq(3 + |ctx|, c => 0.0)
    ensures LeadLagPath(r, ctx, scale)[1] == [0.0, 0.0, 0.0] + ctx
    ensures Reads(SigOf(LeadLagPath(r, ctx, scale), 3 + |ctx|).l1, [Elapsed(r), Total(r, scale), Total(r, scale)], ctx)
  {
    hide SigOf, Total;
    LevelOneIsLastPoint(LeadLagPath(r, ctx, scale), 3 + |ctx|);
    LeadLagEnd(r, ctx, scale);
  }

  lemma LeadLagSeesContext(r: seq<real>, ctx: seq<real>, scale: real, i: nat, j: nat, k: nat, c: nat)
    requires scale > 0.0 && i < |ctx| && j < |ctx| && k < |ctx| && c < 3
    ensures SeesContext(SigOf(LeadLagPath(r, ctx, scale), 3 + |ctx|), ctx, 3, i, j, k, c)
  {
    hide SigOf, SeesContext, LeadLagPath;
    var points := LeadLagPath(r, ctx, scale);
    LeadLagCarriesContext(r, ctx, scale);
    assert points[..|points|] == points;
    ContextIsSeen(points, ctx, 3, |points|, i, j, k, c);
  }

  lemma LeadLagEndAt(r: seq<real>, ctx: seq<real>, scale: real, c: nat)
    requires scale > 0.0 && c < 3 + |ctx|
    ensures Coordinate(r, ctx, scale, 1 + 2 * |r|, c) ==
              if c == 0 then Elapsed(r) else if c < 3 then Total(r, scale) else ctx[c - 3]
  {
    hide Coordinate, Cumulative, Total;
    if r != [] {
      BodyCoordinates(r, ctx, scale, |r| - 1, c);
      LastTime(|r|);
      AllReturns(r, scale);
    } else {
      FirstCoordinates(r, ctx, scale, c);
      NoReturns(r, scale);
    }
  }

  lemma LeadLagEnd(r: seq<real>, ctx: seq<real>, scale: real)
    requires scale > 0.0
    ensures Reads(LeadLagPath(r, ctx, scale)[1 + 2 * |r|], [Elapsed(r), Total(r, scale), Total(r, scale)], ctx)
  {
    hide Coordinate, Total, Elapsed;
    var last := Point(r, ctx, scale, 1 + 2 * |r|);
    LeadLagEndAt(r, ctx, scale, 0);
    LeadLagEndAt(r, ctx, scale, 1);
    LeadLagEndAt(r, ctx, scale, 2);
    forall j: nat | j < |ctx|
      ensures last[3..][j] == ctx[j]
    {
      LeadLagEndAt(r, ctx, scale, 3 + j);
      assert last[3..][j] == last[3 + j];
    }
    assert last[3..] == ctx;
    assert last[..3] == [last[0], last[1], last[2]];
  }

  lemma LastTime(n: nat)
    requires n >= 1
    ensures (2 * (n - 1) + 2) as real / (2 * n) as real == 1.0
  {
  }

  /** After the context point the lead-lag path takes two equal steps in time a day: on the
      first the lead moves by the scaled return, on the second the lag does. */
  lemma LeadLagSteps(r: seq<real>, ctx: seq<real>, scale: real, i: nat)
    requires scale > 0.0 && i < |r|
    ensures var points := LeadLagPath(r, ctx, scale);
            var start, lead, caught := points[1 + 2 * i], points[2 + 2 * i], points[3 + 2 * i];
            && Mul(lead[1] - start[1], scale) == Mul(caught[2] - lead[2], scale) == r[i]
            && lead[2] == start[2] && caught[1] == lead[1]
            && lead[0] - start[0] == caught[0] - lead[0] == 1.0 / (2 * |r|) as real
  {
    var points := LeadLagPath(r, ctx, scale);
    BodyCoordinates(r, ctx, scale, i, 0);
    BodyCoordinates(r, ctx, scale, i, 1);
    BodyCoordinates(r, ctx, scale, i, 2);
    StartOfDay(r, ctx, scale, i);
    SumPrefix(r, i);
    ScaledStep(Cumulative(r, i), r[i], scale);
    EvenSteps(i, |r|);
  }

  lemma StartOfDay(r: seq<real>, ctx: seq<real>, scale: real, i: nat)
    requires scale > 0.0 && i < |r|
    ensures Coordinate(r, ctx, scale, 1 + 2 * i, 0) == (2 * i) as real / (2 * |r|) as real
    ensures Coordinate(r, ctx, scale, 1 + 2 * i, 1) == Coordinate(r, ctx, scale, 1 + 2 * i, 2) == Cumulative(r, i) / scale
  {
    if i == 0 {
      assert r[..0] == [];
      FirstCoordinates(r, ctx, scale, 0);
    } else {
      BodyCoordinates(r, ctx, scale, i - 1, 0);
      BodyCoordinates(r, ctx, scale, i - 1, 1);
      BodyCoordinates(r, ctx, scale, i - 1, 2);
    }
  }

  lemma ScaledStep(before: real, r: real, scale: real)
    requires scale > 0.0
    ensures Mul((before + r) / scale - before / scale, scale) == r
  {
    assert ((before + r) / scale) * scale == before + r && (before / scale) * scale == before;
  }

  lemma EvenSteps(i: nat, n: nat)
    requires i < n
    ensures (2 * i + 1) as real / (2 * n) as real - (2 * i) as real / (2 * n) as real == 1.0 / (2 * n) as real
    ensures (2 * i + 2) as real / (2 * n) as real - (2 * i + 1) as real / (2 * n) as real == 1.0 / (2 * n) as real
  {
  }
}
