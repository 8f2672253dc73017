/** The expected-signature distance between two batches (signature_mmd in
    src/neuralmarket/models/signature.py) and what a zero distance means for
    lead-lag features. */
module SignatureMmd {
  import opened Common
  import opened Signature
  import opened LeadLag

  datatype MmdError = LevelSetsDiffer | NoLevels | BatchSizesDiffer

  /** One level of one batch: rows of equal positive width, at least one row. */
  ghost predicate Batch(rows: seq<seq<real>>, width: nat) {
    |rows| >= 1 && width >= 1 && forall b :: 0 <= b < |rows| ==> |rows[b]| == width
  }

  function Column(rows: seq<seq<real>>, width: nat, c: nat): (col: seq<real>)
    requires Batch(rows, width) && c < width
    ensures |col| == |rows|
  {
    seq(|rows|, b requires 0 <= b < |rows| => rows[b][c])
  }

  function SquaredGaps(r: seq<seq<real>>, g: seq<seq<real>>, width: nat): (s: seq<real>)
    requires Batch(r, width) && Batch(g, width)
    ensures |s| == width
  {
    seq(width, c requires 0 <= c < width => Square(Mean(Column(r, width, c)) - Mean(Column(g, width, c))))
  }

  ghost predicate SameMeans(r: seq<seq<real>>, g: seq<seq<real>>, width: nat)
    requires Batch(r, width) && Batch(g, width)
  {
    forall c: nat :: c < width ==> Mean(Column(r, width, c)) == Mean(Column(g, width, c))
  }

  lemma MeanOfGaps(s: seq<real>)
    requires |s| >= 1 && forall c :: 0 <= c < |s| ==> s[c] >= 0.0
    ensures Mean(s) >= 0.0
    ensures Mean(s) == 0.0 <==> forall c :: 0 <= c < |s| ==> s[c] == 0.0
  {
    SumNonNegative(s);
    var n := |s| as real;
    assert Mean(s) * n == Sum(s);
    if forall c :: 0 <= c < |s| ==> s[c] == 0.0 {
      SumOfZeros(s);
    }
  }

  lemma SquareIsZero(x: real)
    ensures Square(x) >= 0.0 && (Square(x) == 0.0 <==> x == 0.0)
  {
    if x > 0.0 {
      assert Square(x) / x == x;
    } else if x < 0.0 {
      assert Square(x) / x == x;
    }
  }

  lemma LevelLoss(r: seq<seq<real>>, g: seq<seq<real>>, width: nat)
    requires Batch(r, width) && Batch(g, width)
    ensures Mean(SquaredGaps(r, g, width)) >= 0.0
    ensures Mean(SquaredGaps(r, g, width)) == 0.0 <==> SameMeans(r, g, width)
  {
    hide Square, Sum;
    var s := SquaredGaps(r, g, width);
    forall c: nat | c < width
      ensures s[c] >= 0.0
      ensures s[c] == 0.0 <==> Mean(Column(r, width, c)) == Mean(Column(g, width, c))
    {
      SquareIsZero(Mean(Column(r, width, c)) - Mean(Column(g, width, c)));
    }
    MeanOfGaps(s);
  }

  // ----- the linear kernel -----

  function Products(x: seq<real>, y: seq<real>): (p: seq<real>)
    requires |x| == |y|
    ensures |p| == |x|
  {
    seq(|x|, c requires 0 <= c < |x| => Mul(x[c], y[c]))
  }

  /** The linear kernel of two feature rows. */
  function Inner(x: seq<real>, y: seq<real>): real
    requires |x| == |y|
  {
    Sum(Products(x, y))
  }

  ghost predicate Rectangle(rows: seq<seq<real>>, width: nat) {
    forall b :: 0 <= b < |rows| ==> |rows[b]| == width
  }

  /** The kernel of x with every row of b. */
  function Kernels(x: seq<real>, b: seq<seq<real>>): (k: seq<real>)
    requires Rectangle(b, |x|)
    ensures |k| == |b|
  {
    seq(|b|, j requires 0 <= j < |b| => Inner(x, b[j]))
  }

  /** The kernel summed over all pairs of a row of a and a row of b. */
  function KernelSum(a: seq<seq<real>>, b: seq<seq<real>>, width: nat): real
    requires Rectangle(a, width) && Rectangle(b, width)
  {
    Sum(seq(|a|, i requires 0 <= i < |a| => Sum(Kernels(a[i], b))))
  }

  function Added(x: seq<real>, y: seq<real>): (z: seq<real>)
    requires |x| == |y|
    ensures |z| == |x|
  {
    seq(|x|, c requires 0 <= c < |x| => x[c] + y[c])
  }

  /** The rows added up. */
  function RowSum(rows: seq<seq<real>>, width: nat): (t: seq<real>)
    requires Rectangle(rows, width)
    ensures |t| == width
  {
    if rows == [] then seq(width, c => 0.0) else Added(rows[0], RowSum(rows[1..], width))
  }

  lemma InnerAdds(x: seq<real>, y: seq<real>, z: seq<real>)
    requires |x| == |y| == |z|
    ensures Inner(x, Added(y, z)) == Inner(x, y) + Inner(x, z)
    ensures Inner(Added(y, z), x) == Inner(y, x) + Inner(z, x)
  {
    hide Mul;
    forall c | 0 <= c < |x|
      ensures Mul(x[c], Added(y, z)[c]) == Mul(x[c], y[c]) + Mul(x[c], z[c])
      ensures Mul(Added(y, z)[c], x[c]) == Mul(y[c], x[c]) + Mul(z[c], x[c])
    {
      MulAdds(x[c], y[c], z[c]);
      AddsMul(y[c], z[c], x[c]);
    }
    SumPointwise(Products(x, y), Products(x, z), Products(x, Added(y, z)));
    SumPointwise(Products(y, x), Products(z, x), Products(Added(y, z), x));
  }

  lemma InnerWithZero(x: seq<real>, zero: seq<real>)
    requires |x| == |zero| && forall c :: 0 <= c < |zero| ==> zero[c] == 0.0
    ensures Inner(x, zero) == 0.0 == Inner(zero, x)
  {
    SumOfZeros(Products(x, zero));
    SumOfZeros(Products(zero, x));
  }

  lemma {:induction false} KernelsAddUp(x: seq<real>, b: seq<seq<real>>)
    requires Rectangle(b, |x|)
    ensures Sum(Kernels(x, b)) == Inner(x, RowSum(b, |x|))
  {
    hide Inner;
    if b == [] {
      InnerWithZero(x, RowSum(b, |x|));
    } else {
      KernelsAddUp(x, b[1..]);
      assert Kernels(x, b)[1..] == Kernels(x, b[1..]);
      InnerAdds(x, b[0], RowSum(b[1..], |x|));
    }
  }

  lemma {:induction false} KernelSumIsInner(a: seq<seq<real>>, b: seq<seq<real>>, width: nat)
    requires Rectangle(a, width) && Rectangle(b, width)
    ensures KernelSum(a, b, width) == Inner(RowSum(a, width), RowSum(b, width))
  {
    hide Inner, Kernels;
    if a == [] {
      InnerWithZero(RowSum(b, width), RowSum(a, width));
    } else {
      KernelSumIsInner(a[1..], b, width);
      var all := seq(|a|, i requires 0 <= i < |a| => Sum(Kernels(a[i], b)));
      assert all[1..] == seq(|a[1..]|, i requires 0 <= i < |a[1..]| => Sum(Kernels(a[1..][i], b)));
      KernelsAddUp(a[0], b);
      InnerAdds(RowSum(b, width), a[0], RowSum(a[1..], width));
    }
  }

  lemma {:induction false} RowSumIsColumnSum(rows: seq<seq<real>>, width: nat, c: nat)
    requires Batch(rows, width) && c < width
    ensures RowSum(rows, width)[c] == Sum(Column(rows, width, c))
  {
    var column := Column(rows, width, c);
    if |rows| > 1 {
      RowSumIsColumnSum(rows[1..], width, c);
      assert column[1..] == Column(rows[1..], width, c);
    } else {
      assert rows[1..] == [] && column[1..] == [];
    }
  }

  lemma KernelGap(r: seq<seq<real>>, g: seq<seq<real>>, width: nat)
    requires Rectangle(r, width) && Rectangle(g, width)
    ensures Sum(GapTerms(RowSum(r, width), RowSum(g, width)))
         == KernelSum(r, r, width) - 2.0 * KernelSum(r, g, width) + KernelSum(g, g, width)
  {
    hide Sum, KernelSum, Inner, RowSum;
    var u, v := RowSum(r, width), RowSum(g, width);
    GapProducts(u, v);
    KernelSumIsInner(r, r, width);
    KernelSumIsInner(r, g, width);
    KernelSumIsInner(g, g, width);
    assert KernelSum(r, r, width) == Inner(u, u) && KernelSum(g, g, width) == Inner(v, v);
    assert KernelSum(r, g, width) == Inner(u, v);
  }

  /** The mean of the squared gaps is the kernel discrepancy of the two batches: rows of r
      with rows of r, less twice r with g, plus g with g. */
  lemma LossIsKernelDiscrepancy(r: seq<seq<real>>, g: seq<seq<real>>, width: nat)
    requires Batch(r, width) && Batch(g, width) && |r| == |g|
    ensures Mul(Mean(SquaredGaps(r, g, width)), Mul(Square(|r| as real), width as real))
         == KernelSum(r, r, width) - 2.0 * KernelSum(r, g, width) + KernelSum(g, g, width)
  {
    hide Mul, Square, Sum, KernelSum, Inner, RowSum, Mean;
    KernelGap(r, g, width);
    var gaps, n := SquaredGaps(r, g, width), |r| as real;
    var scaled := GapTerms(RowSum(r, width), RowSum(g, width));
    forall c | 0 <= c < width
      ensures scaled[c] == Mul(Square(n), gaps[c])
    {
      RowSumIsColumnSum(r, width, c);
      RowSumIsColumnSum(g, width, c);
      var p, q := RowSum(r, width), RowSum(g, width);
      ScaledGap(Column(r, width, c), Column(g, width, c), p[c], q[c]);
      assert scaled[c] == Mul(p[c], p[c]) - 2.0 * Mul(p[c], q[c]) + Mul(q[c], q[c]);
    }
    SumOfMap(gaps, scaled, Square(n));
    MeanTimes(gaps, Square(n), width);
  }

  lemma MeanTimes(s: seq<real>, h: real, width: nat)
    requires |s| == width >= 1
    ensures Mul(Mean(s), Mul(h, width as real)) == Mul(h, Sum(s))
  {
    hide Sum;
    var n := width as real;
    assert Mean(s) * n == Sum(s);
    assert Mean(s) * (h * n) == h * (Mean(s) * n);
  }

  /** One column: the squared difference of the column sums. */
  lemma ScaledGap(a: seq<real>, b: seq<real>, p: real, q: real)
    requires |a| == |b| >= 1 && p == Sum(a) && q == Sum(b)
    ensures Mul(p, p) - 2.0 * Mul(p, q) + Mul(q, q) == Mul(Square(|a| as real), Square(Mean(a) - Mean(b)))
  {
    hide Sum;
    var n := |a| as real;
    var x, y := Mean(a), Mean(b);
    assert x * n == p && y * n == q;
    SquaredDifference(n, x, y);
  }

  lemma SquaredDifference(n: real, x: real, y: real)
    ensures Mul(x * n, x * n) - 2.0 * Mul(x * n, y * n) + Mul(y * n, y * n) == Mul(Square(n), Square(x - y))
  {
    var d := x - y;
    assert x * n - y * n == d * n;
    assert (d * n) * (d * n) == (n * n) * (d * d);
    assert (x * n - y * n) * (x * n - y * n)
        == (x * n) * (x * n) - 2.0 * ((x * n) * (y * n)) + (y * n) * (y * n);
  }

  function GapTerms(p: seq<real>, q: seq<real>): (s: seq<real>)
    requires |p| == |q|
    ensures |s| == |p|
  {
    seq(|p|, c requires 0 <= c < |p| => Mul(p[c], p[c]) - 2.0 * Mul(p[c], q[c]) + Mul(q[c], q[c]))
  }

  /** The products of two vectors with themselves and each other, summed. */
  lemma GapProducts(p: seq<real>, q: seq<real>)
    requires |p| == |q|
    ensures Sum(GapTerms(p, q)) == Inner(p, p) - 2.0 * Inner(p, q) + Inner(q, q)
  {
    hide Mul;
    var a, b, c := Products(p, p), Products(p, q), Products(q, q);
    SumOfGaps(a, b, c);
    assert GapTerms(p, q) == seq(|a|, k requires 0 <= k < |a| => a[k] - 2.0 * b[k] + c[k]);
  }

  lemma {:induction false} SumOfGaps(a: seq<real>, b: seq<real>, c: seq<real>)
    requires |a| == |b| == |c|
    ensures var s := seq(|a|, k requires 0 <= k < |a| => a[k] - 2.0 * b[k] + c[k]);
            Sum(s) == Sum(a) - 2.0 * Sum(b) + Sum(c)
  {
    if a != [] {
      SumOfGaps(a[1..], b[1..], c[1..]);
      var s := seq(|a|, k requires 0 <= k < |a| => a[k] - 2.0 * b[k] + c[k]);
      assert s[1..] == seq(|a[1..]|, k requires 0 <= k < |a[1..]| => a[1..][k] - 2.0 * b[1..][k] + c[1..][k]);
    }
  }

  /** Feature rows by level. */
  type Features = map<nat, seq<seq<real>>>

  /** Both batches have features of the stated width at each of their levels. */
  ghost predicate Comparable(real_: Features, generated: Features, widths: nat -> nat) {
    && (forall k :: k in real_ ==> Batch(real_[k], widths(k)))
    && (forall k :: k in generated ==> Batch(generated[k], widths(k)))
  }

  /** The sum over the levels below top of the mean squared gap between mean features. */
  function Distance(real_: Features, generated: Features, widths: nat -> nat, top: nat): real
    requires Comparable(real_, generated, widths) && real_.Keys == generated.Keys
  {
    if top == 0 then 0.0
    else
      Distance(real_, generated, widths, top - 1)
      + if top - 1 in real_ then Mean(SquaredGaps(real_[top - 1], generated[top - 1], widths(top - 1))) else 0.0
  }

  ghost predicate SameBatch(real_: Features, generated: Features)
    requires real_.Keys == generated.Keys
  {
    forall k, m :: k in real_ && m in real_ ==> |real_[k]| == |real_[m]| == |generated[k]|
  }

  ghost function Mmd(real_: Features, generated: Features, widths: nat -> nat, top: nat): Result<real, MmdError>
    requires Comparable(real_, generated, widths)
  {
    if real_.Keys != generated.Keys then Err(LevelSetsDiffer)
    else if real_.Keys == {} then Err(NoLevels)
    else if !SameBatch(real_, generated) then Err(BatchSizesDiffer)
    else Ok(Distance(real_, generated, widths, top))
  }

  /** The distance is not negative, and zero exactly when all mean features agree. */
  lemma {:induction false} DistanceIsZeroExactlyWhen(real_: Features, generated: Features, widths: nat -> nat, top: nat)
    requires Comparable(real_, generated, widths) && real_.Keys == generated.Keys
    ensures Distance(real_, generated, widths, top) >= 0.0
    ensures Distance(real_, generated, widths, top) == 0.0 <==>
              forall k :: k in real_ && k < top ==> SameMeans(real_[k], generated[k], widths(k))
  {
    hide SquaredGaps, Mean, SameMeans;
    if top > 0 {
      DistanceIsZeroExactlyWhen(real_, generated, widths, top - 1);
      if top - 1 in real_ {
        LevelLoss(real_[top - 1], generated[top - 1], widths(top - 1));
      }
    }
  }

  /** What a level contributes, by the kernel alone. */
  function KernelTerm(r: seq<seq<real>>, g: seq<seq<real>>, width: nat): real
    requires Batch(r, width) && Batch(g, width)
  {
    (KernelSum(r, r, width) - 2.0 * KernelSum(r, g, width) + KernelSum(g, g, width))
      / (|r| as real * |r| as real * width as real)
  }

  function KernelTerms(real_: Features, generated: Features, widths: nat -> nat, top: nat): (ts: seq<real>)
    requires Comparable(real_, generated, widths) && real_.Keys == generated.Keys
    ensures |ts| == top
  {
    seq(top, k requires 0 <= k < top => if k in real_ then KernelTerm(real_[k], generated[k], widths(k)) else 0.0)
  }

  /** The distance is the sum over the levels, all with equal weight, of the discrepancy
      of the two batches under the linear kernel. */
  lemma {:induction false} DistanceIsKernelDiscrepancy(real_: Features, generated: Features, widths: nat -> nat, top: nat)
    requires Comparable(real_, generated, widths) && real_.Keys == generated.Keys && SameBatch(real_, generated)
    ensures Distance(real_, generated, widths, top) == Sum(KernelTerms(real_, generated, widths, top))
  {
    hide SquaredGaps, Mean, KernelSum;
    if top > 0 {
      DistanceIsKernelDiscrepancy(real_, generated, widths, top - 1);
      var ts := KernelTerms(real_, generated, widths, top);
      assert ts == KernelTerms(real_, generated, widths, top - 1) + [ts[top - 1]];
      SumSnoc(KernelTerms(real_, generated, widths, top - 1), ts[top - 1]);
      if top - 1 in real_ {
        LossIsKernelTerm(real_[top - 1], generated[top - 1], widths(top - 1));
      }
    }
  }

  lemma LossIsKernelTerm(r: seq<seq<real>>, g: seq<seq<real>>, width: nat)
    requires Batch(r, width) && Batch(g, width) && |r| == |g|
    ensures Mean(SquaredGaps(r, g, width)) == KernelTerm(r, g, width)
  {
    hide KernelSum, Mean, SquaredGaps;
    LossIsKernelDiscrepancy(r, g, width);
    ProductPositive(|r| as real, width as real);
    DivideOut(Mean(SquaredGaps(r, g, width)), |r| as real * |r| as real * width as real);
  }

  lemma ProductPositive(n: real, w: real)
    requires n > 0.0 && w > 0.0
    ensures n * n * w > 0.0
  {
  }

  lemma DivideOut(x: real, h: real)
    requires h > 0.0
    ensures x * h / h == x
  {
  }

  /** The levels in ascending order, each adding its loss with equal weight. */
  method SignatureMmd(real_: Features, generated: Features, widths: nat -> nat, top: nat)
    returns (r: Result<real, MmdError>)
    requires Comparable(real_, generated, widths) && forall k :: k in real_ ==> k < top
    ensures r == Mmd(real_, generated, widths, top)
    ensures r.Ok? ==> r.value >= 0.0
    ensures r.Ok? ==> (r.value == 0.0 <==>
              forall k :: k in real_ ==> SameMeans(real_[k], generated[k], widths(k)))
    ensures r.Ok? ==> r.value == Sum(KernelTerms(real_, generated, widths, top))
  {
    hide SquaredGaps, Mean, SameMeans, KernelTerms;
    if real_.Keys != generated.Keys {
      return Err(LevelSetsDiffer);
    }
    if real_.Keys == {} {
      return Err(NoLevels);
    }
    var first :| first in real_.Keys;
    var batch := |real_[first]|;
    var total := 0.0;
    for level := 0 to top
      invariant forall k :: k in real_ && k < level ==> |real_[k]| == batch == |generated[k]|
      invariant total == Distance(real_, generated, widths, level)
    {
      if level in real_ {
        if |real_[level]| != batch || |generated[level]| != batch {
          assert !SameBatch(real_, generated);
          return Err(BatchSizesDiffer);
        }
        total := total + Mean(SquaredGaps(real_[level], generated[level], widths(level)));
      }
    }
    DistanceIsZeroExactlyWhen(real_, generated, widths, top);
    DistanceIsKernelDiscrepancy(real_, generated, widths, top);
    r := Ok(total);
  }

  // ----- what a zero distance means under the lead-lag lifting -----

  /** Level-2 feature rows of a batch of lead-lag paths. */
  function LeadLagRows(returns_: seq<seq<real>>, ctx: seq<seq<real>>, nContext: nat, scale: real): (rows: seq<seq<real>>)
    requires |ctx| == |returns_| && Rows(ctx, nContext) && scale > 0.0
    ensures |rows| == |returns_|
    ensures forall b :: 0 <= b < |rows| ==>
              rows[b] == LevelRow(SigOf(LeadLagPath(returns_[b], ctx[b], scale), 3 + nContext), 2)
  {
    seq(|returns_|, b requires 0 <= b < |returns_| =>
      LevelRow(SigOf(LeadLagPath(returns_[b], ctx[b], scale), 3 + nContext), 2))
  }

  function Variations(returns_: seq<seq<real>>): (v: seq<real>)
    ensures |v| == |returns_|
  {
    seq(|returns_|, b requires 0 <= b < |returns_| => SumOfSquares(returns_[b]))
  }

  lemma RowCoordinates(r: seq<real>, ctx: seq<real>, scale: real, d: nat, w: nat)
    requires scale > 0.0 && d == 3 + |ctx| && w == d * d
    ensures |LevelRow(SigOf(LeadLagPath(r, ctx, scale), d), 2)| == w && 2 * d + 1 < w
    ensures Mul(LevelRow(SigOf(LeadLagPath(r, ctx, scale), d), 2)[d + 2]
                - LevelRow(SigOf(LeadLagPath(r, ctx, scale), d), 2)[2 * d + 1], Square(scale))
         == SumOfSquares(r)
  {
    hide Mul, Square, SigOf, LeadLagPath, Sum, SumOfSquares, Concat;
    var s := SigOf(LeadLagPath(r, ctx, scale), d);
    ConcatLength(s.l2, d);
    ConcatIndex(s.l2, d, 1, 2);
    ConcatIndex(s.l2, d, 2, 1);
    assert 1 * d + 2 == d + 2;
    LeadLagSeesQuadraticVariation(r, ctx, scale);
  }

  /** The batch sum of the quadratic variations, read off two feature columns. */
  lemma ColumnsHoldVariation(returns_: seq<seq<real>>, ctx: seq<seq<real>>, nContext: nat, scale: real, d: nat, w: nat)
    requires |returns_| >= 1 && |ctx| == |returns_| && Rows(ctx, nContext) && scale > 0.0
    requires d == 3 + nContext && w == d * d
    ensures 2 * d + 1 < w && Batch(LeadLagRows(returns_, ctx, nContext, scale), w)
    ensures
      var rows := LeadLagRows(returns_, ctx, nContext, scale);
      Sum(Variations(returns_))
        == Mul(Sum(Column(rows, w, d + 2)) - Sum(Column(rows, w, 2 * d + 1)), Square(scale))
  {
    hide Mul, Square, SigOf, LevelRow, LeadLagPath, Sum, SumOfSquares;
    var rows, v := LeadLagRows(returns_, ctx, nContext, scale), Variations(returns_);
    forall b | 0 <= b < |rows|
      ensures |rows[b]| == w && 2 * d + 1 < w
      ensures v[b] == Mul(rows[b][d + 2] - rows[b][2 * d + 1], Square(scale))
    {
      RowCoordinates(returns_[b], ctx[b], scale, d, w);
    }
    assert |rows[0]| == w;
    ScaledGapSum(Column(rows, w, d + 2), Column(rows, w, 2 * d + 1), v, Square(scale));
  }

  lemma {:induction false} ScaledGapSum(up: seq<real>, down: seq<real>, v: seq<real>, h: real)
    requires |up| == |down| == |v|
    requires forall b :: 0 <= b < |v| ==> v[b] == Mul(up[b] - down[b], h)
    ensures Sum(v) == Mul(Sum(up) - Sum(down), h)
  {
    hide Mul;
    if |v| > 0 {
      ScaledGapSum(up[1..], down[1..], v[1..], h);
      AddsMul(up[0] - down[0], Sum(up[1..]) - Sum(down[1..]), h);
    } else {
      NoProduct(h);
    }
  }

  /** Two batches whose lead-lag features are at distance zero have the same mean
      realised variation. */
  lemma ZeroDistanceMatchesVariation(
      real_: seq<seq<real>>, generated: seq<seq<real>>, ctxR: seq<seq<real>>, ctxG: seq<seq<real>>,
      nContext: nat, scale: real, featuresR: Features, featuresG: Features, widths: nat -> nat, top: nat)
    requires |real_| == |ctxR| >= 1 && |generated| == |ctxG| >= 1 && scale > 0.0
    requires Rows(ctxR, nContext) && Rows(ctxG, nContext)
    requires Comparable(featuresR, featuresG, widths)
    requires 2 < top && 2 in featuresR && featuresR[2] == LeadLagRows(real_, ctxR, nContext, scale)
    requires 2 in featuresG && featuresG[2] == LeadLagRows(generated, ctxG, nContext, scale)
    requires Mmd(featuresR, featuresG, widths, top) == Ok(0.0)
    ensures Mean(Variations(real_)) == Mean(Variations(generated))
  {
    hide Mul, Square, SumOfSquares, Sum, Distance, Mean, SameMeans;
    var d := 3 + nContext;
    var w := d * d;
    var r, g := featuresR[2], featuresG[2];
    DistanceIsZeroExactlyWhen(featuresR, featuresG, widths, top);
    ColumnsHoldVariation(real_, ctxR, nContext, scale, d, w);
    ColumnsHoldVariation(generated, ctxG, nContext, scale, d, w);
    assert w == |r[0]| == widths(2);
    SameMeansAt(r, g, w, d + 2);
    SameMeansAt(r, g, w, 2 * d + 1);
    assert |real_| == |generated|;
    SameMeanSameSum(Column(r, w, d + 2), Column(g, w, d + 2));
    SameMeanSameSum(Column(r, w, 2 * d + 1), Column(g, w, 2 * d + 1));
    SameSumSameMean(Variations(real_), Variations(generated));
  }

  lemma SameMeansAt(r: seq<seq<real>>, g: seq<seq<real>>, width: nat, c: nat)
    requires Batch(r, width) && Batch(g, width) && SameMeans(r, g, width) && c < width
    ensures Mean(Column(r, width, c)) == Mean(Column(g, width, c))
  {
  }

  lemma SameSumSameMean(a: seq<real>, b: seq<real>)
    requires |a| == |b| >= 1 && Sum(a) == Sum(b)
    ensures Mean(a) == Mean(b)
  {
  }

  lemma SameMeanSameSum(a: seq<real>, b: seq<real>)
    requires |a| == |b| >= 1 && Mean(a) == Mean(b)
    ensures Sum(a) == Sum(b)
  {
    var n := |a| as real;
    assert Mean(a) * n == Sum(a) && Mean(b) * n == Sum(b);
  }
}
