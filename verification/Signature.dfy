/** Truncated signatures (levels 1 to 3) of piecewise-linear paths:
    src/neuralmarket/models/signature.py. One batch row is a path; the source
    applies every operation below to all rows at once. */
module Signature {
  import opened Common

  type Vec = seq<real>

  /** The three accumulators of one row; the level-0 component is always 1. */
  datatype Sig = Sig(l1: seq<real>, l2: seq<seq<real>>, l3: seq<seq<seq<real>>>)

  ghost predicate Shaped(s: Sig, d: nat) {
    && |s.l1| == |s.l2| == |s.l3| == d
    && (forall i :: 0 <= i < d ==> |s.l2[i]| == d && |s.l3[i]| == d)
    && (forall i, j :: 0 <= i < d && 0 <= j < d ==> |s.l3[i][j]| == d)
  }

  function Unit(d: nat): (s: Sig)
    ensures Shaped(s, d)
  {
    Sig(seq(d, i => 0.0), seq(d, i => seq(d, j => 0.0)), seq(d, i => seq(d, j => seq(d, k => 0.0))))
  }

  /** The segment exponential: dx, dx*dx/2 and dx*dx*dx/6. */
  function Exp(x: Vec): (s: Sig)
    ensures Shaped(s, |x|)
  {
    Sig(x,
        seq(|x|, i requires 0 <= i < |x| => seq(|x|, j requires 0 <= j < |x| => Mul(x[i], x[j]) / 2.0)),
        seq(|x|, i requires 0 <= i < |x| =>
          seq(|x|, j requires 0 <= j < |x| =>
            seq(|x|, k requires 0 <= k < |x| => Mul(Mul(x[i], x[j]), x[k]) / 6.0))))
  }

  /** The concatenation product, truncated at level 3. */
  function Chen(a: Sig, b: Sig): (c: Sig)
    requires Shaped(a, |a.l1|) && Shaped(b, |a.l1|)
    ensures Shaped(c, |a.l1|)
  {
    var d := |a.l1|;
    Sig(seq(d, i requires 0 <= i < d => a.l1[i] + b.l1[i]),
        seq(d, i requires 0 <= i < d =>
          seq(d, j requires 0 <= j < d => a.l2[i][j] + Mul(a.l1[i], b.l1[j]) + b.l2[i][j])),
        seq(d, i requires 0 <= i < d =>
          seq(d, j requires 0 <= j < d =>
            seq(d, k requires 0 <= k < d =>
              a.l3[i][j][k] + Mul(a.l1[i], b.l2[j][k]) + Mul(a.l2[i][j], b.l1[k]) + b.l3[i][j][k]))))
  }

  /** The coordinates of a segment exponential. */
  lemma ExpAt(x: Vec, i: nat, j: nat, k: nat)
    requires i < |x| && j < |x| && k < |x|
    ensures Exp(x).l1[i] == x[i]
    ensures Exp(x).l2[i][j] == Mul(x[i], x[j]) / 2.0
    ensures Exp(x).l3[i][j][k] == Mul(Mul(x[i], x[j]), x[k]) / 6.0
  {
    hide Mul;
  }

  /** The coordinates of a product. */
  lemma ChenAt(a: Sig, b: Sig, d: nat, i: nat, j: nat, k: nat)
    requires Shaped(a, d) && Shaped(b, d) && i < d && j < d && k < d
    ensures Chen(a, b).l1[i] == a.l1[i] + b.l1[i]
    ensures Chen(a, b).l2[i][j] == a.l2[i][j] + Mul(a.l1[i], b.l1[j]) + b.l2[i][j]
    ensures Chen(a, b).l3[i][j][k]
         == a.l3[i][j][k] + Mul(a.l1[i], b.l2[j][k]) + Mul(a.l2[i][j], b.l1[k]) + b.l3[i][j][k]
  {
    hide Mul;
  }

  lemma Extensional(a: Sig, b: Sig, d: nat)
    requires Shaped(a, d) && Shaped(b, d)
    requires forall i :: 0 <= i < d ==> a.l1[i] == b.l1[i]
    requires forall i, j :: 0 <= i < d && 0 <= j < d ==> a.l2[i][j] == b.l2[i][j]
    requires forall i, j, k :: 0 <= i < d && 0 <= j < d && 0 <= k < d ==> a.l3[i][j][k] == b.l3[i][j][k]
    ensures a == b
  {
    assert a.l1 == b.l1;
    forall i | 0 <= i < d
      ensures a.l2[i] == b.l2[i] && a.l3[i] == b.l3[i]
    {
      forall j | 0 <= j < d
        ensures a.l3[i][j] == b.l3[i][j]
      {
      }
    }
  }

  // ----- the truncated tensor algebra -----

  lemma ChenAssociative(a: Sig, b: Sig, c: Sig, d: nat)
    requires Shaped(a, d) && Shaped(b, d) && Shaped(c, d)
    ensures Chen(Chen(a, b), c) == Chen(a, Chen(b, c))
  {
    hide Mul, Chen;
    var p, q := Chen(Chen(a, b), c), Chen(a, Chen(b, c));
    forall i: nat | i < d
      ensures p.l1[i] == q.l1[i]
    {
      ChenAssociativeAt(a, b, c, d, i, i, i);
    }
    forall i: nat, j: nat | i < d && j < d
      ensures p.l2[i][j] == q.l2[i][j]
    {
      ChenAssociativeAt(a, b, c, d, i, j, i);
    }
    forall i: nat, j: nat, k: nat | i < d && j < d && k < d
      ensures p.l3[i][j][k] == q.l3[i][j][k]
    {
      ChenAssociativeAt(a, b, c, d, i, j, k);
    }
    Extensional(p, q, d);
  }

  lemma ChenAssociativeAt(a: Sig, b: Sig, c: Sig, d: nat, i: nat, j: nat, k: nat)
    requires Shaped(a, d) && Shaped(b, d) && Shaped(c, d) && i < d && j < d && k < d
    ensures Chen(Chen(a, b), c).l1[i] == Chen(a, Chen(b, c)).l1[i]
    ensures Chen(Chen(a, b), c).l2[i][j] == Chen(a, Chen(b, c)).l2[i][j]
    ensures Chen(Chen(a, b), c).l3[i][j][k] == Chen(a, Chen(b, c)).l3[i][j][k]
  {
    hide Mul, Chen;
    ChenAt(a, b, d, i, j, k);
    ChenAt(Chen(a, b), c, d, i, j, k);
    ChenAt(b, c, d, i, j, k);
    ChenAt(b, c, d, j, k, i);
    ChenAt(b, c, d, k, j, i);
    ChenAt(a, Chen(b, c), d, i, j, k);
    Associate2(a.l1[i], b.l1[i], b.l1[j], c.l1[j]);
    Associate3(a.l1[i], a.l2[i][j], b.l1[i], b.l1[j], b.l1[k], b.l2[i][j], b.l2[j][k], c.l1[k], c.l2[j][k]);
  }

  lemma Associate2(ai: real, bi: real, bj: real, cj: real)
    ensures Mul(ai, bj) + Mul(ai + bi, cj) == Mul(ai, bj + cj) + Mul(bi, cj)
  {
  }

  lemma Associate3(ai: real, aij: real, bi: real, bj: real, bk: real, bij: real, bjk: real, ck: real, cjk: real)
    ensures Mul(ai, bjk) + Mul(aij, bk) + Mul(ai + bi, cjk) + Mul(aij + Mul(ai, bj) + bij, ck)
         == Mul(ai, bjk + Mul(bj, ck) + cjk) + Mul(aij, bk + ck) + Mul(bi, cjk) + Mul(bij, ck)
  {
  }

  lemma UnitLaws(a: Sig, d: nat)
    requires Shaped(a, d)
    ensures Chen(Unit(d), a) == a && Chen(a, Unit(d)) == a
  {
    hide Mul, Chen, Unit;
    forall i: nat, j: nat, k: nat | i < d && j < d && k < d
      ensures Chen(Unit(d), a).l1[i] == a.l1[i] == Chen(a, Unit(d)).l1[i]
      ensures Chen(Unit(d), a).l2[i][j] == a.l2[i][j] == Chen(a, Unit(d)).l2[i][j]
      ensures Chen(Unit(d), a).l3[i][j][k] == a.l3[i][j][k] == Chen(a, Unit(d)).l3[i][j][k]
    {
      UnitAt(a, d, i, j, k);
    }
    forall i: nat, j: nat | i < d && j < d
      ensures Chen(Unit(d), a).l2[i][j] == a.l2[i][j] == Chen(a, Unit(d)).l2[i][j]
    {
      UnitAt(a, d, i, j, i);
    }
    forall i: nat | i < d
      ensures Chen(Unit(d), a).l1[i] == a.l1[i] == Chen(a, Unit(d)).l1[i]
    {
      UnitAt(a, d, i, i, i);
    }
    Extensional(Chen(Unit(d), a), a, d);
    Extensional(Chen(a, Unit(d)), a, d);
  }

  lemma UnitAt(a: Sig, d: nat, i: nat, j: nat, k: nat)
    requires Shaped(a, d) && i < d && j < d && k < d
    ensures Chen(Unit(d), a).l1[i] == a.l1[i] == Chen(a, Unit(d)).l1[i]
    ensures Chen(Unit(d), a).l2[i][j] == a.l2[i][j] == Chen(a, Unit(d)).l2[i][j]
    ensures Chen(Unit(d), a).l3[i][j][k] == a.l3[i][j][k] == Chen(a, Unit(d)).l3[i][j][k]
  {
    hide Mul, Chen;
    ChenAt(Unit(d), a, d, i, j, k);
    ChenAt(a, Unit(d), d, i, j, k);
    NoProduct(a.l1[i]);
    NoProduct(a.l1[j]);
    NoProduct(a.l1[k]);
    NoProduct(a.l2[i][j]);
    NoProduct(a.l2[j][k]);
  }

  // ----- group-like elements -----

  /** The shuffle identities between levels 1, 2 and 3. */
  ghost predicate GroupLike(s: Sig, d: nat) {
    && Shaped(s, d)
    && (forall i: nat, j: nat :: i < d && j < d ==> Shuffle2At(s, d, i, j))
    && (forall i: nat, j: nat, k: nat :: i < d && j < d && k < d ==> Shuffle3At(s, d, i, j, k))
  }

  ghost predicate Shuffle2At(s: Sig, d: nat, i: nat, j: nat)
    requires Shaped(s, d) && i < d && j < d
  {
    Mul(s.l1[i], s.l1[j]) == s.l2[i][j] + s.l2[j][i]
  }

  ghost predicate Shuffle3At(s: Sig, d: nat, i: nat, j: nat, k: nat)
    requires Shaped(s, d) && i < d && j < d && k < d
  {
    Mul(s.l1[i], s.l2[j][k]) == s.l3[i][j][k] + s.l3[j][i][k] + s.l3[j][k][i]
  }

  lemma ExpGroupLike(x: Vec)
    ensures GroupLike(Exp(x), |x|)
  {
    hide Mul, Exp;
    var s, d := Exp(x), |x|;
    forall i: nat, j: nat | i < d && j < d
      ensures Shuffle2At(s, d, i, j)
    {
      ExpAt(x, i, j, i);
      ExpAt(x, j, i, j);
      ExpShuffle(x[i], x[j], x[i]);
    }
    forall i: nat, j: nat, k: nat | i < d && j < d && k < d
      ensures Shuffle3At(s, d, i, j, k)
    {
      ExpAt(x, i, j, k);
      ExpAt(x, j, i, k);
      ExpAt(x, j, k, i);
      ExpShuffle(x[i], x[j], x[k]);
    }
  }

  lemma ExpShuffle(x: real, y: real, z: real)
    ensures Mul(x, y) == Mul(x, y) / 2.0 + Mul(y, x) / 2.0
    ensures Mul(x, Mul(y, z) / 2.0)
         == Mul(Mul(x, y), z) / 6.0 + Mul(Mul(y, x), z) / 6.0 + Mul(Mul(y, z), x) / 6.0
  {
  }

  lemma ChenGroupLike(a: Sig, b: Sig, d: nat)
    requires GroupLike(a, d) && GroupLike(b, d)
    ensures GroupLike(Chen(a, b), d)
  {
    hide Mul, Chen;
    forall i: nat, j: nat | i < d && j < d
      ensures Shuffle2At(Chen(a, b), d, i, j)
    {
      assert Shuffle2At(a, d, i, j) && Shuffle2At(b, d, i, j);
      ChenAt(a, b, d, i, j, i);
      ChenAt(a, b, d, j, i, j);
      Shuffle2(a.l1[i], a.l1[j], b.l1[i], b.l1[j]);
    }
    forall i: nat, j: nat, k: nat | i < d && j < d && k < d
      ensures Shuffle3At(Chen(a, b), d, i, j, k)
    {
      ChenShuffle3(a, b, d, i, j, k);
    }
  }

  lemma ChenShuffle3(a: Sig, b: Sig, d: nat, i: nat, j: nat, k: nat)
    requires GroupLike(a, d) && GroupLike(b, d) && i < d && j < d && k < d
    ensures Shuffle3At(Chen(a, b), d, i, j, k)
  {
    hide Mul, Chen;
    assert Shuffle2At(a, d, i, j) && Shuffle2At(b, d, i, k);
    assert Shuffle3At(a, d, i, j, k) && Shuffle3At(b, d, i, j, k);
    ChenAt(a, b, d, i, j, k);
    ChenAt(a, b, d, j, i, k);
    ChenAt(a, b, d, j, k, i);
    Shuffle3(a.l1[i], a.l1[j], a.l2[i][j], a.l2[j][i], a.l2[j][k],
             b.l1[i], b.l1[k], b.l2[i][k], b.l2[k][i], b.l2[j][k]);
  }

  lemma Shuffle2(ai: real, aj: real, bi: real, bj: real)
    ensures Mul(ai + bi, aj + bj) == Mul(ai, aj) + Mul(bi, bj) + Mul(ai, bj) + Mul(aj, bi)
  {
  }

  /** The cross terms of a level-1 by level-2 shuffle. */
  lemma Shuffle3(ai: real, aj: real, aij: real, aji: real, ajk: real,
                 bi: real, bk: real, bik: real, bki: real, bjk: real)
    requires Mul(ai, aj) == aij + aji && Mul(bi, bk) == bik + bki
    ensures Mul(ai + bi, ajk + Mul(aj, bk) + bjk)
         == Mul(ai, ajk) + Mul(bi, bjk) + Mul(ai, bjk) + Mul(aij, bk)
            + Mul(aj, bik) + Mul(aji, bk) + Mul(aj, bki) + Mul(ajk, bi)
  {
    assert Mul(ai + bi, ajk + Mul(aj, bk) + bjk)
        == Mul(ai, ajk) + Mul(Mul(ai, aj), bk) + Mul(ai, bjk) + Mul(ajk, bi) + Mul(aj, Mul(bi, bk)) + Mul(bi, bjk) by {
      Expand6(ai, aj, ajk, bi, bk, bjk);
    }
    assert Mul(Mul(ai, aj), bk) == Mul(aij, bk) + Mul(aji, bk) by {
      hide Mul;
      AddsMul(aij, aji, bk);
    }
    assert Mul(aj, Mul(bi, bk)) == Mul(aj, bik) + Mul(aj, bki) by {
      hide Mul;
      MulAdds(aj, bik, bki);
    }
    hide Mul;
  }

  lemma Expand6(ai: real, aj: real, ajk: real, bi: real, bk: real, bjk: real)
    ensures Mul(ai + bi, ajk + Mul(aj, bk) + bjk)
         == Mul(ai, ajk) + Mul(Mul(ai, aj), bk) + Mul(ai, bjk) + Mul(ajk, bi) + Mul(aj, Mul(bi, bk)) + Mul(bi, bjk)
  {
  }

  // ----- the signature of a path -----

  ghost predicate AllDim(xs: seq<Vec>, d: nat) {
    forall n :: 0 <= n < |xs| ==> |xs[n]| == d
  }

  function Diff(p: Vec, q: Vec): (x: Vec)
    requires |p| == |q|
    ensures |x| == |p|
  {
    seq(|p|, i requires 0 <= i < |p| => q[i] - p[i])
  }

  function Increments(points: seq<Vec>, d: nat): (xs: seq<Vec>)
    requires |points| >= 1 && AllDim(points, d)
    ensures |xs| == |points| - 1 && AllDim(xs, d)
  {
    seq(|points| - 1, n requires 0 <= n < |points| - 1 => Diff(points[n], points[n + 1]))
  }

  /** The left-to-right product of the segment exponentials. */
  function Product(xs: seq<Vec>, d: nat): (s: Sig)
    requires AllDim(xs, d)
    ensures Shaped(s, d)
  {
    if xs == [] then Unit(d)
    else Chen(Product(xs[..|xs| - 1], d), Exp(xs[|xs| - 1]))
  }

  function SigOf(points: seq<Vec>, d: nat): (s: Sig)
    requires |points| >= 1 && AllDim(points, d)
    ensures Shaped(s, d)
  {
    Product(Increments(points, d), d)
  }

  lemma UnitGroupLike(d: nat)
    ensures GroupLike(Unit(d), d)
  {
  }

  /** Every accumulator the loop passes through satisfies the shuffle identities. */
  lemma {:induction false} ProductGroupLike(xs: seq<Vec>, d: nat)
    requires AllDim(xs, d)
    ensures GroupLike(Product(xs, d), d)
  {
    hide Mul, Chen, Exp, Shuffle2At, Shuffle3At;
    if xs == [] {
      UnitGroupLike(d);
    }
    if xs != [] {
      ProductGroupLike(xs[..|xs| - 1], d);
      ExpGroupLike(xs[|xs| - 1]);
      ChenGroupLike(Product(xs[..|xs| - 1], d), Exp(xs[|xs| - 1]), d);
    }
  }

  lemma {:induction false} ProductConcat(xs: seq<Vec>, ys: seq<Vec>, d: nat)
    requires AllDim(xs, d) && AllDim(ys, d)
    ensures AllDim(xs + ys, d)
    ensures Product(xs + ys, d) == Chen(Product(xs, d), Product(ys, d))
  {
    hide Mul, Chen, Exp;
    if ys == [] {
      assert xs + ys == xs;
      UnitLaws(Product(xs, d), d);
    } else {
      var init, last := ys[..|ys| - 1], ys[|ys| - 1];
      assert (xs + ys)[..|xs + ys| - 1] == xs + init;
      ProductConcat(xs, init, d);
      ChenAssociative(Product(xs, d), Product(init, d), Exp(last), d);
    }
  }

  /** Chen's identity: joining two paths end to start multiplies their signatures. */
  lemma JoinIsProduct(p: seq<Vec>, q: seq<Vec>, d: nat)
    requires |p| >= 1 && |q| >= 1 && AllDim(p, d) && AllDim(q, d) && p[|p| - 1] == q[0]
    ensures AllDim(p + q[1..], d)
    ensures SigOf(p + q[1..], d) == Chen(SigOf(p, d), SigOf(q, d))
  {
    hide Mul, Chen, Exp, Product;
    assert Increments(p + q[1..], d) == Increments(p, d) + Increments(q, d);
    ProductConcat(Increments(p, d), Increments(q, d), d);
  }

  function Scale(u: real, x: Vec): (y: Vec)
    ensures |y| == |x|
  {
    seq(|x|, i requires 0 <= i < |x| => Mul(u, x[i]))
  }

  /** The exponential of a straight segment is multiplicative along the segment. */
  lemma ExpSubdivision(u: real, v: real, x: Vec)
    ensures Chen(Exp(Scale(u, x)), Exp(Scale(v, x))) == Exp(Scale(u + v, x))
  {
    hide Mul, Chen, Exp, Scale;
    var d := |x|;
    var p, q := Chen(Exp(Scale(u, x)), Exp(Scale(v, x))), Exp(Scale(u + v, x));
    forall i: nat | i < d
      ensures p.l1[i] == q.l1[i]
    {
      ExpSubdivisionAt(u, v, x, i, i, i);
    }
    forall i: nat, j: nat | i < d && j < d
      ensures p.l2[i][j] == q.l2[i][j]
    {
      ExpSubdivisionAt(u, v, x, i, j, i);
    }
    forall i: nat, j: nat, k: nat | i < d && j < d && k < d
      ensures p.l3[i][j][k] == q.l3[i][j][k]
    {
      ExpSubdivisionAt(u, v, x, i, j, k);
    }
    Extensional(p, q, d);
  }

  lemma ScaleAt(u: real, x: Vec, i: nat)
    requires i < |x|
    ensures Scale(u, x)[i] == Mul(u, x[i])
  {
  }

  lemma ExpSubdivisionAt(u: real, v: real, x: Vec, i: nat, j: nat, k: nat)
    requires i < |x| && j < |x| && k < |x|
    ensures Chen(Exp(Scale(u, x)), Exp(Scale(v, x))).l1[i] == Exp(Scale(u + v, x)).l1[i]
    ensures Chen(Exp(Scale(u, x)), Exp(Scale(v, x))).l2[i][j] == Exp(Scale(u + v, x)).l2[i][j]
    ensures Chen(Exp(Scale(u, x)), Exp(Scale(v, x))).l3[i][j][k] == Exp(Scale(u + v, x)).l3[i][j][k]
  {
    hide Mul, Chen, Exp, Scale;
    var a, b, c := Scale(u, x), Scale(v, x), Scale(u + v, x);
    ChenAt(Exp(a), Exp(b), |x|, i, j, k);
    ExpAt(a, i, j, k);
    ExpAt(b, i, j, k);
    ExpAt(b, j, k, i);
    ExpAt(b, k, j, i);
    ExpAt(c, i, j, k);
    forall n: nat | n < |x|
      ensures a[n] == Mul(u, x[n]) && b[n] == Mul(v, x[n]) && c[n] == Mul(u + v, x[n])
    {
      ScaleAt(u, x, n);
      ScaleAt(v, x, n);
      ScaleAt(u + v, x, n);
    }
    AddsMul(u, v, x[i]);
    Binomial2(u, v, x[i], x[j]);
    Binomial3(u, v, x[i], x[j], x[k]);
  }

  lemma Regroup(u: real, v: real, w: real, x: real, y: real, z: real)
    ensures Mul(Mul(Mul(u, x), Mul(v, y)), Mul(w, z)) == (u * v * w) * (x * y * z)
  {
    assert (u * x) * (v * y) == (u * v) * (x * y);
  }

  lemma Binomial2(u: real, v: real, x: real, y: real)
    ensures Mul(Mul(u, x), Mul(u, y)) / 2.0 + Mul(Mul(u, x), Mul(v, y)) + Mul(Mul(v, x), Mul(v, y)) / 2.0
         == Mul(Mul(u + v, x), Mul(u + v, y)) / 2.0
  {
    var m, s := x * y, u + v;
    assert (u * x) * (u * y) == (u * u) * m;
    assert (u * x) * (v * y) == (u * v) * m;
    assert (v * x) * (v * y) == (v * v) * m;
    assert (s * x) * (s * y) == (s * s) * m;
    assert s * s == u * u + 2.0 * (u * v) + v * v;
    assert (u * u + 2.0 * (u * v) + v * v) * m == (u * u) * m + 2.0 * ((u * v) * m) + (v * v) * m;
  }

  lemma Binomial3(u: real, v: real, x: real, y: real, z: real)
    ensures Mul(Mul(Mul(u, x), Mul(u, y)), Mul(u, z)) / 6.0
            + Mul(Mul(u, x), Mul(Mul(v, y), Mul(v, z)) / 2.0)
            + Mul(Mul(Mul(u, x), Mul(u, y)) / 2.0, Mul(v, z))
            + Mul(Mul(Mul(v, x), Mul(v, y)), Mul(v, z)) / 6.0
         == Mul(Mul(Mul(u + v, x), Mul(u + v, y)), Mul(u + v, z)) / 6.0
  {
    var m := x * y * z;
    Regroup(u, u, u, x, y, z);
    Regroup(u, v, v, x, y, z);
    Regroup(u, u, v, x, y, z);
    Regroup(v, v, v, x, y, z);
    Regroup(u + v, u + v, u + v, x, y, z);
    Halves(Mul(u, x), Mul(v, y), Mul(v, z));
    Halves2(Mul(Mul(u, x), Mul(u, y)), Mul(v, z));
    Cube(u, v);
    Collect4(u * u * u, u * u * v, u * v * v, v * v * v, m);
    hide Mul;
  }

  lemma Halves(x: real, y: real, z: real)
    ensures Mul(x, Mul(y, z) / 2.0) == Mul(Mul(x, y), z) / 2.0
  {
  }

  lemma Halves2(x: real, y: real)
    ensures Mul(x / 2.0, y) == Mul(x, y) / 2.0
  {
  }

  lemma Collect4(p: real, q: real, r: real, t: real, m: real)
    ensures (p + 3.0 * q + 3.0 * r + t) * m == p * m + 3.0 * (q * m) + 3.0 * (r * m) + t * m
  {
  }

  lemma Cube(u: real, v: real)
    ensures (u + v) * (u + v) * (u + v)
         == u * u * u + 3.0 * (u * u * v) + 3.0 * (u * v * v) + v * v * v
  {
    assert (u + v) * (u + v) == u * u + 2.0 * (u * v) + v * v;
  }

  /** The increments before, at and after the point inserted behind point k. */
  lemma RefinedIncrements(points: seq<Vec>, k: nat, mid: Vec, d: nat)
    requires k + 1 < |points| && AllDim(points, d) && |mid| == d
    ensures AllDim(points[..k + 1] + [mid] + points[k + 1..], d)
    ensures Increments(points[..k + 1] + [mid] + points[k + 1..], d)
         == Increments(points, d)[..k] + [Diff(points[k], mid), Diff(mid, points[k + 1])] + Increments(points, d)[k + 1..]
  {
    var refined, xs := points[..k + 1] + [mid] + points[k + 1..], Increments(points, d);
    var ys, zs := Increments(refined, d), xs[..k] + [Diff(points[k], mid), Diff(mid, points[k + 1])] + xs[k + 1..];
    forall n | 0 <= n < |refined| - 1
      ensures ys[n] == zs[n]
    {
      if n > k + 1 {
        assert refined[n] == points[n - 1] && refined[n + 1] == points[n];
      }
    }
  }

  /** Inserting a point anywhere on a straight segment changes nothing. */
  lemma SubdivisionInvariant(points: seq<Vec>, k: nat, u: real, mid: Vec, d: nat)
    requires k + 1 < |points| && AllDim(points, d) && |mid| == d
    requires forall i :: 0 <= i < d ==> mid[i] == points[k][i] + Mul(u, points[k + 1][i] - points[k][i])
    ensures AllDim(points[..k + 1] + [mid] + points[k + 1..], d)
    ensures SigOf(points[..k + 1] + [mid] + points[k + 1..], d) == SigOf(points, d)
  {
    hide Mul, Chen, Exp, Product;
    var xs, x, v := Increments(points, d), Diff(points[k], points[k + 1]), 1.0 - u;
    var first, second := Diff(points[k], mid), Diff(mid, points[k + 1]);
    forall i: nat | i < d
      ensures Scale(u, x)[i] == first[i] && Scale(v, x)[i] == second[i] && Scale(u + v, x)[i] == x[i]
    {
      AddsMul(u, v, x[i]);
      OneTimes(u + v, x[i]);
    }
    assert Scale(u, x) == first && Scale(v, x) == second && Scale(u + v, x) == x;
    ExpSubdivision(u, v, x);
    RefinedIncrements(points, k, mid, d);
    assert xs == xs[..k] + [x] + xs[k + 1..];
    PairProduct(first, second, d);
    SingleProduct(x, d);
    SameMiddle(xs[..k], [first, second], [x], xs[k + 1..], d);
  }

  lemma OneTimes(u: real, x: real)
    ensures u == 1.0 ==> Mul(u, x) == x
    ensures u == -1.0 ==> Mul(u, x) == -x
    ensures u == 0.0 ==> Mul(u, x) == 0.0
  {
  }

  lemma SameMiddle(a: seq<Vec>, b: seq<Vec>, c: seq<Vec>, e: seq<Vec>, d: nat)
    requires AllDim(a, d) && AllDim(b, d) && AllDim(c, d) && AllDim(e, d)
    requires Product(b, d) == Product(c, d)
    ensures AllDim(a + b + e, d) && AllDim(a + c + e, d)
    ensures Product(a + b + e, d) == Product(a + c + e, d)
  {
    ProductConcat(a, b, d);
    ProductConcat(a, c, d);
    ProductConcat(a + b, e, d);
    ProductConcat(a + c, e, d);
  }

  lemma SingleProduct(x: Vec, d: nat)
    requires |x| == d
    ensures AllDim([x], d) && Product([x], d) == Exp(x)
  {
    assert [x][..0] == [];
    UnitLaws(Exp(x), d);
  }

  lemma PairProduct(x: Vec, y: Vec, d: nat)
    requires |x| == d && |y| == d
    ensures AllDim([x, y], d) && Product([x, y], d) == Chen(Exp(x), Exp(y))
  {
    assert [x, y][..1] == [x];
    SingleProduct(x, d);
  }

  function Reverse<T>(s: seq<T>): (r: seq<T>)
    ensures |r| == |s| && forall n :: 0 <= n < |s| ==> r[n] == s[|s| - 1 - n]
  {
    if s == [] then [] else [s[|s| - 1]] + Reverse(s[..|s| - 1])
  }

  function Backwards(xs: seq<Vec>, d: nat): (ys: seq<Vec>)
    requires AllDim(xs, d)
    ensures |ys| == |xs| && AllDim(ys, d)
    ensures forall n :: 0 <= n < |xs| ==> ys[n] == Scale(-1.0, xs[|xs| - 1 - n])
  {
    if xs == [] then [] else [Scale(-1.0, xs[|xs| - 1])] + Backwards(xs[..|xs| - 1], d)
  }

  lemma ExpInverse(x: Vec)
    ensures Chen(Exp(x), Exp(Scale(-1.0, x))) == Unit(|x|)
  {
    hide Mul, Chen;
    var zero := seq(|x|, i => 0.0);
    forall i: nat | i < |x|
      ensures Mul(1.0, x[i]) == x[i] && Mul(0.0, x[i]) == 0.0
    {
      OneTimes(1.0, x[i]);
      OneTimes(0.0, x[i]);
    }
    assert Scale(1.0, x) == x && Scale(0.0, x) == zero;
    assert Mul(0.0, 0.0) == 0.0 by { NoProduct(0.0); }
    ExpSubdivision(1.0, -1.0, x);
    Extensional(Exp(zero), Unit(|x|), |x|);
  }

  lemma {:induction false} ProductBackwards(xs: seq<Vec>, d: nat)
    requires AllDim(xs, d)
    ensures Chen(Product(xs, d), Product(Backwards(xs, d), d)) == Unit(d)
  {
    hide Mul, Chen, Exp, Scale, Unit;
    if xs == [] {
      UnitLaws(Unit(d), d);
    } else {
      var init, x := xs[..|xs| - 1], xs[|xs| - 1];
      var back := Backwards(init, d);
      var minus := Scale(-1.0, x);
      var a, e, f, b := Product(init, d), Exp(x), Exp(minus), Product(back, d);
      ProductBackwards(init, d);
      SingleProduct(minus, d);
      ProductConcat([minus], back, d);
      ChenAssociative(a, e, Chen(f, b), d);
      ChenAssociative(e, f, b, d);
      ExpInverse(x);
      UnitLaws(b, d);
    }
  }

  lemma IncrementsOfReverse(points: seq<Vec>, d: nat)
    requires |points| >= 1 && AllDim(points, d)
    ensures AllDim(Reverse(points), d)
    ensures Increments(Reverse(points), d) == Backwards(Increments(points, d), d)
  {
    hide Mul, Reverse, Backwards, Scale, Diff;
    var n := |points|;
    forall m: nat | m < n - 1
      ensures Increments(Reverse(points), d)[m] == Backwards(Increments(points, d), d)[m]
    {
      assert Increments(Reverse(points), d)[m] == Diff(points[n - 1 - m], points[n - 2 - m]);
      DiffBackwards(points[n - 2 - m], points[n - 1 - m]);
    }
  }

  lemma DiffBackwards(p: Vec, q: Vec)
    requires |p| == |q|
    ensures Scale(-1.0, Diff(p, q)) == Diff(q, p)
  {
    hide Mul;
    forall i: nat | i < |p|
      ensures Scale(-1.0, Diff(p, q))[i] == Diff(q, p)[i]
    {
      OneTimes(-1.0, Diff(p, q)[i]);
    }
  }

  /** A path walked forwards and then back has zero signature at every level. */
  lemma ReversalCancels(points: seq<Vec>, d: nat)
    requires |points| >= 1 && AllDim(points, d)
    ensures AllDim(points + Reverse(points)[1..], d)
    ensures SigOf(points + Reverse(points)[1..], d) == Unit(d)
  {
    hide Mul, Chen, Exp, Product, Reverse, Backwards, Unit;
    IncrementsOfReverse(points, d);
    JoinIsProduct(points, Reverse(points), d);
    ProductBackwards(Increments(points, d), d);
  }

  // ----- level 1 and the diagonal only see the displacement -----

  lemma {:induction false} LevelOneIsDisplacement(points: seq<Vec>, d: nat, i: nat)
    requires |points| >= 1 && AllDim(points, d) && i < d
    ensures SigOf(points, d).l1[i] == points[|points| - 1][i] - points[0][i]
  {
    hide Mul, Exp, Product;
    if |points| > 1 {
      var init := points[..|points| - 1];
      LevelOneIsDisplacement(init, d, i);
      IncrementsSnoc(points, d);
      var x := Diff(points[|points| - 2], points[|points| - 1]);
      StepAt(SigOf(init, d), x, d, i, i, i);
    } else {
      EmptyProduct(points, d);
    }
  }

  lemma EmptyProduct(points: seq<Vec>, d: nat)
    requires |points| == 1 && AllDim(points, d)
    ensures SigOf(points, d) == Unit(d)
  {
    assert |Increments(points, d)| == 0;
  }

  lemma IncrementsSnoc(points: seq<Vec>, d: nat)
    requires |points| >= 2 && AllDim(points, d)
    ensures Increments(points, d)[..|points| - 2] == Increments(points[..|points| - 1], d)
    ensures SigOf(points, d)
         == Chen(SigOf(points[..|points| - 1], d), Exp(Diff(points[|points| - 2], points[|points| - 1])))
  {
    hide Mul, Chen, Exp;
    assert Increments(points, d)[..|points| - 2] == Increments(points[..|points| - 1], d);
  }

  function CubeOf(x: real): real {
    x * x * x
  }

  lemma Powers(t: real)
    ensures Mul(t, t) == Square(t) && Mul(t, Square(t) / 2.0) == CubeOf(t) / 2.0
  {
  }

  /** The pure powers S_ii and S_iii are functions of the total displacement t. */
  lemma DiagonalIsDisplacement(points: seq<Vec>, d: nat, i: nat, t: real)
    requires |points| >= 1 && AllDim(points, d) && i < d && t == points[|points| - 1][i] - points[0][i]
    ensures SigOf(points, d).l1[i] == t
    ensures SigOf(points, d).l2[i][i] == Square(t) / 2.0
    ensures SigOf(points, d).l3[i][i][i] == CubeOf(t) / 6.0
  {
    hide Mul, Product, GroupLike, Square, CubeOf;
    LevelOneIsDisplacement(points, d, i);
    ProductGroupLike(Increments(points, d), d);
    PurePowers(SigOf(points, d), d, i, t);
  }

  lemma PurePowers(s: Sig, d: nat, i: nat, t: real)
    requires GroupLike(s, d) && i < d && s.l1[i] == t
    ensures s.l2[i][i] == Square(t) / 2.0
    ensures s.l3[i][i][i] == CubeOf(t) / 6.0
  {
    hide Mul, Square, CubeOf;
    assert Shuffle2At(s, d, i, i) && Shuffle3At(s, d, i, i, i);
    Powers(t);
  }

  // ----- exactness: the loop computes iterated integrals -----

  /** A polynomial in the segment parameter u in [0, 1], lowest degree first. */
  type Poly = seq<real>

  /** c plus slope times the integral of p from 0 to u. */
  function Integrate(p: Poly, slope: real, c: real): Poly {
    [c] + seq(|p|, n requires 0 <= n < |p| => Mul(slope, p[n]) / (n + 1) as real)
  }

  function AtOne(p: Poly): real {
    Sum(p)
  }

  // The iterated integrals of dx_i, dx_i dx_j and dx_i dx_j dx_k along the path,
  // as functions of the position on segment n. Each follows the defining
  // equation: its value at the start of the segment plus the integral of the
  // next shorter one against the last coordinate.

  function Iterated1(xs: seq<Vec>, d: nat, n: nat, i: nat): Poly
    requires AllDim(xs, d) && n < |xs| && i < d
  {
    Integrate([1.0], xs[n][i], if n == 0 then 0.0 else AtOne(Iterated1(xs, d, n - 1, i)))
  }

  function Iterated2(xs: seq<Vec>, d: nat, n: nat, i: nat, j: nat): Poly
    requires AllDim(xs, d) && n < |xs| && i < d && j < d
  {
    Integrate(Iterated1(xs, d, n, i), xs[n][j], if n == 0 then 0.0 else AtOne(Iterated2(xs, d, n - 1, i, j)))
  }

  function Iterated3(xs: seq<Vec>, d: nat, n: nat, i: nat, j: nat, k: nat): Poly
    requires AllDim(xs, d) && n < |xs| && i < d && j < d && k < d
  {
    Integrate(Iterated2(xs, d, n, i, j), xs[n][k],
              if n == 0 then 0.0 else AtOne(Iterated3(xs, d, n - 1, i, j, k)))
  }

  lemma Sum1(p: Poly)
    requires |p| == 1
    ensures Sum(p) == p[0]
  {
  }

  lemma Sum2(p: Poly)
    requires |p| == 2
    ensures Sum(p) == p[0] + p[1]
  {
    Sum1(p[1..]);
  }

  lemma Sum3(p: Poly)
    requires |p| == 3
    ensures Sum(p) == p[0] + p[1] + p[2]
  {
    Sum2(p[1..]);
  }

  lemma Sum4(p: Poly)
    requires |p| == 4
    ensures Sum(p) == p[0] + p[1] + p[2] + p[3]
  {
    Sum3(p[1..]);
  }

  /** The value at the end of a segment of an integral of degree at most 3. */
  lemma IntegralEnds(p: Poly, slope: real, c: real)
    ensures |Integrate(p, slope, c)| == |p| + 1 && Integrate(p, slope, c)[0] == c
    ensures |p| >= 1 ==> Integrate(p, slope, c)[1] == Mul(slope, p[0])
    ensures |p| >= 2 ==> Integrate(p, slope, c)[2] == Mul(slope, p[1]) / 2.0
    ensures |p| >= 3 ==> Integrate(p, slope, c)[3] == Mul(slope, p[2]) / 3.0
    ensures |p| == 1 ==> AtOne(Integrate(p, slope, c)) == c + Mul(slope, p[0])
    ensures |p| == 2 ==> AtOne(Integrate(p, slope, c)) == c + Mul(slope, p[0]) + Mul(slope, p[1]) / 2.0
    ensures |p| == 3 ==>
              AtOne(Integrate(p, slope, c)) == c + Mul(slope, p[0]) + Mul(slope, p[1]) / 2.0 + Mul(slope, p[2]) / 3.0
  {
    hide Mul, Sum;
    var q := Integrate(p, slope, c);
    assert |p| >= 1 ==> q[1] == Mul(slope, p[0]) / (0 + 1) as real;
    assert |p| >= 2 ==> q[2] == Mul(slope, p[1]) / (1 + 1) as real;
    assert |p| >= 3 ==> q[3] == Mul(slope, p[2]) / (2 + 1) as real;
    if |p| == 1 {
      Sum2(q);
    } else if |p| == 2 {
      Sum3(q);
    } else if |p| == 3 {
      Sum4(q);
    }
  }

  /** The value of each integral at the end of a segment, from its value at the start. */
  lemma SegmentEnds(x: real, y: real, z: real, a: real, b: real, c: real)
    ensures
      var p1 := Integrate([1.0], x, a);
      var p2 := Integrate(p1, y, b);
      var p3 := Integrate(p2, z, c);
      && AtOne(p1) == a + x
      && AtOne(p2) == b + Mul(a, y) + Mul(x, y) / 2.0
      && AtOne(p3) == c + Mul(a, Mul(y, z) / 2.0) + Mul(b, z) + Mul(Mul(x, y), z) / 6.0
  {
    hide Mul, AtOne, Integrate;
    var p1 := Integrate([1.0], x, a);
    var p2 := Integrate(p1, y, b);
    IntegralEnds([1.0], x, a);
    IntegralEnds(p1, y, b);
    IntegralEnds(p2, z, c);
    Commute(a, b, x, y, z);
  }

  lemma Commute(a: real, b: real, x: real, y: real, z: real)
    ensures Mul(x, 1.0) == x && Mul(y, a) == Mul(a, y) && Mul(y, x) == Mul(x, y) && Mul(z, b) == Mul(b, z)
    ensures Mul(z, Mul(a, y)) / 2.0 == Mul(a, Mul(y, z) / 2.0)
    ensures Mul(z, Mul(x, y) / 2.0) / 3.0 == Mul(Mul(x, y), z) / 6.0
  {
    assert z * (a * y) == a * (y * z);
    assert z * (x * y) == (x * y) * z;
  }

  /** What one loop iteration does to the accumulators, coordinate by coordinate. */
  lemma StepAt(a: Sig, x: Vec, d: nat, i: nat, j: nat, k: nat)
    requires Shaped(a, d) && |x| == d && i < d && j < d && k < d
    ensures Chen(a, Exp(x)).l1[i] == a.l1[i] + x[i]
    ensures Chen(a, Exp(x)).l2[i][j] == a.l2[i][j] + Mul(a.l1[i], x[j]) + Mul(x[i], x[j]) / 2.0
    ensures Chen(a, Exp(x)).l3[i][j][k]
         == a.l3[i][j][k] + Mul(a.l1[i], Mul(x[j], x[k]) / 2.0) + Mul(a.l2[i][j], x[k]) + Mul(Mul(x[i], x[j]), x[k]) / 6.0
  {
    hide Mul, Chen, Exp;
    ChenAt(a, Exp(x), d, i, j, k);
    ExpAt(x, i, j, k);
    ExpAt(x, j, k, i);
    ExpAt(x, k, j, i);
  }

  lemma ProductStep(xs: seq<Vec>, d: nat, n: nat)
    requires AllDim(xs, d) && n < |xs|
    ensures Product(xs[..n + 1], d) == Chen(Product(xs[..n], d), Exp(xs[n]))
  {
    hide Chen, Exp;
    assert xs[..n + 1][..n] == xs[..n];
  }

  /** s holds, at coordinates i, j, k, the iterated integrals up to the end of segment n. */
  ghost predicate HoldsIntegrals(s: Sig, xs: seq<Vec>, d: nat, n: nat, i: nat, j: nat, k: nat)
    requires Shaped(s, d) && AllDim(xs, d) && n < |xs| && i < d && j < d && k < d
  {
    && s.l1[i] == AtOne(Iterated1(xs, d, n, i))
    && s.l2[i][j] == AtOne(Iterated2(xs, d, n, i, j))
    && s.l3[i][j][k] == AtOne(Iterated3(xs, d, n, i, j, k))
  }

  lemma IntegralsStep(s: Sig, a: Sig, xs: seq<Vec>, d: nat, n: nat, i: nat, j: nat, k: nat)
    requires Shaped(a, d) && AllDim(xs, d) && n < |xs| && i < d && j < d && k < d
    requires s == Chen(a, Exp(xs[n]))
    requires if n == 0 then a == Unit(d) else HoldsIntegrals(a, xs, d, n - 1, i, j, k)
    ensures HoldsIntegrals(s, xs, d, n, i, j, k)
  {
    hide Mul, Chen, Exp, AtOne, Integrate;
    var x := xs[n];
    StepAt(a, x, d, i, j, k);
    SegmentEnds(x[i], x[j], x[k], a.l1[i], a.l2[i][j], a.l3[i][j][k]);
    assert Iterated1(xs, d, n, i) == Integrate([1.0], x[i], a.l1[i]);
    assert Iterated2(xs, d, n, i, j) == Integrate(Iterated1(xs, d, n, i), x[j], a.l2[i][j]);
    assert Iterated3(xs, d, n, i, j, k) == Integrate(Iterated2(xs, d, n, i, j), x[k], a.l3[i][j][k]);
  }

  /** After segment n the accumulators hold the iterated integrals up to there. */
  lemma {:induction false} AccumulatorsAreIteratedIntegrals(xs: seq<Vec>, d: nat, n: nat, i: nat, j: nat, k: nat)
    requires AllDim(xs, d) && n < |xs| && i < d && j < d && k < d
    ensures HoldsIntegrals(Product(xs[..n + 1], d), xs, d, n, i, j, k)
    decreases n
  {
    hide Chen, Exp, Product, Iterated1, Iterated2, Iterated3, AtOne;
    if n > 0 {
      AccumulatorsAreIteratedIntegrals(xs, d, n - 1, i, j, k);
    }
    assert n == 0 ==> Product(xs[..n], d) == Unit(d) by {
      EmptyPrefix(xs, d);
    }
    ProductStep(xs, d, n);
    IntegralsStep(Product(xs[..n + 1], d), Product(xs[..n], d), xs, d, n, i, j, k);
  }

  lemma EmptyPrefix(xs: seq<Vec>, d: nat)
    requires AllDim(xs, d)
    ensures Product(xs[..0], d) == Unit(d)
  {
  }

  // ----- the feature computation itself -----

  datatype Malformed = UnsupportedLevel | TooFewPoints

  /** Each level-3 slab as a flat row. */
  function Slabs(m: seq<seq<seq<real>>>): (slabs: seq<seq<real>>)
    ensures |slabs| == |m| && forall n :: 0 <= n < |m| ==> slabs[n] == Concat(m[n])
  {
    seq(|m|, n requires 0 <= n < |m| => Concat(m[n]))
  }

  /** Feature rows by level: entry k-1 is level k. */
  function LevelRow(s: Sig, level: nat): seq<real>
    requires 1 <= level <= 3
  {
    if level == 1 then s.l1
    else if level == 2 then Concat(s.l2)
    else Concat(Slabs(s.l3))
  }

  ghost predicate Rectangular(points: seq<seq<Vec>>, n: nat, d: nat) {
    forall b :: 0 <= b < |points| ==> |points[b]| == n && AllDim(points[b], d)
  }

  /** Where each coordinate lands in the flat feature rows; w is the level-2 width. */
  lemma FeatureCoordinates(s: Sig, d: nat, w: nat, i: nat, j: nat, k: nat)
    requires Shaped(s, d) && i < d && j < d && k < d && w == d * d
    ensures LevelRow(s, 1)[i] == s.l1[i]
    ensures 0 <= i * d + j < |LevelRow(s, 2)| && LevelRow(s, 2)[i * d + j] == s.l2[i][j]
    ensures 0 <= i * w + (j * d + k) < |LevelRow(s, 3)| && LevelRow(s, 3)[i * w + (j * d + k)] == s.l3[i][j][k]
  {
    ConcatIndex(s.l2, d, i, j);
    ConcatIndex(s.l3[i], d, j, k);
    ConcatLength(s.l3[i], d);
    var at := j * d + k;
    var slabs := Slabs(s.l3);
    forall n | 0 <= n < d
      ensures |slabs[n]| == w
    {
      ConcatLength(s.l3[n], d);
    }
    ConcatIndex(slabs, w, i, at);
  }

  function LevelRows(acc: seq<Sig>, level: nat): (rows: seq<seq<real>>)
    requires 1 <= level <= 3
    ensures |rows| == |acc|
    ensures forall b :: 0 <= b < |acc| ==> rows[b] == LevelRow(acc[b], level)
  {
    seq(|acc|, b requires 0 <= b < |acc| => LevelRow(acc[b], level))
  }

  /** The batch of accumulators after the first t segments. */
  function Accumulators(points: seq<seq<Vec>>, n: nat, d: nat, t: nat): (acc: seq<Sig>)
    requires Rectangular(points, n, d) && t < n
    ensures |acc| == |points| && forall b :: 0 <= b < |acc| ==> Shaped(acc[b], d)
    ensures forall b :: 0 <= b < |acc| ==> acc[b] == Product(Increments(points[b], d)[..t], d)
  {
    seq(|points|, b requires 0 <= b < |points| => Product(Increments(points[b], d)[..t], d))
  }

  lemma AccumulatorsStart(points: seq<seq<Vec>>, n: nat, d: nat, acc: seq<Sig>)
    requires Rectangular(points, n, d) && n >= 1 && |acc| == |points|
    requires forall b :: 0 <= b < |acc| ==> acc[b] == Unit(d)
    ensures acc == Accumulators(points, n, d, 0)
  {
    hide Chen, Exp;
    forall b | 0 <= b < |acc|
      ensures acc[b] == Accumulators(points, n, d, 0)[b]
    {
      EmptyPrefix(Increments(points[b], d), d);
    }
  }

  lemma AccumulatorsStep(points: seq<seq<Vec>>, n: nat, d: nat, t: nat, next: seq<Sig>)
    requires Rectangular(points, n, d) && t + 1 < n && |next| == |points|
    requires forall b :: 0 <= b < |next| ==>
               next[b] == Chen(Accumulators(points, n, d, t)[b], Exp(Increments(points[b], d)[t]))
    ensures next == Accumulators(points, n, d, t + 1)
  {
    hide Chen, Exp, Product, Increments;
    forall b | 0 <= b < |next|
      ensures next[b] == Accumulators(points, n, d, t + 1)[b]
    {
      ProductStep(Increments(points[b], d), d, t);
    }
  }

  lemma AccumulatorsDone(points: seq<seq<Vec>>, n: nat, d: nat)
    requires Rectangular(points, n, d) && n >= 1
    ensures forall b :: 0 <= b < |points| ==> Accumulators(points, n, d, n - 1)[b] == SigOf(points[b], d)
  {
    hide Chen, Exp, Product;
    forall b | 0 <= b < |points|
      ensures Accumulators(points, n, d, n - 1)[b] == SigOf(points[b], d)
    {
      assert Increments(points[b], d)[..n - 1] == Increments(points[b], d);
    }
  }

  /** The segment loop: one accumulator triple per row, replaced segment by segment. */
  method Accumulate(points: seq<seq<Vec>>, n: nat, d: nat) returns (acc: seq<Sig>)
    requires Rectangular(points, n, d) && n >= 1
    ensures |acc| == |points| && forall b :: 0 <= b < |points| ==> acc[b] == SigOf(points[b], d)
  {
    hide Mul, Chen, Exp, Product, Increments, SigOf;
    var batch := |points|;
    var dx := seq(batch, b requires 0 <= b < batch => Increments(points[b], d));
    acc := seq(batch, b => Unit(d));
    AccumulatorsStart(points, n, d, acc);
    var t := 0;
    while t < n - 1
      invariant 0 <= t <= n - 1
      invariant acc == Accumulators(points, n, d, t)
    {
      var next := seq(batch, b requires 0 <= b < batch => Chen(acc[b], Exp(dx[b][t])));
      AccumulatorsStep(points, n, d, t, next);
      acc := next;
      t := t + 1;
    }
    AccumulatorsDone(points, n, d);
  }

  /** truncated_signature_features on a batch. */
  method TruncatedSignatureFeatures(points: seq<seq<Vec>>, n: nat, d: nat, level: int)
    returns (r: Result<seq<seq<seq<real>>>, Malformed>)
    requires Rectangular(points, n, d)
    ensures r.Err? <==> !(1 <= level <= 3) || n < 2
    ensures r == Err(UnsupportedLevel) <==> !(1 <= level <= 3)
    ensures r.Ok? ==> |r.value| == level
    ensures r.Ok? ==> forall k :: 0 <= k < level ==> |r.value[k]| == |points|
    ensures r.Ok? ==> forall k, b :: 0 <= k < level && 0 <= b < |points| ==>
              r.value[k][b] == LevelRow(SigOf(points[b], d), k + 1)
  {
    hide SigOf, LevelRow;
    if level < 1 || level > 3 {
      return Err(UnsupportedLevel);
    }
    if n < 2 {
      return Err(TooFewPoints);
    }
    var acc := Accumulate(points, n, d);
    var features := [LevelRows(acc, 1)];
    if level >= 2 {
      features := features + [LevelRows(acc, 2)];
    }
    if level >= 3 {
      features := features + [LevelRows(acc, 3)];
    }
    r := Ok(features);
  }
}
