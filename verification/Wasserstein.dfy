/** The terminal-distribution distance of the internal gate: _wasserstein_1d in
    src/neuralmarket/research/neural_sde_internal_gate.py. */
module Wasserstein {
  import opened Common

  ghost predicate Sorted(s: seq<real>) {
    forall i, j :: 0 <= i < j < |s| ==> s[i] <= s[j]
  }

  function Insert(x: real, s: seq<real>): seq<real> {
    if s == [] || x <= s[0] then [x] + s else [s[0]] + Insert(x, s[1..])
  }

  lemma {:induction false} InsertMultiset(x: real, s: seq<real>)
    ensures multiset(Insert(x, s)) == multiset(s) + multiset{x}
  {
    if s != [] && x > s[0] {
      InsertMultiset(x, s[1..]);
      assert s == [s[0]] + s[1..];
    }
  }

  lemma InsertBounds(x: real, s: seq<real>, low: real)
    requires low <= x && forall k :: 0 <= k < |s| ==> low <= s[k]
    ensures forall k :: 0 <= k < |Insert(x, s)| ==> low <= Insert(x, s)[k]
  {
    hide Insert;
    var t := Insert(x, s);
    InsertMultiset(x, s);
    forall k | 0 <= k < |t|
      ensures low <= t[k]
    {
      assert t[k] in multiset(t);
      assert t[k] == x || t[k] in multiset(s);
    }
  }

  lemma {:induction false} InsertSorted(x: real, s: seq<real>)
    requires Sorted(s)
    ensures Sorted(Insert(x, s))
  {
    if s != [] && x > s[0] {
      InsertSorted(x, s[1..]);
      InsertBounds(x, s[1..], s[0]);
    }
  }

  /** np.sort: ascending, same values. */
  function Sort(s: seq<real>): (r: seq<real>)
    ensures Sorted(r) && multiset(r) == multiset(s) && |r| == |s|
  {
    if s == [] then []
    else
      assert s == [s[0]] + s[1..];
      InsertSorted(s[0], Sort(s[1..]));
      InsertMultiset(s[0], Sort(s[1..]));
      SameLength(Insert(s[0], Sort(s[1..])), s);
      Insert(s[0], Sort(s[1..]))
  }

  /** np.interp of ys, spread evenly over [0, 1], at n evenly spaced positions. */
  function Resample(ys: seq<real>, n: nat): (r: seq<real>)
    requires 1 <= |ys| <= n
    ensures |r| == n
  {
    seq(n, i requires 0 <= i < n => At(ys, n, i))
  }

  /** The interpolated value at position i/(n-1). */
  function At(ys: seq<real>, n: nat, i: nat): real
    requires 1 <= |ys| <= n && i < n
  {
    if |ys| == 1 then ys[0]
    else
      var p := i * (|ys| - 1);
      var j, f := p / (n - 1), (p % (n - 1)) as real / (n - 1) as real;
      if j < 0 || j >= |ys| - 1 then ys[|ys| - 1] else ys[j] + f * (ys[j + 1] - ys[j])
  }

  function Cost(x: seq<real>, y: seq<real>): real
    requires |x| == |y|
  {
    if x == [] then 0.0 else Abs(x[0] - y[0]) + Cost(x[1..], y[1..])
  }

  datatype Failure = EmptySample

  function Wasserstein1d(a: seq<real>, b: seq<real>): Result<real, Failure> {
    if |a| == 0 || |b| == 0 then Err(EmptySample)
    else
      var n := if |a| < |b| then |b| else |a|;
      Ok(Cost(Resample(Sort(a), n), Resample(Sort(b), n)) / n as real)
  }

  /** i times m, named. */
  function Steps(i: nat, m: nat): nat {
    i * m
  }

  /** The interpolated values lie on the straight lines between neighbours: at position
      i / (n - 1), between the knots j / (m - 1) and (j + 1) / (m - 1) of a sample of m. */
  lemma InterpolatesBetween(ys: seq<real>, n: nat, i: nat, j: nat)
    requires 2 <= |ys| <= n && i < n && j < |ys| - 1
    requires Steps(j, n - 1) <= Steps(i, |ys| - 1) <= Steps(j + 1, n - 1)
    ensures Mul(Resample(ys, n)[i] - ys[j], (n - 1) as real)
         == Mul(ys[j + 1] - ys[j], (Steps(i, |ys| - 1) - Steps(j, n - 1)) as real)
  {
    hide Mul, Steps, At;
    var d, p := n - 1, Steps(i, |ys| - 1);
    KnotOf(p, d, j);
    AtKnot(ys, n, i, p / d, p % d);
    if p / d == j {
      OnLine(ys[j], ys[j + 1], p % d, d);
    }
  }

  /** The value at the place q, the fraction r / (n - 1) further on. */
  lemma AtKnot(ys: seq<real>, n: nat, i: nat, q: nat, r: nat)
    requires 2 <= |ys| <= n && i < n
    requires q == Steps(i, |ys| - 1) / (n - 1) && r == Steps(i, |ys| - 1) % (n - 1)
    ensures q < |ys| - 1 ==> At(ys, n, i) == Between(ys[q], ys[q + 1], r, n - 1)
    ensures q < |ys| - 1 && r == 0 ==> At(ys, n, i) == ys[q]
    ensures q >= |ys| - 1 ==> At(ys, n, i) == ys[|ys| - 1]
  {
    if q < |ys| - 1 && r == 0 {
      NoFraction(ys[q], ys[q + 1], n - 1);
    }
  }

  function Between(a: real, b: real, r: nat, d: nat): real
    requires d >= 1
  {
    a + r as real / d as real * (b - a)
  }

  lemma KnotOf(p: nat, d: nat, j: nat)
    requires d >= 1 && Steps(j, d) <= p <= Steps(j + 1, d)
    ensures p / d == j || (p / d == j + 1 && p % d == 0)
    ensures p / d == j ==> p - Steps(j, d) == p % d
    ensures p / d == j + 1 ==> p - Steps(j, d) == d
  {
    var q, r := p / d, p % d;
    assert p == q * d + r;
    Multiple(q - j, d);
    assert (q - j) * d == q * d - j * d;
    Multiple(q - j - 1, d);
    assert (q - j - 1) * d == q * d - j * d - d;
    assert (j + 1) * d == j * d + d;
  }

  lemma OnLine(a: real, b: real, r: nat, d: nat)
    requires d >= 1
    ensures Mul(Between(a, b, r, d) - a, d as real) == Mul(b - a, r as real)
  {
    var f := r as real / d as real;
    assert f * d as real == r as real;
    assert (f * (b - a)) * d as real == (b - a) * (f * d as real);
  }

  lemma NoFraction(a: real, b: real, d: nat)
    requires d >= 1
    ensures Between(a, b, 0, d) == a
  {
  }

  // ----- equal sample sizes: no interpolation takes place -----

  lemma ResampleSameSize(ys: seq<real>)
    requires |ys| >= 1
    ensures Resample(ys, |ys|) == ys
  {
    var n := |ys|;
    forall i | 0 <= i < n
      ensures At(ys, n, i) == ys[i]
    {
      if n > 1 {
        assert (i * (n - 1)) / (n - 1) == i && (i * (n - 1)) % (n - 1) == 0 by {
          DivideBack(i, n - 1);
        }
      }
    }
  }

  lemma DivideBack(i: nat, m: nat)
    requires m >= 1
    ensures (i * m) / m == i && (i * m) % m == 0
  {
    var q, r := (i * m) / m, (i * m) % m;
    assert i * m == q * m + r;
    assert (i - q) * m == i * m - q * m;
    Multiple(i - q, m);
  }

  lemma EqualSizeForm(a: seq<real>, b: seq<real>)
    requires |a| == |b| >= 1
    ensures Wasserstein1d(a, b) == Ok(Cost(Sort(a), Sort(b)) / |a| as real)
  {
    ResampleSameSize(Sort(a));
    ResampleSameSize(Sort(b));
  }

  // ----- sorted samples -----

  lemma RemoveMultiset(s: seq<real>, i: nat)
    requires i < |s|
    ensures multiset(Remove(s, i)) == multiset(s) - multiset{s[i]}
  {
    assert s == s[..i] + [s[i]] + s[i + 1..];
  }

  /** Uncrossing one pair never costs more. */
  lemma Uncross(x: real, x': real, y: real, y': real)
    requires x <= x' && y' <= y
    ensures Abs(x - y') + Abs(x' - y) <= Abs(x - y) + Abs(x' - y')
  {
  }

  lemma HeadIsLeast(s: seq<real>, x: seq<real>) returns (i: nat)
    requires Sorted(s) && |s| >= 1 && multiset(s) == multiset(x)
    ensures i < |x| && x[i] == s[0] && forall k :: 0 <= k < |x| ==> s[0] <= x[k]
  {
    assert s[0] in multiset(x);
    i :| 0 <= i < |x| && x[i] == s[0];
    forall k | 0 <= k < |x|
      ensures s[0] <= x[k]
    {
      assert x[k] in multiset(s);
    }
  }

  lemma TailMultiset(s: seq<real>)
    requires |s| >= 1
    ensures multiset(s[1..]) == multiset(s) - multiset{s[0]}
  {
    assert s == [s[0]] + s[1..];
  }

  lemma TailSorted(s: seq<real>)
    requires Sorted(s) && |s| >= 1
    ensures Sorted(s[1..])
  {
  }

  lemma SplitQuotient(p: real, q: real, n: real)
    requires n != 0.0
    ensures (p + q) / n == p / n + q / n
  {
  }

  lemma DivideMonotone(p: real, q: real, n: real)
    requires p <= q && n > 0.0
    ensures p / n <= q / n
  {
    var u := (q - p) / n;
    assert u * n == q - p;
    SplitQuotient(p, q - p, n);
  }

  // ----- metric laws on samples of one size -----

  lemma {:induction false} CostLaws(x: seq<real>, y: seq<real>, z: seq<real>)
    requires |x| == |y| == |z|
    ensures Cost(x, y) == Cost(y, x) >= 0.0
    ensures Cost(x, y) == 0.0 <==> x == y
    ensures Cost(x, z) <= Cost(x, y) + Cost(y, z)
    ensures Abs(Sum(x) - Sum(y)) <= Cost(x, y)
  {
    if x != [] {
      CostLaws(x[1..], y[1..], z[1..]);
      assert x == [x[0]] + x[1..] && y == [y[0]] + y[1..];
    }
  }

  lemma SameLength(s: seq<real>, t: seq<real>)
    requires multiset(s) == multiset(t)
    ensures |s| == |t|
  {
    assert |s| == |multiset(s)| && |t| == |multiset(t)|;
  }

  lemma HeadsAgree(s: seq<real>, t: seq<real>)
    requires Sorted(s) && Sorted(t) && multiset(s) == multiset(t) && |s| >= 1
    ensures |t| == |s| && s[0] == t[0] && multiset(s[1..]) == multiset(t[1..])
  {
    SameLength(s, t);
    var i := HeadIsLeast(s, t);
    var j := HeadIsLeast(t, s);
    TailMultiset(s);
    TailMultiset(t);
  }

  lemma {:induction false} SortedIsUnique(s: seq<real>, t: seq<real>)
    requires Sorted(s) && Sorted(t) && multiset(s) == multiset(t)
    ensures s == t
  {
    SameLength(s, t);
    if |s| > 0 {
      HeadsAgree(s, t);
      TailSorted(s);
      TailSorted(t);
      SortedIsUnique(s[1..], t[1..]);
      assert s == [s[0]] + s[1..] && t == [t[0]] + t[1..];
    }
  }

  lemma Symmetric(a: seq<real>, b: seq<real>)
    ensures Wasserstein1d(a, b) == Wasserstein1d(b, a)
  {
    hide Sort, Resample, Cost;
    if |a| >= 1 && |b| >= 1 {
      var n := if |a| < |b| then |b| else |a|;
      var x, y := Resample(Sort(a), n), Resample(Sort(b), n);
      CostLaws(x, y, x);
    }
  }

  lemma Triangle(a: seq<real>, b: seq<real>, c: seq<real>)
    requires |a| == |b| == |c| >= 1
    ensures Wasserstein1d(a, c).value <= Wasserstein1d(a, b).value + Wasserstein1d(b, c).value
  {
    hide Wasserstein1d, Sort, Cost;
    EqualSizeForm(a, b);
    EqualSizeForm(b, c);
    EqualSizeForm(a, c);
    CostLaws(Sort(a), Sort(b), Sort(c));
    var p, q, n := Cost(Sort(a), Sort(b)), Cost(Sort(b), Sort(c)), |a| as real;
    DivideMonotone(Cost(Sort(a), Sort(c)), p + q, n);
    SplitQuotient(p, q, n);
  }

  /** Zero distance means the samples are the same multiset, and only then. */
  lemma ZeroIffSameSample(a: seq<real>, b: seq<real>)
    requires |a| == |b| >= 1
    ensures Wasserstein1d(a, b).value >= 0.0
    ensures Wasserstein1d(a, b).value == 0.0 <==> multiset(a) == multiset(b)
  {
    hide Wasserstein1d, Sort, Cost;
    EqualSizeForm(a, b);
    CostLaws(Sort(a), Sort(b), Sort(a));
    var p, n := Cost(Sort(a), Sort(b)), |a| as real;
    assert (p / n) * n == p;
    if multiset(a) == multiset(b) {
      SortedIsUnique(Sort(a), Sort(b));
    }
    if p / n == 0.0 {
      assert Sort(a) == Sort(b);
    }
  }

  lemma {:induction false} SumIsOrderFree(x: seq<real>, y: seq<real>)
    requires multiset(x) == multiset(y)
    ensures Sum(x) == Sum(y)
  {
    if x == [] {
      assert |y| == |multiset(y)| == 0;
    } else {
      assert x[0] in multiset(y);
      var i :| 0 <= i < |y| && y[i] == x[0];
      RemoveMultiset(y, i);
      TailMultiset(x);
      SumIsOrderFree(x[1..], Remove(y, i));
      SumRemove(y, i);
    }
  }

  /** n times the distance bounds the difference of the two sample totals. */
  lemma BoundsMeanDifference(a: seq<real>, b: seq<real>)
    requires |a| == |b| >= 1
    ensures Wasserstein1d(a, b) == Ok(Cost(Sort(a), Sort(b)) / |a| as real)
    ensures Abs(Sum(a) - Sum(b)) <= Cost(Sort(a), Sort(b))
  {
    hide Wasserstein1d, Sort, Cost, Sum;
    EqualSizeForm(a, b);
    SumIsOrderFree(a, Sort(a));
    SumIsOrderFree(b, Sort(b));
    CostLaws(Sort(a), Sort(b), Sort(a));
  }

  // ----- optimality over all couplings -----

  function Dot(w: seq<real>, v: seq<real>): real
    requires |w| == |v|
  {
    if w == [] then 0.0 else Mul(w[0], v[0]) + Dot(w[1..], v[1..])
  }

  function Distances(x: real, t: seq<real>): (d: seq<real>)
    ensures |d| == |t|
  {
    seq(|t|, j requires 0 <= j < |t| => Abs(x - t[j]))
  }

  predicate Matrix(m: seq<seq<real>>, rows: nat, width: nat) {
    |m| == rows && forall i :: 0 <= i < |m| ==> |m[i]| == width
  }

  /** The mass moved times the distance it is moved, over all rows. */
  function Transport(m: seq<seq<real>>, s: seq<real>, t: seq<real>): real
    requires Matrix(m, |s|, |t|)
  {
    if s == [] then 0.0 else Dot(m[0], Distances(s[0], t)) + Transport(m[1..], s[1..], t)
  }

  function ColumnOf(m: seq<seq<real>>, j: nat): (c: seq<real>)
    requires forall i :: 0 <= i < |m| ==> j < |m[i]|
    ensures |c| == |m|
  {
    seq(|m|, i requires 0 <= i < |m| => m[i][j])
  }

  predicate NonNegative(w: seq<real>) {
    forall k :: 0 <= k < |w| ==> w[k] >= 0.0
  }

  /** A plan that moves a unit of mass from each of n points to each of n points, in
      any proportions. */
  predicate Coupling(m: seq<seq<real>>, n: nat) {
    && Matrix(m, n, n)
    && (forall i :: 0 <= i < n ==> NonNegative(m[i]) && Sum(m[i]) == 1.0)
    && forall j :: 0 <= j < n ==> Sum(ColumnOf(m, j)) == 1.0
  }

  /** a plus c times b, entry by entry. */
  function Plus(a: seq<real>, c: real, b: seq<real>): (r: seq<real>)
    requires |a| == |b|
    ensures |r| == |a|
  {
    seq(|a|, k requires 0 <= k < |a| => a[k] + Mul(c, b[k]))
  }

  lemma {:induction false} SumPlus(a: seq<real>, c: real, b: seq<real>)
    requires |a| == |b|
    ensures Sum(Plus(a, c, b)) == Sum(a) + Mul(c, Sum(b))
  {
    hide Mul;
    if a == [] {
      assert Mul(c, 0.0) == 0.0 by {
        NoProduct(c);
      }
    } else {
      SumPlus(a[1..], c, b[1..]);
      assert Plus(a, c, b)[1..] == Plus(a[1..], c, b[1..]);
      MulAdds(c, b[0], Sum(b[1..]));
    }
  }

  lemma Distribute(a: real, c: real, b: real, v: real)
    ensures Mul(a + Mul(c, b), v) == Mul(a, v) + Mul(c, Mul(b, v))
  {
    assert (a + c * b) * v == a * v + c * (b * v);
  }

  lemma {:induction false} DotPlus(a: seq<real>, c: real, b: seq<real>, v: seq<real>)
    requires |a| == |b| == |v|
    ensures Dot(Plus(a, c, b), v) == Dot(a, v) + Mul(c, Dot(b, v))
  {
    hide Mul;
    if a == [] {
      NoProduct(c);
    } else {
      DotPlus(a[1..], c, b[1..], v[1..]);
      assert Plus(a, c, b)[1..] == Plus(a[1..], c, b[1..]);
      Distribute(a[0], c, b[0], v[0]);
      MulAdds(c, Mul(b[0], v[0]), Dot(b[1..], v[1..]));
    }
  }

  /** The rest of a row once the first point of the second sample is gone: the mass q
      it sent there is sent on as the first row sends its own. */
  function Redirected(row: seq<real>, r: real, u: seq<real>): (w: seq<real>)
    requires |row| == |u| + 1
    ensures |w| == |u|
  {
    Plus(row[1..], Mul(row[0], r), u)
  }

  /** 1 / (1 - p), or nothing to redirect. */
  function Share(p: real): real {
    if p == 1.0 then 0.0 else 1.0 / (1.0 - p)
  }

  function RedirectedRows(rows: seq<seq<real>>, p: real, u: seq<real>): (r: seq<seq<real>>)
    requires forall i :: 0 <= i < |rows| ==> |rows[i]| == |u| + 1
    ensures Matrix(r, |rows|, |u|)
  {
    seq(|rows|, i requires 0 <= i < |rows| => Redirected(rows[i], Share(p), u))
  }

  function Reduced(m: seq<seq<real>>, n: nat): (r: seq<seq<real>>)
    requires Matrix(m, n, n) && n >= 1
    ensures Matrix(r, n - 1, n - 1)
  {
    RedirectedRows(m[1..], m[0][0], m[0][1..])
  }

  lemma ShareSplits(q: real, p: real)
    requires p == 1.0 ==> q == 0.0
    ensures Mul(Mul(q, Share(p)), 1.0 - p) == q
    ensures Mul(Mul(Share(p), q), 1.0 - p) == q
  {
    if p != 1.0 {
      var d := 1.0 - p;
      assert (1.0 / d) * d == 1.0;
      assert (q * (1.0 / d)) * d == q * ((1.0 / d) * d);
    }
  }

  lemma ShareIsMass(p: real)
    requires p <= 1.0
    ensures Share(p) >= 0.0
  {
  }

  /** With a total of 1, one entry leaves 1 minus itself for the others. */
  lemma Leaves(w: seq<real>)
    requires |w| >= 1 && NonNegative(w) && Sum(w) == 1.0
    ensures Sum(w[1..]) == 1.0 - w[0] && 0.0 <= w[0] <= 1.0
    ensures w[0] == 1.0 ==> forall k :: 1 <= k < |w| ==> w[k] == 0.0
  {
    SumNonNegative(w[1..]);
    forall k | 1 <= k < |w| && w[0] == 1.0
      ensures w[k] == 0.0
    {
      assert w[k] == w[1..][k - 1];
    }
  }

  lemma ColumnNonNegative(m: seq<seq<real>>, n: nat, j: nat)
    requires Coupling(m, n) && j < n
    ensures NonNegative(ColumnOf(m, j))
  {
  }

  lemma ReducedRow(m: seq<seq<real>>, n: nat, i: nat)
    requires Matrix(m, n, n) && Coupling(m, n) && 1 <= i < n
    ensures NonNegative(Reduced(m, n)[i - 1]) && Sum(Reduced(m, n)[i - 1]) == 1.0
  {
    hide Mul, Share, Coupling, Sum, NonNegative;
    CornerMass(m, n, i);
    var p, q, u := m[0][0], m[i][0], m[0][1..];
    var c := Mul(q, Share(p));
    SumPlus(m[i][1..], c, u);
    ShareSplits(q, p);
    ShareIsMass(p);
    MulNonNegative(q, Share(p));
    PlusNonNegative(m[i][1..], c, u);
  }

  lemma PlusNonNegative(a: seq<real>, c: real, b: seq<real>)
    requires |a| == |b| && NonNegative(a) && NonNegative(b) && c >= 0.0
    ensures NonNegative(Plus(a, c, b))
  {
    hide Mul;
    forall k | 0 <= k < |a|
      ensures Plus(a, c, b)[k] >= 0.0
    {
      MulNonNegative(c, b[k]);
    }
  }

  /** The masses around the corner (0, 0). */
  lemma CornerMass(m: seq<seq<real>>, n: nat, i: nat)
    requires Coupling(m, n) && 1 <= i < n
    ensures 0.0 <= m[0][0] <= 1.0 && m[i][0] >= 0.0 && m[0][i] >= 0.0
    ensures m[0][0] == 1.0 ==> m[i][0] == 0.0 && m[0][i] == 0.0
    ensures Sum(m[0][1..]) == 1.0 - m[0][0] && Sum(m[i][1..]) == 1.0 - m[i][0]
    ensures Sum(ColumnOf(m, 0)[1..]) == 1.0 - m[0][0] && Sum(ColumnOf(m, i)[1..]) == 1.0 - m[0][i]
    ensures NonNegative(m[0][1..]) && NonNegative(m[i][1..])
  {
    ColumnNonNegative(m, n, 0);
    ColumnNonNegative(m, n, i);
    Leaves(m[0]);
    Leaves(m[i]);
    Leaves(ColumnOf(m, 0));
    Leaves(ColumnOf(m, i));
    assert m[i][0] == ColumnOf(m, 0)[i];
  }

  lemma ReducedColumn(m: seq<seq<real>>, n: nat, j: nat)
    requires Matrix(m, n, n) && Coupling(m, n) && 1 <= j < n
    ensures Sum(ColumnOf(Reduced(m, n), j - 1)) == 1.0
  {
    hide Mul, Share, Coupling, Sum, NonNegative;
    CornerMass(m, n, j);
    var p, v := m[0][0], m[0][j];
    var c := Mul(Share(p), v);
    var others, first := ColumnOf(m, j)[1..], ColumnOf(m, 0)[1..];
    forall i | 0 <= i < n - 1
      ensures ColumnOf(Reduced(m, n), j - 1)[i] == Plus(others, c, first)[i]
    {
      Regroup(m[i + 1][0], Share(p), v);
    }
    assert ColumnOf(Reduced(m, n), j - 1) == Plus(others, c, first);
    SumPlus(others, c, first);
    ShareSplits(v, p);
  }

  lemma Regroup(q: real, r: real, v: real)
    ensures Mul(Mul(q, r), v) == Mul(Mul(r, v), q)
  {
    assert (q * r) * v == (r * v) * q;
  }

  lemma ReducedIsCoupling(m: seq<seq<real>>, n: nat)
    requires Coupling(m, n) && n >= 1
    ensures Coupling(Reduced(m, n), n - 1)
  {
    hide Sum, ColumnOf, NonNegative;
    var r := Reduced(m, n);
    forall i | 0 <= i < n - 1
      ensures NonNegative(r[i]) && Sum(r[i]) == 1.0
    {
      ReducedRow(m, n, i + 1);
    }
    forall j | 0 <= j < n - 1
      ensures Sum(ColumnOf(r, j)) == 1.0
    {
      ReducedColumn(m, n, j + 1);
    }
  }

  /** Uncrossing, weighted by the masses u: sending u to the distances from x instead
      of those from x0 costs at most what the first points give back. */
  lemma {:induction false} UncrossWeighted(u: seq<real>, x0: real, x: real, y0: real, t: seq<real>)
    requires |u| == |t| && NonNegative(u) && x0 <= x && forall k :: 0 <= k < |t| ==> y0 <= t[k]
    ensures Dot(u, Distances(x, t)) + Mul(Sum(u), Abs(x0 - y0)) <= Dot(u, Distances(x0, t)) + Mul(Sum(u), Abs(x - y0))
  {
    hide Mul, Abs;
    if u == [] {
      NoProduct(Abs(x0 - y0));
      NoProduct(Abs(x - y0));
    } else {
      UncrossWeighted(u[1..], x0, x, y0, t[1..]);
      assert Distances(x, t)[1..] == Distances(x, t[1..]) && Distances(x0, t)[1..] == Distances(x0, t[1..]);
      UncrossMass(u[0], x0, x, y0, t[0]);
      AddsMul(u[0], Sum(u[1..]), Abs(x0 - y0));
      AddsMul(u[0], Sum(u[1..]), Abs(x - y0));
    }
  }

  lemma UncrossMass(w: real, x0: real, x: real, y0: real, y: real)
    requires w >= 0.0 && x0 <= x && y0 <= y
    ensures Mul(w, Abs(x - y)) + Mul(w, Abs(x0 - y0)) <= Mul(w, Abs(x0 - y)) + Mul(w, Abs(x - y0))
  {
    hide Mul;
    Uncross(x0, x, y, y0);
    MulAdds(w, Abs(x - y), Abs(x0 - y0));
    MulAdds(w, Abs(x0 - y), Abs(x - y0));
    MulMonotone(w, Abs(x - y) + Abs(x0 - y0), Abs(x0 - y) + Abs(x - y0));
  }

  lemma MulMonotone(w: real, a: real, b: real)
    requires w >= 0.0 && a <= b
    ensures Mul(w, a) <= Mul(w, b)
  {
    assert w * b - w * a == w * (b - a);
  }

  /** What the redirected row of x costs: at most what the row of x cost before, plus
      its share of e, the rest of the first row, minus its share of d, the first pair. */
  lemma RowCost(row: seq<real>, p: real, u: seq<real>, x0: real, x: real, t: seq<real>)
    requires |row| == |t| == |u| + 1 && NonNegative(u) && Sum(u) == 1.0 - p && row[0] >= 0.0 && p <= 1.0
    requires p == 1.0 ==> row[0] == 0.0
    requires x0 <= x && forall k :: 0 <= k < |t| ==> t[0] <= t[k]
    ensures var e, d := Dot(u, Distances(x0, t[1..])), Abs(x0 - t[0]);
            Dot(Redirected(row, Share(p), u), Distances(x, t[1..]))
            <= Dot(row, Distances(x, t)) + Mul(row[0], Mul(Share(p), e) - d)
  {
    hide Mul, Share, Abs, NonNegative, Sum;
    var rest, q, r := t[1..], row[0], Share(p);
    var c := Mul(q, r);
    var e, d, g := Dot(u, Distances(x0, rest)), Abs(x0 - t[0]), Abs(x - t[0]);
    DotPlus(row[1..], c, u, Distances(x, rest));
    assert Distances(x, t)[1..] == Distances(x, rest);
    UncrossWeighted(u, x0, x, t[0], rest);
    ShareIsMass(p);
    MulNonNegative(q, r);
    ShareSplits(q, p);
    RowBalance(q, r, c, 1.0 - p, Dot(u, Distances(x, rest)), e, d, g);
  }

  lemma RowBalance(q: real, r: real, c: real, mass: real, f: real, e: real, d: real, g: real)
    requires c == Mul(q, r) && c >= 0.0 && Mul(c, mass) == q
    requires f + Mul(mass, d) <= e + Mul(mass, g)
    ensures Mul(c, f) <= Mul(q, g) + Mul(q, Mul(r, e) - d)
  {
    assert c * (e + mass * g - f - mass * d) >= 0.0;
    assert c * (e + mass * g - f - mass * d) == c * e + (c * mass) * g - c * f - (c * mass) * d;
    assert q * (r * e) == c * e;
  }

  /** Row by row, for the rows of the points after the first. */
  lemma {:induction false} RowsCost(rows: seq<seq<real>>, p: real, u: seq<real>, x0: real, xs: seq<real>, t: seq<real>)
    requires Matrix(rows, |xs|, |t|) && |t| == |u| + 1 && NonNegative(u) && Sum(u) == 1.0 - p && p <= 1.0
    requires forall i :: 0 <= i < |rows| ==> rows[i][0] >= 0.0 && (p == 1.0 ==> rows[i][0] == 0.0)
    requires (forall i :: 0 <= i < |xs| ==> x0 <= xs[i]) && forall k :: 0 <= k < |t| ==> t[0] <= t[k]
    ensures var e, d := Dot(u, Distances(x0, t[1..])), Abs(x0 - t[0]);
            Transport(RedirectedRows(rows, p, u), xs, t[1..])
            <= Transport(rows, xs, t) + Mul(Sum(ColumnOf(rows, 0)), Mul(Share(p), e) - d)
  {
    hide Mul, Share, Abs, NonNegative, Dot, Redirected, Distances;
    var gain := Mul(Share(p), Dot(u, Distances(x0, t[1..]))) - Abs(x0 - t[0]);
    if rows == [] {
      NoProduct(gain);
    } else {
      RowsCost(rows[1..], p, u, x0, xs[1..], t);
      RowCost(rows[0], p, u, x0, xs[0], t);
      assert RedirectedRows(rows, p, u)[1..] == RedirectedRows(rows[1..], p, u);
      assert ColumnOf(rows, 0)[1..] == ColumnOf(rows[1..], 0);
      AddsMul(rows[0][0], Sum(ColumnOf(rows[1..], 0)), gain);
    }
  }

  /** Moving the first mass along the first pair never costs more than the plan did. */
  lemma ReducingCostsLess(m: seq<seq<real>>, s: seq<real>, t: seq<real>)
    requires |s| == |t| >= 1 && Matrix(m, |s|, |s|) && Coupling(m, |s|) && Sorted(s) && Sorted(t)
    ensures Abs(s[0] - t[0]) + Transport(Reduced(m, |s|), s[1..], t[1..]) <= Transport(m, s, t)
  {
    hide Mul, Share, Abs, Sum, Dot, Redirected, Coupling, NonNegative, Distances, Sorted, Transport, RedirectedRows;
    var n, p, u := |s|, m[0][0], m[0][1..];
    FirstMasses(m, n);
    SortedBounds(s);
    SortedBounds(t);
    var e, d := Dot(u, Distances(s[0], t[1..])), Abs(s[0] - t[0]);
    RowsCost(m[1..], p, u, s[0], s[1..], t);
    TransportSplits(m, s, t);
    assert ColumnOf(m[1..], 0) == ColumnOf(m, 0)[1..];
    FirstRowCost(m[0], s[0], t);
    if p == 1.0 {
      DotOfNothing(u, Distances(s[0], t[1..]));
    }
    FirstBalance(p, e, d);
  }

  lemma SortedBounds(s: seq<real>)
    requires Sorted(s) && |s| >= 1
    ensures (forall k :: 0 <= k < |s| ==> s[0] <= s[k]) && forall k :: 0 <= k < |s[1..]| ==> s[0] <= s[1..][k]
  {
  }

  lemma TransportSplits(m: seq<seq<real>>, s: seq<real>, t: seq<real>)
    requires |s| >= 1 && Matrix(m, |s|, |t|)
    ensures Transport(m, s, t) == Dot(m[0], Distances(s[0], t)) + Transport(m[1..], s[1..], t)
  {
  }

  lemma FirstRowCost(row: seq<real>, x: real, t: seq<real>)
    requires |row| == |t| >= 1
    ensures Dot(row, Distances(x, t)) == Mul(row[0], Abs(x - t[0])) + Dot(row[1..], Distances(x, t[1..]))
  {
    assert Distances(x, t)[1..] == Distances(x, t[1..]);
  }

  lemma FirstMasses(m: seq<seq<real>>, n: nat)
    requires Matrix(m, n, n) && Coupling(m, n) && n >= 1
    ensures 0.0 <= m[0][0] <= 1.0 && NonNegative(m[0][1..]) && Sum(m[0][1..]) == 1.0 - m[0][0]
    ensures Sum(ColumnOf(m, 0)[1..]) == 1.0 - m[0][0]
    ensures m[0][0] == 1.0 ==> forall k :: 0 <= k < n - 1 ==> m[0][1..][k] == 0.0
    ensures forall i :: 0 <= i < n - 1 ==> m[1..][i][0] >= 0.0 && (m[0][0] == 1.0 ==> m[1..][i][0] == 0.0)
  {
    hide Sum;
    ColumnNonNegative(m, n, 0);
    Leaves(m[0]);
    Leaves(ColumnOf(m, 0));
    forall i | 0 <= i < n - 1
      ensures m[1..][i][0] >= 0.0 && (m[0][0] == 1.0 ==> m[1..][i][0] == 0.0)
    {
      assert m[1..][i][0] == ColumnOf(m, 0)[i + 1];
    }
  }

  lemma FirstBalance(p: real, e: real, d: real)
    requires p == 1.0 ==> e == 0.0
    ensures Mul(1.0 - p, Mul(Share(p), e) - d) + d == Mul(p, d) + e
  {
    hide Share;
    ShareSplits(e, p);
    var se := Mul(Share(p), e);
    assert (1.0 - p) * (se - d) == se * (1.0 - p) - (1.0 - p) * d;
  }

  lemma {:induction false} DotOfNothing(u: seq<real>, v: seq<real>)
    requires |u| == |v| && forall k :: 0 <= k < |u| ==> u[k] == 0.0
    ensures Dot(u, v) == 0.0
  {
    if u != [] {
      DotOfNothing(u[1..], v[1..]);
      NoProduct(v[0]);
    }
  }

  /** The sorted pairing costs no more than any coupling of the two samples: the
      distance is the 1-Wasserstein distance of the two empirical distributions. */
  lemma {:induction false} SortedPairingBeatsCouplings(m: seq<seq<real>>, s: seq<real>, t: seq<real>)
    requires |s| == |t| && Sorted(s) && Sorted(t) && Matrix(m, |s|, |s|) && Coupling(m, |s|)
    ensures Cost(s, t) <= Transport(m, s, t)
    decreases |s|
  {
    hide Coupling, Transport, Sorted, Abs;
    if |s| == 0 {
      NothingToMove(m, s, t);
    } else {
      ReducingCostsLess(m, s, t);
      ReducedIsCoupling(m, |s|);
      TailSorted(s);
      TailSorted(t);
      SortedPairingBeatsCouplings(Reduced(m, |s|), s[1..], t[1..]);
    }
  }

  lemma NothingToMove(m: seq<seq<real>>, s: seq<real>, t: seq<real>)
    requires |s| == |t| == 0 && Matrix(m, 0, 0)
    ensures Transport(m, s, t) == 0.0
  {
  }

  /** All of the mass at position k. */
  function Unit(n: nat, k: nat): (w: seq<real>)
    ensures |w| == n
  {
    seq(n, j requires 0 <= j < n => if j == k then 1.0 else 0.0)
  }

  /** The plan that pairs point k + i with point k + i, for rows i up to the last. */
  function Diagonal(n: nat, k: nat): (m: seq<seq<real>>)
    requires k <= n
    ensures |m| == n - k && forall i :: 0 <= i < |m| ==> m[i] == Unit(n, k + i)
  {
    seq(n - k, i requires 0 <= i < n - k => Unit(n, k + i))
  }

  lemma {:induction false} DotUnit(n: nat, k: nat, v: seq<real>)
    requires k < n == |v|
    ensures Dot(Unit(n, k), v) == v[k] && Sum(Unit(n, k)) == 1.0 && NonNegative(Unit(n, k))
  {
    assert forall j :: 0 <= j < n - 1 ==> Unit(n, k)[1..][j] == if j + 1 == k then 1.0 else 0.0;
    if k == 0 {
      DotOfNothing(Unit(n, k)[1..], v[1..]);
      SumOfZeros(Unit(n, k)[1..]);
    } else {
      DotUnit(n - 1, k - 1, v[1..]);
      assert Unit(n, k)[1..] == Unit(n - 1, k - 1);
    }
  }

  lemma DiagonalColumn(n: nat, j: nat)
    requires j < n
    ensures ColumnOf(Diagonal(n, 0), j) == Unit(n, j)
  {
    forall i | 0 <= i < n
      ensures ColumnOf(Diagonal(n, 0), j)[i] == Unit(n, j)[i]
    {
      assert Diagonal(n, 0)[i] == Unit(n, 0 + i);
    }
  }

  lemma {:induction false} DiagonalCost(n: nat, k: nat, s: seq<real>, t: seq<real>)
    requires k <= n == |t| && |s| == n - k
    ensures Transport(Diagonal(n, k), s, t) == Cost(s, t[k..])
    decreases n - k
  {
    if k < n {
      DiagonalCost(n, k + 1, s[1..], t);
      DotUnit(n, k, Distances(s[0], t));
      assert Diagonal(n, k)[1..] == Diagonal(n, k + 1);
      assert t[k..][1..] == t[k + 1..];
    }
  }

  /** The bound is attained: pairing the sorted samples is a coupling of that cost. */
  lemma SortedPairingIsACoupling(s: seq<real>, t: seq<real>)
    requires |s| == |t|
    ensures Matrix(Diagonal(|s|, 0), |s|, |s|) && Coupling(Diagonal(|s|, 0), |s|)
    ensures Transport(Diagonal(|s|, 0), s, t) == Cost(s, t)
  {
    hide Unit, Sum, ColumnOf, Transport, Dot, Cost;
    var n := |s|;
    forall i | 0 <= i < n
      ensures NonNegative(Diagonal(n, 0)[i]) && Sum(Diagonal(n, 0)[i]) == 1.0
      ensures Sum(ColumnOf(Diagonal(n, 0), i)) == 1.0
    {
      DotUnit(n, i, s);
      DiagonalColumn(n, i);
    }
    DiagonalCost(n, 0, s, t);
    assert t[0..] == t;
  }

  // ----- couplings of the samples as given -----

  /** Each entry says which of the values still left comes next. */
  predicate IsCode(code: seq<nat>) {
    code == [] || (code[0] < |code| && IsCode(code[1..]))
  }

  function Reorder<T>(code: seq<nat>, s: seq<T>): (r: seq<T>)
    requires IsCode(code) && |code| == |s|
    ensures |r| == |s|
  {
    if s == [] then [] else [s[code[0]]] + Reorder(code[1..], Remove(s, code[0]))
  }

  /** Where the entry at position j comes from. */
  function Slot(code: seq<nat>, j: nat): (k: nat)
    requires IsCode(code) && j < |code|
    ensures k < |code|
  {
    if j == 0 then code[0]
    else
      var k := Slot(code[1..], j - 1);
      if k < code[0] then k else k + 1
  }

  lemma {:induction false} ReorderAt<T>(code: seq<nat>, s: seq<T>, j: nat)
    requires IsCode(code) && j < |code| == |s|
    ensures Reorder(code, s)[j] == s[Slot(code, j)]
  {
    if j > 0 {
      ReorderAt(code[1..], Remove(s, code[0]), j - 1);
    }
  }

  /** Two listings of one multiset are reorderings of each other. */
  lemma {:induction false} ReorderingExists(s: seq<real>, a: seq<real>) returns (code: seq<nat>)
    requires multiset(s) == multiset(a)
    ensures IsCode(code) && |code| == |a| && Reorder(code, a) == s
  {
    hide Reorder, IsCode, Remove;
    SameLength(s, a);
    code := [];
    if s == [] {
      NothingToReorder(a);
    } else {
      assert s[0] in multiset(a);
      var i :| 0 <= i < |a| && a[i] == s[0];
      RemoveMultiset(a, i);
      TailMultiset(s);
      var rest := ReorderingExists(s[1..], Remove(a, i));
      code := [i] + rest;
      CodeStep(i, rest, a);
      assert s == [s[0]] + s[1..];
    }
  }

  lemma NothingToReorder(a: seq<real>)
    requires a == []
    ensures IsCode([]) && Reorder([], a) == []
  {
  }

  lemma CodeStep(i: nat, rest: seq<nat>, a: seq<real>)
    requires i < |a| == |rest| + 1 && IsCode(rest)
    ensures IsCode([i] + rest) && Reorder([i] + rest, a) == [a[i]] + Reorder(rest, Remove(a, i))
  {
    assert ([i] + rest)[1..] == rest;
  }

  lemma {:induction false} SumReorder(code: seq<nat>, w: seq<real>)
    requires IsCode(code) && |code| == |w|
    ensures Sum(Reorder(code, w)) == Sum(w)
  {
    hide Remove;
    if w != [] {
      SumReorder(code[1..], Remove(w, code[0]));
      SumRemove(w, code[0]);
    }
  }

  lemma {:induction false} DotRemove(w: seq<real>, v: seq<real>, i: nat)
    requires |w| == |v| && i < |w|
    ensures Dot(w, v) == Mul(w[i], v[i]) + Dot(Remove(w, i), Remove(v, i))
  {
    hide Mul;
    if i == 0 {
      assert Remove(w, 0) == w[1..] && Remove(v, 0) == v[1..];
    } else {
      DotRemove(w[1..], v[1..], i - 1);
      assert Remove(w, i)[1..] == Remove(w[1..], i - 1);
      assert Remove(v, i)[1..] == Remove(v[1..], i - 1);
    }
  }

  lemma {:induction false} DotReorder(code: seq<nat>, w: seq<real>, v: seq<real>)
    requires IsCode(code) && |code| == |w| == |v|
    ensures Dot(Reorder(code, w), Reorder(code, v)) == Dot(w, v)
  {
    hide Remove, Mul;
    if w != [] {
      DotReorder(code[1..], Remove(w, code[0]), Remove(v, code[0]));
      DotRemove(w, v, code[0]);
    }
  }

  lemma RemoveRow(m: seq<seq<real>>, rows: nat, width: nat, i: nat)
    requires Matrix(m, rows, width) && i < rows
    ensures Matrix(Remove(m, i), rows - 1, width)
  {
    assert forall k :: 0 <= k < rows - 1 ==> Remove(m, i)[k] == m[if k < i then k else k + 1];
  }

  lemma {:induction false} TransportRemove(m: seq<seq<real>>, s: seq<real>, t: seq<real>, i: nat)
    requires Matrix(m, |s|, |t|) && i < |s|
    ensures Matrix(Remove(m, i), |s| - 1, |t|)
    ensures Transport(m, s, t) == Dot(m[i], Distances(s[i], t)) + Transport(Remove(m, i), Remove(s, i), t)
  {
    hide Dot, Distances;
    RemoveRow(m, |s|, |t|, i);
    if i == 0 {
      assert Remove(m, 0) == m[1..] && Remove(s, 0) == s[1..];
    } else {
      TransportRemove(m[1..], s[1..], t, i - 1);
      assert Remove(m, i)[1..] == Remove(m[1..], i - 1);
      assert Remove(s, i)[1..] == Remove(s[1..], i - 1);
    }
  }

  lemma {:induction false} TransportReorder(code: seq<nat>, m: seq<seq<real>>, s: seq<real>, t: seq<real>)
    requires Matrix(m, |s|, |t|) && IsCode(code) && |code| == |s|
    ensures Matrix(Reorder(code, m), |s|, |t|)
    ensures Transport(Reorder(code, m), Reorder(code, s), t) == Transport(m, s, t)
    decreases |s|
  {
    hide Dot, Distances, Remove;
    if s != [] {
      TransportRemove(m, s, t, code[0]);
      TransportReorder(code[1..], Remove(m, code[0]), Remove(s, code[0]), t);
      assert Reorder(code, m)[1..] == Reorder(code[1..], Remove(m, code[0]));
      assert Reorder(code, s)[1..] == Reorder(code[1..], Remove(s, code[0]));
    }
  }

  function ReorderColumns(code: seq<nat>, m: seq<seq<real>>): (r: seq<seq<real>>)
    requires Matrix(m, |m|, |code|) && IsCode(code)
    ensures Matrix(r, |m|, |code|)
  {
    seq(|m|, i requires 0 <= i < |m| => Reorder(code, m[i]))
  }

  lemma DistancesReorder(code: seq<nat>, x: real, t: seq<real>)
    requires IsCode(code) && |code| == |t|
    ensures Distances(x, Reorder(code, t)) == Reorder(code, Distances(x, t))
  {
    hide Reorder, IsCode, Slot, Abs;
    forall j | 0 <= j < |t|
      ensures Distances(x, Reorder(code, t))[j] == Reorder(code, Distances(x, t))[j]
    {
      ReorderAt(code, t, j);
      ReorderAt(code, Distances(x, t), j);
    }
  }

  lemma {:induction false} TransportColumns(code: seq<nat>, m: seq<seq<real>>, s: seq<real>, t: seq<real>)
    requires Matrix(m, |s|, |t|) && IsCode(code) && |code| == |t|
    ensures Transport(ReorderColumns(code, m), s, Reorder(code, t)) == Transport(m, s, t)
  {
    hide Dot, Distances, Reorder, IsCode;
    if s != [] {
      TransportColumns(code, m[1..], s[1..], t);
      DistancesReorder(code, s[0], t);
      DotReorder(code, m[0], Distances(s[0], t));
      assert ReorderColumns(code, m)[1..] == ReorderColumns(code, m[1..]);
    }
  }

  /** The same plan, with the points of both samples listed in another order. */
  function Relabel(rows: seq<nat>, columns: seq<nat>, m: seq<seq<real>>): (r: seq<seq<real>>)
    requires Matrix(m, |rows|, |columns|) && IsCode(rows) && IsCode(columns)
    ensures |r| == |rows|
  {
    Reorder(rows, ReorderColumns(columns, m))
  }

  lemma RelabelKeepsCost(rows: seq<nat>, columns: seq<nat>, m: seq<seq<real>>, s: seq<real>, t: seq<real>)
    requires Matrix(m, |s|, |t|) && IsCode(rows) && |rows| == |s| && IsCode(columns) && |columns| == |t|
    ensures Matrix(Relabel(rows, columns, m), |s|, |t|)
    ensures Transport(Relabel(rows, columns, m), Reorder(rows, s), Reorder(columns, t)) == Transport(m, s, t)
  {
    hide Transport, Reorder, IsCode;
    TransportColumns(columns, m, s, t);
    TransportReorder(rows, ReorderColumns(columns, m), s, Reorder(columns, t));
  }

  lemma RelabelAt(rows: seq<nat>, columns: seq<nat>, m: seq<seq<real>>, i: nat, j: nat)
    requires Matrix(m, |rows|, |columns|) && IsCode(rows) && IsCode(columns)
    requires i < |rows| && j < |columns|
    ensures Relabel(rows, columns, m)[i] == Reorder(columns, m[Slot(rows, i)])
    ensures Reorder(columns, m[Slot(rows, i)])[j] == m[Slot(rows, i)][Slot(columns, j)]
  {
    ReorderAt(rows, ReorderColumns(columns, m), i);
    ReorderAt(columns, m[Slot(rows, i)], j);
  }

  lemma RelabelIsCoupling(rows: seq<nat>, columns: seq<nat>, m: seq<seq<real>>, n: nat)
    requires Coupling(m, n) && IsCode(rows) && IsCode(columns) && |rows| == |columns| == n
    ensures Coupling(Relabel(rows, columns, m), n)
  {
    hide Reorder, IsCode, Sum, Slot, Relabel;
    var r := Relabel(rows, columns, m);
    forall i | 0 <= i < n
      ensures |r[i]| == n && NonNegative(r[i]) && Sum(r[i]) == 1.0
    {
      var row := m[Slot(rows, i)];
      RelabelAt(rows, columns, m, i, 0);
      SumReorder(columns, row);
      forall j | 0 <= j < n
        ensures r[i][j] >= 0.0
      {
        RelabelAt(rows, columns, m, i, j);
      }
    }
    assert Matrix(r, n, n);
    forall j | 0 <= j < n
      ensures Sum(ColumnOf(r, j)) == 1.0
    {
      RelabelColumn(rows, columns, m, n, j);
    }
  }

  lemma RelabelColumn(rows: seq<nat>, columns: seq<nat>, m: seq<seq<real>>, n: nat, j: nat)
    requires Coupling(m, n) && IsCode(rows) && IsCode(columns) && |rows| == |columns| == n && j < n
    requires Matrix(Relabel(rows, columns, m), n, n)
    ensures Sum(ColumnOf(Relabel(rows, columns, m), j)) == 1.0
  {
    hide Reorder, IsCode, Sum, Slot, Relabel;
    var r := Relabel(rows, columns, m);
    var column := ColumnOf(m, Slot(columns, j));
    forall i | 0 <= i < n
      ensures ColumnOf(r, j)[i] == Reorder(rows, column)[i]
    {
      RelabelAt(rows, columns, m, i, j);
      ReorderAt(rows, column, i);
    }
    assert ColumnOf(r, j) == Reorder(rows, column);
    SumReorder(rows, column);
  }

  /** The mean cost of a plan for the samples as given. */
  function MeanTransport(m: seq<seq<real>>, a: seq<real>, b: seq<real>): real
    requires |a| == |b| >= 1 && Matrix(m, |a|, |a|)
  {
    Transport(m, a, b) / |a| as real
  }

  lemma CouplingCostsAtLeast(m: seq<seq<real>>, a: seq<real>, b: seq<real>)
    requires |a| == |b| && Coupling(m, |a|)
    ensures Cost(Sort(a), Sort(b)) <= Transport(m, a, b)
  {
    hide Transport, Sort, Cost, IsCode, Reorder, Relabel, Sorted;
    var rows := ReorderingExists(Sort(a), a);
    var columns := ReorderingExists(Sort(b), b);
    RelabelKeepsCost(rows, columns, m, a, b);
    RelabelIsCoupling(rows, columns, m, |a|);
    SortedPairingBeatsCouplings(Relabel(rows, columns, m), Sort(a), Sort(b));
  }

  lemma CouplingAttains(a: seq<real>, b: seq<real>) returns (m: seq<seq<real>>)
    requires |a| == |b|
    ensures Coupling(m, |a|) && Transport(m, a, b) == Cost(Sort(a), Sort(b))
  {
    hide Transport, Sort, Cost, IsCode, Reorder, Relabel, Diagonal;
    var rows := ReorderingExists(a, Sort(a));
    var columns := ReorderingExists(b, Sort(b));
    SortedPairingIsACoupling(Sort(a), Sort(b));
    m := Relabel(rows, columns, Diagonal(|a|, 0));
    RelabelKeepsCost(rows, columns, Diagonal(|a|, 0), Sort(a), Sort(b));
    RelabelIsCoupling(rows, columns, Diagonal(|a|, 0), |a|);
  }

  /** No arrangement x of the first sample against an arrangement y of the second has a
      smaller total distance than the two sorted samples: pairing them is a coupling. */
  lemma SortedPairingIsOptimal(a: seq<real>, b: seq<real>, x: seq<real>, y: seq<real>)
    requires |a| == |b| == |x| == |y| && multiset(x) == multiset(a) && multiset(y) == multiset(b)
    ensures Cost(Sort(a), Sort(b)) <= Cost(x, y)
  {
    hide Transport, Sort, Cost, Sorted, Coupling, Diagonal, Matrix;
    SortedPairingIsACoupling(x, y);
    CouplingCostsAtLeast(Diagonal(|x|, 0), x, y);
    SortedIsUnique(Sort(x), Sort(a));
    SortedIsUnique(Sort(y), Sort(b));
  }

  /** The distance is the least mean absolute difference over all pairings. */
  lemma DistanceIsLeastPairing(a: seq<real>, b: seq<real>, x: seq<real>, y: seq<real>)
    requires |a| == |b| == |x| == |y| >= 1
    requires multiset(x) == multiset(a) && multiset(y) == multiset(b)
    ensures Wasserstein1d(a, b).value <= Cost(x, y) / |a| as real
    ensures Wasserstein1d(a, b).value == Cost(Sort(a), Sort(b)) / |a| as real
  {
    hide Wasserstein1d, Sort, Cost;
    EqualSizeForm(a, b);
    SortedPairingIsOptimal(a, b, x, y);
    DivideMonotone(Cost(Sort(a), Sort(b)), Cost(x, y), |a| as real);
  }

  /** The distance is the 1-Wasserstein distance of the two samples as given: the mean
      cost of some coupling of them, and at most that of every coupling. */
  lemma DistanceIsLeastTransport(a: seq<real>, b: seq<real>) returns (best: seq<seq<real>>)
    requires |a| == |b| >= 1
    ensures Coupling(best, |a|) && Wasserstein1d(a, b) == Ok(MeanTransport(best, a, b))
    ensures forall m :: Coupling(m, |a|) ==> Wasserstein1d(a, b).value <= MeanTransport(m, a, b)
  {
    hide Wasserstein1d, Sort, Cost, Transport, Sum, NonNegative;
    EqualSizeForm(a, b);
    best := CouplingAttains(a, b);
    forall m | Coupling(m, |a|)
      ensures Wasserstein1d(a, b).value <= MeanTransport(m, a, b)
    {
      CouplingCostsAtLeast(m, a, b);
      DivideMonotone(Cost(Sort(a), Sort(b)), Transport(m, a, b), |a| as real);
    }
  }

  // ----- samples of different sizes -----

  /** The samples as distributions: every value has the same share of either. */
  ghost predicate SameDistribution(a: seq<real>, b: seq<real>) {
    forall x :: multiset(a)[x] * |b| == multiset(b)[x] * |a|
  }

  /** On samples of these sizes the distance separates distributions. */
  ghost predicate SeparatesSizes(m: nat, n: nat) {
    forall a, b ::
      |a| == m && |b| == n ==> (Wasserstein1d(a, b) == Ok(0.0) <==> SameDistribution(a, b))
  }

  lemma CancelSize(j: nat, k: nat, n: nat)
    requires n >= 1
    ensures j * n == k * n <==> j == k
  {
    Multiple(j - k, n);
    assert (j - k) * n == j * n - k * n;
  }

  lemma SameSizeSeparates(a: seq<real>, b: seq<real>)
    requires |a| == |b| >= 1
    ensures Wasserstein1d(a, b) == Ok(0.0) <==> SameDistribution(a, b)
  {
    hide Wasserstein1d, Sort, Cost;
    EqualSizeForm(a, b);
    ZeroIffSameSample(a, b);
    if SameDistribution(a, b) {
      forall x
        ensures multiset(a)[x] == multiset(b)[x]
      {
        CancelSize(multiset(a)[x], multiset(b)[x], |a|);
      }
      assert multiset(a) == multiset(b);
    }
  }

  function Repeat(x: real, n: nat): (r: seq<real>)
    ensures |r| == n && Sorted(r)
  {
    seq(n, _ => x)
  }

  lemma {:induction false} CountRepeat(x: real, n: nat)
    ensures multiset(Repeat(x, n))[x] == n
    ensures forall y :: y != x ==> multiset(Repeat(x, n))[y] == 0
  {
    if n > 0 {
      CountRepeat(x, n - 1);
      assert Repeat(x, n) == Repeat(x, n - 1) + [x];
    }
  }

  /** A sample whose n entries are all x is the only one that holds x n times. */
  lemma {:induction false} AllTheSame(b: seq<real>, x: real)
    ensures multiset(b)[x] <= |b|
    ensures multiset(b)[x] == |b| <==> b == Repeat(x, |b|)
  {
    if b == [] {
      assert b == Repeat(x, 0);
    } else {
      AllTheSame(b[1..], x);
      assert b == [b[0]] + b[1..];
      assert Repeat(x, |b|) == [x] + Repeat(x, |b| - 1);
    }
  }

  lemma OneValueForm(x: real, b: seq<real>)
    requires |b| >= 1
    ensures Wasserstein1d([x], b) == Ok(Cost(Repeat(x, |b|), Sort(b)) / |b| as real)
  {
    hide Cost, Sort;
    SortedIsUnique(Sort([x]), [x]);
    assert Resample([x], |b|) == Repeat(x, |b|);
    ResampleSameSize(Sort(b));
  }

  lemma OneValueDistribution(x: real, b: seq<real>)
    requires |b| >= 1
    ensures SameDistribution([x], b) <==> b == Repeat(x, |b|)
  {
    AllTheSame(b, x);
    assert multiset([x])[x] == 1 && forall y :: y != x ==> multiset([x])[y] == 0;
    CountRepeat(x, |b|);
    if b != Repeat(x, |b|) {
      assert multiset([x])[x] * |b| != multiset(b)[x] * |[x]|;
    }
  }

  /** Against a single value the distance is zero only for copies of it. */
  lemma OneValueSeparates(x: real, b: seq<real>)
    requires |b| >= 1
    ensures Wasserstein1d([x], b) == Ok(0.0) <==> SameDistribution([x], b)
  {
    hide Wasserstein1d, SameDistribution, Sort, Cost, Repeat;
    var n, copies := |b|, Repeat(x, |b|);
    OneValueForm(x, b);
    OneValueDistribution(x, b);
    AllTheSame(b, x);
    AllTheSame(copies, x);
    CountRepeat(x, n);
    var c := Cost(copies, Sort(b));
    CostLaws(copies, Sort(b), copies);
    assert (c / n as real) * n as real == c;
    if b == copies {
      SortedIsUnique(Sort(b), copies);
    }
  }

  /** m - 1 zeros and a one. */
  function Spike(m: nat): (a: seq<real>)
    requires m >= 2
    ensures |a| == m && Sorted(a)
  {
    Repeat(0.0, m - 1) + [1.0]
  }

  function Position(m: nat, i: nat): nat
    requires m >= 1
  {
    i * (m - 1)
  }

  function Fraction(r: nat, d: nat): real
    requires d >= 1
  {
    r as real / d as real
  }

  /** What interpolating a spike gives at the place j of n, a fraction f further on. */
  lemma SpikeAt(m: nat, n: nat, i: nat, j: nat, f: real)
    requires 2 <= m <= n && i < n
    requires j == Position(m, i) / (n - 1) && f == Fraction(Position(m, i) % (n - 1), n - 1)
    ensures At(Spike(m), n, i) == if j >= m - 1 then 1.0 else if j == m - 2 then f else 0.0
  {
    var a := Spike(m);
    if j < m - 1 {
      assert At(a, n, i) == a[j] + f * (a[j + 1] - a[j]);
      assert a[j] == 0.0 && a[j + 1] == if j == m - 2 then 1.0 else 0.0;
      assert f * 1.0 == f && f * 0.0 == 0.0;
    } else {
      assert At(a, n, i) == a[m - 1] == 1.0;
    }
  }

  lemma FractionGrows(q: nat, r: nat, d: nat)
    requires q <= r < d
    ensures 0.0 <= Fraction(q, d) <= Fraction(r, d) < 1.0
  {
    DivideMonotone(0.0, q as real, d as real);
    DivideMonotone(q as real, r as real, d as real);
    assert (r as real / d as real) * d as real == r as real;
  }

  lemma PositionBelow(m: nat, i: nat, k: nat)
    requires m >= 1 && i <= k
    ensures Position(m, i) <= Position(m, k)
    ensures m >= 2 && i < k ==> Position(m, i) < Position(m, k)
  {
    Multiple(k - i, m - 1);
    assert (k - i) * (m - 1) == k * (m - 1) - i * (m - 1);
  }

  lemma LastPosition(m: nat, d: nat)
    requires m >= 1 && d >= 1
    ensures Position(m, d) == (m - 1) * d
    ensures Position(m, d) / d == m - 1
  {
    DivideBack(m - 1, d);
  }

  lemma SpikeRange(m: nat, n: nat, i: nat)
    requires 2 <= m <= n && i < n
    ensures 0.0 <= At(Spike(m), n, i) <= 1.0
    ensures At(Spike(m), n, i) == 1.0 <==> i == n - 1
  {
    hide At, Spike, Position, Fraction;
    var d, p := n - 1, Position(m, i);
    SpikeAt(m, n, i, p / d, Fraction(p % d, d));
    LastPosition(m, d);
    FractionGrows(p % d, p % d, d);
    if i < d {
      PositionBelow(m, i, d);
      QuotientBelow(p, m - 1, d);
    }
  }

  lemma SpikeGrows(m: nat, n: nat, i: nat, k: nat)
    requires 2 <= m <= n && i < k < n
    ensures At(Spike(m), n, i) <= At(Spike(m), n, k)
  {
    hide At, Spike, Position, Fraction;
    var d, p, q := n - 1, Position(m, i), Position(m, k);
    SpikeRange(m, n, i);
    SpikeRange(m, n, k);
    var f, g := Fraction(p % d, d), Fraction(q % d, d);
    SpikeAt(m, n, i, p / d, f);
    SpikeAt(m, n, k, q / d, g);
    PositionBelow(m, i, k);
    QuotientGrows(p, q, d);
    if p / d == q / d {
      FractionGrows(p % d, q % d, d);
    }
  }

  lemma QuotientBelow(q: nat, c: nat, d: nat)
    requires d >= 1 && q < c * d
    ensures q / d < c
  {
    Multiple(q / d - c, d);
    assert (q / d - c) * d == q / d * d - c * d;
  }

  lemma QuotientGrows(p: nat, q: nat, d: nat)
    requires d >= 1 && p <= q
    ensures p / d <= q / d
    ensures p / d == q / d ==> p % d <= q % d
  {
    Multiple(p / d - q / d, d);
    assert (p / d - q / d) * d == p / d * d - q / d * d;
  }

  lemma StretchedSpike(m: nat, n: nat)
    requires 2 <= m <= n
    ensures Sorted(Resample(Spike(m), n))
    ensures multiset(Resample(Spike(m), n))[1.0] == 1
  {
    hide At, Spike;
    var b := Resample(Spike(m), n);
    forall i, k | 0 <= i < k < n
      ensures b[i] <= b[k]
    {
      SpikeGrows(m, n, i, k);
    }
    forall i | 0 <= i < n
      ensures b[i] == 1.0 <==> i == n - 1
    {
      SpikeRange(m, n, i);
    }
    assert b == b[..n - 1] + [1.0] && 1.0 !in b[..n - 1];
  }

  /** A spike and its own interpolation: different distributions at distance zero. */
  lemma SpikeIsMissed(m: nat, n: nat)
    requires 2 <= m < n
    ensures Wasserstein1d(Spike(m), Resample(Spike(m), n)) == Ok(0.0)
    ensures !SameDistribution(Spike(m), Resample(Spike(m), n))
  {
    hide Resample, Sort, Cost, Repeat;
    var a, b := Spike(m), Resample(Spike(m), n);
    StretchedSpike(m, n);
    SortedIsUnique(Sort(a), a);
    SortedIsUnique(Sort(b), b);
    ResampleSameSize(b);
    CostLaws(b, b, b);
    CountRepeat(0.0, m - 1);
    assert multiset(a)[1.0] == 1;
    assert multiset(a)[1.0] * n != multiset(b)[1.0] * m;
  }

  /** Exactly when zero distance means the same distribution: for sizes that agree, or
      a sample of a single value. */
  lemma SeparatesSizesExactlyWhen(m: nat, n: nat)
    requires m >= 1 && n >= 1
    ensures SeparatesSizes(m, n) <==> m == n || m == 1 || n == 1
  {
    hide Wasserstein1d, SameDistribution, Resample, Spike;
    forall a: seq<real>, b: seq<real> | |a| == m && |b| == n && (m == n || m == 1 || n == 1)
      ensures Wasserstein1d(a, b) == Ok(0.0) <==> SameDistribution(a, b)
    {
      if m == n {
        SameSizeSeparates(a, b);
      } else if m == 1 {
        assert a == [a[0]];
        OneValueSeparates(a[0], b);
      } else {
        assert b == [b[0]];
        OneValueSeparates(b[0], a);
        Symmetric(a, b);
        SameDistributionTurns(a, b);
      }
    }
    if 2 <= m < n {
      SpikeIsMissed(m, n);
      assert |Spike(m)| == m && |Resample(Spike(m), n)| == n;
    } else if 2 <= n < m {
      SpikeIsMissed(n, m);
      assert |Spike(n)| == n && |Resample(Spike(n), m)| == m;
      Symmetric(Spike(n), Resample(Spike(n), m));
      SameDistributionTurns(Spike(n), Resample(Spike(n), m));
    }
  }

  lemma SameDistributionTurns(a: seq<real>, b: seq<real>)
    ensures SameDistribution(a, b) <==> SameDistribution(b, a)
  {
  }
}
