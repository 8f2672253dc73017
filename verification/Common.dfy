/** Vocabulary shared by the other modules: results, sums of reals, and the
    floating-point values whose non-finite cases decide a branch somewhere. */
module Common {

  datatype Option<+T> = None | Some(value: T)

  datatype Result<+T, +E> = Ok(value: T) | Err(error: E) {
    predicate IsFailure() {
      Err?
    }

    function PropagateFailure<U>(): Result<U, E>
      requires Err?
    {
      Err(error)
    }

    function Extract(): T
      requires Ok?
    {
      value
    }
  }

  /** A float without its rounding: a real number or one of the three values that
      make a comparison behave differently. */
  datatype Float = NaN | NegInf | Fin(value: real) | PosInf

  /** x < y; false as soon as one side is NaN. */
  predicate Less(x: Float, y: Float) {
    match (x, y)
    case (Fin(a), Fin(b)) => a < b
    case (NegInf, _) => y.Fin? || y.PosInf?
    case (Fin(_), PosInf) => true
    case _ => false
  }

  /** x <= y; false as soon as one side is NaN. */
  predicate LessEq(x: Float, y: Float) {
    Less(x, y) || (x == y && x != NaN)
  }

  lemma LessIsLessEq(x: Float, y: Float)
    ensures Less(x, y) ==> LessEq(x, y)
  {
  }

  /** The position of the least score: a later one wins only by being strictly less. */
  function ArgMin(ms: seq<Float>): (b: nat)
    requires ms != []
    ensures b < |ms|
  {
    if |ms| == 1 then 0
    else
      var prior := ArgMin(ms[..|ms| - 1]);
      if Less(ms[|ms| - 1], ms[prior]) then |ms| - 1 else prior
  }

  lemma LessThrough(x: Float, y: Float, z: Float)
    ensures Less(x, y) && LessEq(y, z) ==> Less(x, z)
    ensures !Less(x, y) && y != NaN ==> x == NaN || LessEq(y, x)
    ensures LessEq(x, y) && LessEq(y, z) ==> LessEq(x, z)
    ensures Less(x, y) ==> !LessEq(y, x) && x != NaN && y != NaN
  {
  }

  /** A first score that is NaN is never beaten. Otherwise the best score is a number,
      the earliest least one once the NaN scores are passed over. */
  lemma {:induction false} ArgMinIsEarliestLeast(ms: seq<Float>, j: nat)
    requires j < |ms|
    ensures ms[0] == NaN ==> ArgMin(ms) == 0
    ensures ms[0] != NaN ==> ms[ArgMin(ms)] != NaN
    ensures ms[0] != NaN ==> ms[j] == NaN || LessEq(ms[ArgMin(ms)], ms[j])
    ensures ms[0] != NaN && j < ArgMin(ms) ==> ms[j] == NaN || Less(ms[ArgMin(ms)], ms[j])
  {
    hide Less, LessEq;
    if |ms| > 1 {
      var init, last := ms[..|ms| - 1], ms[|ms| - 1];
      ArgMinIsEarliestLeast(init, if j < |init| then j else 0);
      LessThrough(last, ms[ArgMin(init)], ms[j]);
      LessIsLessEq(last, ms[j]);
    }
    LessEqIsReflexive(ms[ArgMin(ms)]);
  }

  lemma LessEqIsReflexive(x: Float)
    ensures x != NaN ==> LessEq(x, x) && !Less(x, x)
    ensures x == NaN ==> forall y :: !Less(y, x) && !Less(x, y)
  {
  }

  function Abs(x: real): real {
    if x < 0.0 then -x else x
  }

  /** Multiplication as a named operation, so that equals may be put for equals. */
  function Mul(x: real, y: real): real {
    x * y
  }

  function Square(x: real): real {
    x * x
  }

  function Sum(s: seq<real>): real {
    if s == [] then 0.0 else s[0] + Sum(s[1..])
  }

  lemma {:induction false} SumConcat(a: seq<real>, b: seq<real>)
    ensures Sum(a + b) == Sum(a) + Sum(b)
  {
    if a == [] {
      assert a + b == b;
    } else {
      assert (a + b)[1..] == a[1..] + b;
      SumConcat(a[1..], b);
    }
  }

  lemma SumSnoc(s: seq<real>, x: real)
    ensures Sum(s + [x]) == Sum(s) + x
  {
    SumConcat(s, [x]);
  }

  /** One more element of a prefix. */
  lemma SumPrefix(s: seq<real>, n: nat)
    requires n < |s|
    ensures Sum(s[..n + 1]) == Sum(s[..n]) + s[n]
  {
    assert s[..n + 1] == s[..n] + [s[n]];
    SumSnoc(s[..n], s[n]);
  }

  lemma NoProduct(x: real)
    ensures Mul(x, 0.0) == 0.0 == Mul(0.0, x)
  {
  }

  lemma MulNonNegative(x: real, y: real)
    requires x >= 0.0 && y >= 0.0
    ensures Mul(x, y) >= 0.0
  {
  }

  lemma AddsMul(x: real, y: real, c: real)
    ensures Mul(x + y, c) == Mul(x, c) + Mul(y, c)
  {
  }

  lemma MulAdds(c: real, x: real, y: real)
    ensures Mul(c, x) + Mul(c, y) == Mul(c, x + y)
  {
  }

  lemma {:induction false} SumOfMap(a: seq<real>, b: seq<real>, c: real)
    requires |a| == |b| && forall i :: 0 <= i < |a| ==> b[i] == Mul(c, a[i])
    ensures Sum(b) == Mul(c, Sum(a))
  {
    if a != [] {
      SumOfMap(a[1..], b[1..], c);
      MulAdds(c, a[0], Sum(a[1..]));
    }
  }

  lemma {:induction false} SumOfZeros(s: seq<real>)
    requires forall i :: 0 <= i < |s| ==> s[i] == 0.0
    ensures Sum(s) == 0.0
  {
    if s != [] {
      SumOfZeros(s[1..]);
    }
  }

  lemma {:induction false} SumNonNegative(s: seq<real>)
    requires forall i :: 0 <= i < |s| ==> s[i] >= 0.0
    ensures Sum(s) >= 0.0
    ensures Sum(s) == 0.0 ==> forall i :: 0 <= i < |s| ==> s[i] == 0.0
  {
    if s != [] {
      SumNonNegative(s[1..]);
      forall i | Sum(s) == 0.0 && 0 <= i < |s|
        ensures s[i] == 0.0
      {
        if i > 0 {
          assert s[i] == s[1..][i - 1];
        }
      }
    }
  }

  lemma {:induction false} SumPointwise(a: seq<real>, b: seq<real>, c: seq<real>)
    requires |a| == |b| == |c| && forall i :: 0 <= i < |a| ==> c[i] == a[i] + b[i]
    ensures Sum(c) == Sum(a) + Sum(b)
  {
    if a != [] {
      SumPointwise(a[1..], b[1..], c[1..]);
    }
  }

  lemma {:induction false} SumMonotone(a: seq<real>, b: seq<real>)
    requires |a| == |b| && forall i :: 0 <= i < |a| ==> a[i] <= b[i]
    ensures Sum(a) <= Sum(b)
  {
    if a != [] {
      SumMonotone(a[1..], b[1..]);
    }
  }

  function Mean(xs: seq<real>): real
    requires xs != []
  {
    Sum(xs) / |xs| as real
  }

  function Deviations(xs: seq<real>, m: real): (ds: seq<real>)
    ensures |ds| == |xs|
  {
    seq(|xs|, i requires 0 <= i < |xs| => m - xs[i])
  }

  function Squares(xs: seq<real>): (ss: seq<real>)
    ensures |ss| == |xs|
  {
    seq(|xs|, i requires 0 <= i < |xs| => Square(xs[i]))
  }

  /** The variance with n - 1 in the denominator. */
  function SampleVariance(xs: seq<real>): real
    requires |xs| >= 2
  {
    Sum(Squares(Deviations(xs, Mean(xs)))) / (|xs| - 1) as real
  }

  predicate Distinct<T(==)>(s: seq<T>) {
    forall i, j :: 0 <= i < j < |s| ==> s[i] != s[j]
  }

  function Remove<T>(s: seq<T>, i: nat): (r: seq<T>)
    requires i < |s|
    ensures |r| == |s| - 1
  {
    s[..i] + s[i + 1..]
  }

  lemma SumRemove(xs: seq<real>, i: nat)
    requires i < |xs|
    ensures Sum(Remove(xs, i)) == Sum(xs) - xs[i]
  {
    assert xs == xs[..i] + xs[i..];
    assert xs[i..][0] == xs[i] && xs[i..][1..] == xs[i + 1..];
    SumConcat(xs[..i], xs[i..]);
    SumConcat(xs[..i], xs[i + 1..]);
  }

  lemma Multiple(k: int, m: nat)
    ensures k >= 1 ==> k * m >= m
    ensures k <= -1 ==> k * m + m <= 0
  {
  }

  /** The rows of a matrix one after another. */
  function Concat<T>(m: seq<seq<T>>): seq<T> {
    if m == [] then [] else m[0] + Concat(m[1..])
  }

  lemma {:induction false} ConcatLength<T>(m: seq<seq<T>>, w: nat)
    requires forall n :: 0 <= n < |m| ==> |m[n]| == w
    ensures |Concat(m)| == |m| * w
  {
    if m != [] {
      ConcatLength(m[1..], w);
      assert |m| * w == (|m| - 1) * w + w;
    }
  }

  /** Entry (i, j) of a w-column matrix is entry i*w + j of its flat row. */
  lemma {:induction false} ConcatIndex<T>(m: seq<seq<T>>, w: nat, i: nat, j: nat)
    requires (forall n :: 0 <= n < |m| ==> |m[n]| == w) && i < |m| && j < w
    ensures 0 <= i * w + j < |Concat(m)|
    ensures Concat(m)[i * w + j] == m[i][j]
  {
    if i > 0 {
      ConcatIndex(m[1..], w, i - 1, j);
      var prior := (i - 1) * w + j;
      assert i * w + j == prior + w;
      assert Concat(m)[prior + w] == Concat(m[1..])[prior];
    } else {
      assert i * w == 0;
    }
  }
}
