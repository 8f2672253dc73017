/** The circular block bootstrap of src/neuralmarket/baselines/bootstrap.py, with
    the drawn block starts as an input. */
module Bootstrap {
  import opened Common

  datatype Invalid = BadPopulation | BadDimensions | BadBlockLength

  /** -(-horizon // L): Python's floor division rounds towards minus infinity,
      and so does Dafny's for a positive divisor. */
  function BlockCount(horizon: int, L: int): int
    requires L >= 1
  {
    -((-horizon) / L)
  }

  lemma BlocksCover(horizon: int, L: int)
    requires horizon >= 1 && L >= 1
    ensures BlockCount(horizon, L) >= 1
    ensures (BlockCount(horizon, L) - 1) * L < horizon <= BlockCount(horizon, L) * L
  {
    var q, r := (-horizon) / L, (-horizon) % L;
    assert -horizon == q * L + r;
    assert (-q) * L == -(q * L);
    assert (-q - 1) * L == (-q) * L - L;
    NonNegativeProduct(q, L);
  }

  lemma NonNegativeProduct(q: int, L: int)
    requires L >= 0
    ensures q >= 0 ==> q * L >= 0
  {
  }

  /** The L values from start s, wrapping around the end of the population. */
  function Block(pop: seq<real>, s: nat, L: nat): (b: seq<real>)
    requires |pop| >= 1
    ensures |b| == L
  {
    seq(L, o requires 0 <= o < L => pop[(s + o) % |pop|])
  }

  function Blocks(pop: seq<real>, starts: seq<nat>, L: nat): (m: seq<seq<real>>)
    requires |pop| >= 1
    ensures |m| == |starts| && forall b :: 0 <= b < |m| ==> m[b] == Block(pop, starts[b], L)
  {
    seq(|starts|, b requires 0 <= b < |starts| => Block(pop, starts[b], L))
  }

  /** The blocks end to end, before truncation. */
  function Drawn(pop: seq<real>, starts: seq<nat>, L: nat): (d: seq<real>)
    requires |pop| >= 1
    ensures |d| == |starts| * L
  {
    ConcatLength(Blocks(pop, starts, L), L);
    Concat(Blocks(pop, starts, L))
  }

  function SamplePath(pop: seq<real>, starts: seq<nat>, L: nat, horizon: nat): (p: seq<real>)
    requires |pop| >= 1 && horizon <= |starts| * L
    ensures |p| == horizon
  {
    Drawn(pop, starts, L)[..horizon]
  }

  lemma DivModBounds(k: nat, L: nat, m: nat)
    requires L >= 1 && k < m * L
    ensures k / L < m && k % L < L && (k / L) * L + k % L == k
  {
    var q, r := k / L, k % L;
    assert k == q * L + r;
    if q >= m {
      assert (q - m) * L == q * L - m * L;
      NonNegativeProduct(q - m, L);
    }
  }

  /** Position k holds the observation k % L steps after the start of block k / L. */
  lemma PathPosition(pop: seq<real>, starts: seq<nat>, L: nat, horizon: nat, k: nat)
    requires |pop| >= 1 && L >= 1 && k < horizon <= |starts| * L
    ensures k / L < |starts|
    ensures SamplePath(pop, starts, L, horizon)[k] == pop[(starts[k / L] + k % L) % |pop|]
  {
    DivModBounds(k, L, |starts|);
    ConcatIndex(Blocks(pop, starts, L), L, k / L, k % L);
  }

  /** x is the observation k % L places after the start of block k / L, around the end
      of the population. */
  predicate IsDrawn(pop: seq<real>, starts: seq<nat>, L: nat, k: nat, x: real) {
    && |pop| >= 1 && L >= 1 && k / L < |starts|
    && x == pop[(starts[k / L] + k % L) % |pop|]
  }

  lemma PathsAreDrawn(pop: seq<real>, starts: seq<seq<nat>>, L: nat, horizon: nat)
    requires |pop| >= 1 && L >= 1 && forall p :: 0 <= p < |starts| ==> horizon <= |starts[p]| * L
    ensures forall p, k :: 0 <= p < |starts| && 0 <= k < horizon ==>
              IsDrawn(pop, starts[p], L, k, SamplePath(pop, starts[p], L, horizon)[k])
  {
    forall p, k | 0 <= p < |starts| && 0 <= k < horizon
      ensures IsDrawn(pop, starts[p], L, k, SamplePath(pop, starts[p], L, horizon)[k])
    {
      PathPosition(pop, starts[p], L, horizon, k);
    }
  }

  function SampleBlockBootstrap(pop: seq<real>, starts: seq<seq<nat>>, nPaths: int, horizon: int, L: int)
    : (r: Result<seq<seq<real>>, Invalid>)
    requires |starts| == nPaths || nPaths < 1
    requires horizon >= 1 && L >= 1 ==> forall p :: 0 <= p < |starts| ==> |starts[p]| == BlockCount(horizon, L)
    ensures r.Err? <==> |pop| < 2 || nPaths < 1 || horizon < 1 || L < 1 || L > |pop|
    ensures r.Ok? ==> |r.value| == nPaths && forall p :: 0 <= p < nPaths ==> |r.value[p]| == horizon
    ensures r.Ok? ==> forall p, k :: 0 <= p < nPaths && 0 <= k < horizon ==> IsDrawn(pop, starts[p], L, k, r.value[p][k])
  {
    if |pop| < 2 then Err(BadPopulation)
    else if nPaths < 1 || horizon < 1 then Err(BadDimensions)
    else if L < 1 || L > |pop| then Err(BadBlockLength)
    else
      BlocksCover(horizon, L);
      PathsAreDrawn(pop, starts, L, horizon);
      Ok(seq(nPaths, p requires 0 <= p < nPaths => SamplePath(pop, starts[p], L, horizon)))
  }

  /** Inside a block, successive values are circular neighbours. */
  lemma BlockNeighbours(n: nat, starts: seq<nat>, L: nat, k: nat)
    requires n >= 1 && L >= 1 && (k + 1) % L != 0 && (k + 1) / L < |starts|
    ensures (k + 1) / L == k / L
    ensures (starts[(k + 1) / L] + (k + 1) % L) % n == ((starts[k / L] + k % L) % n + 1) % n
  {
    var q, r := k / L, k % L;
    assert k + 1 == q * L + (r + 1);
    NextQuotient(k + 1, q, r + 1, L);
    SuccessorModulo(starts[q] + r, n);
  }

  lemma NextQuotient(x: nat, q: nat, r: nat, L: nat)
    requires L >= 1 && x == q * L + r && r <= L && x % L != 0
    ensures x / L == q && x % L == r
  {
    var p, s := x / L, x % L;
    assert x == p * L + s;
    assert (p - q) * L == p * L - q * L;
    Multiple(p - q, L);
  }

  lemma SuccessorModulo(x: nat, n: nat)
    requires n >= 1
    ensures (x + 1) % n == (x % n + 1) % n
  {
    var q, r := x / n, x % n;
    assert x + 1 == q * n + (r + 1);
    var p, s := (x + 1) / n, (x + 1) % n;
    assert x + 1 == p * n + s;
    assert (p - q) * n == p * n - q * n;
    Multiple(p - q, n);
    Multiple(p - q - 1, n);
    assert (p - q - 1) * n == (p - q) * n - n;
  }

  // ----- every observation is equally represented -----

  /** The value at offset o, for every start. */
  function Rotation(pop: seq<real>, o: nat): (r: seq<real>)
    requires |pop| >= 1
    ensures |r| == |pop|
  {
    seq(|pop|, s requires 0 <= s < |pop| => pop[(s + o) % |pop|])
  }

  lemma RotationOfZero(pop: seq<real>)
    requires |pop| >= 1
    ensures Rotation(pop, 0) == pop
  {
  }

  /** Moving the offset by one turns the sequence by one place. */
  lemma RotationStep(pop: seq<real>, o: nat)
    requires |pop| >= 1
    ensures Rotation(pop, o + 1) == Rotation(pop, o)[1..] + [Rotation(pop, o)[0]]
  {
    var n := |pop|;
    forall s | 0 <= s < n
      ensures Rotation(pop, o + 1)[s] == (Rotation(pop, o)[1..] + [Rotation(pop, o)[0]])[s]
    {
      if s == n - 1 {
        WrapModulo(o, n);
        assert s + (o + 1) == o + n;
      } else {
        assert s + (o + 1) == (s + 1) + o;
      }
    }
  }

  lemma WrapModulo(x: nat, n: nat)
    requires n >= 1
    ensures (x + n) % n == x % n
  {
    var q, r, p, s := x / n, x % n, (x + n) / n, (x + n) % n;
    assert x == q * n + r && x + n == p * n + s;
    assert (p - q - 1) * n == p * n - q * n - n;
    Multiple(p - q - 1, n);
  }

  /** As the start ranges over the population, each offset visits every
      observation exactly once. */
  lemma {:induction false} RotationVisitsEachOnce(pop: seq<real>, o: nat)
    requires |pop| >= 1
    ensures multiset(Rotation(pop, o)) == multiset(pop)
    ensures Sum(Rotation(pop, o)) == Sum(pop)
  {
    hide Rotation, Sum;
    if o == 0 {
      RotationOfZero(pop);
    } else {
      RotationVisitsEachOnce(pop, o - 1);
      RotationStep(pop, o - 1);
      TurnKeepsAll(Rotation(pop, o - 1));
    }
  }

  lemma TurnKeepsAll(r: seq<real>)
    requires r != []
    ensures multiset(r[1..] + [r[0]]) == multiset(r) && Sum(r[1..] + [r[0]]) == Sum(r)
  {
    assert r == [r[0]] + r[1..];
    SumSnoc(r[1..], r[0]);
  }

  /** Position by position, the sampled path is unbiased: averaging position k
      over the start of its block gives the population average. */
  lemma PositionIsUnbiased(pop: seq<real>, starts: seq<nat>, L: nat, horizon: nat, k: nat)
    requires |pop| >= 1 && L >= 1 && k < horizon <= |starts| * L
    ensures k / L < |starts|
    ensures
      var values := seq(|pop|, s requires 0 <= s < |pop| => SamplePath(pop, starts[k / L := s], L, horizon)[k]);
      multiset(values) == multiset(pop) && Sum(values) == Sum(pop)
  {
    DivModBounds(k, L, |starts|);
    var values := seq(|pop|, s requires 0 <= s < |pop| => SamplePath(pop, starts[k / L := s], L, horizon)[k]);
    forall s | 0 <= s < |pop|
      ensures values[s] == Rotation(pop, k % L)[s]
    {
      PathPosition(pop, starts[k / L := s], L, horizon, k);
    }
    assert values == Rotation(pop, k % L);
    RotationVisitsEachOnce(pop, k % L);
  }

  // ----- the terminal return over all draws -----

  /** The terminal returns of all paths whose first blocks start at prefix,
      summed over every choice of the remaining starts. */
  function TotalOverDraws(pop: seq<real>, prefix: seq<nat>, remaining: nat, L: nat, horizon: nat): real
    requires |pop| >= 1 && horizon <= (|prefix| + remaining) * L
    decreases remaining
  {
    if remaining == 0 then Sum(SamplePath(pop, prefix, L, horizon))
    else Sum(seq(|pop|, s requires 0 <= s < |pop| => TotalOverDraws(pop, prefix + [s], remaining - 1, L, horizon)))
  }

  function Power(n: nat, e: nat): nat {
    if e == 0 then 1 else n * Power(n, e - 1)
  }

  lemma DrawnSnoc(pop: seq<real>, starts: seq<nat>, s: nat, L: nat)
    requires |pop| >= 1
    ensures Drawn(pop, starts + [s], L) == Drawn(pop, starts, L) + Block(pop, s, L)
  {
    assert Blocks(pop, starts + [s], L) == Blocks(pop, starts, L) + [Block(pop, s, L)];
    ConcatSnoc(Blocks(pop, starts, L), Block(pop, s, L));
  }

  lemma {:induction false} ConcatSnoc<T>(m: seq<seq<T>>, row: seq<T>)
    ensures Concat(m + [row]) == Concat(m) + row
  {
    if m == [] {
      assert m + [row] == [row] && [row][1..] == [];
    } else {
      ConcatSnoc(m[1..], row);
      assert (m + [row])[1..] == m[1..] + [row];
    }
  }

  /** The sum of the first c values of the block at every start. */
  function BlockSums(pop: seq<real>, L: nat, c: nat): (b: seq<real>)
    requires |pop| >= 1 && c <= L
    ensures |b| == |pop| && forall s :: 0 <= s < |b| ==> b[s] == Sum(Block(pop, s, L)[..c])
  {
    seq(|pop|, s requires 0 <= s < |pop| => Sum(Block(pop, s, L)[..c]))
  }

  lemma {:induction false} BlockSumsTotal(pop: seq<real>, L: nat, c: nat)
    requires |pop| >= 1 && c <= L
    ensures Sum(BlockSums(pop, L, c)) == Mul(c as real, Sum(pop))
  {
    if c == 0 {
      SumOfZeros(BlockSums(pop, L, 0));
    } else {
      BlockSumsTotal(pop, L, c - 1);
      forall s | 0 <= s < |pop|
        ensures BlockSums(pop, L, c)[s] == BlockSums(pop, L, c - 1)[s] + Rotation(pop, c - 1)[s]
      {
        SumPrefix(Block(pop, s, L), c - 1);
      }
      SumPointwise(BlockSums(pop, L, c - 1), Rotation(pop, c - 1), BlockSums(pop, L, c));
      RotationVisitsEachOnce(pop, c - 1);
      OneMore(c - 1, Sum(pop));
    }
  }

  lemma OneMore(c: nat, x: real)
    ensures Mul(c as real, x) + x == Mul((c + 1) as real, x)
  {
  }

  /** How many of the horizon's positions are already fixed by m blocks. */
  function FixedCount(m: nat, L: nat, horizon: nat): nat {
    if m * L < horizon then m * L else horizon
  }

  lemma NothingTimes(p: real, q: real)
    ensures Mul(0.0, p) + Mul(q, 0.0) == 0.0
  {
  }

  lemma {:induction false} AffineSum(b: seq<real>, u: seq<real>, p: real, q: real)
    requires |u| == |b| && forall s :: 0 <= s < |b| ==> u[s] == p + Mul(q, b[s])
    ensures Sum(u) == Mul(|b| as real, p) + Mul(q, Sum(b))
  {
    hide Mul;
    if b == [] {
      NothingTimes(p, q);
    } else {
      AffineSum(b[1..], u[1..], p, q);
      OneMore(|b| - 1, p);
      MulAdds(q, b[0], Sum(b[1..]));
    }
  }

  /** p * (n * fixed + rest) */
  function Weighted(p: real, n: real, fixed: real, rest: real): real {
    p * (n * fixed + rest)
  }

  /** n times the total, in closed form: the positions fixed by the prefix count
      once per draw, every other position contributes the population sum. */
  function ClosedTotal(pop: seq<real>, prefix: seq<nat>, remaining: nat, L: nat, horizon: nat): real
    requires |pop| >= 1
  {
    var c := FixedCount(|prefix|, L, horizon);
    Weighted(Power(|pop|, remaining) as real, |pop| as real, Sum(Drawn(pop, prefix, L)[..c]),
             Mul((horizon - c) as real, Sum(pop)))
  }

  // After one more start s the closed total is StepBase + StepSlope * (sum of
  // the values that block s fixes).

  function StepBase(pop: seq<real>, prefix: seq<nat>, remaining: nat, L: nat, horizon: nat): real
    requires |pop| >= 1 && remaining >= 1
  {
    Weighted(Power(|pop|, remaining - 1) as real, |pop| as real, Sum(Drawn(pop, prefix, L)),
             Mul((horizon - FixedCount(|prefix| + 1, L, horizon)) as real, Sum(pop)))
  }

  function StepSlope(pop: seq<real>, remaining: nat): real
    requires remaining >= 1
  {
    Mul(Power(|pop|, remaining - 1) as real, |pop| as real)
  }

  /** How many positions block number m fixes. */
  function StepLength(m: nat, L: nat, horizon: nat): (len: nat)
    requires m * L <= horizon
    ensures len <= L
  {
    Spread(m, 0, L);
    FixedCount(m + 1, L, horizon) - m * L
  }

  lemma OneStart(pop: seq<real>, prefix: seq<nat>, s: nat, remaining: nat, L: nat, horizon: nat)
    requires |pop| >= 1 && s < |pop| && remaining >= 1 && |prefix| * L < horizon
    ensures ClosedTotal(pop, prefix + [s], remaining - 1, L, horizon)
         == StepBase(pop, prefix, remaining, L, horizon)
            + Mul(StepSlope(pop, remaining), BlockSums(pop, L, StepLength(|prefix|, L, horizon))[s])
  {
    hide Mul, Weighted, Sum, Power, Drawn;
    var m, c' := |prefix|, FixedCount(|prefix| + 1, L, horizon);
    Spread(m, 0, L);
    FixedAfter(pop, prefix, s, L, c');
    Expand(Power(|pop|, remaining - 1) as real, |pop| as real, Sum(Drawn(pop, prefix, L)),
           BlockSums(pop, L, c' - m * L)[s], Mul((horizon - c') as real, Sum(pop)));
  }

  lemma AllStarts(pop: seq<real>, prefix: seq<nat>, remaining: nat, L: nat, horizon: nat)
    requires |pop| >= 1 && remaining >= 1 && |prefix| * L < horizon
    ensures Mul(|pop| as real, StepBase(pop, prefix, remaining, L, horizon))
            + Mul(StepSlope(pop, remaining), Mul(StepLength(|prefix|, L, horizon) as real, Sum(pop)))
         == ClosedTotal(pop, prefix, remaining, L, horizon)
  {
    hide Mul, Weighted, Sum, Power, Drawn;
    var c, c', f := |prefix| * L, FixedCount(|prefix| + 1, L, horizon), Sum(Drawn(pop, prefix, L));
    Spread(|prefix|, 0, L);
    assert Drawn(pop, prefix, L)[..c] == Drawn(pop, prefix, L);
    CollectCounts(Power(|pop|, remaining - 1) as real, |pop| as real, f, horizon, c, c', Sum(pop));
    PowerStep(|pop|, remaining);
    assert ClosedTotal(pop, prefix, remaining, L, horizon)
        == Weighted(Power(|pop|, remaining) as real, |pop| as real, f, Mul((horizon - c) as real, Sum(pop)));
  }

  lemma CollectCounts(p: real, n: real, f: real, h: nat, c: nat, c': nat, total: real)
    requires c <= c' <= h
    ensures Mul(n, Weighted(p, n, f, Mul((h - c') as real, total))) + Mul(Mul(p, n), Mul((c' - c) as real, total))
         == Weighted(Mul(n, p), n, f, Mul((h - c) as real, total))
  {
    hide Mul, Weighted;
    Collect(p, n, f, (h - c') as real, (c' - c) as real, total);
    assert (h - c') as real + (c' - c) as real == (h - c) as real;
  }

  lemma NothingLeft(pop: seq<real>, prefix: seq<nat>, L: nat, horizon: nat)
    requires |pop| >= 1 && horizon <= |prefix| * L
    ensures Mul(|pop| as real, Sum(SamplePath(pop, prefix, L, horizon))) == ClosedTotal(pop, prefix, 0, L, horizon)
  {
    assert FixedCount(|prefix|, L, horizon) == horizon;
    assert Mul(0.0, Sum(pop)) == 0.0;
    OnlyFixed(|pop| as real, Sum(SamplePath(pop, prefix, L, horizon)));
  }

  lemma OnlyFixed(n: real, f: real)
    ensures Weighted(1.0, n, f, 0.0) == Mul(n, f)
  {
  }

  lemma {:induction false} TotalOfPrefix(pop: seq<real>, prefix: seq<nat>, remaining: nat, L: nat, horizon: nat)
    requires |pop| >= 1 && horizon <= (|prefix| + remaining) * L
    requires remaining > 0 ==> (|prefix| + remaining - 1) * L < horizon
    ensures Mul(|pop| as real, TotalOverDraws(pop, prefix, remaining, L, horizon))
         == ClosedTotal(pop, prefix, remaining, L, horizon)
    decreases remaining
  {
    hide Mul, Weighted, Sum, Power, Drawn, SamplePath, ClosedTotal, StepBase, StepSlope, StepLength, BlockSums;
    if remaining == 0 {
      NothingLeft(pop, prefix, L, horizon);
    } else {
      Spread(|prefix|, remaining - 1, L);
      var n := |pop|;
      var totals := seq(n, s requires 0 <= s < n => TotalOverDraws(pop, prefix + [s], remaining - 1, L, horizon));
      var scaled := seq(n, s requires 0 <= s < n => Mul(n as real, totals[s]));
      var sums := BlockSums(pop, L, StepLength(|prefix|, L, horizon));
      var base, slope := StepBase(pop, prefix, remaining, L, horizon), StepSlope(pop, remaining);
      forall s | 0 <= s < n
        ensures scaled[s] == base + Mul(slope, sums[s])
      {
        TotalOfPrefix(pop, prefix + [s], remaining - 1, L, horizon);
        OneStart(pop, prefix, s, remaining, L, horizon);
      }
      AffineSum(sums, scaled, base, slope);
      BlockSumsTotal(pop, L, StepLength(|prefix|, L, horizon));
      SumOfMap(totals, scaled, n as real);
      AllStarts(pop, prefix, remaining, L, horizon);
    }
  }

  lemma Spread(m: nat, k: nat, L: nat)
    ensures (m + k) * L >= m * L && (m + 1) * L == m * L + L
  {
    NonNegativeProduct(k, L);
    assert (m + k) * L == m * L + k * L;
  }

  /** What one more block fixes. */
  lemma FixedAfter(pop: seq<real>, prefix: seq<nat>, s: nat, L: nat, c': nat)
    requires |pop| >= 1 && s < |pop| && |prefix| * L <= c' <= |prefix| * L + L
    ensures |Drawn(pop, prefix + [s], L)| == |prefix| * L + L
    ensures Sum(Drawn(pop, prefix + [s], L)[..c'])
         == Sum(Drawn(pop, prefix, L)) + BlockSums(pop, L, c' - |prefix| * L)[s]
  {
    DrawnSnoc(pop, prefix, s, L);
    var d, b := Drawn(pop, prefix, L), Block(pop, s, L);
    assert (d + b)[..c'] == d + b[..c' - |d|];
    SumConcat(d, b[..c' - |d|]);
  }

  lemma Expand(p: real, n: real, f: real, b: real, g: real)
    ensures Weighted(p, n, f + b, g) == Weighted(p, n, f, g) + Mul(Mul(p, n), b)
  {
  }

  lemma Collect(p: real, n: real, f: real, free: real, len: real, total: real)
    ensures Mul(n, Weighted(p, n, f, Mul(free, total))) + Mul(Mul(p, n), Mul(len, total))
         == Weighted(Mul(n, p), n, f, Mul(free + len, total))
  {
  }

  lemma PowerStep(n: nat, e: nat)
    requires e >= 1
    ensures Power(n, e) as real == Mul(n as real, Power(n, e - 1) as real)
  {
  }

  /** Over all equally likely draws of the block starts, the mean terminal return
      of a path is the horizon times the population mean:
      n * total == n^blocks * horizon * sum. */
  lemma TerminalReturnIsUnbiased(pop: seq<real>, L: nat, horizon: nat, blocks: nat)
    requires |pop| >= 1 && L >= 1 && horizon >= 1 && blocks == BlockCount(horizon, L)
    ensures horizon <= blocks * L
    ensures Mul(|pop| as real, TotalOverDraws(pop, [], blocks, L, horizon))
         == Mul(Power(|pop|, blocks) as real, Mul(horizon as real, Sum(pop)))
  {
    BlocksCover(horizon, L);
    TotalOfPrefix(pop, [], blocks, L, horizon);
    NothingFixed(pop, blocks, L, horizon);
  }

  lemma NothingFixed(pop: seq<real>, blocks: nat, L: nat, horizon: nat)
    requires |pop| >= 1
    ensures ClosedTotal(pop, [], blocks, L, horizon)
         == Mul(Power(|pop|, blocks) as real, Mul(horizon as real, Sum(pop)))
  {
    assert FixedCount(0, L, horizon) == 0;
    assert Sum(Drawn(pop, [], L)[..0]) == 0.0;
  }
}
