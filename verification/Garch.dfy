/** The GJR-GARCH(1,1) variance filter and path sampler:
    src/neuralmarket/baselines/garch.py. */
module Garch {
  import opened Common

  datatype Parameters = Parameters(mu: real, omega: real, alpha: real, gamma: real, beta: real)

  datatype GarchError = EmptySeries | OmegaNotPositive | NegativeCoefficient | NegativeLeverage
                      | InitialNotPositive | VarianceNotPositive | BadDimensions | NonStationary

  /** The parameter checks in the order in which they are made. */
  function CheckParameters(p: Parameters): (e: Option<GarchError>)
    ensures e == None <==> Admissible(p)
  {
    if p.omega <= 0.0 then Some(OmegaNotPositive)
    else if p.alpha < 0.0 || p.beta < 0.0 then Some(NegativeCoefficient)
    else if p.alpha + p.gamma < 0.0 then Some(NegativeLeverage)
    else None
  }

  predicate Admissible(p: Parameters) {
    p.omega > 0.0 && p.alpha >= 0.0 && p.beta >= 0.0 && p.alpha + p.gamma >= 0.0
  }

  function Persistence(p: Parameters): real {
    p.alpha + 0.5 * p.gamma + p.beta
  }

  /** The variance after a residual e and a variance h. */
  function NextVariance(p: Parameters, e: real, h: real): real {
    p.omega + Mul(p.alpha + (if e < 0.0 then p.gamma else 0.0), Square(e)) + Mul(p.beta, h)
  }

  lemma NextVariancePositive(p: Parameters, e: real, h: real)
    requires Admissible(p) && h > 0.0
    ensures NextVariance(p, e, h) >= p.omega > 0.0
  {
    assert Square(e) >= 0.0 by {
      if e < 0.0 {
        assert Square(e) == Square(-e);
      }
    }
    MulNonNegative(p.alpha + (if e < 0.0 then p.gamma else 0.0), Square(e));
    MulNonNegative(p.beta, h);
  }

  /** The parameter checks ask for exactly what keeps the variance away from zero: no
      residual and no variance takes the next one below a positive omega. */
  lemma AdmissibleExactlyWhen(p: Parameters)
    ensures Admissible(p) <==> forall e, h :: h > 0.0 ==> NextVariance(p, e, h) >= p.omega > 0.0
  {
    forall e, h | Admissible(p) && h > 0.0
      ensures NextVariance(p, e, h) >= p.omega > 0.0
    {
      NextVariancePositive(p, e, h);
    }
    if forall e, h :: h > 0.0 ==> NextVariance(p, e, h) >= p.omega > 0.0 {
      assert NextVariance(p, 1.0, 1.0) >= p.omega > 0.0;
      assert NextVariance(p, 0.0, 1.0) == p.omega + p.beta;
      CoefficientsNonNegative(p, 1.0, SmallVariance(p.alpha, p.beta));
      CoefficientsNonNegative(p, -1.0, SmallVariance(p.alpha + p.gamma, p.beta));
    }
  }

  /** A variance so small that b times it does not make up for a negative a. */
  function SmallVariance(a: real, b: real): (h: real)
    ensures h > 0.0
    ensures a < 0.0 && b >= 0.0 ==> a + Mul(b, h) < 0.0
  {
    if a < 0.0 && b > 0.0 then
      assert b * (-a / (2.0 * b)) == -a / 2.0;
      -a / (2.0 * b)
    else 1.0
  }

  lemma CoefficientsNonNegative(p: Parameters, e: real, h: real)
    requires (e == 1.0 || e == -1.0) && NextVariance(p, e, h) >= p.omega
    ensures p.alpha + (if e < 0.0 then p.gamma else 0.0) + Mul(p.beta, h) >= 0.0
  {
    assert Square(e) == 1.0;
  }

  /** The recursion as written: omega, alpha times the squared residual, gamma on top of
      alpha exactly for a return below the mean, and beta times the variance before. */
  predicate Recursive(p: Parameters, x: real, h: real, next: real) {
    next == p.omega + (if x < p.mu then p.alpha + p.gamma else p.alpha) * (x - p.mu) * (x - p.mu) + p.beta * h
  }

  lemma NextIsRecursive(p: Parameters, x: real, e: real, h: real)
    requires e == x - p.mu
    ensures Recursive(p, x, h, NextVariance(p, e, h))
  {
  }

  /** The variances of a series, each from the one before. */
  ghost predicate Filtered(p: Parameters, series: seq<real>, hs: seq<real>) {
    |hs| == |series| && forall t :: 1 <= t < |series| ==> Recursive(p, series[t - 1], hs[t - 1], hs[t])
  }

  function Power(b: real, k: nat): real {
    if k == 0 then 1.0 else Mul(b, Power(b, k - 1))
  }

  /** Series that agree but for day t: a loss of x against a gain of x. */
  ghost predicate Mirrored(p: Parameters, loss: seq<real>, gain: seq<real>, t: nat, x: real) {
    && t < |loss| == |gain| && x > 0.0
    && loss[t] == p.mu - x && gain[t] == p.mu + x
    && forall k :: 0 <= k < |loss| && k != t ==> loss[k] == gain[k]
  }

  /** The leverage effect: a loss and a gain of the same size leave next variances that
      are gamma * x^2 apart, the loss above for a positive gamma, and the gap then decays
      by beta a day. */
  lemma {:induction false} LeverageLaw(p: Parameters, loss: seq<real>, gain: seq<real>, t: nat, x: real,
                                       hl: seq<real>, hg: seq<real>, n: nat)
    requires Mirrored(p, loss, gain, t, x) && n < |loss|
    requires Filtered(p, loss, hl) && Filtered(p, gain, hg) && hl[0] == hg[0]
    ensures n <= t ==> hl[n] == hg[n]
    ensures n > t ==> hl[n] - hg[n] == Mul(Power(p.beta, n - t - 1), Mul(p.gamma, Square(x)))
  {
    hide Mul, Square, Power, Recursive;
    if n > 0 {
      LeverageLaw(p, loss, gain, t, x, hl, hg, n - 1);
      assert Recursive(p, loss[n - 1], hl[n - 1], hl[n]) && Recursive(p, gain[n - 1], hg[n - 1], hg[n]);
      if n - 1 == t {
        OppositeResiduals(p, x, hl[t], hl[n], hg[n]);
      } else {
        SameResidual(p, loss[n - 1], hl[n - 1], hg[n - 1], hl[n], hg[n]);
        if n - 1 > t {
          PowerStep(p.beta, n - t - 2, Mul(p.gamma, Square(x)));
        } else {
          NoProduct(p.beta);
        }
      }
    }
  }

  lemma OppositeResiduals(p: Parameters, x: real, h: real, below: real, above: real)
    requires x > 0.0 && Recursive(p, p.mu - x, h, below) && Recursive(p, p.mu + x, h, above)
    ensures below - above == Mul(Power(p.beta, 0), Mul(p.gamma, Square(x)))
  {
    assert below == p.omega + (p.alpha + p.gamma) * (x * x) + p.beta * h;
    assert above == p.omega + p.alpha * (x * x) + p.beta * h;
  }

  lemma SameResidual(p: Parameters, x: real, h: real, h': real, next: real, next': real)
    requires Recursive(p, x, h, next) && Recursive(p, x, h', next')
    ensures next - next' == Mul(p.beta, h - h')
  {
    assert next - next' == p.beta * h - p.beta * h';
  }

  lemma PowerStep(b: real, k: nat, y: real)
    ensures Mul(b, Mul(Power(b, k), y)) == Mul(Power(b, k + 1), y)
  {
    assert b * (Power(b, k) * y) == b * Power(b, k) * y;
  }

  // ----- the filter -----

  /** The variance at time t of a series of residuals. */
  function VarianceAt(p: Parameters, h1: real, residuals: seq<real>, t: nat): real
    requires t < |residuals|
  {
    if t == 0 then h1 else NextVariance(p, residuals[t - 1], VarianceAt(p, h1, residuals, t - 1))
  }

  function Residuals(p: Parameters, series: seq<real>): (e: seq<real>)
    ensures |e| == |series|
  {
    seq(|series|, t requires 0 <= t < |series| => series[t] - p.mu)
  }

  lemma {:induction false} VariancePositive(p: Parameters, h1: real, residuals: seq<real>, t: nat)
    requires Admissible(p) && h1 > 0.0 && t < |residuals|
    ensures VarianceAt(p, h1, residuals, t) > 0.0
  {
    hide NextVariance, Admissible;
    if t > 0 {
      VariancePositive(p, h1, residuals, t - 1);
      NextVariancePositive(p, residuals[t - 1], VarianceAt(p, h1, residuals, t - 1));
    }
  }

  lemma VariancesAreFiltered(p: Parameters, h1: real, series: seq<real>, hs: seq<real>)
    requires |hs| == |series| && forall t :: 0 <= t < |series| ==> hs[t] == VarianceAt(p, h1, Residuals(p, series), t)
    ensures Filtered(p, series, hs) && (series != [] ==> hs[0] == h1)
  {
    hide NextVariance, Recursive;
    forall t | 1 <= t < |series|
      ensures Recursive(p, series[t - 1], hs[t - 1], hs[t])
    {
      NextIsRecursive(p, series[t - 1], Residuals(p, series)[t - 1], hs[t - 1]);
    }
  }

  /** The filter fails on its inputs only: the check of its own output never fires. */
  method GjrGarchVariance(series: seq<real>, p: Parameters, initial: real) returns (r: Result<seq<real>, GarchError>)
    ensures r.Ok? <==> series != [] && Admissible(p) && initial > 0.0
    ensures r.Ok? ==> |r.value| == |series|
    ensures r.Ok? ==> forall t :: 0 <= t < |series| ==>
                        r.value[t] == VarianceAt(p, initial, Residuals(p, series), t) && r.value[t] > 0.0
    ensures r.Ok? ==> r.value[0] == initial && Filtered(p, series, r.value)
    ensures r != Err(VarianceNotPositive)
  {
    hide NextVariance, Admissible, Filtered;
    if series == [] {
      return Err(EmptySeries);
    }
    var bad := CheckParameters(p);
    if bad.Some? {
      return Err(bad.value);
    }
    if initial <= 0.0 {
      return Err(InitialNotPositive);
    }
    var residuals := Residuals(p, series);
    var variance := new real[|series|];
    variance[0] := initial;
    for t := 1 to |series|
      invariant forall i :: 0 <= i < t ==> variance[i] == VarianceAt(p, initial, residuals, i)
    {
      variance[t] := NextVariance(p, residuals[t - 1], variance[t - 1]);
    }
    forall t | 0 <= t < |series|
      ensures variance[t] > 0.0
    {
      VariancePositive(p, initial, residuals, t);
    }
    if exists t :: 0 <= t < |series| && variance[t] <= 0.0 {
      return Err(VarianceNotPositive);
    }
    VariancesAreFiltered(p, initial, series, variance[..]);
    return Ok(variance[..]);
  }

  // ----- the sampler -----

  /** The long-run variance, from which every simulated path starts. */
  function Unconditional(p: Parameters): real
    requires Persistence(p) < 1.0
  {
    p.omega / (1.0 - Persistence(p))
  }

  predicate Stationary(p: Parameters) {
    Admissible(p) && Persistence(p) < 1.0
  }

  /** The simulator's variance at time t for one path of shocks. */
  function SimulatedVariance(p: Parameters, root: real -> real, shocks: seq<real>, t: nat): real
    requires Persistence(p) < 1.0 && t <= |shocks|
  {
    if t == 0 then Unconditional(p)
    else
      var h := SimulatedVariance(p, root, shocks, t - 1);
      NextVariance(p, Mul(root(h), shocks[t - 1]), h)
  }

  function SimulatedReturn(p: Parameters, root: real -> real, shocks: seq<real>, t: nat): real
    requires Persistence(p) < 1.0 && t < |shocks|
  {
    p.mu + Mul(root(SimulatedVariance(p, root, shocks, t)), shocks[t])
  }

  function SimulatedPath(p: Parameters, root: real -> real, shocks: seq<real>): (path: seq<real>)
    requires Persistence(p) < 1.0
    ensures |path| == |shocks|
  {
    seq(|shocks|, t requires 0 <= t < |shocks| => SimulatedReturn(p, root, shocks, t))
  }

  /** The lower half of the stationarity check cannot fail. */
  lemma PersistenceIsNonNegative(p: Parameters)
    requires Admissible(p)
    ensures Persistence(p) >= 0.0
  {
    assert Persistence(p) == 0.5 * p.alpha + 0.5 * (p.alpha + p.gamma) + p.beta;
  }

  lemma StartsAtUnconditional(p: Parameters, root: real -> real, shocks: seq<real>)
    requires Persistence(p) < 1.0
    ensures SimulatedVariance(p, root, shocks, 0) == Unconditional(p)
  {
  }

  lemma SimulatedStep(p: Parameters, root: real -> real, shocks: seq<real>, t: nat)
    requires Persistence(p) < 1.0 && t < |shocks|
    ensures Recursive(p, SimulatedReturn(p, root, shocks, t), SimulatedVariance(p, root, shocks, t),
                      SimulatedVariance(p, root, shocks, t + 1))
  {
    hide NextVariance, Recursive;
    var h := SimulatedVariance(p, root, shocks, t);
    NextIsRecursive(p, SimulatedReturn(p, root, shocks, t), Mul(root(h), shocks[t]), h);
  }

  /** One simulated step of every path. */
  method AdvancePaths(p: Parameters, root: real -> real, shocks: seq<seq<real>>, step: nat,
                      variance: array<real>, increments: array2<real>)
    requires Persistence(p) < 1.0 && |shocks| == variance.Length == increments.Length0
    requires step < increments.Length1 && forall i :: 0 <= i < |shocks| ==> |shocks[i]| == increments.Length1
    requires forall i :: 0 <= i < |shocks| ==> variance[i] == SimulatedVariance(p, root, shocks[i], step)
    modifies variance, increments
    ensures forall i :: 0 <= i < |shocks| ==> variance[i] == SimulatedVariance(p, root, shocks[i], step + 1)
    ensures forall i :: 0 <= i < |shocks| ==> increments[i, step] == SimulatedReturn(p, root, shocks[i], step)
    ensures forall i, t :: 0 <= i < |shocks| && 0 <= t < increments.Length1 && t != step ==>
              increments[i, t] == old(increments[i, t])
    ensures forall i :: 0 <= i < |shocks| ==> Recursive(p, increments[i, step], old(variance[i]), variance[i])
  {
    hide NextVariance, Unconditional, Persistence, Mul, Recursive;
    for i := 0 to |shocks|
      invariant forall k :: 0 <= k < i ==> variance[k] == SimulatedVariance(p, root, shocks[k], step + 1)
      invariant forall k :: i <= k < |shocks| ==> variance[k] == SimulatedVariance(p, root, shocks[k], step)
      invariant forall k :: 0 <= k < i ==> increments[k, step] == SimulatedReturn(p, root, shocks[k], step)
      invariant forall k, t :: 0 <= k < |shocks| && 0 <= t < increments.Length1 && t != step ==>
                  increments[k, t] == old(increments[k, t])
    {
      var residual := Mul(root(variance[i]), shocks[i][step]);
      increments[i, step] := p.mu + residual;
      variance[i] := NextVariance(p, residual, variance[i]);
    }
    forall i | 0 <= i < |shocks|
      ensures Recursive(p, increments[i, step], old(variance[i]), variance[i])
    {
      SimulatedStep(p, root, shocks[i], step);
    }
  }

  /** All paths advance together, one step at a time, each with its own variance. */
  method SampleGjrGarch(paths: int, horizon: int, p: Parameters, root: real -> real, shocks: seq<seq<real>>)
    returns (r: Result<array2<real>, GarchError>)
    requires paths >= 1 && horizon >= 1 ==>
               |shocks| == paths && forall i :: 0 <= i < |shocks| ==> |shocks[i]| == horizon
    ensures r.Ok? <==> paths >= 1 && horizon >= 1 && Stationary(p)
    ensures r == Err(NonStationary) <==> paths >= 1 && horizon >= 1 && Admissible(p) && Persistence(p) >= 1.0
    ensures r.Ok? ==> fresh(r.value) && r.value.Length0 == paths && r.value.Length1 == horizon
    ensures r.Ok? ==> forall i, t :: 0 <= i < paths && 0 <= t < horizon ==>
                        r.value[i, t] == SimulatedPath(p, root, shocks[i])[t]
  {
    hide NextVariance, Admissible, Unconditional, Persistence, SimulatedVariance, SimulatedReturn, Mul;
    if paths < 1 || horizon < 1 {
      return Err(BadDimensions);
    }
    var bad := CheckParameters(p);
    if bad.Some? {
      return Err(bad.value);
    }
    PersistenceIsNonNegative(p);
    if !(0.0 <= Persistence(p) < 1.0) {
      return Err(NonStationary);
    }
    var variance := new real[paths](_ => Unconditional(p));
    var increments := new real[paths, horizon];
    forall i | 0 <= i < paths
      ensures SimulatedVariance(p, root, shocks[i], 0) == Unconditional(p)
    {
      StartsAtUnconditional(p, root, shocks[i]);
    }
    for step := 0 to horizon
      invariant forall i :: 0 <= i < paths ==> variance[i] == SimulatedVariance(p, root, shocks[i], step)
      invariant forall i, t :: 0 <= i < paths && 0 <= t < step ==>
                  increments[i, t] == SimulatedReturn(p, root, shocks[i], t)
    {
      AdvancePaths(p, root, shocks, step, variance, increments);
    }
    return Ok(increments);
  }

  /** What simulating means: from omega / (1 - persistence) each return is the mean plus
      the root of the variance times the shock, and each variance follows the recursion. */
  ghost predicate Simulates(p: Parameters, root: real -> real, shocks: seq<real>, path: seq<real>, hs: seq<real>) {
    && |path| == |shocks| && Filtered(p, path, hs)
    && (hs != [] ==> hs[0] * (1.0 - p.alpha - p.gamma / 2.0 - p.beta) == p.omega)
    && forall t :: 0 <= t < |shocks| ==> path[t] == p.mu + root(hs[t]) * shocks[t]
  }

  function SimulatedVariances(p: Parameters, root: real -> real, shocks: seq<real>): (hs: seq<real>)
    requires Persistence(p) < 1.0
    ensures |hs| == |shocks|
  {
    seq(|shocks|, t requires 0 <= t < |shocks| => SimulatedVariance(p, root, shocks, t))
  }

  lemma SimulatedPathSimulates(p: Parameters, root: real -> real, shocks: seq<real>)
    requires Persistence(p) < 1.0
    ensures Simulates(p, root, shocks, SimulatedPath(p, root, shocks), SimulatedVariances(p, root, shocks))
  {
    hide NextVariance, Recursive, Unconditional, Persistence;
    var path, hs := SimulatedPath(p, root, shocks), SimulatedVariances(p, root, shocks);
    forall t | 1 <= t < |shocks|
      ensures Recursive(p, path[t - 1], hs[t - 1], hs[t])
    {
      SimulatedStep(p, root, shocks, t - 1);
    }
    UnconditionalMeans(p);
  }

  lemma UnconditionalMeans(p: Parameters)
    requires Persistence(p) < 1.0
    ensures Unconditional(p) * (1.0 - p.alpha - p.gamma / 2.0 - p.beta) == p.omega
  {
    var d := 1.0 - Persistence(p);
    assert (p.omega / d) * d == p.omega;
  }

  // ----- the two together -----

  /** Filtering a simulated path with its own parameters, started from the long-run
      variance, gives back the variances the simulator used, and all are positive. */
  lemma {:induction false} FilterRecoversSimulator(p: Parameters, root: real -> real, shocks: seq<real>, t: nat)
    requires Stationary(p) && t < |shocks|
    ensures var path := SimulatedPath(p, root, shocks);
            VarianceAt(p, Unconditional(p), Residuals(p, path), t) == SimulatedVariance(p, root, shocks, t)
    ensures SimulatedVariance(p, root, shocks, t) > 0.0
  {
    hide NextVariance, Admissible, Unconditional, Mul, Persistence;
    var path := SimulatedPath(p, root, shocks);
    UnconditionalPositive(p);
    VariancePositive(p, Unconditional(p), Residuals(p, path), t);
    if t > 0 {
      FilterRecoversSimulator(p, root, shocks, t - 1);
      assert Residuals(p, path)[t - 1] == Mul(root(SimulatedVariance(p, root, shocks, t - 1)), shocks[t - 1]);
    }
  }

  lemma UnconditionalPositive(p: Parameters)
    requires Stationary(p)
    ensures Unconditional(p) > 0.0
  {
    QuotientPositive(p.omega, 1.0 - Persistence(p));
  }

  lemma QuotientPositive(x: real, d: real)
    requires x > 0.0 && d > 0.0
    ensures x / d > 0.0 && (x / d) * d == x
  {
  }

  /** Why that starting value: over a shock of unit size and either sign the next
      variance averages back to h exactly when h is the long-run variance. */
  lemma LongRunVarianceIsTheFixedPoint(p: Parameters, root: real, h: real)
    requires Stationary(p) && root > 0.0 && Square(root) == h
    ensures NextVariance(p, root, h) + NextVariance(p, -root, h) == 2.0 * h <==> h == Unconditional(p)
  {
    assert Square(-root) == h;
    var rho := Persistence(p);
    assert NextVariance(p, root, h) + NextVariance(p, -root, h) == 2.0 * (p.omega + rho * h) by {
      assert Mul(p.alpha + p.gamma, h) == p.alpha * h + p.gamma * h;
    }
    FixedPoint(p.omega, rho, h);
  }

  lemma FixedPoint(omega: real, rho: real, h: real)
    requires rho < 1.0
    ensures omega + rho * h == h <==> h == omega / (1.0 - rho)
  {
    var d := 1.0 - rho;
    assert (omega / d) * d == omega;
    assert rho * h == h - d * h;
    if omega == d * h {
      assert omega / d == h;
    }
  }
}
