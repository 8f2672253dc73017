/** Early stopping and checkpoint selection of the WGAN comparator:
    src/neuralmarket/research/wgan_comparator.py. */
module EarlyStopping {
  import opened Common

  // ----- the tracker as a function of the metrics it has seen -----

  /** best is the position of the kept metric, bad the number of metrics after it. */
  datatype Tracking = Tracking(best: Option<nat>, bad: nat)

  predicate Improves(delta: real, ms: seq<real>, best: Option<nat>, m: real)
    requires best.Some? ==> best.value < |ms|
  {
    best.None? || m < ms[best.value] - delta
  }

  function Track(delta: real, ms: seq<real>): (t: Tracking)
    ensures t.best.Some? <==> ms != []
    ensures t.best.Some? ==> t.best.value + 1 + t.bad == |ms|
  {
    if ms == [] then Tracking(None, 0)
    else
      var prior := Track(delta, ms[..|ms| - 1]);
      if Improves(delta, ms[..|ms| - 1], prior.best, ms[|ms| - 1]) then Tracking(Some(|ms| - 1), 0)
      else Tracking(prior.best, prior.bad + 1)
  }

  function Kept(delta: real, ms: seq<real>): (k: nat)
    requires ms != []
    ensures k < |ms|
  {
    Track(delta, ms).best.value
  }

  /** Whatever the tolerance, nothing after the kept metric improves on it. */
  lemma {:induction false} NothingLaterImproves(delta: real, ms: seq<real>, j: nat)
    requires ms != [] && Kept(delta, ms) < j < |ms|
    ensures ms[j] >= ms[Kept(delta, ms)] - delta
  {
    var init := ms[..|ms| - 1];
    if j < |ms| - 1 {
      NothingLaterImproves(delta, init, j);
      assert init[j] == ms[j] && init[Kept(delta, init)] == ms[Kept(delta, ms)];
    }
  }

  /** With a tolerance that is not negative the kept metric is within it of every
      metric seen, so of the true minimum. */
  lemma {:induction false} KeptIsWithinTolerance(delta: real, ms: seq<real>, j: nat)
    requires delta >= 0.0 && j < |ms|
    ensures ms[Kept(delta, ms)] <= ms[j] + delta
  {
    var init := ms[..|ms| - 1];
    if init != [] && j < |init| {
      KeptIsWithinTolerance(delta, init, j);
    }
  }

  /** With no tolerance the kept metric is the earliest minimum. */
  lemma {:induction false} KeepsEarliestMinimum(ms: seq<real>, j: nat)
    requires j < |ms|
    ensures ms[Kept(0.0, ms)] <= ms[j]
    ensures j < Kept(0.0, ms) ==> ms[Kept(0.0, ms)] < ms[j]
  {
    var init := ms[..|ms| - 1];
    if init != [] && j < |init| {
      KeepsEarliestMinimum(init, j);
    }
  }

  /** Whatever is fed to it, the tracker ends on a least metric. */
  ghost predicate KeepsMinimum(delta: real) {
    forall ms: seq<real>, j: nat :: j < |ms| ==> KeptIsAtMost(delta, ms, j)
  }

  predicate KeptIsAtMost(delta: real, ms: seq<real>, j: nat)
    requires j < |ms|
  {
    ms[Kept(delta, ms)] <= ms[j]
  }

  /** A run of two metrics whose kept one is not the least: a positive tolerance ignores
      a small improvement, a negative one accepts a small loss. */
  function Misleading(delta: real): (ms: seq<real>)
    ensures |ms| == 2
  {
    if delta > 0.0 then [delta, 0.0] else [0.0, -delta / 2.0]
  }

  lemma MisleadingMisleads(delta: real)
    requires delta != 0.0
    ensures var ms := Misleading(delta); !KeptIsAtMost(delta, ms, 1 - Kept(delta, ms))
  {
    var ms := Misleading(delta);
    assert ms[..1] == [ms[0]] && [ms[0]][..0] == [];
    assert Track(delta, [ms[0]]).best == Some(0);
  }

  /** The kept metric is always the minimum exactly when the tolerance is zero. */
  lemma KeepsMinimumExactlyWhen(delta: real)
    ensures KeepsMinimum(delta) <==> delta == 0.0
  {
    if delta == 0.0 {
      forall ms: seq<real>, j: nat | j < |ms|
        ensures KeptIsAtMost(delta, ms, j)
      {
        KeepsEarliestMinimum(ms, j);
      }
    } else {
      MisleadingMisleads(delta);
    }
  }

  /** The number of epochs since the kept one has reached the patience. */
  predicate Exhausted(patience: int, delta: real, ms: seq<real>) {
    Track(delta, ms).bad >= patience
  }

  // ----- the class -----

  datatype StoppingError = NotFinite

  class EarlyStoppingState {
    const patience: int
    const minDelta: real
    var bestMetric: Option<real>
    var bestEpoch: Option<int>
    var badEpochs: int
    ghost var metrics: seq<real>
    ghost var epochs: seq<int>

    ghost predicate Valid()
      reads this
    {
      var t := Track(minDelta, metrics);
      && |epochs| == |metrics|
      && badEpochs == t.bad
      && (t.best.None? ==> bestMetric == None && bestEpoch == None)
      && (t.best.Some? ==> bestMetric == Some(metrics[t.best.value]) && bestEpoch == Some(epochs[t.best.value]))
    }

    constructor (patience: int, minDelta: real)
      ensures Valid() && metrics == [] && this.patience == patience && this.minDelta == minDelta
    {
      this.patience, this.minDelta := patience, minDelta;
      bestMetric, bestEpoch, badEpochs := None, None, 0;
      metrics, epochs := [], [];
    }

    /** A metric that is not finite is refused and leaves no trace. */
    method Consider(epoch: int, metric: Float) returns (r: Result<bool, StoppingError>)
      requires Valid()
      modifies this
      ensures Valid()
      ensures r.Err? <==> !metric.Fin?
      ensures r.Err? ==> metrics == old(metrics) && epochs == old(epochs)
      ensures r.Ok? ==> metrics == old(metrics) + [metric.value] && epochs == old(epochs) + [epoch]
      ensures r.Ok? ==> (r.value <==> Kept(minDelta, metrics) == |metrics| - 1)
      ensures r.Ok? ==> (r.value <==> old(bestMetric).None? || metric.value < old(bestMetric).value - minDelta)
      ensures r.Ok? ==> bestEpoch == if r.value then Some(epoch) else old(bestEpoch)
      ensures r.Ok? ==> bestMetric == if r.value then Some(metric.value) else old(bestMetric)
      ensures r.Ok? ==> badEpochs == if r.value then 0 else old(badEpochs) + 1
    {
      if !metric.Fin? {
        return Err(NotFinite);
      }
      var m := metric.value;
      ghost var before := metrics;
      metrics, epochs := metrics + [m], epochs + [epoch];
      assert metrics[..|metrics| - 1] == before;
      if bestMetric.None? || m < bestMetric.value - minDelta {
        bestMetric, bestEpoch, badEpochs := Some(m), Some(epoch), 0;
        return Ok(true);
      }
      badEpochs := badEpochs + 1;
      return Ok(false);
    }

    predicate ShouldStop()
      requires Valid()
      reads this
      ensures ShouldStop() <==> Exhausted(patience, minDelta, metrics)
      ensures metrics != [] ==> (ShouldStop() <==> |metrics| - 1 - Kept(minDelta, metrics) >= patience)
    {
      badEpochs >= patience
    }
  }

  // ----- select_checkpoint -----

  datatype Candidate = Candidate(identity: string, epoch: int, metric: Float)

  datatype SelectionError = NoCandidates | BadCandidate

  /** Strings by code point, a proper prefix first. */
  predicate Before(a: string, b: string) {
    b != [] && (a == [] || a[0] < b[0] || (a[0] == b[0] && Before(a[1..], b[1..])))
  }

  predicate Eligible(c: Candidate) {
    c.epoch >= 1 && c.metric.Fin?
  }

  /** The key (metric, epoch, identity) of c is smaller than that of d. */
  predicate Ahead(c: Candidate, d: Candidate) {
    || Less(c.metric, d.metric)
    || (c.metric == d.metric && (c.epoch < d.epoch || (c.epoch == d.epoch && Before(c.identity, d.identity))))
  }

  function First(cs: seq<Candidate>): Candidate
    requires cs != []
  {
    if |cs| == 1 then cs[0]
    else
      var best := First(cs[..|cs| - 1]);
      if Ahead(cs[|cs| - 1], best) then cs[|cs| - 1] else best
  }

  function SelectCheckpoint(cs: seq<Candidate>): (r: Result<Candidate, SelectionError>)
  {
    if cs == [] then Err(NoCandidates)
    else if exists k :: 0 <= k < |cs| && !Eligible(cs[k]) then Err(BadCandidate)
    else Ok(First(cs))
  }

  lemma {:induction false} BeforeIsTotal(a: string, b: string)
    ensures a == b || Before(a, b) || Before(b, a)
  {
    if a != [] && b != [] && a[0] == b[0] {
      BeforeIsTotal(a[1..], b[1..]);
      if a[1..] == b[1..] {
        assert a == [a[0]] + a[1..] && b == [b[0]] + b[1..];
      }
    }
  }

  lemma {:induction false} BeforeIsAsymmetric(a: string, b: string)
    ensures !(Before(a, b) && Before(b, a))
  {
    if a != [] && b != [] && a[0] == b[0] {
      BeforeIsAsymmetric(a[1..], b[1..]);
    }
  }

  lemma {:induction false} BeforeIsTransitive(a: string, b: string, c: string)
    requires Before(a, b) && Before(b, c)
    ensures Before(a, c)
  {
    if a != [] && a[0] == b[0] && b[0] == c[0] {
      BeforeIsTransitive(a[1..], b[1..], c[1..]);
    }
  }

  /** Nobody ahead of it: the winner of min over the keys. */
  ghost predicate Leads(c: Candidate, cs: seq<Candidate>) {
    c in cs && forall k :: 0 <= k < |cs| ==> !Ahead(cs[k], c)
  }

  lemma AheadThrough(c: Candidate, d: Candidate, e: Candidate)
    requires Eligible(c) && Eligible(d) && Eligible(e) && !Ahead(c, d) && Ahead(e, d)
    ensures !Ahead(c, e)
  {
    if Ahead(c, e) && c.metric == d.metric == e.metric && c.epoch == d.epoch == e.epoch {
      BeforeIsTransitive(c.identity, e.identity, d.identity);
    }
  }

  lemma {:induction false} FirstLeads(cs: seq<Candidate>)
    requires cs != [] && forall k :: 0 <= k < |cs| ==> Eligible(cs[k])
    ensures Leads(First(cs), cs)
  {
    if |cs| > 1 {
      var init, last := cs[..|cs| - 1], cs[|cs| - 1];
      FirstLeads(init);
      BeforeIsAsymmetric(last.identity, last.identity);
      forall k | 0 <= k < |cs|
        ensures !Ahead(cs[k], First(cs))
      {
        assert k < |init| ==> cs[k] == init[k];
        if k < |init| && Ahead(last, First(init)) {
          AheadThrough(cs[k], First(init), last);
        }
      }
    } else {
      BeforeIsAsymmetric(cs[0].identity, cs[0].identity);
    }
  }

  /** Alphabetical: at the first position where the strings differ, a has ended or has
      the smaller character. */
  lemma {:induction false} BeforeExactlyWhen(a: string, b: string) returns (k: nat)
    ensures k <= |a| && k <= |b| && a[..k] == b[..k]
    ensures k < |a| && k < |b| ==> a[k] != b[k]
    ensures Before(a, b) <==> k < |b| && (k == |a| || a[k] < b[k])
  {
    if a != [] && b != [] && a[0] == b[0] {
      k := BeforeExactlyWhen(a[1..], b[1..]);
      k := k + 1;
      assert a[..k] == [a[0]] + a[1..][..k - 1] && b[..k] == [b[0]] + b[1..][..k - 1];
    } else {
      k := 0;
    }
  }

  /** The selected checkpoint has the least metric, among those the earliest epoch, and
      among those the first identity. */
  lemma SelectsLeast(cs: seq<Candidate>, d: Candidate)
    requires SelectCheckpoint(cs).Ok? && d in cs
    ensures var c := SelectCheckpoint(cs).value;
            && c in cs && c.metric.Fin? && d.metric.Fin? && c.metric.value <= d.metric.value
            && (c.metric == d.metric ==> c.epoch <= d.epoch)
            && (c.metric == d.metric && c.epoch == d.epoch ==> c.identity == d.identity || Before(c.identity, d.identity))
  {
    FirstLeads(cs);
    var c := First(cs);
    var k :| 0 <= k < |cs| && cs[k] == d;
    assert !Ahead(d, c) && Eligible(cs[k]);
    BeforeIsTotal(c.identity, d.identity);
  }

  lemma LeaderIsUnique(c: Candidate, d: Candidate, cs: seq<Candidate>)
    requires Leads(c, cs) && Leads(d, cs) && Eligible(c) && Eligible(d)
    ensures c == d
  {
    BeforeIsTotal(c.identity, d.identity);
  }

  /** The selected checkpoint is the one nobody is ahead of, so it depends on which
      candidates there are and not on their order. */
  lemma SelectionIgnoresOrder(cs: seq<Candidate>, ds: seq<Candidate>)
    requires forall c :: c in cs <==> c in ds
    ensures SelectCheckpoint(cs).Ok? <==> SelectCheckpoint(ds).Ok?
    ensures SelectCheckpoint(cs).Ok? ==> SelectCheckpoint(cs) == SelectCheckpoint(ds)
    ensures SelectCheckpoint(cs).Ok? ==> Leads(SelectCheckpoint(cs).value, cs)
  {
    Membership(cs, ds);
    Membership(ds, cs);
    if SelectCheckpoint(cs).Ok? {
      FirstLeads(cs);
      FirstLeads(ds);
      var c, d := First(cs), First(ds);
      forall k | 0 <= k < |cs|
        ensures !Ahead(cs[k], d)
      {
        assert cs[k] in ds;
      }
      LeaderIsUnique(c, d, cs);
    }
  }

  lemma Membership(cs: seq<Candidate>, ds: seq<Candidate>)
    requires forall c :: c in cs ==> c in ds
    ensures ds == [] ==> cs == []
    ensures (forall k :: 0 <= k < |ds| ==> Eligible(ds[k])) ==> forall k :: 0 <= k < |cs| ==> Eligible(cs[k])
  {
    if cs != [] {
      assert cs[0] in ds;
    }
    forall k | 0 <= k < |cs| && forall i :: 0 <= i < |ds| ==> Eligible(ds[i])
      ensures Eligible(cs[k])
    {
      assert cs[k] in ds;
    }
  }

  /** The candidates of a run of epochs 1, 2, ..., whatever they are called. */
  function Candidates(ms: seq<real>, names: seq<string>): (cs: seq<Candidate>)
    requires |names| == |ms|
    ensures |cs| == |ms|
  {
    seq(|ms|, k requires 0 <= k < |ms| => Candidate(names[k], k + 1, Fin(ms[k])))
  }

  /** With no tolerance, early stopping keeps the very checkpoint that select_checkpoint
      picks from all the epochs seen, listed in any order. */
  lemma KeepsTheSelectedCheckpoint(ms: seq<real>, names: seq<string>, cs: seq<Candidate>)
    requires ms != [] && |names| == |ms|
    requires forall c :: c in cs <==> c in Candidates(ms, names)
    ensures SelectCheckpoint(cs) == Ok(Candidates(ms, names)[Kept(0.0, ms)])
    ensures SelectCheckpoint(cs).value.epoch == Kept(0.0, ms) + 1
  {
    var all := Candidates(ms, names);
    var k := Kept(0.0, ms);
    forall j | 0 <= j < |all|
      ensures !Ahead(all[j], all[k])
    {
      KeepsEarliestMinimum(ms, j);
      if j == k {
        BeforeIsAsymmetric(all[j].identity, all[j].identity);
      }
    }
    assert Leads(all[k], all);
    SelectionIgnoresOrder(all, cs);
    LeaderIsUnique(all[k], SelectCheckpoint(all).value, all);
  }

  ghost predicate AgreesWithSelection(delta: real) {
    forall ms: seq<real>, names: seq<string> :: ms != [] && |names| == |ms| ==> SelectsKept(delta, ms, names)
  }

  predicate SelectsKept(delta: real, ms: seq<real>, names: seq<string>)
    requires ms != [] && |names| == |ms|
  {
    SelectCheckpoint(Candidates(ms, names)) == Ok(Candidates(ms, names)[Kept(delta, ms)])
  }

  /** The two ways of choosing a checkpoint agree on all runs exactly when the tolerance
      is zero. */
  lemma AgreesWithSelectionExactlyWhen(delta: real)
    ensures AgreesWithSelection(delta) <==> delta == 0.0
  {
    if delta == 0.0 {
      forall ms: seq<real>, names: seq<string> | ms != [] && |names| == |ms|
        ensures SelectsKept(delta, ms, names)
      {
        KeepsTheSelectedCheckpoint(ms, names, Candidates(ms, names));
      }
    } else {
      var ms, names := Misleading(delta), ["", ""];
      MisleadingMisleads(delta);
      var k := Kept(delta, ms);
      var cs := Candidates(ms, names);
      FirstLeads(cs);
      assert Ahead(cs[1 - k], cs[k]);
      assert !SelectsKept(delta, ms, names);
    }
  }

  // ----- the control skeleton of train_wgan_internal -----

  datatype WganConfig = WganConfig(maxEpochs: int, patience: int, minDelta: real, ratio: nat, batchSize: nat)

  datatype CriticStep = CriticStep(loss: real, penalty: real)

  datatype TrainingError = NonFinite | ZeroBatchSize | NoValidCheckpoint

  /** Everything the optimiser decides: the u-th critic and generator updates (None when
      a score, a penalty or a parameter is not finite), the selection metric after each
      epoch, and both networks after each epoch. */
  datatype Training<!N> = Training(
    critic: nat -> Option<CriticStep>,
    generator: nat -> Option<real>,
    metric: nat -> Float,
    networks: nat -> N)

  datatype EpochSums = EpochSums(critic: real, penalty: real, generator: real)

  datatype Outcome<+N> = Outcome(
    bestEpoch: int,
    bestMetric: real,
    finalEpoch: nat,
    criticCurve: seq<real>,
    generatorCurve: seq<real>,
    penaltyCurve: seq<real>,
    metricCurve: seq<real>,
    criticUpdates: nat,
    generatorUpdates: nat,
    bestNetworks: N)

  /** The number of steps of range(0, left, step). */
  function Batches(left: nat, step: nat): nat
    requires step >= 1
  {
    if left == 0 then 0 else 1 + Batches(if left < step then 0 else left - step, step)
  }

  lemma {:induction false} BatchesIsCeiling(left: nat, step: nat)
    requires step >= 1
    ensures step * Batches(left, step) >= left
    ensures left > 0 ==> step * (Batches(left, step) - 1) < left
  {
    if left >= step {
      BatchesIsCeiling(left - step, step);
      var b: int := Batches(left - step, step);
      assert step * (1 + b) == step + step * b;
      assert step * b == step + step * (b - 1);
    }
  }

  function Times(n: nat, k: nat): nat {
    n * k
  }

  lemma TimesStep(n: nat, k: nat)
    ensures Times(n + 1, k) == Times(n, k) + k && Times(0, k) == 0
  {
  }

  lemma TimesMonotone(m: nat, n: nat, k: nat)
    requires m <= n
    ensures Times(m, k) <= Times(n, k)
  {
    assert n * k == m * k + (n - m) * k;
  }

  ghost predicate CriticFine(critic: nat -> Option<CriticStep>, from: nat, to: nat) {
    forall u :: from <= u < to ==> critic(u).Some?
  }

  ghost predicate GeneratorFine(generator: nat -> Option<real>, from: nat, to: nat) {
    forall u :: from <= u < to ==> generator(u).Some?
  }

  function CriticSums(critic: nat -> Option<CriticStep>, from: nat, to: nat): CriticStep
    requires from <= to
  {
    if from == to then CriticStep(0.0, 0.0)
    else
      var sums := CriticSums(critic, from, to - 1);
      match critic(to - 1)
      case None => sums
      case Some(step) => CriticStep(sums.loss + step.loss, sums.penalty + step.penalty)
  }

  function GeneratorSum(generator: nat -> Option<real>, from: nat, to: nat): real
    requires from <= to
  {
    if from == to then 0.0
    else GeneratorSum(generator, from, to - 1) + (match generator(to - 1) case None => 0.0 case Some(x) => x)
  }

  /** The losses of n critic updates in order, and their penalties. */
  function CriticLosses(critic: nat -> Option<CriticStep>, from: nat, n: nat): (ls: seq<real>)
    ensures |ls| == n
  {
    seq(n, k requires 0 <= k => match critic(from + k) case Some(step) => step.loss case None => 0.0)
  }

  function CriticPenalties(critic: nat -> Option<CriticStep>, from: nat, n: nat): (ps: seq<real>)
    ensures |ps| == n
  {
    seq(n, k requires 0 <= k => match critic(from + k) case Some(step) => step.penalty case None => 0.0)
  }

  function GeneratorLosses(generator: nat -> Option<real>, from: nat, n: nat): (ls: seq<real>)
    ensures |ls| == n
  {
    seq(n, k requires 0 <= k => match generator(from + k) case Some(x) => x case None => 0.0)
  }

  lemma {:induction false} CriticSumsAreSums(critic: nat -> Option<CriticStep>, from: nat, n: nat)
    ensures CriticSums(critic, from, from + n).loss == Sum(CriticLosses(critic, from, n))
    ensures CriticSums(critic, from, from + n).penalty == Sum(CriticPenalties(critic, from, n))
    decreases n
  {
    if n > 0 {
      CriticSumsAreSums(critic, from, n - 1);
      var losses, penalties := CriticLosses(critic, from, n), CriticPenalties(critic, from, n);
      assert losses == CriticLosses(critic, from, n - 1) + [losses[n - 1]];
      assert penalties == CriticPenalties(critic, from, n - 1) + [penalties[n - 1]];
      SumSnoc(CriticLosses(critic, from, n - 1), losses[n - 1]);
      SumSnoc(CriticPenalties(critic, from, n - 1), penalties[n - 1]);
    }
  }

  lemma {:induction false} GeneratorSumIsSum(generator: nat -> Option<real>, from: nat, n: nat)
    ensures GeneratorSum(generator, from, from + n) == Sum(GeneratorLosses(generator, from, n))
    decreases n
  {
    if n > 0 {
      GeneratorSumIsSum(generator, from, n - 1);
      var losses := GeneratorLosses(generator, from, n);
      assert losses == GeneratorLosses(generator, from, n - 1) + [losses[n - 1]];
      SumSnoc(GeneratorLosses(generator, from, n - 1), losses[n - 1]);
    }
  }

  /** The critic updates of one batch, added to what the epoch has so far. */
  method CriticUpdates(critic: nat -> Option<CriticStep>, ghost first: nat, done: nat, ratio: nat, soFar: CriticStep)
    returns (ok: bool, sums: CriticStep)
    requires first <= done && CriticFine(critic, first, done) && soFar == CriticSums(critic, first, done)
    ensures ok <==> CriticFine(critic, first, done + ratio)
    ensures ok ==> sums == CriticSums(critic, first, done + ratio)
  {
    sums := soFar;
    for k := 0 to ratio
      invariant CriticFine(critic, first, done + k) && sums == CriticSums(critic, first, done + k)
    {
      match critic(done + k)
      case None => return false, sums;
      case Some(step) => sums := CriticStep(sums.loss + step.loss, sums.penalty + step.penalty);
    }
    ok := true;
  }

  /** One epoch over the batches: every batch makes ratio critic updates and then one
      generator update, and the first value that is not finite ends it. */
  method RunEpoch<N>(t: Training<N>, fitCount: nat, config: WganConfig, critics: nat, generators: nat)
    returns (ok: bool, sums: EpochSums, criticCount: nat, generatorCount: nat, batches: nat)
    requires config.batchSize >= 1
    ensures var all := Batches(fitCount, config.batchSize);
            var lastCritic, lastGenerator := critics + Times(all, config.ratio), generators + all;
            && (ok <==> CriticFine(t.critic, critics, lastCritic) && GeneratorFine(t.generator, generators, lastGenerator))
            && (ok ==>
                  && batches == all && criticCount == lastCritic && generatorCount == lastGenerator
                  && sums.critic == Sum(CriticLosses(t.critic, critics, Times(all, config.ratio)))
                  && sums.penalty == Sum(CriticPenalties(t.critic, critics, Times(all, config.ratio)))
                  && sums.generator == Sum(GeneratorLosses(t.generator, generators, all)))
  {
    hide Times;
    ghost var all := Batches(fitCount, config.batchSize);
    var step := CriticStep(0.0, 0.0);
    criticCount, generatorCount, batches := critics, generators, 0;
    sums := EpochSums(0.0, 0.0, 0.0);
    TimesStep(0, config.ratio);
    var start := 0;
    while start < fitCount
      invariant batches + Batches(if start < fitCount then fitCount - start else 0, config.batchSize) == all
      invariant criticCount == critics + Times(batches, config.ratio)
      invariant generatorCount == generators + batches
      invariant CriticFine(t.critic, critics, criticCount) && step == CriticSums(t.critic, critics, criticCount)
      invariant sums.critic == step.loss && sums.penalty == step.penalty
      invariant GeneratorFine(t.generator, generators, generatorCount)
      invariant sums.generator == GeneratorSum(t.generator, generators, generatorCount)
    {
      TimesStep(batches, config.ratio);
      TimesMonotone(batches + 1, all, config.ratio);
      var fine;
      fine, step := CriticUpdates(t.critic, critics, criticCount, config.ratio, step);
      if !fine {
        return false, sums, criticCount, generatorCount, batches;
      }
      criticCount := criticCount + config.ratio;
      match t.generator(generatorCount) {
        case None =>
          return false, sums, criticCount, generatorCount, batches;
        case Some(loss) =>
          sums := EpochSums(step.loss, step.penalty, sums.generator + loss);
      }
      generatorCount, batches := generatorCount + 1, batches + 1;
      start := start + config.batchSize;
    }
    CriticSumsAreSums(t.critic, critics, Times(all, config.ratio));
    GeneratorSumIsSum(t.generator, generators, all);
    ok := true;
  }

  function MetricsTo<N>(t: Training<N>, n: nat): (ms: seq<real>)
    ensures |ms| == n
  {
    seq(n, k requires 0 <= k => match t.metric(k + 1) case Fin(x) => x case _ => 0.0)
  }

  /** Every update of epoch e and the selection metric after it are finite. */
  ghost predicate EpochFine<N(!new)>(t: Training<N>, fitCount: nat, config: WganConfig, e: nat)
    requires config.batchSize >= 1 && e >= 1
  {
    var batches := Batches(fitCount, config.batchSize);
    var perEpoch := Times(batches, config.ratio);
    && CriticFine(t.critic, Times(e - 1, perEpoch), Times(e - 1, perEpoch) + perEpoch)
    && GeneratorFine(t.generator, Times(e - 1, batches), Times(e - 1, batches) + batches)
    && t.metric(e).Fin?
  }

  ghost predicate Stops<N(!new)>(t: Training<N>, config: WganConfig, e: nat) {
    Exhausted(config.patience, config.minDelta, MetricsTo(t, e))
  }

  /** Epoch n begins: all before it were fine and none exhausted the patience. */
  ghost predicate Reaches<N(!new)>(t: Training<N>, fitCount: nat, config: WganConfig, n: nat)
    requires config.batchSize >= 1
  {
    forall e :: 1 <= e < n ==> EpochFine(t, fitCount, config, e) && !Stops(t, config, e)
  }

  ghost predicate Finishes<N(!new)>(t: Training<N>, fitCount: nat, config: WganConfig, n: nat)
    requires config.batchSize >= 1
  {
    && 1 <= n <= config.maxEpochs && Reaches(t, fitCount, config, n) && EpochFine(t, fitCount, config, n)
    && (n == config.maxEpochs || Stops(t, config, n))
  }

  ghost predicate Breaks<N(!new)>(t: Training<N>, fitCount: nat, config: WganConfig, n: nat)
    requires config.batchSize >= 1
  {
    1 <= n <= config.maxEpochs && Reaches(t, fitCount, config, n) && !EpochFine(t, fitCount, config, n)
  }

  /** A run has one ending only. */
  lemma EndIsUnique<N(!new)>(t: Training<N>, fitCount: nat, config: WganConfig, m: nat, n: nat)
    requires config.batchSize >= 1
    requires Finishes(t, fitCount, config, m) || Breaks(t, fitCount, config, m)
    requires Finishes(t, fitCount, config, n) || Breaks(t, fitCount, config, n)
    ensures m == n && !(Finishes(t, fitCount, config, m) && Breaks(t, fitCount, config, n))
  {
    hide EpochFine, Stops;
  }

  ghost predicate SomeBreak<N(!new)>(t: Training<N>, fitCount: nat, config: WganConfig)
    requires config.batchSize >= 1
  {
    exists n :: Breaks(t, fitCount, config, n)
  }

  lemma FinishedNeverBreaks<N(!new)>(t: Training<N>, fitCount: nat, config: WganConfig, n: nat)
    requires config.batchSize >= 1 && Finishes(t, fitCount, config, n)
    ensures !SomeBreak(t, fitCount, config)
  {
    hide Finishes, Breaks;
    if SomeBreak(t, fitCount, config) {
      var m :| Breaks(t, fitCount, config, m);
      EndIsUnique(t, fitCount, config, n, m);
      assert false;
    }
  }

  function AtLeastOne(n: nat): (r: real)
    ensures r >= 1.0
  {
    if n == 0 then 1.0 else n as real
  }

  /** The curves hold one entry per epoch: the critic curve adds up all critic losses of
      the epoch but divides by the number of batches only. */
  ghost predicate CurvesRecord<N(!new)>(t: Training<N>, fitCount: nat, config: WganConfig, n: nat,
                                        critic: seq<real>, penalty: seq<real>, generator: seq<real>)
    requires config.batchSize >= 1
  {
    var batches := Batches(fitCount, config.batchSize);
    var perEpoch := Times(batches, config.ratio);
    && |critic| == |penalty| == |generator| == n
    && forall e :: 0 <= e < n ==>
         && critic[e] == Sum(CriticLosses(t.critic, Times(e, perEpoch), perEpoch)) / AtLeastOne(batches)
         && penalty[e] == Sum(CriticPenalties(t.critic, Times(e, perEpoch), perEpoch)) / AtLeastOne(perEpoch)
         && generator[e] == Sum(GeneratorLosses(t.generator, Times(e, batches), batches)) / AtLeastOne(batches)
  }

  /** The sum of the critic losses of epoch e + 1 over its critic updates. */
  function EpochCriticLoss<N(!new)>(t: Training<N>, fitCount: nat, config: WganConfig, e: nat): real
    requires config.batchSize >= 1
  {
    var perEpoch := Times(Batches(fitCount, config.batchSize), config.ratio);
    Sum(CriticLosses(t.critic, Times(e, perEpoch), perEpoch))
  }

  /** The mean critic loss per update of epoch e + 1, as the penalty curve takes the mean
      of the penalties. */
  function MeanCriticLoss<N(!new)>(t: Training<N>, fitCount: nat, config: WganConfig, e: nat): real
    requires config.batchSize >= 1
  {
    EpochCriticLoss(t, fitCount, config, e) / AtLeastOne(Times(Batches(fitCount, config.batchSize), config.ratio))
  }

  lemma ScaledMean(sum: real, batches: nat, ratio: nat)
    requires Times(batches, ratio) == 0 ==> sum == 0.0
    ensures sum / AtLeastOne(batches) == ratio as real * (sum / AtLeastOne(Times(batches, ratio)))
  {
    var b, r, p := batches as real, ratio as real, Times(batches, ratio) as real;
    if Times(batches, ratio) != 0 {
      assert p == b * r;
      var mean := sum / p;
      assert mean * p == sum;
      assert (r * mean) * b == mean * (b * r);
    }
  }

  /** Every entry of the critic curve is ratio times the mean loss of the epoch's critic
      updates, so it is that mean exactly for a ratio of 1 or a mean of zero. */
  lemma CriticCurveIsScaled<N(!new)>(t: Training<N>, fitCount: nat, config: WganConfig, n: nat,
                                     critic: seq<real>, penalty: seq<real>, generator: seq<real>, e: nat)
    requires config.batchSize >= 1 && CurvesRecord(t, fitCount, config, n, critic, penalty, generator) && e < n
    ensures critic[e] == config.ratio as real * MeanCriticLoss(t, fitCount, config, e)
    ensures critic[e] == MeanCriticLoss(t, fitCount, config, e) <==>
              config.ratio == 1 || EpochCriticLoss(t, fitCount, config, e) == 0.0
  {
    hide Times, AtLeastOne, Batches;
    var batches := Batches(fitCount, config.batchSize);
    var sum, perEpoch := EpochCriticLoss(t, fitCount, config, e), Times(batches, config.ratio);
    ScaledMean(sum, batches, config.ratio);
    OnlyScaled(sum, AtLeastOne(perEpoch), config.ratio as real);
  }

  lemma OnlyScaled(sum: real, d: real, r: real)
    requires d >= 1.0
    ensures r * (sum / d) == sum / d <==> r == 1.0 || sum == 0.0
  {
    var mean := sum / d;
    assert mean * d == sum;
    assert r * mean - mean == (r - 1.0) * mean;
  }

  lemma FineEpoch<N(!new)>(t: Training<N>, fitCount: nat, config: WganConfig, e: nat, c: nat, g: nat)
    requires config.batchSize >= 1 && e >= 1
    requires var all := Batches(fitCount, config.batchSize);
             g == Times(e - 1, all) && c == Times(e - 1, Times(all, config.ratio))
    ensures var all := Batches(fitCount, config.batchSize);
            EpochFine(t, fitCount, config, e) <==>
              && CriticFine(t.critic, c, c + Times(all, config.ratio)) && GeneratorFine(t.generator, g, g + all)
              && t.metric(e).Fin?
  {
    hide Times, CriticFine, GeneratorFine, Batches;
  }

  lemma CurvesSnoc<N(!new)>(t: Training<N>, fitCount: nat, config: WganConfig, n: nat, critic: seq<real>,
                            penalty: seq<real>, generator: seq<real>, c: nat, g: nat, sums: EpochSums)
    requires config.batchSize >= 1 && CurvesRecord(t, fitCount, config, n, critic, penalty, generator)
    requires var all := Batches(fitCount, config.batchSize);
             var perEpoch := Times(all, config.ratio);
             && c == Times(n, perEpoch) && g == Times(n, all)
             && sums.critic == Sum(CriticLosses(t.critic, c, perEpoch))
             && sums.penalty == Sum(CriticPenalties(t.critic, c, perEpoch))
             && sums.generator == Sum(GeneratorLosses(t.generator, g, all))
    ensures var all := Batches(fitCount, config.batchSize);
            CurvesRecord(t, fitCount, config, n + 1, critic + [sums.critic / AtLeastOne(all)],
                         penalty + [sums.penalty / AtLeastOne(Times(all, config.ratio))],
                         generator + [sums.generator / AtLeastOne(all)])
  {
    hide Times, Batches, CriticLosses, CriticPenalties, GeneratorLosses, Sum, AtLeastOne;
  }

  lemma MetricsGrow<N>(t: Training<N>, e: nat)
    requires e >= 1 && t.metric(e).Fin?
    ensures MetricsTo(t, e) == MetricsTo(t, e - 1) + [t.metric(e).value]
  {
  }

  lemma Proceeds<N(!new)>(t: Training<N>, fitCount: nat, config: WganConfig, n: nat)
    requires config.batchSize >= 1 && 1 <= n <= config.maxEpochs && Reaches(t, fitCount, config, n)
    ensures !EpochFine(t, fitCount, config, n) ==> Breaks(t, fitCount, config, n)
    ensures EpochFine(t, fitCount, config, n) && !Stops(t, config, n) ==> Reaches(t, fitCount, config, n + 1)
    ensures EpochFine(t, fitCount, config, n) && (n == config.maxEpochs || Stops(t, config, n)) ==>
              Finishes(t, fitCount, config, n)
  {
    hide EpochFine, Stops;
  }

  lemma NothingYet<N(!new)>(t: Training<N>, fitCount: nat, config: WganConfig)
    requires config.batchSize >= 1
    ensures Reaches(t, fitCount, config, 1) && MetricsTo(t, 0) == []
    ensures CurvesRecord(t, fitCount, config, 0, [], [], [])
  {
  }

  lemma StopsMeans<N(!new)>(t: Training<N>, config: WganConfig, e: nat)
    ensures Stops(t, config, e) <==> Exhausted(config.patience, config.minDelta, MetricsTo(t, e))
  {
  }

  /** The run went on while the kept epoch was less than patience epochs back, and ended
      when it was not, or at the cap. */
  ghost predicate StopsInTime(config: WganConfig, metrics: seq<real>, bestEpoch: int) {
    && 1 <= |metrics| <= config.maxEpochs
    && (|metrics| == config.maxEpochs || |metrics| - bestEpoch >= config.patience)
    && forall e :: 1 <= e < |metrics| ==> e - (Kept(config.minDelta, metrics[..e]) + 1) < config.patience
  }

  lemma FinishesInTime<N(!new)>(t: Training<N>, fitCount: nat, config: WganConfig, n: nat)
    requires config.batchSize >= 1 && Finishes(t, fitCount, config, n)
    ensures StopsInTime(config, MetricsTo(t, n), Kept(config.minDelta, MetricsTo(t, n)) + 1)
  {
    hide EpochFine, Track;
    var ms := MetricsTo(t, n);
    forall e | 1 <= e < n
      ensures e - (Kept(config.minDelta, ms[..e]) + 1) < config.patience
    {
      assert ms[..e] == MetricsTo(t, e);
      assert !Stops(t, config, e);
    }
  }

  /** Nothing that was computed on the way is infinite or NaN. */
  ghost predicate AllFinite<N(!new)>(t: Training<N>, critics: nat, generators: nat, epochs: nat) {
    && (forall u :: 0 <= u < critics ==> t.critic(u).Some?)
    && (forall u :: 0 <= u < generators ==> t.generator(u).Some?)
    && forall e :: 1 <= e <= epochs ==> t.metric(e).Fin?
  }

  ghost predicate NotFiniteAt<N(!new)>(t: Training<N>, u: nat) {
    t.critic(u).None? || t.generator(u).None? || !t.metric(u).Fin?
  }

  lemma {:induction false} FineEpochsAreFinite<N(!new)>(t: Training<N>, fitCount: nat, config: WganConfig, n: nat)
    requires config.batchSize >= 1 && forall e :: 1 <= e <= n ==> EpochFine(t, fitCount, config, e)
    ensures var batches := Batches(fitCount, config.batchSize);
            AllFinite(t, Times(n, Times(batches, config.ratio)), Times(n, batches), n)
  {
    hide Times, Batches;
    var batches := Batches(fitCount, config.batchSize);
    TimesStep(0, batches);
    TimesStep(0, Times(batches, config.ratio));
    if n > 0 {
      FineEpochsAreFinite(t, fitCount, config, n - 1);
      assert EpochFine(t, fitCount, config, n);
      TimesStep(n - 1, batches);
      TimesStep(n - 1, Times(batches, config.ratio));
    }
  }

  lemma FinishesFinite<N(!new)>(t: Training<N>, fitCount: nat, config: WganConfig, n: nat)
    requires config.batchSize >= 1 && Finishes(t, fitCount, config, n)
    ensures var batches := Batches(fitCount, config.batchSize);
            AllFinite(t, Times(n, Times(batches, config.ratio)), Times(n, batches), n)
  {
    hide EpochFine, Stops;
    FineEpochsAreFinite(t, fitCount, config, n);
  }

  lemma FiniteIsFine<N(!new)>(t: Training<N>, fitCount: nat, config: WganConfig, e: nat)
    requires config.batchSize >= 1 && e >= 1 && forall u: nat :: !NotFiniteAt(t, u)
    ensures EpochFine(t, fitCount, config, e)
  {
    hide Times, Batches;
    forall u: nat
      ensures t.critic(u).Some? && t.generator(u).Some? && t.metric(u).Fin?
    {
      assert !NotFiniteAt(t, u);
    }
  }

  lemma BreaksSomewhere<N(!new)>(t: Training<N>, fitCount: nat, config: WganConfig, n: nat)
    requires config.batchSize >= 1 && Breaks(t, fitCount, config, n)
    ensures SomeBreak(t, fitCount, config) && exists u: nat :: NotFiniteAt(t, u)
  {
    hide EpochFine, NotFiniteAt;
    if forall u: nat :: !NotFiniteAt(t, u) {
      FiniteIsFine(t, fitCount, config, n);
    }
  }

  /** Every entry of a curve times the number it is divided by is the sum of the epoch's
      values: critic updates for the penalties, batches for the other two. */
  lemma CurveEntries<N(!new)>(t: Training<N>, fitCount: nat, config: WganConfig, n: nat,
                              critic: seq<real>, penalty: seq<real>, generator: seq<real>, e: nat)
    requires config.batchSize >= 1 && CurvesRecord(t, fitCount, config, n, critic, penalty, generator) && e < n
    ensures var batches := Batches(fitCount, config.batchSize);
            var updates := Times(batches, config.ratio);
            && critic[e] * batches as real == Sum(CriticLosses(t.critic, Times(e, updates), updates))
            && penalty[e] * updates as real == Sum(CriticPenalties(t.critic, Times(e, updates), updates))
            && generator[e] * batches as real == Sum(GeneratorLosses(t.generator, Times(e, batches), batches))
  {
    hide Times, Batches;
    var batches := Batches(fitCount, config.batchSize);
    var updates := Times(batches, config.ratio);
    assert batches == 0 ==> updates == 0 by {
      TimesStep(0, config.ratio);
    }
    DividedByCount(Sum(CriticLosses(t.critic, Times(e, updates), updates)), batches);
    DividedByCount(Sum(CriticPenalties(t.critic, Times(e, updates), updates)), updates);
    DividedByCount(Sum(GeneratorLosses(t.generator, Times(e, batches), batches)), batches);
  }

  lemma DividedByCount(sum: real, n: nat)
    requires n == 0 ==> sum == 0.0
    ensures sum / AtLeastOne(n) * n as real == sum
  {
  }

  /** Training ends at the first epoch that lies patience epochs past the kept one, or at
      the cap; what it returns is the kept epoch with its metric and its networks. */
  method TrainWganInternal<N(!new)>(t: Training<N>, fitCount: nat, config: WganConfig)
    returns (r: Result<Outcome<N>, TrainingError>)
    ensures r == Err(NoValidCheckpoint) <==> config.maxEpochs < 1
    ensures r == Err(ZeroBatchSize) <==> config.maxEpochs >= 1 && config.batchSize == 0
    ensures r == Err(NonFinite) <==>
              config.maxEpochs >= 1 && config.batchSize >= 1 && SomeBreak(t, fitCount, config)
    ensures r.Ok? ==>
              var o, n := r.value, r.value.finalEpoch;
              && config.batchSize >= 1 && Finishes(t, fitCount, config, n)
              && o.metricCurve == MetricsTo(t, n)
              && o.bestEpoch == Kept(config.minDelta, o.metricCurve) + 1
              && o.bestMetric == o.metricCurve[o.bestEpoch - 1]
              && o.bestNetworks == t.networks(o.bestEpoch)
              && o.generatorUpdates == Times(n, Batches(fitCount, config.batchSize))
              && o.criticUpdates == Times(n, Times(Batches(fitCount, config.batchSize), config.ratio))
              && CurvesRecord(t, fitCount, config, n, o.criticCurve, o.penaltyCurve, o.generatorCurve)
              && StopsInTime(config, o.metricCurve, o.bestEpoch)
              && AllFinite(t, o.criticUpdates, o.generatorUpdates, n)
    ensures r == Err(NonFinite) ==> exists u: nat :: NotFiniteAt(t, u)
  {
    hide Times, CriticFine, GeneratorFine, CriticLosses, CriticPenalties, GeneratorLosses, Sum, Batches, EpochFine;
    hide Reaches, Finishes, Breaks, StopsInTime, AllFinite, NotFiniteAt;
    hide CurvesRecord, AtLeastOne, Stops, Exhausted, Track, MetricsTo, SomeBreak;
    var tracker := new EarlyStoppingState(config.patience, config.minDelta);
    var criticCurve, generatorCurve, penaltyCurve, metricCurve := [], [], [], [];
    var criticCount, generatorCount := 0, 0;
    var bestNetworks: Option<N> := None;
    if config.maxEpochs < 1 {
      return Err(NoValidCheckpoint);
    }
    if config.batchSize == 0 {
      return Err(ZeroBatchSize);
    }
    ghost var all := Batches(fitCount, config.batchSize);
    TimesStep(0, all);
    TimesStep(0, Times(all, config.ratio));
    NothingYet(t, fitCount, config);
    var epoch := 1;
    var stopped := false;
    while epoch <= config.maxEpochs && !stopped
      invariant 1 <= epoch <= config.maxEpochs + 1
      invariant fresh(tracker) && tracker.Valid()
      invariant tracker.patience == config.patience && tracker.minDelta == config.minDelta
      invariant metricCurve == tracker.metrics == MetricsTo(t, epoch - 1) && |metricCurve| == epoch - 1
      invariant |tracker.epochs| == epoch - 1 && forall k :: 0 <= k < epoch - 1 ==> tracker.epochs[k] == k + 1
      invariant generatorCount == Times(epoch - 1, all)
      invariant criticCount == Times(epoch - 1, Times(all, config.ratio))
      invariant CurvesRecord(t, fitCount, config, epoch - 1, criticCurve, penaltyCurve, generatorCurve)
      invariant epoch > 1 ==> tracker.bestEpoch.Some? && 1 <= tracker.bestEpoch.value
      invariant epoch > 1 ==> bestNetworks == Some(t.networks(tracker.bestEpoch.value))
      invariant !stopped ==> Reaches(t, fitCount, config, epoch)
      invariant stopped ==> epoch > 1
      invariant epoch > 1 && (stopped || epoch > config.maxEpochs) ==> Finishes(t, fitCount, config, epoch - 1)
      decreases config.maxEpochs + 1 - epoch, !stopped
    {
      ghost var c, g := criticCount, generatorCount;
      FineEpoch(t, fitCount, config, epoch, c, g);
      Proceeds(t, fitCount, config, epoch);
      TimesStep(epoch - 1, all);
      TimesStep(epoch - 1, Times(all, config.ratio));
      var ok, sums, batches;
      ok, sums, criticCount, generatorCount, batches := RunEpoch(t, fitCount, config, criticCount, generatorCount);
      if !ok {
        BreaksSomewhere(t, fitCount, config, epoch);
        return Err(NonFinite);
      }
      var metric := t.metric(epoch);
      var better := tracker.Consider(epoch, metric);
      if better.Err? {
        BreaksSomewhere(t, fitCount, config, epoch);
        return Err(NonFinite);
      }
      MetricsGrow(t, epoch);
      StopsMeans(t, config, epoch);
      CurvesSnoc(t, fitCount, config, epoch - 1, criticCurve, penaltyCurve, generatorCurve, c, g, sums);
      metricCurve := metricCurve + [metric.value];
      criticCurve := criticCurve + [sums.critic / AtLeastOne(batches)];
      generatorCurve := generatorCurve + [sums.generator / AtLeastOne(batches)];
      penaltyCurve := penaltyCurve + [sums.penalty / AtLeastOne(Times(batches, config.ratio))];
      if better.value {
        bestNetworks := Some(t.networks(epoch));
      }
      stopped := tracker.ShouldStop();
      epoch := epoch + 1;
    }
    FinishedNeverBreaks(t, fitCount, config, |metricCurve|);
    FinishesInTime(t, fitCount, config, |metricCurve|);
    FinishesFinite(t, fitCount, config, |metricCurve|);
    return Ok(Outcome(tracker.bestEpoch.value, tracker.bestMetric.value, |metricCurve|,
                      criticCurve, generatorCurve, penaltyCurve, metricCurve,
                      criticCount, generatorCount, bestNetworks.value));
  }
}
