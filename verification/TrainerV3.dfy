/** Best-epoch, patience and curve bookkeeping of the v3 trainer:
    src/neuralmarket/research/neural_sde_trainer_v3.py. */
module TrainerV3 {
  import opened Common
  import EarlyStopping

  function Finite(ms: seq<real>): (fs: seq<Float>)
    ensures |fs| == |ms|
  {
    seq(|ms|, k requires 0 <= k < |ms| => Fin(ms[k]))
  }

  /** On finite scores this is the comparator's tracker with no tolerance, started
      from the score before training. */
  lemma {:induction false} BestIsTheTrackersChoice(ms: seq<real>)
    requires ms != []
    ensures ArgMin(Finite(ms)) == EarlyStopping.Kept(0.0, ms)
  {
    var init := ms[..|ms| - 1];
    assert Finite(ms)[..|ms| - 1] == Finite(init);
    if init != [] {
      BestIsTheTrackersChoice(init);
    }
  }

  // ----- train_internal_v3 -----

  datatype Config = Config(maxEpochs: int, patience: int)

  datatype Score = Score(rbf: Float, total: Float)

  /** What the optimiser decides: whether the batches of an epoch stay finite, the two
      selection scores before training (epoch 0) and after each epoch, the parameters. */
  datatype Training<!N> = Training(fits: nat -> bool, score: nat -> Score, params: nat -> N)

  datatype TrainerError = NonFiniteLoss | NonFiniteSelection | NoImprovement

  datatype Outcome<+N> = Outcome(
    initialRbf: Float,
    bestRbf: Float,
    bestTotal: Float,
    bestEpoch: nat,
    finalEpoch: nat,
    selectionRbf: seq<Float>,
    selectionTotal: seq<Float>,
    bestParams: N)

  /** The totals of epochs 0 to n. */
  function Totals<N>(t: Training<N>, n: nat): (ms: seq<Float>)
    ensures |ms| == n + 1
  {
    seq(n + 1, k requires 0 <= k => t.score(k).total)
  }

  function Rbfs<N>(t: Training<N>, n: nat): (ms: seq<Float>)
    ensures |ms| == n + 1
  {
    seq(n + 1, k requires 0 <= k => t.score(k).rbf)
  }

  lemma {:induction false} TotalsGrow<N>(t: Training<N>, n: nat)
    ensures Totals(t, n + 1) == Totals(t, n) + [t.score(n + 1).total]
    ensures Rbfs(t, n + 1) == Rbfs(t, n) + [t.score(n + 1).rbf]
    ensures ArgMin(Totals(t, n + 1)) ==
              if Less(t.score(n + 1).total, Totals(t, n)[ArgMin(Totals(t, n))]) then n + 1 else ArgMin(Totals(t, n))
  {
    assert Totals(t, n + 1)[..n + 1] == Totals(t, n);
  }

  predicate EpochFine<N>(t: Training<N>, e: nat) {
    t.fits(e) && t.score(e).rbf.Fin?
  }

  /** An epoch ends the run when it does not improve and the best one is patience epochs
      back; an improving epoch never does, even if the patience is not positive. */
  predicate Stops<N>(t: Training<N>, patience: int, e: nat) {
    var bad := e - ArgMin(Totals(t, e));
    bad >= 1 && bad >= patience
  }

  predicate Reaches<N>(t: Training<N>, c: Config, n: nat) {
    forall e :: 1 <= e < n ==> EpochFine(t, e) && !Stops(t, c.patience, e)
  }

  predicate Finishes<N>(t: Training<N>, c: Config, n: nat) {
    if c.maxEpochs < 1 then n == 0
    else 1 <= n <= c.maxEpochs && Reaches(t, c, n) && EpochFine(t, n) && (n == c.maxEpochs || Stops(t, c.patience, n))
  }

  predicate Breaks<N>(t: Training<N>, c: Config, n: nat) {
    1 <= n <= c.maxEpochs && Reaches(t, c, n) && !EpochFine(t, n)
  }

  lemma Proceeds<N>(t: Training<N>, c: Config, n: nat)
    requires 1 <= n <= c.maxEpochs && Reaches(t, c, n)
    ensures !EpochFine(t, n) ==> Breaks(t, c, n)
    ensures EpochFine(t, n) && !Stops(t, c.patience, n) ==> Reaches(t, c, n + 1)
    ensures EpochFine(t, n) && (n == c.maxEpochs || Stops(t, c.patience, n)) ==> Finishes(t, c, n)
  {
    hide EpochFine, Stops;
  }

  /** A run ends in one way only, so each outcome of the method below happens exactly
      when its condition holds. */
  lemma EndIsUnique<N>(t: Training<N>, c: Config, m: nat, n: nat)
    requires Finishes(t, c, m) || Breaks(t, c, m)
    requires Finishes(t, c, n) || Breaks(t, c, n)
    ensures m == n && !(Finishes(t, c, m) && Breaks(t, c, n))
  {
    hide EpochFine, Stops;
  }

  /** In epochs 1 to n every loss and every selection RBF is finite. */
  predicate SoundThrough<N>(t: Training<N>, n: int) {
    forall e :: 1 <= e <= n ==> t.fits(e) && t.score(e).rbf.Fin?
  }

  /** After epoch e the trainer goes on: it has just improved, or the epoch with the least
      total so far is less than patience epochs back. */
  predicate GoesOn<N>(t: Training<N>, patience: int, e: nat) {
    ArgMin(Totals(t, e)) == e || e - ArgMin(Totals(t, e)) < patience
  }

  /** What ending with epoch n and breaking in epoch n mean on losses, scores and totals. */
  lemma EndingsMean<N>(t: Training<N>, c: Config, n: nat)
    requires n >= 1
    ensures Finishes(t, c, n) <==>
              && n <= c.maxEpochs && SoundThrough(t, n) && (n == c.maxEpochs || !GoesOn(t, c.patience, n))
              && forall e :: 1 <= e < n ==> GoesOn(t, c.patience, e)
    ensures Breaks(t, c, n) <==>
              && n <= c.maxEpochs && SoundThrough(t, n - 1) && !(t.fits(n) && t.score(n).rbf.Fin?)
              && forall e :: 1 <= e < n ==> GoesOn(t, c.patience, e)
  {
    hide ArgMin, Totals;
    forall e: nat
      ensures EpochFine(t, e) <==> t.fits(e) && t.score(e).rbf.Fin?
      ensures Stops(t, c.patience, e) <==> !GoesOn(t, c.patience, e)
    {
    }
    hide EpochFine, Stops, GoesOn;
    assert SoundThrough(t, n) <==> SoundThrough(t, n - 1) && EpochFine(t, n);
  }

  /** The score before training is never beaten exactly when no epoch scores below it. */
  lemma UnimprovedMeans<N>(t: Training<N>, n: nat)
    ensures Unimproved(t, n) <==> forall e :: 1 <= e <= n ==> !Less(t.score(e).total, t.score(0).total)
  {
    hide ArgMin, Less, LessEq;
    var ms := Totals(t, n);
    ArgMinIsEarliestLeast(ms, 0);
    LessEqIsReflexive(ms[0]);
    forall e | Unimproved(t, n) && 1 <= e <= n
      ensures !Less(t.score(e).total, t.score(0).total)
    {
      ArgMinIsEarliestLeast(ms, e);
      LessThrough(ms[e], ms[0], ms[0]);
      LessEqIsReflexive(ms[e]);
    }
    assert ms[ArgMin(ms)] == t.score(ArgMin(ms)).total;
  }

  predicate Unimproved<N>(t: Training<N>, n: nat) {
    ArgMin(Totals(t, n)) == 0
  }

  predicate Refused<N>(t: Training<N>, c: Config, n: nat) {
    Finishes(t, c, n) && Unimproved(t, n)
  }

  /** Where a run ends decides all three errors. */
  lemma EndDecides<N>(t: Training<N>, c: Config, n: nat)
    requires Finishes(t, c, n) || Breaks(t, c, n)
    ensures !(Finishes(t, c, n) && Breaks(t, c, n))
    ensures (exists m :: Refused(t, c, m)) <==> Finishes(t, c, n) && Unimproved(t, n)
    ensures (exists m :: Breaks(t, c, m) && !t.fits(m)) <==> Breaks(t, c, n) && !t.fits(n)
    ensures (exists m :: Breaks(t, c, m) && t.fits(m)) <==> Breaks(t, c, n) && t.fits(n)
  {
    hide Finishes, Breaks, Unimproved;
    EndIsUnique(t, c, n, n);
    assert Finishes(t, c, n) && Unimproved(t, n) ==> Refused(t, c, n);
    forall m | Finishes(t, c, m) || Breaks(t, c, m)
      ensures m == n && (Finishes(t, c, m) <==> Finishes(t, c, n)) && (Breaks(t, c, m) <==> Breaks(t, c, n))
    {
      EndIsUnique(t, c, m, n);
    }
  }

  lemma StopsMeans<N>(t: Training<N>, patience: int, e: nat)
    ensures Stops(t, patience, e) <==> e - ArgMin(Totals(t, e)) >= 1 && e - ArgMin(Totals(t, e)) >= patience
  {
  }

  lemma NothingYet<N>(t: Training<N>, c: Config)
    ensures Reaches(t, c, 1) && Totals(t, 0) == [t.score(0).total] && Rbfs(t, 0) == [t.score(0).rbf]
    ensures ArgMin(Totals(t, 0)) == 0
    ensures c.maxEpochs < 1 ==> Finishes(t, c, 0)
  {
  }

  /** The total curve starts with epoch 1, the RBF curve with epoch 0: the best epoch
      indexes them one apart. A run is refused exactly when the score before training
      was never beaten, so the second half of the final test never decides. */
  method TrainInternalV3<N>(t: Training<N>, c: Config) returns (r: Result<Outcome<N>, TrainerError>)
    ensures r.Ok? ==>
              var o, n := r.value, r.value.finalEpoch;
              && n >= 1 && Finishes(t, c, n)
              && [t.score(0).total] + o.selectionTotal == Totals(t, n) && o.selectionRbf == Rbfs(t, n)
              && 1 <= o.bestEpoch == ArgMin(Totals(t, n))
              && o.bestTotal == o.selectionTotal[o.bestEpoch - 1] && o.bestRbf == o.selectionRbf[o.bestEpoch]
              && o.initialRbf == o.selectionRbf[0] && o.bestParams == t.params(o.bestEpoch)
              && Less(o.bestTotal, t.score(0).total)
    ensures r == Err(NoImprovement) <==> exists n :: Refused(t, c, n)
    ensures r == Err(NonFiniteLoss) <==> exists n :: Breaks(t, c, n) && !t.fits(n)
    ensures r == Err(NonFiniteSelection) <==> exists n :: Breaks(t, c, n) && t.fits(n)
  {
    hide Refused;
    hide Finishes, Breaks, Reaches, Stops, Totals, Rbfs, ArgMin, Less;
    NothingYet(t, c);
    var initial := t.score(0);
    var bestTotal, bestRbf, bestEpoch := initial.total, initial.rbf, 0;
    var bestParams := t.params(0);
    var withoutImprovement := 0;
    var selectionRbf, selectionTotal := [initial.rbf], [];
    var epoch := 1;
    var stopped := false;
    while epoch <= c.maxEpochs && !stopped
      invariant 1 <= epoch && (c.maxEpochs >= 1 ==> epoch <= c.maxEpochs + 1)
      invariant |selectionTotal| == epoch - 1 && bestEpoch < epoch && (stopped ==> epoch > 1)
      invariant |selectionRbf| == epoch && selectionRbf[0] == initial.rbf
      invariant [initial.total] + selectionTotal == Totals(t, epoch - 1) && selectionRbf == Rbfs(t, epoch - 1)
      invariant bestEpoch == ArgMin(Totals(t, epoch - 1)) && withoutImprovement == epoch - 1 - bestEpoch
      invariant bestTotal == Totals(t, epoch - 1)[bestEpoch] && bestRbf == selectionRbf[bestEpoch]
      invariant bestParams == t.params(bestEpoch)
      invariant bestEpoch == 0 || Less(bestTotal, initial.total)
      invariant !stopped ==> Reaches(t, c, epoch)
      invariant epoch > 1 && (stopped || epoch > c.maxEpochs) ==> Finishes(t, c, epoch - 1)
      decreases c.maxEpochs + 1 - epoch, !stopped
    {
      Proceeds(t, c, epoch);
      TotalsGrow(t, epoch - 1);
      StopsMeans(t, c.patience, epoch);
      if !EpochFine(t, epoch) {
        EndDecides(t, c, epoch);
      }
      if !t.fits(epoch) {
        return Err(NonFiniteLoss);
      }
      var score := t.score(epoch);
      selectionRbf, selectionTotal := selectionRbf + [score.rbf], selectionTotal + [score.total];
      assert [initial.total] + selectionTotal == Totals(t, epoch);
      if !score.rbf.Fin? {
        return Err(NonFiniteSelection);
      }
      if Less(score.total, bestTotal) {
        LessThrough(score.total, bestTotal, initial.total);
        LessIsLessEq(bestTotal, initial.total);
        bestTotal, bestRbf, bestEpoch := score.total, score.rbf, epoch;
        bestParams := t.params(epoch);
        withoutImprovement := 0;
      } else {
        withoutImprovement := withoutImprovement + 1;
        stopped := withoutImprovement >= c.patience;
      }
      epoch := epoch + 1;
    }
    LessThrough(bestTotal, initial.total, initial.total);
    EndDecides(t, c, epoch - 1);
    if bestEpoch == 0 || LessEq(initial.total, bestTotal) {
      return Err(NoImprovement);
    }
    return Ok(Outcome(initial.rbf, bestRbf, bestTotal, bestEpoch, epoch - 1, selectionRbf, selectionTotal, bestParams));
  }
}
