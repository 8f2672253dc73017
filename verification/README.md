# Verified model of the market-scenario research code

This project models the numerical and procedural core of a research repository that trains
conditional volatility models on daily returns, compares them with statistical baselines, and
guards every step that costs money or can be done only once. The model is written in Dafny;
`dafny verify dfyconfig.toml` checks all of it.

| file | what it models |
|---|---|
| `Signature.dfy` | the truncated path signature: segment exponentials, the product loop, the flat feature rows |
| `LeadLag.dfy` | the in-place interleaved lead-lag path and the cumulative path, and what the signature sees of returns and context |
| `SignatureMmd.dfy` | the expected-signature distance of two batches |
| `Wasserstein.dfy` | the gate's terminal distance between two samples |
| `Bootstrap.dfy` | the circular block bootstrap, with the drawn starts as input |
| `Preflight.dfy` | the metadata preflight: a checkpoint in memory and on disk, retries, deadlines, crashes, resumed runs |
| `OneShot.dfy` | the one-shot execution protocol of a training member, for any interleaving of crashing processes |
| `EarlyStopping.dfy` | the comparator's early stopping, its checkpoint selection and its training skeleton |
| `TrainerV3.dfy` | best-epoch, patience and curve bookkeeping of the v3 trainer |
| `Adjudicator.dfy` | the gate's criteria, the runner's report fields and the adjudicator that reads them |
| `Garch.dfy`, `GarchCalibration.dfy` | the GJR-GARCH filter, sampler and grid search |
| `Splits.dfy` | chronological splits with purge and embargo |
| `Lomo.dfy` | leave-one-member-out influence |
| `Ranking.dfy` | stable ranking of a candidate among baselines |
| `ConfigDiff.dfy` | flattening of configurations and the compatibility test for resuming a checkpoint |
| `Common.dfy` | results, sums, and floats as real numbers plus NaN and the infinities |

Floats are real numbers; where a comparison with NaN or an infinity decides a branch
(selection scores, adjudicated values, ranked errors, likelihoods) the values are `Float`.
Networks, optimisers, random draws, likelihoods, square roots, hashes, the provider's answers,
the clock and crashes are parameters: each theorem holds for every choice of them.

Code that changes state has the same form here. The lead-lag path, the GARCH variances and the
simulated increments are arrays filled by loops; the preflight checkpoint and the early-stopping
state are classes; the scanning, search, training, adjudication and influence loops are methods with
invariants, each proved against a function or predicate about which the lemmas speak. The one-shot
protocol is a state machine over its file-system steps.

Where the code does something other than a reader of its names or comments would expect, the model
follows the code:

- The runner reports the first entry of the total curve as the initial total. That entry is the
  score after epoch 1; the score before training is not reported. Criterion 1 of the adjudicator
  therefore asks for a best epoch after the first, which is more than the trainer asks
  (`Adjudicator.MemberPassesExactlyWhen`); runs that fall between the two exist for every
  configuration (`Adjudicator.EveryConfigurationHasAMismatch`).
- The second half of the trainer's final test, best not below initial, never decides anything
  (`TrainerV3.TrainInternalV3`).
- The split configuration allows a boundary of zero sessions, but no split then succeeds: the empty
  exclusion block is indexed (`Splits.ComputeSplits`).
- The WGAN runner does not look for the marker before it writes its temporary file. If the process
  that linked the marker died before removing its temporary name, a later process with the same
  process id truncates the published marker (`OneShot.WganMarkerCanBeTorn`); it stays whole exactly
  when nobody does that (`OneShot.WganMarkerStaysWhole`). Training happens at most once either way.
- The WGAN runner writes outside the block that cleans up, so that a failed write leaves its temporary
  file behind; the replicate runner removes it (`OneShot.FailedWriteIsCleanedUp`).
- The comparator divides an epoch's critic losses by the number of batches, although there are
  several critic updates in each batch: an entry of the curve is ratio times the mean loss, which is
  the mean exactly for a ratio of 1 or a loss of zero (`EarlyStopping.CriticCurveIsScaled`).
- The terminal distance accepts samples of different sizes and then compares interpolated samples.
  Distance zero there does not mean the same distribution: `[0, 1]` and `[0, 1/2, 1]` are at distance
  zero. It does exactly for equal sizes, which the gate enforces, or when one sample is a single
  value (`Wasserstein.SeparatesSizesExactlyWhen`).
- The adjudicator's documentation says that it never emits placeholder strings, but a missing
  diagnostic is recorded with the value `"__MISSING__"` (`Adjudicator.EvaluateCriteria`).
- The runner's counter of training invocations never decides anything: whoever gets that far has not
  trained before (`OneShot.CounterNeverRefuses`).
- Flattening forgets empty mappings and confuses a dotted key with a path, and the compatibility
  test reads a missing field like the value None (`ConfigDiff.FlattenForgets`,
  `ConfigDiff.NoneReadsAsMissing`). A configuration can be read back from its flat form exactly
  when it has neither (`ConfigDiff.ReadBackExactlyWhen`).

## Model

| member | source | states |
|---|---|---|
| `Signature.Accumulate` | src/neuralmarket/models/signature.py:115-142 | the segment loop over a batch leaves, in every row, the left-to-right product of the segment exponentials of that row's path |
| `Signature.TruncatedSignatureFeatures` | src/neuralmarket/models/signature.py:88-149 | levels outside 1 to 3 and paths of fewer than two points are refused; otherwise level k holds every row's level-k accumulator in row-major order |
| `Signature.FeatureCoordinates` | src/neuralmarket/models/signature.py:144-148 | where coordinates i, ij and ijk of a signature land in the flat feature rows |
| `Signature.ChenAssociative` | src/neuralmarket/models/signature.py:133-142 | the truncated product is associative |
| `Signature.UnitLaws` | src/neuralmarket/models/signature.py:124-127 | the starting accumulators are a two-sided unit of the product |
| `Signature.ExpGroupLike` | src/neuralmarket/models/signature.py:119-122 | a segment exponential satisfies the shuffle identities |
| `Signature.ChenGroupLike` | src/neuralmarket/models/signature.py:133-142 | the product keeps S_i S_j = S_ij + S_ji and S_i S_jk = S_ijk + S_jik + S_jki |
| `Signature.ProductGroupLike` | src/neuralmarket/models/signature.py:119-142 | after every segment, for any number of points and any dimension, the accumulators satisfy the shuffle identities |
| `Signature.JoinIsProduct` | src/neuralmarket/models/signature.py:91-95 | the signature of two paths joined end to start is the product of their signatures |
| `Signature.ExpSubdivision` | src/neuralmarket/models/signature.py:119-122 | the exponential is multiplicative along a straight segment |
| `Signature.SubdivisionInvariant` | src/neuralmarket/models/signature.py:129-142 | inserting a point anywhere on a straight segment changes no level of the signature |
| `Signature.ReversalCancels` | src/neuralmarket/models/signature.py:129-142 | a path followed by its reverse has zero signature at levels 1 to 3 |
| `Signature.LevelOneIsDisplacement` | src/neuralmarket/models/signature.py:134-134 | level 1 is the difference of the end points |
| `Signature.DiagonalIsDisplacement` | src/neuralmarket/models/signature.py:133-142 | S_ii and S_iii are t*t/2 and t*t*t/6 of the total displacement t, whatever the path between |
| `Signature.AccumulatorsAreIteratedIntegrals` | src/neuralmarket/models/signature.py:88-95 | the promised exactness: after any number of segments the accumulators are the iterated integrals of the piecewise-linear path, computed independently as polynomials in the segment parameter |
| `LeadLag.LeadLagAugmentPath` | src/neuralmarket/models/leadlag.py:46-122 | the in-place filling leaves exactly the interleaved path of every row, and is refused exactly for the malformed inputs |
| `LeadLag.SetPoint` | src/neuralmarket/models/leadlag.py:106-120 | one point of every path is written in all its channels and no other cell changes |
| `LeadLag.SetBodyPoints` | src/neuralmarket/models/leadlag.py:105-120 | one turn of the loop writes the lead advance and the lag catch of one return in every row, and nothing else |
| `LeadLag.AreaAfter` | src/neuralmarket/models/leadlag.py:104-120 | on any interleaved path, S[lead,lag] - S[lag,lead] after i steps is the sum of the squared steps |
| `LeadLag.InterleavedSignature` | src/neuralmarket/models/leadlag.py:104-120 | the level-2 block over lead and lag is determined by the sum of squared steps and the total |
| `LeadLag.StepsAreSquaredReturns` | src/neuralmarket/models/leadlag.py:95-99 | the squared steps of the scaled cumulative returns add up to the squared returns over the squared scale |
| `LeadLag.LeadLagSeesQuadraticVariation` | src/neuralmarket/models/leadlag.py:90-122 | S[lead,lag] - S[lag,lead] = sum of r_i^2 / scale^2, while S[lead,lead] depends on the total return only |
| `LeadLag.LeadLagSeparates` | src/neuralmarket/models/leadlag.py:90-122 | two return series with the same total have the same level-2 lead-lag block exactly when their sums of squares agree |
| `LeadLag.LeadLagSteps` | src/neuralmarket/models/leadlag.py:104-120 | after the context point two equal steps in time a day: the lead moves by the scaled return, then the lag |
| `LeadLag.LeadLagSignature` | src/neuralmarket/models/leadlag.py:84-88 | the first point is the origin, the second zeros and the context; level 1 reads time, total return twice, and the context |
| `LeadLag.LeadLagSeesContext` | src/neuralmarket/models/leadlag.py:84-88 | the context block of the lead-lag signature at all three levels |
| `LeadLag.AugmentPath` | src/neuralmarket/models/signature.py:36-85 | refused exactly for another width than the horizon, a context of another batch size, or a scale that is not positive; otherwise the cumulative path of every row |
| `LeadLag.AugmentedSteps` | src/neuralmarket/models/signature.py:72-84 | after the context point the path steps evenly in time, by the scaled returns one by one, at a constant context |
| `LeadLag.AugmentedSignature` | src/neuralmarket/models/signature.py:81-85 | the first point is the origin, the second zeros and the context; level 1 reads time, total return and the context |
| `LeadLag.ContextIsSeen` | src/neuralmarket/models/signature.py:81-85 | on any path that starts at the origin, then takes on the context and keeps it, levels 1 to 3 at context channels are those of one segment to the context; with any other channel c, S[context,c] is the context times S[c] and S[c,context] is zero |
| `LeadLag.AugmentedSeesContext` | src/neuralmarket/models/signature.py:81-85 | that holds of the cumulative path, for any returns |
| `LeadLag.CumulativePathSeesOnlyTheTotal` | src/neuralmarket/models/signature.py:76-85 | in the cumulative path the level-2 return entry depends on the total return only |
| `SignatureMmd.SignatureMmd` | src/neuralmarket/models/signature.py:152-183 | refused exactly when the level sets differ, are empty, or batch sizes disagree; otherwise the sum over the levels of the mean squared gap of mean features, equal to the kernel discrepancy below, not negative, and zero exactly when all mean features agree |
| `SignatureMmd.DistanceIsZeroExactlyWhen` | src/neuralmarket/models/signature.py:176-183 | that sum is not negative, and zero exactly when all mean features agree |
| `SignatureMmd.LossIsKernelDiscrepancy` | src/neuralmarket/models/signature.py:153-158 | a level's loss times width and squared batch size is the linear kernel summed over all pairs within the first batch, less twice that between the batches, plus that within the second |
| `SignatureMmd.DistanceIsKernelDiscrepancy` | src/neuralmarket/models/signature.py:153-158 | the documented maximum mean discrepancy with a linear signature kernel: the distance is the sum of these terms, every level with equal weight |
| `SignatureMmd.ZeroDistanceMatchesVariation` | src/neuralmarket/models/signature.py:177-183 | two batches of lead-lag features for which the function returns zero have the same mean sum of squared returns |
| `SignatureMmd.ColumnsHoldVariation` | src/neuralmarket/models/signature.py:144-148 | the lead-lag and lag-lead feature columns of a batch differ by each path's scaled sum of squares |
| `Wasserstein.EqualSizeForm` | src/neuralmarket/research/neural_sde_internal_gate.py:242-249 | for samples of one size the interpolation returns the sorted samples themselves |
| `Wasserstein.InterpolatesBetween` | src/neuralmarket/research/neural_sde_internal_gate.py:246-248 | for a smaller sample the interpolated values lie on the straight lines between neighbouring sorted values, at equally spaced positions |
| `Wasserstein.SortedPairingIsOptimal` | src/neuralmarket/research/neural_sde_internal_gate.py:244-249 | no pairing of two equal-sized samples has a smaller total distance than the sorted one |
| `Wasserstein.DistanceIsLeastPairing` | src/neuralmarket/research/neural_sde_internal_gate.py:242-249 | the distance is the least mean absolute difference over all pairings, and is attained |
| `Wasserstein.ReducingCostsLess` | src/neuralmarket/research/neural_sde_internal_gate.py:242-243 | redirecting the mass around the two least points onto their pair turns any coupling into a smaller one that costs no more |
| `Wasserstein.SortedPairingBeatsCouplings` | src/neuralmarket/research/neural_sde_internal_gate.py:242-249 | no coupling of the two samples, splitting mass in any proportions, costs less than the sorted pairing |
| `Wasserstein.SortedPairingIsACoupling` | src/neuralmarket/research/neural_sde_internal_gate.py:242-249 | the sorted pairing is itself a coupling, of exactly that cost |
| `Wasserstein.RelabelKeepsCost` | src/neuralmarket/research/neural_sde_internal_gate.py:244-245 | sorting the samples only relabels the couplings: a reordered plan between reordered samples costs the same |
| `Wasserstein.DistanceIsLeastTransport` | src/neuralmarket/research/neural_sde_internal_gate.py:242-249 | for samples of one size the function is what its documentation says, the 1-Wasserstein distance of the two samples as given: the mean cost of some coupling of them, and at most that of every coupling |
| `Wasserstein.SeparatesSizesExactlyWhen` | src/neuralmarket/research/neural_sde_internal_gate.py:242-249 | for which sample sizes zero distance means the same distribution, over all samples of those sizes: exactly when the sizes are equal or one of them is 1 |
| `Wasserstein.Symmetric` | src/neuralmarket/research/neural_sde_internal_gate.py:242-249 | the distance is symmetric, for samples of any sizes |
| `Wasserstein.Triangle` | src/neuralmarket/research/neural_sde_internal_gate.py:349-354 | under equal counts it satisfies the triangle inequality |
| `Wasserstein.ZeroIffSameSample` | src/neuralmarket/research/neural_sde_internal_gate.py:349-354 | under equal counts it is zero exactly when the samples are equal as multisets |
| `Wasserstein.BoundsMeanDifference` | src/neuralmarket/research/neural_sde_internal_gate.py:242-249 | it bounds the difference of the sample totals |
| `Bootstrap.SampleBlockBootstrap` | src/neuralmarket/baselines/bootstrap.py:87-98 | refused exactly for the stated invalid inputs; otherwise n_paths rows of exactly horizon values, value k being the observation k mod L places after the start of its block, around the end of the population |
| `Bootstrap.BlocksCover` | src/neuralmarket/baselines/bootstrap.py:92-92 | the block count is the least that covers the horizon, so truncation leaves no block unused |
| `Bootstrap.PathPosition` | src/neuralmarket/baselines/bootstrap.py:95-97 | position k of a path is the observation k mod L places after the start of block k div L, around the end of the population |
| `Bootstrap.BlockNeighbours` | src/neuralmarket/baselines/bootstrap.py:95-97 | inside a block successive values are circular neighbours |
| `Bootstrap.RotationVisitsEachOnce` | src/neuralmarket/baselines/bootstrap.py:94-97 | as a start ranges over the population every offset visits every observation exactly once |
| `Bootstrap.PositionIsUnbiased` | src/neuralmarket/baselines/bootstrap.py:94-98 | summed over the start of its block, every path position gives the population sum |
| `Bootstrap.TerminalReturnIsUnbiased` | src/neuralmarket/baselines/bootstrap.py:92-98 | over all equally likely draws of all starts the mean terminal return is the horizon times the population mean |
| `Preflight.PartitionOfPlan` | src/neuralmarket/cli/data.py:1690-1699 | at every checkpoint write each planned request is pending or completed and never both |
| `Preflight.KeepsThroughout` | src/neuralmarket/cli/data.py:1583-1704 | along a whole chain of runs every written checkpoint is consistent and keeps every earlier result and estimate unchanged |
| `Preflight.CompleteIsFinal` | src/neuralmarket/cli/data.py:1678-1699 | with nothing pending and all values from one provider function, the checkpoint is determined by plan and provider |
| `Preflight.ChainsAgree` | src/neuralmarket/cli/data.py:1575-1704 | any two chains that empty the pending list agree on every endpoint value and estimate |
| `Preflight.MetadataPreflight.Begin` | src/neuralmarket/cli/data.py:1392-1442 | a resume never starts a new generation; a fresh start has the whole plan pending |
| `Preflight.MetadataPreflight.Attempt` | src/neuralmarket/cli/data.py:1597-1668 | one attempt: a call exactly if neither crash nor deadline is due; to be retried exactly after a retryable failure that is not the last, which changes nothing; else a success or a derived cost is recorded with its own value, a terminal failure is written with its marker and loses nothing |
| `Preflight.MetadataPreflight.GiveUp` | src/neuralmarket/cli/data.py:1646-1667 | after the last failed attempt a derived cost is recorded exactly for the cost of a request whose billable size is known; otherwise the failure is written and the attempt refused |
| `Preflight.ObligingEnds` | src/neuralmarket/cli/data.py:1597-1668 | with no crash or deadline and an endpoint that answers within max_attempts, the attempts end with its result, however many retryable failures come first |
| `Preflight.MetadataPreflight.CallEndpoint` | src/neuralmarket/cli/data.py:1593-1670 | attempts go on through retryable failures and end at the first tick that is none, or at the max_attempts-th: the result then is that of this last attempt, and the number of calls made is exact; no other result changes |
| `Preflight.MetadataPreflight.Complete` | src/neuralmarket/cli/data.py:1676-1699 | a request is completed only with all three endpoints recorded, and leaves the pending list in plan order |
| `Preflight.MetadataPreflight.ProcessRequest` | src/neuralmarket/cli/data.py:1589-1699 | one pass of the request loop with all its exits; without interruption it completes or fails, and completes when every endpoint answers within the attempts |
| `Preflight.MetadataPreflight.Run` | src/neuralmarket/cli/data.py:1575-1720 | one run terminates after at most 3 * n * max_attempts calls and extends the chain; only requests in the touched prefix of the selection, at most max_requests of them, are called, recorded or completed, in a single-endpoint run only at that endpoint; every call is made before the deadline and after the earlier endpoints are on disk; an uninterrupted run completes the whole selection or fails on its last touched request; it reports complete exactly by its pending list |
| `Preflight.ChosenInPlanOrder` | src/neuralmarket/cli/data.py:1575-1577 | the selection keeps the order of the plan |
| `Preflight.MetadataPreflight.RunChain` | src/neuralmarket/cli/data.py:1411-1442 | a fresh start, over any checkpoint already there, followed by any crashed, late, failed, restricted or rejected resumes ends, once nothing is pending, exactly where one uninterrupted run ends; and nothing is pending as soon as one of these runs, the first or an accepted resume, was unrestricted and met no crash or deadline and no endpoint that does not answer within max_attempts |
| `OneShot.AtMostOneTrains` | reports/research/evidence/structured_vol_v5_replicate_training_runner.py:849-865 | in every interleaving with crashes at most one process ever starts training, the one that linked the marker, and the marker is complete from then on (both runners) |
| `OneShot.TrainingIsReached` | reports/research/evidence/structured_vol_v5_replicate_training_runner.py:849-865 | the protocol does not only refuse: a replicate process alone gets through every step and starts training |
| `OneShot.TrainingStartsBehindMarker` | reports/research/evidence/structured_vol_v5_replicate_training_runner.py:1029-1031 | when training starts a complete marker by that process is in place and no other name can change it |
| `OneShot.TrainingIsAuthorised` | reports/research/evidence/structured_vol_v5_replicate_training_runner.py:786-845 | in every run of either runner, between the last entry of a process into main and its training its dry-run, authorization, device and identity checks have succeeded |
| `OneShot.CounterNeverRefuses` | reports/research/evidence/structured_vol_v5_replicate_training_runner.py:590-595 | whoever has published the marker has not trained before, so the invocation counter never refuses |
| `OneShot.NothingLeftBehind` | reports/research/evidence/structured_vol_v5_replicate_training_runner.py:549-574 | as long as nothing crashes and no removal fails, every temporary file is that of a process still about to remove it (for the WGAN runner: and no write fails) |
| `OneShot.FailedWriteIsCleanedUp` | src/neuralmarket/research/wgan_runner.py:412-420 | after a failed write the replicate runner still removes its file; the WGAN runner, which writes outside the try block, leaves it |
| `OneShot.RunIsRecorded` | reports/research/evidence/structured_vol_v5_replicate_training_runner.py:738-865 | every run is the run of some sequence of actions |
| `OneShot.NobodyElseTrains` | reports/research/evidence/structured_vol_v5_replicate_training_runner.py:561-568 | once the marker exists no process but its owner ever trains |
| `OneShot.LaterProcessesRefuse` | reports/research/evidence/structured_vol_v5_replicate_training_runner.py:778-784 | once the report directory, the model directory or the marker exists, a process that is not past its first check never gets past it, new or called again |
| `OneShot.ReplicateMarkerIsImmutable` | reports/research/evidence/structured_vol_v5_replicate_training_runner.py:547-574 | the published marker is complete at once and its content never changes |
| `OneShot.RunKeepsHistory` | reports/research/evidence/structured_vol_v5_replicate_training_runner.py:550-565 | a published marker keeps its file and its owner for the rest of every run |
| `OneShot.StepKeepsInv` | reports/research/evidence/structured_vol_v5_replicate_training_runner.py:547-595 | every step of the protocol keeps the invariant on process ids, temporary files, ownership and the marker |
| `OneShot.WganMarkerStaysWhole` | src/neuralmarket/research/wgan_runner.py:396-421 | the WGAN marker stays complete exactly when no process opens a leftover temporary name of it |
| `OneShot.WganMarkerCanBeTorn` | src/neuralmarket/research/wgan_runner.py:412-420 | a run in which it does not |
| `EarlyStopping.EarlyStoppingState.Consider` | src/neuralmarket/research/wgan_comparator.py:127-138 | a non-finite metric is refused without a trace; otherwise it wins exactly if it is below the best metric less min_delta, and best metric, epoch and bad count follow |
| `EarlyStopping.EarlyStoppingState.ShouldStop` | src/neuralmarket/research/wgan_comparator.py:140-143 | stops exactly when the kept epoch is patience epochs back |
| `EarlyStopping.Track` | src/neuralmarket/research/wgan_comparator.py:131-138 | bad_epochs is always the number of metrics after the kept one |
| `EarlyStopping.KeepsEarliestMinimum` | src/neuralmarket/research/wgan_comparator.py:127-138 | with min_delta 0 the kept metric is the earliest minimum |
| `EarlyStopping.KeptIsWithinTolerance` | src/neuralmarket/research/wgan_comparator.py:127-138 | with min_delta not negative it is within min_delta of every metric seen |
| `EarlyStopping.NothingLaterImproves` | src/neuralmarket/research/wgan_comparator.py:131-138 | for any min_delta no metric after the kept one improves on it |
| `EarlyStopping.KeepsMinimumExactlyWhen` | src/neuralmarket/research/wgan_comparator.py:127-138 | the kept metric is the minimum on every run exactly when min_delta is zero: any other value, of either sign, misses it on some run |
| `EarlyStopping.SelectionIgnoresOrder` | src/neuralmarket/research/wgan_comparator.py:144-152 | the selected checkpoint is one that none precedes by (metric, epoch, identity), and does not depend on the order of the candidates |
| `EarlyStopping.SelectsLeast` | src/neuralmarket/research/wgan_comparator.py:152-152 | the selected checkpoint has the least metric, among those the earliest epoch, among those the alphabetically first identity |
| `EarlyStopping.BeforeExactlyWhen` | src/neuralmarket/research/wgan_comparator.py:152-152 | alphabetical order: decided at the first position where the strings differ |
| `EarlyStopping.KeepsTheSelectedCheckpoint` | src/neuralmarket/research/wgan_comparator.py:117-152 | with min_delta 0 early stopping keeps the very checkpoint that select_checkpoint picks from all epochs seen |
| `EarlyStopping.AgreesWithSelectionExactlyWhen` | src/neuralmarket/research/wgan_comparator.py:117-152 | early stopping and select_checkpoint agree on every run exactly when min_delta is zero |
| `EarlyStopping.RunEpoch` | src/neuralmarket/research/wgan_comparator.py:508-553 | an epoch makes ratio critic updates and one generator update per batch, fails exactly when one of them is not finite, and otherwise returns the sums of its losses, penalties and generator losses, each of its own sequence of values |
| `EarlyStopping.BatchesIsCeiling` | src/neuralmarket/research/wgan_comparator.py:514-515 | the batch loop runs ceil(n / batch_size) times |
| `EarlyStopping.TrainWganInternal` | src/neuralmarket/research/wgan_comparator.py:508-594 | every epoch before the last is less than patience epochs past the one kept then, and the last is not or is the cap; the returned metric and networks are those of the kept epoch; curves are the sums of the epoch values over their counts; all values on the way are finite; each error occurs exactly under its condition |
| `EarlyStopping.CriticCurveIsScaled` | src/neuralmarket/research/wgan_comparator.py:539-563 | every entry of the critic curve is ratio times the epoch's mean loss per critic update; it is that mean exactly for a ratio of 1 or a total loss of zero |
| `EarlyStopping.CurveEntries` | src/neuralmarket/research/wgan_comparator.py:559-563 | entry times count is the sum: batches for the critic and generator curves, critic updates for the penalty curve |
| `EarlyStopping.EndIsUnique` | src/neuralmarket/research/wgan_comparator.py:508-572 | a run has one ending only |
| `Common.ArgMinIsEarliestLeast` | src/neuralmarket/research/neural_sde_trainer_v3.py:353-358 | the score kept by updating on strict improvement is the earliest least one with NaN passed over; a NaN before training is never beaten |
| `TrainerV3.BestIsTheTrackersChoice` | src/neuralmarket/research/neural_sde_trainer_v3.py:353-363 | on finite totals the choice is the comparator's with min_delta 0, started before training |
| `TrainerV3.TrainInternalV3` | src/neuralmarket/research/neural_sde_trainer_v3.py:276-396 | best_total = selection_total_curve[best_epoch-1], best_rbf = selection_rbf_curve[best_epoch], the parameters are those of the best epoch; it refuses exactly when the score before training is never beaten, and fails exactly when a loss or a selection RBF is not finite |
| `TrainerV3.EndIsUnique` | src/neuralmarket/research/neural_sde_trainer_v3.py:289-363 | a run has one ending only |
| `TrainerV3.EndingsMean` | src/neuralmarket/research/neural_sde_trainer_v3.py:289-363 | ending with an epoch and breaking in it, said of losses, selection RBFs, totals and patience alone |
| `TrainerV3.UnimprovedMeans` | src/neuralmarket/research/neural_sde_trainer_v3.py:370-374 | the refusal means that no epoch scored below the score before training |
| `Adjudicator.EvaluateCriteria` | reports/research/evidence/structured_vol_v5_primary_adjudicator.py:45-139 | six entries, each recording its value and threshold and passing exactly by its own value; missing, malformed and non-finite values fail closed; the overall pass is their conjunction; a container value raises |
| `Adjudicator.PassExactlyWhen` | reports/research/evidence/structured_vol_v5_primary_adjudicator.py:79-139 | criteria 2 to 6 pass exactly when all five values are present, finite numbers and within the stated limits; anything missing or malformed fails |
| `Adjudicator.AdjudicateFromReport` | reports/research/evidence/structured_vol_v5_primary_adjudicator.py:142-166 | the six entries, the verdict and the report-only distance of a report, missing or malformed diagnostics included |
| `Adjudicator.WassersteinIsReportOnly` | reports/research/evidence/structured_vol_v5_primary_adjudicator.py:158-164 | whatever the recorded distance is, it decides nothing |
| `Adjudicator.CriteriaRestateTheGate` | src/neuralmarket/research/neural_sde_internal_gate.py:408-436 | criteria 2 to 6 read from the gate's diagnostics pass exactly when the gate passed |
| `Adjudicator.OnlyTheFrozenSpecAgrees` | reports/research/evidence/structured_vol_v5_primary_adjudicator.py:13-17 | gate and adjudicator agree on all models exactly when the gate runs with the frozen thresholds |
| `Adjudicator.FirstCriterionOfRun` | reports/research/evidence/structured_vol_v5_replicate_training_runner.py:731-732 | the two totals of the report are the scores after epoch 1 and after the best epoch; criterion 1 holds exactly when the best epoch comes after epoch 1 (with finite scores) |
| `Adjudicator.MemberPassesExactlyWhen` | reports/research/evidence/structured_vol_v5_primary_adjudicator.py:58-65 | a returned member passes the six criteria exactly when its gate passed and its best epoch came after the first |
| `Adjudicator.MemberPassesByItsScores` | reports/research/evidence/structured_vol_v5_replicate_training_runner.py:731-732 | with finite totals a returned member passes exactly when its gate passed and some epoch after the first scores strictly below epoch 1 |
| `Adjudicator.TrainerAcceptsWhatTheAdjudicatorRefuses` | src/neuralmarket/research/neural_sde_trainer_v3.py:370-374 | every returned run whose only improvement is epoch 1 satisfies the trainer's test and fails the adjudicator's |
| `Adjudicator.EveryConfigurationHasAMismatch` | src/neuralmarket/research/neural_sde_trainer_v3.py:289-374 | for every configuration that trains at all there is a run the trainer ends with and returns, whose gate passes, and which the adjudicator refuses |
| `Garch.GjrGarchVariance` | src/neuralmarket/baselines/garch.py:79-124 | the filter fails on invalid inputs only: from the initial value every variance is omega + alpha e^2 + beta h, with gamma added to alpha exactly for a return below the mean, and is positive, so the check of its own output never fires |
| `Garch.LeverageLaw` | src/neuralmarket/baselines/garch.py:115-121 | two series that differ only in the sign of one residual x have next variances gamma x^2 apart, the loss above the gain, and the gap decays by beta a day; before that they agree |
| `Garch.AdmissibleExactlyWhen` | src/neuralmarket/baselines/garch.py:68-76 | the parameter checks pass exactly when no residual and no positive variance takes the next variance below a positive omega |
| `Garch.SampleGjrGarch` | src/neuralmarket/baselines/garch.py:320-337 | the sampler accepts exactly the admissible parameters with persistence below 1, and every path follows the recursion from the long-run variance |
| `Garch.SimulatedPathSimulates` | src/neuralmarket/baselines/garch.py:325-334 | every simulated path starts from omega / (1 - persistence), its returns are the mean plus root variance times shock, and its variances follow the same recursion, leverage on losses |
| `Garch.AdvancePaths` | src/neuralmarket/baselines/garch.py:331-334 | one step writes one column of increments and replaces every path's variance by that recursion |
| `Garch.FilterRecoversSimulator` | src/neuralmarket/baselines/garch.py:115-124 | filtering a simulated path with its own parameters from the long-run variance returns the simulator's variances, all positive |
| `Garch.LongRunVarianceIsTheFixedPoint` | src/neuralmarket/baselines/garch.py:300-302 | averaged over a unit shock of either sign the variance reproduces itself exactly at the long-run variance |
| `GarchCalibration.CalibrateGjrGarch` | src/neuralmarket/baselines/garch.py:172-284 | the result is the earliest best of all grid^3 + 26 * passes points evaluated: its likelihood is the greatest of all feasible ones evaluated, so no less than at any index triple and any neighbour tried in any pass; it is within bounds and feasible, less than one grid spacing from the best grid point, accepted by the sampler, with long-run variance equal to the sample variance; and exactly when each error occurs |
| `GarchCalibration.SearchGrid` | src/neuralmarket/baselines/garch.py:220-227 | the grid loops evaluate the grid point of every index triple, grid^3 points in all, and hold the best |
| `GarchCalibration.SearchRing` | src/neuralmarket/baselines/garch.py:232-251 | a refinement pass evaluates every clipped neighbour of the point that was best when it began, and holds the best so far |
| `GarchCalibration.GridAt` | src/neuralmarket/baselines/garch.py:222-225 | the evaluated grid is the index triples in loop order, triple (i, j, k) at position i * n^2 + (j * n + k), so each exactly once |
| `GarchCalibration.LinspaceEven` | src/neuralmarket/baselines/garch.py:220-220 | neighbouring grid values are equally far apart |
| `GarchCalibration.RingCovers` | src/neuralmarket/baselines/garch.py:235-248 | a pass tries the 26 moves other than standing still |
| `GarchCalibration.NeighbourAt` | src/neuralmarket/baselines/garch.py:235-248 | each neighbour is the point of the bounds nearest to a move by -1, 0 or 1 steps in every coordinate |
| `GarchCalibration.CornersAreGridPoints` | src/neuralmarket/baselines/garch.py:183-220 | all eight corners of the bounds are grid points |
| `GarchCalibration.TargetedIsAccepted` | src/neuralmarket/baselines/garch.py:201-218 | every feasible point passes the checks of filter and sampler and targets the sample variance |
| `GarchCalibration.BestPointIsLeast` | src/neuralmarket/baselines/garch.py:222-251 | the kept point scores no worse than any evaluated and better than all before it |
| `GarchCalibration.OptimalIsLikeliest` | src/neuralmarket/baselines/garch.py:189-218 | least objective means greatest likelihood, and the objective is its negative |
| `GarchCalibration.StepsHalve` | src/neuralmarket/baselines/garch.py:231-234 | the first step is half the grid spacing in every coordinate and each later one half the one before |
| `GarchCalibration.RefinementStaysNear` | src/neuralmarket/baselines/garch.py:232-251 | after any number of passes each coordinate is within the spacing, less twice the next step, of the best grid point |
| `GarchCalibration.FeasibleInBounds` | src/neuralmarket/baselines/garch.py:183-200 | inside the bounds only the persistence limit decides feasibility |
| `GarchCalibration.EvaluatedInBounds` | src/neuralmarket/baselines/garch.py:183-187 | every point evaluated lies within the bounds |
| `GarchCalibration.FirstGridPointIsFeasible` | src/neuralmarket/baselines/garch.py:228-229 | a grid always holds a feasible point, so only the likelihood can make the search fail |
| `Splits.LastIndexOnOrBefore` | src/neuralmarket/data/calendar.py:79-83 | the last session on or before the anchor, or an error exactly if there is none |
| `Splits.FirstIndexOnOrAfter` | src/neuralmarket/data/calendar.py:86-90 | the first session on or after the anchor, or an error exactly if there is none |
| `Splits.ComputeSplits` | src/neuralmarket/data/calendar.py:107-176 | succeeds exactly when the boundary is positive and the three anchor windows hold enough sessions; the reported dates are then in order and within the anchors, with no session between one block and the next, and every count and hash is that of its block |
| `Splits.ResultInOrder` | src/neuralmarket/data/calendar.py:155-176 | start before end in every block, splits up to their anchors, blocks adjacent, counts and hashes those of the sessions between the reported dates |
| `Splits.BlocksAreContiguous` | src/neuralmarket/data/calendar.py:129-153 | training, exclusion, validation, exclusion and test are one contiguous run: all sessions from the training start to the test anchor |
| `Splits.SplitsRespectTheAnchors` | src/neuralmarket/data/calendar.py:110-113 | each split lies within its own anchors |
| `Splits.WindowsDoNotMeet` | src/neuralmarket/data/calendar.py:133-138 | sessions of different splits are more than the boundary apart, so windows within purge and embargo never share a session |
| `Splits.BoundaryIsTight` | src/neuralmarket/data/calendar.py:133-138 | windows one session wider do meet |
| `Lomo.ChangeIsScaledDeviation` | reports/research/evidence/structured_vol_v5_runtime_sensitivity_analysis.py:195-199 | each leave-one-out change is (full mean - omitted) / (n - 1) |
| `Lomo.ChangesSumToZero` | reports/research/evidence/structured_vol_v5_runtime_sensitivity_analysis.py:195-199 | the signed changes add up to zero |
| `Lomo.SquaredChangesAreTheVariance` | reports/research/evidence/structured_vol_v5_runtime_sensitivity_analysis.py:149-155 | the squared changes add up to the sample variance over n - 1 |
| `Lomo.LargestInfluenceIsExtreme` | reports/research/evidence/structured_vol_v5_runtime_sensitivity_analysis.py:222-225 | a member with the largest absolute change is a minimum or a maximum |
| `Lomo.SomeLeaderIsExtreme` | reports/research/evidence/structured_vol_v5_runtime_sensitivity_analysis.py:222-227 | for distinct members the list of leaders always holds a minimum or a maximum, so it is never empty |
| `Lomo.ScalarInfluence` | reports/research/evidence/structured_vol_v5_runtime_sensitivity_analysis.py:193-227 | every member's omission (all copies of a repeated name at once), the largest change and exactly the members within the tolerance of it, each listed once; an error exactly when some omission leaves nobody |
| `Lomo.ReportedInfluence` | reports/research/evidence/structured_vol_v5_runtime_sensitivity_analysis.py:195-227 | the relative change is taken of ratio-scale means above the tolerance in size, has the sign of the change and is the change over the size of the mean; leaders are exactly those within the tolerance of the largest |
| `Lomo.ChangeOfDistinct` | reports/research/evidence/structured_vol_v5_runtime_sensitivity_analysis.py:195-199 | for distinct members the reported change is the change studied in the laws above |
| `Lomo.ComputeFullAndLomo` | reports/research/evidence/structured_vol_v5_runtime_sensitivity_analysis.py:175-228 | the reports of all statistics, an empty order standing for the frozen family; an error exactly when a value is missing or some omission leaves nobody, the latter never for the frozen family |
| `Lomo.FamilyIsDistinct` | reports/research/evidence/structured_vol_v5_runtime_sensitivity_analysis.py:176-176 | the frozen family has distinct members, and every omission leaves somebody |
| `Ranking.StableSortArranges` | reports/research/evidence/structured_vol_v5_external_validation_harness.py:448-451 | insertion after all entries that are not greater arranges any numbers stably |
| `Ranking.ArrangementIsUnique` | reports/research/evidence/structured_vol_v5_external_validation_harness.py:448-451 | there is only one stable arrangement, so the theorems hold of the library sort |
| `Ranking.CandidateRank` | reports/research/evidence/structured_vol_v5_external_validation_harness.py:447-459 | inserted last, the candidate's rank is 1 plus the number of baselines with error not above its own, infinite errors included |
| `Ranking.RankOne` | reports/research/evidence/structured_vol_v5_external_validation_harness.py:454-456 | rank 1 means strictly below the nearest baseline |
| `Ranking.RankingsAgree` | reports/research/evidence/structured_vol_v5_external_validation_harness.py:448-457 | the full ranking without the candidate is the reported baseline ranking |
| `Ranking.ArrangedNames` | reports/research/evidence/structured_vol_v5_external_validation_harness.py:448-457 | the reported names are those of all baselines, each once, by errors that do not decrease, equal errors in the given order |
| `Ranking.FamilyBlock` | reports/research/evidence/structured_vol_v5_external_validation_harness.py:447-459 | the reported block: rank, earliest nearest baseline, baseline ranking and all errors in order, infinite ones shown as none; no baselines is an error |
| `ConfigDiff.FlattenMapping` | src/neuralmarket/data/acquisition/checkpoint_compatibility.py:57-65 | the recursive dictionary updates compute the ordered flattening, later entries overriding earlier ones |
| `ConfigDiff.FlattenIsLeafLookup` | src/neuralmarket/data/acquisition/checkpoint_compatibility.py:57-65 | with dot-free keys, looking up a dotted path is following the path |
| `ConfigDiff.JoinIsInjective` | src/neuralmarket/data/acquisition/checkpoint_compatibility.py:60-62 | dot-free paths can be read back from their dotted form |
| `ConfigDiff.FlattenKeepsLeavesOnly` | src/neuralmarket/data/acquisition/checkpoint_compatibility.py:57-65 | dot-free configurations flatten alike exactly when they have the same leaves |
| `ConfigDiff.FlattenIsInjective` | src/neuralmarket/data/acquisition/checkpoint_compatibility.py:57-65 | with no empty mapping inside they flatten alike exactly when they are equal |
| `ConfigDiff.UnflattenOfFlatten` | src/neuralmarket/data/acquisition/checkpoint_compatibility.py:57-65 | the inverse: a configuration with dot-free keys and no empty mapping is read back from its flat form |
| `ConfigDiff.FlattenOfUnflatten` | src/neuralmarket/data/acquisition/checkpoint_compatibility.py:57-65 | and every flat form in which no key leads through another is the flattening of the configuration read from it |
| `ConfigDiff.FlattenForgets` | src/neuralmarket/data/acquisition/checkpoint_compatibility.py:57-65 | two collisions: an empty mapping flattens like none, a dotted key like a path |
| `ConfigDiff.ReadBackExactlyWhen` | src/neuralmarket/data/acquisition/checkpoint_compatibility.py:57-65 | among all configurations, dotted keys and empty mappings included, exactly those with neither are read back from their flat form |
| `ConfigDiff.DiffConfigCompatibility` | src/neuralmarket/data/acquisition/checkpoint_compatibility.py:68-87 | the differing and the disallowed fields, and compatible exactly when none is disallowed |
| `ConfigDiff.CompatibleMeansSameLeaves` | src/neuralmarket/data/acquisition/checkpoint_compatibility.py:68-87 | compatible means the same leaves off the allowlist, a None leaf counting as none |
| `ConfigDiff.OnlyTheDeadlineIsFree` | src/neuralmarket/data/acquisition/checkpoint_compatibility.py:26-28 | the only path off which nothing is compared is the total run deadline of the metadata execution |
| `ConfigDiff.CompatibleOffAllowlist` | src/neuralmarket/data/acquisition/checkpoint_compatibility.py:3-8 | for configurations without dots, empty mappings or None: equal means compatible and equal on the allowlist |
| `ConfigDiff.CompatibilityIsAnEquivalence` | src/neuralmarket/data/acquisition/checkpoint_compatibility.py:68-87 | compatibility is an equivalence relation, so it carries along a chain of resumes |
| `ConfigDiff.NoneReadsAsMissing` | src/neuralmarket/data/acquisition/checkpoint_compatibility.py:80-80 | a field set to None is compatible with its absence |

## Left out

- Rounding and overflow of floats: arithmetic is over the reals, so checks that only rounding or overflow could trigger are stated as never firing; `isfinite` checks of inputs modelled as reals are not represented.
- Networks, losses, gradients, optimisers, random number generators and devices: their results are parameters of the training methods, and an epoch of the v3 trainer is finite or not as a whole, without its batch means.
- Transcendental statistics: RBF distances, Heston moments, Ljung-Box and Hill statistics, autocorrelations, standard deviations and medians.
- Garch: the Gaussian log-likelihood is an arbitrary function of the parameters, and the boundary flags and the prose fields of the calibration result are not modelled.
- Wasserstein: sorting and interpolation are functions, as in the array library; for samples of different sizes only symmetry and the meaning of distance zero are proved.
- SignatureMmd: an empty batch, whose mean is not a number, and two batches whose rows differ in width at the same level are not modelled.
- Preflight: HTTP classification, the arithmetic of the derived cost, timestamps, attempt history and the field checks on loading a checkpoint are booleans or values supplied by the environment; conversions of endpoint values to integers and decimals are not modelled, nor is a write that fails without killing the process.
- Preflight: agreement of resumed and uninterrupted chains is stated for providers that answer as a fixed function with no derived cost; derived values take part in every other property.
- OneShot: authorization, dry-run and runtime identity checks are one nondeterministic step, the marker's payload is the identity of its writer, and terminal evidence written after training is not modelled.
- OneShot: loss of file-system data in a power failure; a crash ends a process and leaves the files as they are.
- Adjudicator: integers too large for a float and the human-readable threshold strings.
- Splits: the exchange calendar is a sorted list of day numbers, hashes are an arbitrary function.
- Lomo: standard deviations, medians, extremes and coefficients of variation of the reduced families.
- Ranking: NaN errors, for which a sort has no meaning, and a candidate name that is already a baseline; the loop over the families, key normalisation and the mismatch path of the frozen-target check would only add easy members.
- ConfigDiff: keys are strings and the reported field names are a set; their sorted order and the hand-verified prior hashes are not modelled.
