/** The internal gate's pass/fail criteria, the runner's report fields and the primary
    adjudicator that reads them:
    src/neuralmarket/research/neural_sde_internal_gate.py,
    reports/research/evidence/structured_vol_v5_replicate_training_runner.py and
    reports/research/evidence/structured_vol_v5_primary_adjudicator.py. */
module Adjudicator {
  import opened Common
  import TrainerV3

  /** A value of a loaded report. */
  datatype Json = Null | Text(text: string) | Bool(bool) | Num(number: Float) | List(items: seq<Json>)
                | Dict(fields: map<string, Json>)

  // ----- the gate -----

  datatype GateSpec = GateSpec(
    varianceLo: real, varianceHi: real,
    dispersionLo: real, dispersionHi: real,
    uniquenessMin: real,
    acf1Max: real,
    driftMax: real)

  /** The thresholds of configs/research/neural_sde_internal_gate_v2.yaml. */
  const FROZEN: GateSpec := GateSpec(0.5, 2.0, 0.5, 2.0, 0.99, 0.25, 0.5)

  /** The statistics the gate decides on; uniqueness is a quotient of two counts. */
  datatype GateMetrics = GateMetrics(
    variance: Float,
    dispersion: Float,
    uniqueness: real,
    acf1: Float,
    drift: Float)

  predicate Within(lo: real, x: Float, hi: real) {
    x.Fin? && lo <= x.value <= hi
  }

  predicate AtMost(x: Float, hi: real) {
    x.Fin? && x.value <= hi
  }

  predicate GatePassed(spec: GateSpec, m: GateMetrics) {
    && Within(spec.varianceLo, m.variance, spec.varianceHi)
    && Within(spec.dispersionLo, m.dispersion, spec.dispersionHi)
    && m.uniqueness >= spec.uniquenessMin
    && AtMost(m.acf1, spec.acf1Max)
    && AtMost(m.drift, spec.driftMax)
  }

  /** The diagnostics carry these five statistics, among others. */
  predicate Carries(diagnostics: map<string, Json>, m: GateMetrics) {
    && Holds(diagnostics, "variance_ratio", Num(m.variance))
    && Holds(diagnostics, "terminal_dispersion_ratio", Num(m.dispersion))
    && Holds(diagnostics, "path_uniqueness_fraction", Num(Fin(m.uniqueness)))
    && Holds(diagnostics, "return_acf1_abs_diff", Num(m.acf1))
    && Holds(diagnostics, "drift_diffusion_rms_ratio", Num(m.drift))
  }

  predicate Holds(d: map<string, Json>, key: string, value: Json) {
    key in d && d[key] == value
  }

  // ----- the adjudicator -----

  datatype Threshold = Range(lo: real, hi: real) | AtLeast(lo: real) | UpTo(hi: real)

  datatype Criterion = Criterion(name: string, key: string, threshold: Threshold)

  const CRITERIA: seq<Criterion> := [
    Criterion("criterion_2", "variance_ratio", Range(0.5, 2.0)),
    Criterion("criterion_3", "terminal_dispersion_ratio", Range(0.5, 2.0)),
    Criterion("criterion_4", "path_uniqueness_fraction", AtLeast(0.99)),
    Criterion("criterion_5", "return_acf1_abs_diff", UpTo(0.25)),
    Criterion("criterion_6", "drift_diffusion_rms_ratio", UpTo(0.5))]

  /** What is recorded about a criterion: the comparison of two totals, or one
      diagnostic against its threshold. */
  datatype Entry =
    | Comparison(initial: Json, best: Json, valueOk: bool, pass: bool)
    | Measured(key: string, value: Json, threshold: Threshold, valueOk: bool, pass: bool)

  datatype Verdict = Verdict(entries: map<string, Entry>, pass: bool)

  /** A list or a dictionary cannot be looked up in the set of forbidden values. */
  datatype AdjudicationError = Unhashable

  predicate IsFiniteNumeric(v: Json) {
    v.Num? && v.number.Fin?
  }

  predicate Meets(threshold: Threshold, x: real) {
    match threshold
    case Range(lo, hi) => lo <= x <= hi
    case AtLeast(lo) => x >= lo
    case UpTo(hi) => x <= hi
  }

  predicate Usable(c: Criterion, diagnostics: map<string, Json>) {
    c.key in diagnostics && IsFiniteNumeric(diagnostics[c.key])
  }

  predicate Passes(c: Criterion, diagnostics: map<string, Json>) {
    Usable(c, diagnostics) && Meets(c.threshold, diagnostics[c.key].number.value)
  }

  predicate Crashes(c: Criterion, diagnostics: map<string, Json>) {
    c.key in diagnostics && (diagnostics[c.key].List? || diagnostics[c.key].Dict?)
  }

  predicate FirstCriterion(initial: Json, best: Json) {
    IsFiniteNumeric(initial) && IsFiniteNumeric(best) && best.number.value < initial.number.value
  }

  function Compared(initial: Json, best: Json): Entry {
    Comparison(initial, best, IsFiniteNumeric(initial) && IsFiniteNumeric(best), FirstCriterion(initial, best))
  }

  ghost predicate AllPass(criteria: seq<Criterion>, diagnostics: map<string, Json>) {
    forall c :: c in criteria ==> Passes(c, diagnostics)
  }

  ghost predicate SomeCrashes(criteria: seq<Criterion>, diagnostics: map<string, Json>) {
    exists c :: c in criteria && Crashes(c, diagnostics)
  }

  ghost predicate Names(criteria: seq<Criterion>, first: string) {
    && (forall i, j :: 0 <= i < j < |criteria| ==> criteria[i].name != criteria[j].name)
    && forall i :: 0 <= i < |criteria| ==> criteria[i].name != first
  }

  /** The entries: the first criterion's, and one for each of the others. */
  ghost predicate Records(entries: map<string, Entry>, first: string, firstEntry: Entry, criteria: seq<Criterion>,
                          diagnostics: map<string, Json>) {
    && |entries| == |criteria| + 1
    && first in entries && entries[first] == firstEntry
    && forall c :: c in criteria ==> c.name in entries && Judges(entries[c.name], c, diagnostics)
  }

  /** The placeholder stands for a value that is not there, and never passes. */
  function Lookup(diagnostics: map<string, Json>, key: string): Json {
    if key in diagnostics then diagnostics[key] else Text("__MISSING__")
  }

  predicate Judges(entry: Entry, c: Criterion, diagnostics: map<string, Json>) {
    && entry.Measured? && entry.key == c.key && entry.threshold == c.threshold
    && entry.value == Lookup(diagnostics, c.key)
    && (entry.valueOk <==> Usable(c, diagnostics)) && (entry.pass <==> Passes(c, diagnostics))
  }

  method EvaluateOne(c: Criterion, diagnostics: map<string, Json>) returns (r: Result<Entry, AdjudicationError>)
    ensures r.Err? <==> Crashes(c, diagnostics)
    ensures r.Ok? ==> Judges(r.value, c, diagnostics)
  {
    var raw := Lookup(diagnostics, c.key);
    if raw == Text("__MISSING__") {
      return Ok(Measured(c.key, raw, c.threshold, false, false));
    }
    if raw.List? || raw.Dict? {
      return Err(Unhashable);
    }
    if raw == Null || raw == Text("null") || raw == Text("not_in_diagnostics") || !IsFiniteNumeric(raw) {
      return Ok(Measured(c.key, raw, c.threshold, false, false));
    }
    return Ok(Measured(c.key, raw, c.threshold, true, Meets(c.threshold, raw.number.value)));
  }

  lemma RecordsOneMore(entries: map<string, Entry>, first: string, firstEntry: Entry, criteria: seq<Criterion>,
                       diagnostics: map<string, Json>, k: nat, entry: Entry)
    requires Names(criteria, first) && k < |criteria|
    requires Records(entries, first, firstEntry, criteria[..k], diagnostics)
    requires entries.Keys <= {first} + set i | 0 <= i < k :: criteria[i].name
    requires Judges(entry, criteria[k], diagnostics)
    ensures Records(entries[criteria[k].name := entry], first, firstEntry, criteria[..k + 1], diagnostics)
  {
    hide Judges;
    var c := criteria[k];
    var after := entries[c.name := entry];
    SizeOneMore(entries, c.name, entry) by {
      assert c.name !in entries;
    }
    assert criteria[..k + 1] == criteria[..k] + [c];
    forall d | d in criteria[..k + 1]
      ensures d.name in after && Judges(after[d.name], d, diagnostics)
    {
      assert d == c || (d in criteria[..k] && d.name != c.name);
    }
  }

  lemma SizeOneMore(entries: map<string, Entry>, name: string, entry: Entry)
    requires name !in entries
    ensures |entries[name := entry]| == |entries| + 1
  {
    var after := entries[name := entry];
    assert after.Keys == entries.Keys + {name};
    assert |after| == |after.Keys| && |entries| == |entries.Keys|;
  }

  /** The loop over the criteria that read the diagnostics. */
  method EvaluateAll(criteria: seq<Criterion>, diagnostics: map<string, Json>, first: string, firstEntry: Entry)
    returns (r: Result<Verdict, AdjudicationError>)
    requires Names(criteria, first)
    ensures r.Err? <==> SomeCrashes(criteria, diagnostics)
    ensures r.Ok? ==> Records(r.value.entries, first, firstEntry, criteria, diagnostics)
    ensures r.Ok? ==> (r.value.pass <==> firstEntry.pass && AllPass(criteria, diagnostics))
  {
    hide Passes, Usable, Crashes;
    var entries := map[first := firstEntry];
    assert |entries| == |entries.Keys|;
    var allPass := firstEntry.pass;
    for k := 0 to |criteria|
      invariant forall i :: 0 <= i < k ==> !Crashes(criteria[i], diagnostics)
      invariant Records(entries, first, firstEntry, criteria[..k], diagnostics)
      invariant entries.Keys <= {first} + set i | 0 <= i < k :: criteria[i].name
      invariant allPass <==> firstEntry.pass && forall i :: 0 <= i < k ==> Passes(criteria[i], diagnostics)
    {
      var entry := EvaluateOne(criteria[k], diagnostics);
      if entry.Err? {
        return Err(entry.error);
      }
      RecordsOneMore(entries, first, firstEntry, criteria, diagnostics, k, entry.value);
      entries := entries[criteria[k].name := entry.value];
      if !entry.value.pass {
        allPass := false;
      }
    }
    assert criteria[..|criteria|] == criteria;
    return Ok(Verdict(entries, allPass));
  }

  /** All six entries are always filled in; a missing, malformed or non-finite value
      fails its own criterion and no other, and a container stops the adjudication. */
  method EvaluateCriteria(diagnostics: map<string, Json>, initial: Json, best: Json)
    returns (r: Result<Verdict, AdjudicationError>)
    ensures r.Err? <==> SomeCrashes(CRITERIA, diagnostics)
    ensures r.Ok? ==>
              Records(r.value.entries, "criterion_1", Compared(initial, best), CRITERIA, diagnostics)
    ensures r.Ok? ==> (r.value.pass <==> FirstCriterion(initial, best) && AllPass(CRITERIA, diagnostics))
  {
    hide SomeCrashes, Records, AllPass, Names;
    NamesDiffer();
    var ok := IsFiniteNumeric(initial) && IsFiniteNumeric(best);
    var pass := ok && best.number.value < initial.number.value;
    r := EvaluateAll(CRITERIA, diagnostics, "criterion_1", Comparison(initial, best, ok, pass));
  }

  lemma NamesDiffer()
    ensures Names(CRITERIA, "criterion_1")
  {
    assert forall i :: 0 <= i < |CRITERIA| ==> |CRITERIA[i].name| == 11 && CRITERIA[i].name[10] == "23456"[i];
  }

  predicate HasNumber(diagnostics: map<string, Json>, key: string) {
    key in diagnostics && diagnostics[key].Num? && diagnostics[key].number.Fin?
  }

  function NumberOf(diagnostics: map<string, Json>, key: string): real
    requires HasNumber(diagnostics, key)
  {
    diagnostics[key].number.value
  }

  /** Fail-closed, for any diagnostics: criteria 2 to 6 pass exactly when all five values
      are there, are finite numbers and lie within their limits. */
  lemma PassExactlyWhen(diagnostics: map<string, Json>)
    ensures AllPass(CRITERIA, diagnostics) <==>
              && HasNumber(diagnostics, "variance_ratio") && 0.5 <= NumberOf(diagnostics, "variance_ratio") <= 2.0
              && HasNumber(diagnostics, "terminal_dispersion_ratio")
              && 0.5 <= NumberOf(diagnostics, "terminal_dispersion_ratio") <= 2.0
              && HasNumber(diagnostics, "path_uniqueness_fraction")
              && NumberOf(diagnostics, "path_uniqueness_fraction") >= 0.99
              && HasNumber(diagnostics, "return_acf1_abs_diff")
              && NumberOf(diagnostics, "return_acf1_abs_diff") <= 0.25
              && HasNumber(diagnostics, "drift_diffusion_rms_ratio")
              && NumberOf(diagnostics, "drift_diffusion_rms_ratio") <= 0.5
  {
    if AllPass(CRITERIA, diagnostics) {
      assert Passes(CRITERIA[0], diagnostics) && Passes(CRITERIA[1], diagnostics);
      assert Passes(CRITERIA[2], diagnostics) && Passes(CRITERIA[3], diagnostics) && Passes(CRITERIA[4], diagnostics);
    }
  }

  function Get(report: map<string, Json>, key: string): Json {
    if key in report then report[key] else Null
  }

  function DiagnosticsOf(report: map<string, Json>): map<string, Json> {
    if "gate_diagnostics" in report && report["gate_diagnostics"].Dict? then report["gate_diagnostics"].fields
    else map[]
  }

  ghost predicate SixPass(report: map<string, Json>) {
    && FirstCriterion(Get(report, "initial_selection_total"), Get(report, "best_selection_total"))
    && AllPass(CRITERIA, DiagnosticsOf(report))
  }

  ghost predicate CannotAdjudicate(report: map<string, Json>) {
    SomeCrashes(CRITERIA, DiagnosticsOf(report))
  }

  /** The distance is passed on for the record. */
  datatype Adjudication = Adjudication(verdict: Verdict, wasserstein: Json)

  const WASSERSTEIN: string := "terminal_wasserstein_normalized"

  method AdjudicateFromReport(report: map<string, Json>) returns (r: Result<Adjudication, AdjudicationError>)
    ensures r.Err? <==> CannotAdjudicate(report)
    ensures r.Ok? ==>
              && (r.value.verdict.pass <==> SixPass(report))
              && r.value.wasserstein == Get(DiagnosticsOf(report), WASSERSTEIN)
              && var first := Compared(Get(report, "initial_selection_total"), Get(report, "best_selection_total"));
                 Records(r.value.verdict.entries, "criterion_1", first, CRITERIA, DiagnosticsOf(report))
  {
    hide Records, Compared;
    var verdict :- EvaluateCriteria(DiagnosticsOf(report), Get(report, "initial_selection_total"),
                                    Get(report, "best_selection_total"));
    return Ok(Adjudication(verdict, Get(DiagnosticsOf(report), WASSERSTEIN)));
  }

  /** Whatever the recorded distance is, even malformed, it decides nothing. */
  lemma WassersteinIsReportOnly(diagnostics: map<string, Json>, distance: Json)
    ensures AllPass(CRITERIA, diagnostics[WASSERSTEIN := distance]) <==> AllPass(CRITERIA, diagnostics)
    ensures SomeCrashes(CRITERIA, diagnostics[WASSERSTEIN := distance]) <==> SomeCrashes(CRITERIA, diagnostics)
  {
    var other := diagnostics[WASSERSTEIN := distance];
    assert forall i :: 0 <= i < |CRITERIA| ==> CRITERIA[i].key[0] != WASSERSTEIN[0] || |CRITERIA[i].key| != |WASSERSTEIN|;
    forall c | c in CRITERIA
      ensures (Passes(c, other) <==> Passes(c, diagnostics)) && (Crashes(c, other) <==> Crashes(c, diagnostics))
    {
      assert c.key != WASSERSTEIN;
    }
  }

  // ----- gate and adjudicator -----

  /** Criteria 2 to 6 of the adjudicator, read from the gate's own diagnostics, pass
      exactly when the frozen gate does. */
  lemma CriteriaRestateTheGate(diagnostics: map<string, Json>, m: GateMetrics)
    requires Carries(diagnostics, m)
    ensures AllPass(CRITERIA, diagnostics) <==> GatePassed(FROZEN, m)
    ensures !SomeCrashes(CRITERIA, diagnostics)
  {
    if AllPass(CRITERIA, diagnostics) {
      assert Passes(CRITERIA[0], diagnostics) && Passes(CRITERIA[1], diagnostics);
      assert Passes(CRITERIA[2], diagnostics) && Passes(CRITERIA[3], diagnostics) && Passes(CRITERIA[4], diagnostics);
    }
  }

  /** The adjudicator's constants are copies: whenever the gate is run with any other
      thresholds, some model is judged differently by the two. */
  lemma OnlyTheFrozenSpecAgrees(spec: GateSpec)
    ensures (forall m :: GatePassed(spec, m) <==> GatePassed(FROZEN, m)) <==> spec == FROZEN
  {
    if forall m :: GatePassed(spec, m) <==> GatePassed(FROZEN, m) {
      var ok := GateMetrics(Fin(1.0), Fin(1.0), 1.0, Fin(0.0), Fin(0.0));
      assert GatePassed(FROZEN, ok) && GatePassed(spec, ok);
      assert GatePassed(spec, ok.(variance := Fin(0.5))) && GatePassed(spec, ok.(variance := Fin(2.0)));
      assert GatePassed(FROZEN, ok.(variance := Fin(spec.varianceLo)));
      assert GatePassed(FROZEN, ok.(variance := Fin(spec.varianceHi)));
      assert GatePassed(spec, ok.(dispersion := Fin(0.5))) && GatePassed(spec, ok.(dispersion := Fin(2.0)));
      assert GatePassed(FROZEN, ok.(dispersion := Fin(spec.dispersionLo)));
      assert GatePassed(FROZEN, ok.(dispersion := Fin(spec.dispersionHi)));
      assert GatePassed(spec, ok.(uniqueness := 0.99)) && GatePassed(FROZEN, ok.(uniqueness := spec.uniquenessMin));
      assert GatePassed(spec, ok.(acf1 := Fin(0.25))) && GatePassed(FROZEN, ok.(acf1 := Fin(spec.acf1Max)));
      assert GatePassed(spec, ok.(drift := Fin(0.5))) && GatePassed(FROZEN, ok.(drift := Fin(spec.driftMax)));
    }
  }

  // ----- the runner's report -----

  /** The runner calls the first entry of the total curve initial, and that entry is
      the score after epoch 1; the score before training is not reported. */
  function InitialTotal<N>(o: TrainerV3.Outcome<N>): Json {
    if o.selectionTotal != [] then Num(o.selectionTotal[0]) else Null
  }

  function BestTotal<N>(o: TrainerV3.Outcome<N>): Json {
    if 0 < o.bestEpoch <= |o.selectionTotal| then Num(o.selectionTotal[o.bestEpoch - 1]) else Null
  }

  /** The report of a member: these three fields, among others. */
  predicate Reports<N>(report: map<string, Json>, o: TrainerV3.Outcome<N>, m: GateMetrics) {
    && Holds(report, "initial_selection_total", InitialTotal(o))
    && Holds(report, "best_selection_total", BestTotal(o))
    && "gate_diagnostics" in report && report["gate_diagnostics"].Dict?
    && Carries(report["gate_diagnostics"].fields, m)
  }

  /** What a returned run looks like, as the trainer's method guarantees it. */
  predicate Returned<N>(t: TrainerV3.Training<N>, c: TrainerV3.Config, o: TrainerV3.Outcome<N>) {
    && o.finalEpoch >= 1 && TrainerV3.Finishes(t, c, o.finalEpoch)
    && [t.score(0).total] + o.selectionTotal == TrainerV3.Totals(t, o.finalEpoch)
    && 1 <= o.bestEpoch == ArgMin(TrainerV3.Totals(t, o.finalEpoch))
  }

  /** Criterion 1 compares the best epoch with epoch 1. */
  lemma FirstCriterionOfRun<N>(t: TrainerV3.Training<N>, c: TrainerV3.Config, o: TrainerV3.Outcome<N>)
    requires Returned(t, c, o)
    ensures InitialTotal(o) == Num(t.score(1).total) && BestTotal(o) == Num(t.score(o.bestEpoch).total)
    ensures FirstCriterion(InitialTotal(o), BestTotal(o)) <==>
              o.bestEpoch > 1 && o.selectionTotal[0].Fin? && o.selectionTotal[o.bestEpoch - 1].Fin?
  {
    var all := TrainerV3.Totals(t, o.finalEpoch);
    assert all[1] == o.selectionTotal[0] && all[o.bestEpoch] == o.selectionTotal[o.bestEpoch - 1];
    ArgMinIsEarliestLeast(all, 1);
  }

  /** A member passes the six criteria exactly when its gate passed and its best epoch
      came after the first one (given a finite score after epoch 1 and a finite best
      one, as every run with finite totals has). */
  lemma MemberPassesExactlyWhen<N>(t: TrainerV3.Training<N>, c: TrainerV3.Config, o: TrainerV3.Outcome<N>,
                                   m: GateMetrics, report: map<string, Json>)
    requires Returned(t, c, o) && Reports(report, o, m)
    ensures !CannotAdjudicate(report)
    ensures SixPass(report) <==>
              && o.bestEpoch > 1 && o.selectionTotal[0].Fin? && o.selectionTotal[o.bestEpoch - 1].Fin?
              && GatePassed(FROZEN, m)
  {
    FirstCriterionOfRun(t, c, o);
    CriteriaRestateTheGate(report["gate_diagnostics"].fields, m);
  }

  /** The score of every epoch that ran is a number. */
  ghost predicate FiniteTotals<N>(t: TrainerV3.Training<N>, n: nat) {
    forall e :: 1 <= e <= n ==> t.score(e).total.Fin?
  }

  /** Read off the scores: some epoch after the first scores strictly below epoch 1. */
  ghost predicate BeatsFirstEpoch<N>(t: TrainerV3.Training<N>, n: nat) {
    exists e :: 2 <= e <= n && Less(t.score(e).total, t.score(1).total)
  }

  /** The condition on the best epoch as one on the scores: with finite totals a returned
      member passes exactly when its gate passed and a later epoch beats epoch 1. */
  lemma MemberPassesByItsScores<N>(t: TrainerV3.Training<N>, c: TrainerV3.Config, o: TrainerV3.Outcome<N>,
                                   m: GateMetrics, report: map<string, Json>)
    requires Returned(t, c, o) && Reports(report, o, m) && FiniteTotals(t, o.finalEpoch)
    ensures SixPass(report) <==> GatePassed(FROZEN, m) && BeatsFirstEpoch(t, o.finalEpoch)
  {
    hide GatePassed, SixPass, Reports, ArgMin;
    MemberPassesExactlyWhen(t, c, o, m, report);
    var all := TrainerV3.Totals(t, o.finalEpoch);
    forall e | 1 <= e <= o.finalEpoch
      ensures o.selectionTotal[e - 1] == t.score(e).total == all[e]
    {
      assert ([t.score(0).total] + o.selectionTotal)[e] == o.selectionTotal[e - 1];
    }
    ArgMinIsEarliestLeast(all, 1);
    if BeatsFirstEpoch(t, o.finalEpoch) {
      var e :| 2 <= e <= o.finalEpoch && Less(t.score(e).total, t.score(1).total);
      ArgMinIsEarliestLeast(all, e);
    }
  }

  /** The trainer's own test compares with the score before training, so it returns
      runs that criterion 1 must fail: those that epoch 1 improves and no later one does. */
  lemma TrainerAcceptsWhatTheAdjudicatorRefuses<N>(t: TrainerV3.Training<N>, c: TrainerV3.Config,
                                                   o: TrainerV3.Outcome<N>, m: GateMetrics, report: map<string, Json>)
    requires Returned(t, c, o) && Reports(report, o, m)
    requires Less(t.score(1).total, t.score(0).total)
    requires forall e :: 2 <= e <= o.finalEpoch ==> !Less(t.score(e).total, t.score(1).total)
    ensures Less(o.selectionTotal[o.bestEpoch - 1], t.score(0).total)
    ensures o.bestEpoch == 1 && !SixPass(report)
  {
    var all := TrainerV3.Totals(t, o.finalEpoch);
    assert all[o.bestEpoch] == o.selectionTotal[o.bestEpoch - 1] && all[1] == t.score(1).total;
    ArgMinIsEarliestLeast(all, 1);
    ArgMinIsEarliestLeast(all, 0);
    MemberPassesExactlyWhen(t, c, o, m, report);
  }

  /** A run whose score drops after epoch 1 and stays there. */
  function Plateau<N>(params: nat -> N): TrainerV3.Training<N> {
    TrainerV3.Training(_ => true, e => TrainerV3.Score(Fin(0.0), Fin(if e == 0 then 1.0 else 0.0)), params)
  }

  /** Where it ends: when the patience runs out, or at the cap. */
  function PlateauEnd(c: TrainerV3.Config): nat
    requires c.maxEpochs >= 1
  {
    var patient := if c.patience >= 1 then 1 + c.patience else 2;
    if patient < c.maxEpochs then patient else c.maxEpochs
  }

  lemma {:induction false} PlateauBest<N>(params: nat -> N, n: nat)
    requires n >= 1
    ensures ArgMin(TrainerV3.Totals(Plateau(params), n)) == 1
  {
    TrainerV3.TotalsGrow(Plateau(params), n - 1);
    if n > 1 {
      PlateauBest(params, n - 1);
    }
  }

  /** Such runs exist for every configuration that trains at all: the trainer ends and
      returns, the gate passes, and the adjudicator refuses the member. */
  lemma EveryConfigurationHasAMismatch<N>(c: TrainerV3.Config, params: nat -> N)
    returns (t: TrainerV3.Training<N>, o: TrainerV3.Outcome<N>, m: GateMetrics, report: map<string, Json>)
    requires c.maxEpochs >= 1
    ensures TrainerV3.Finishes(t, c, o.finalEpoch) && Returned(t, c, o) && Reports(report, o, m)
    ensures Less(o.bestTotal, t.score(0).total) && GatePassed(FROZEN, m) && !SixPass(report)
  {
    t := Plateau(params);
    var n := PlateauEnd(c);
    var totals, rbfs := TrainerV3.Totals(t, n), TrainerV3.Rbfs(t, n);
    o := TrainerV3.Outcome(Fin(0.0), Fin(0.0), Fin(0.0), 1, n, rbfs, totals[1..], params(1));
    m := GateMetrics(Fin(1.0), Fin(1.0), 1.0, Fin(0.0), Fin(0.0));
    report := ReportOf(o, m);
    PlateauBest(params, n);
    assert [t.score(0).total] + totals[1..] == totals;
    forall e | 1 <= e <= n
      ensures TrainerV3.EpochFine(t, e) && (TrainerV3.Stops(t, c.patience, e) <==> e >= 2 && e - 1 >= c.patience)
    {
      PlateauBest(params, e);
    }
    assert TrainerV3.Finishes(t, c, n);
    ReportReports(o, m);
    TrainerAcceptsWhatTheAdjudicatorRefuses(t, c, o, m, report);
  }

  function DiagnosticsFor(m: GateMetrics): map<string, Json> {
    map["variance_ratio" := Num(m.variance), "terminal_dispersion_ratio" := Num(m.dispersion),
        "path_uniqueness_fraction" := Num(Fin(m.uniqueness)), "return_acf1_abs_diff" := Num(m.acf1),
        "drift_diffusion_rms_ratio" := Num(m.drift)]
  }

  function ReportOf<N>(o: TrainerV3.Outcome<N>, m: GateMetrics): map<string, Json> {
    map["initial_selection_total" := InitialTotal(o), "best_selection_total" := BestTotal(o),
        "gate_diagnostics" := Dict(DiagnosticsFor(m))]
  }

  lemma ReportReports<N>(o: TrainerV3.Outcome<N>, m: GateMetrics)
    ensures Reports(ReportOf(o, m), o, m)
  {
  }
}
