/** Leave-one-member-out influence on the mean of a member family:
    reports/research/evidence/structured_vol_v5_runtime_sensitivity_analysis.py. */
module Lomo {
  import opened Common

  /** The change of the mean when member i is omitted. */
  function Change(xs: seq<real>, i: nat): real
    requires |xs| >= 2 && i < |xs|
  {
    Mean(Remove(xs, i)) - Mean(xs)
  }

  lemma MeanShift(s: real, x: real, n: real)
    requires n > 1.0
    ensures (s - x) / (n - 1.0) - s / n == (s / n - x) / (n - 1.0)
  {
    var m, d := s / n, n - 1.0;
    assert s == m * n;
    DivideSum(m, m - x, d);
  }

  lemma DivideSum(m: real, y: real, d: real)
    requires d != 0.0
    ensures (m * d + y) / d == m + y / d
  {
    assert (m * d) / d == m;
  }

  /** Omitting a member moves the mean away from it by a share 1 / (n - 1) of its
      distance from the mean. */
  lemma ChangeIsScaledDeviation(xs: seq<real>, i: nat)
    requires |xs| >= 2 && i < |xs|
    ensures Change(xs, i) == (Mean(xs) - xs[i]) / (|xs| - 1) as real
  {
    SumRemove(xs, i);
    MeanShift(Sum(xs), xs[i], |xs| as real);
  }

  function Changes(xs: seq<real>): (cs: seq<real>)
    requires |xs| >= 2
    ensures |cs| == |xs|
  {
    seq(|xs|, i requires 0 <= i < |xs| => Change(xs, i))
  }

  lemma {:induction false} SumOfDeviations(xs: seq<real>, m: real)
    ensures Sum(Deviations(xs, m)) == m * |xs| as real - Sum(xs)
  {
    if xs != [] {
      SumOfDeviations(xs[1..], m);
      assert Deviations(xs, m)[1..] == Deviations(xs[1..], m);
    }
  }

  lemma DividesAsScales(x: real, d: real)
    requires d != 0.0
    ensures x / d == Mul(1.0 / d, x)
  {
  }

  /** The signed changes of a family add up to zero. */
  lemma ChangesSumToZero(xs: seq<real>)
    requires |xs| >= 2
    ensures Sum(Changes(xs)) == 0.0
  {
    var m, d := Mean(xs), (|xs| - 1) as real;
    var ds := Deviations(xs, m);
    forall i | 0 <= i < |xs|
      ensures Changes(xs)[i] == Mul(1.0 / d, ds[i])
    {
      ChangeIsScaledDeviation(xs, i);
      DividesAsScales(ds[i], d);
    }
    SumOfMap(ds, Changes(xs), 1.0 / d);
    SumOfDeviations(xs, m);
  }

  lemma SquareOfScaled(x: real, d: real)
    requires d != 0.0
    ensures Square(x / d) == Mul(1.0 / d, Mul(1.0 / d, Square(x)))
  {
    assert x / d == (1.0 / d) * x;
    assert ((1.0 / d) * x) * ((1.0 / d) * x) == (1.0 / d) * ((1.0 / d) * (x * x));
  }

  /** The influences carry the spread of the family: their squares add up to the
      sample variance over n - 1. */
  lemma SquaredChangesAreTheVariance(xs: seq<real>)
    requires |xs| >= 2
    ensures Sum(Squares(Changes(xs))) == SampleVariance(xs) / (|xs| - 1) as real
  {
    var m, d := Mean(xs), (|xs| - 1) as real;
    var ds := Squares(Deviations(xs, m));
    var inner := seq(|xs|, i requires 0 <= i < |xs| => Mul(1.0 / d, ds[i]));
    forall i | 0 <= i < |xs|
      ensures Squares(Changes(xs))[i] == Mul(1.0 / d, inner[i])
    {
      ChangeIsScaledDeviation(xs, i);
      SquareOfScaled(m - xs[i], d);
    }
    SumOfMap(ds, inner, 1.0 / d);
    SumOfMap(inner, Squares(Changes(xs)), 1.0 / d);
    DividesAsScales(Sum(ds), d);
    DividesAsScales(SampleVariance(xs), d);
  }

  predicate IsMinimum(xs: seq<real>, i: nat)
    requires i < |xs|
  {
    forall j :: 0 <= j < |xs| ==> xs[i] <= xs[j]
  }

  predicate IsMaximum(xs: seq<real>, i: nat)
    requires i < |xs|
  {
    forall j :: 0 <= j < |xs| ==> xs[j] <= xs[i]
  }

  lemma ScaledCompare(x: real, y: real, d: real)
    requires d > 0.0
    ensures Abs(x / d) <= Abs(y / d) <==> Abs(x) <= Abs(y)
  {
    assert Abs(x / d) == Abs(x) / d && Abs(y / d) == Abs(y) / d;
    QuotientOrder(Abs(x), Abs(y), d);
  }

  lemma QuotientOrder(x: real, y: real, d: real)
    requires d > 0.0
    ensures x / d <= y / d <==> x <= y
  {
    assert (x / d) * d == x && (y / d) * d == y;
    var p, q := x / d, y / d;
    if p <= q {
      assert (q - p) * d >= 0.0;
    } else {
      assert (p - q) * d > 0.0;
    }
  }

  /** Whichever member has the largest influence is a smallest or a largest one. */
  lemma LargestInfluenceIsExtreme(xs: seq<real>, k: nat)
    requires |xs| >= 2 && k < |xs|
    requires forall i :: 0 <= i < |xs| ==> Abs(Change(xs, i)) <= Abs(Change(xs, k))
    ensures IsMinimum(xs, k) || IsMaximum(xs, k)
  {
    var d := (|xs| - 1) as real;
    var m := Mean(xs);
    forall i | 0 <= i < |xs|
      ensures Abs(m - xs[i]) <= Abs(m - xs[k])
    {
      ChangeIsScaledDeviation(xs, i);
      ChangeIsScaledDeviation(xs, k);
      ScaledCompare(m - xs[i], m - xs[k], d);
    }
    var reach := Abs(m - xs[k]);
    if xs[k] >= m {
      assert forall i :: 0 <= i < |xs| ==> Abs(m - xs[i]) <= reach;
      assert IsMaximum(xs, k);
    } else {
      assert forall i :: 0 <= i < |xs| ==> Abs(m - xs[i]) <= reach;
      assert IsMinimum(xs, k);
    }
  }

  // ----- compute_full_and_lomo -----

  /** The tie tolerance, which is also the smallest mean a relative change is taken of. */
  const TOLERANCE := 0.000000000001

  const FAMILY: seq<string> := ["v5-seed-01", "v5-seed-02", "v5-seed-04", "v5-seed-05"]

  datatype LomoError = MissingValue | NoMembersLeft

  datatype Influence = Influence(mean: real, change: real, relative: Option<real>)

  datatype Summary = Summary(mean: real, largest: real, leaders: seq<string>)

  datatype Report = Report(summary: Summary, influences: map<string, Influence>)

  /** The members other than omit; every copy of it goes. */
  function Kept(ids: seq<string>, omit: string): (kept: seq<string>)
    ensures forall id :: id in kept <==> id in ids && id != omit
  {
    if ids == [] then [] else (if ids[0] != omit then [ids[0]] else []) + Kept(ids[1..], omit)
  }

  /** Among distinct members, leaving one name out leaves out one position. */
  lemma {:induction false} KeptIsRemove(ids: seq<string>, i: nat)
    requires Distinct(ids) && i < |ids|
    ensures Kept(ids, ids[i]) == Remove(ids, i)
  {
    var rest := ids[1..];
    if i == 0 {
      KeptOthers(rest, ids[0]);
      assert Remove(ids, 0) == rest;
    } else {
      KeptIsRemove(rest, i - 1);
      assert rest[i - 1] == ids[i];
      assert Remove(ids, i) == [ids[0]] + Remove(rest, i - 1);
    }
  }

  lemma {:induction false} KeptOthers(ids: seq<string>, omit: string)
    requires forall i :: 0 <= i < |ids| ==> ids[i] != omit
    ensures Kept(ids, omit) == ids
  {
    if ids != [] {
      KeptOthers(ids[1..], omit);
    }
  }

  predicate Known(ids: seq<string>, values: map<string, real>) {
    forall id :: id in ids ==> id in values
  }

  function Values(ids: seq<string>, values: map<string, real>): (xs: seq<real>)
    requires Known(ids, values)
    ensures |xs| == |ids|
  {
    seq(|ids|, i requires 0 <= i < |ids| => values[ids[i]])
  }

  /** The mean of the members kept when id is omitted. */
  function OmittedMean(ids: seq<string>, values: map<string, real>, id: string): real
    requires Known(ids, values) && Kept(ids, id) != []
  {
    Mean(Values(Kept(ids, id), values))
  }

  function ChangeOf(ids: seq<string>, values: map<string, real>, id: string): real
    requires Known(ids, values) && id in ids && Kept(ids, id) != []
  {
    OmittedMean(ids, values, id) - Mean(Values(ids, values))
  }

  /** For distinct members this is the change studied above. */
  lemma ChangeOfDistinct(ids: seq<string>, values: map<string, real>, i: nat)
    requires Known(ids, values) && Distinct(ids) && i < |ids| && |ids| >= 2
    ensures Kept(ids, ids[i]) != [] && ChangeOf(ids, values, ids[i]) == Change(Values(ids, values), i)
  {
    hide Mean, Kept, Values, Remove;
    KeptIsRemove(ids, i);
    ValuesRemove(ids, values, i);
  }

  lemma ValuesRemove(ids: seq<string>, values: map<string, real>, i: nat)
    requires Known(ids, values) && i < |ids|
    ensures Known(Remove(ids, i), values)
    ensures Values(Remove(ids, i), values) == Remove(Values(ids, values), i)
  {
    assert forall k :: 0 <= k < |ids| - 1 ==> Remove(ids, i)[k] == ids[if k < i then k else k + 1];
  }

  /** Some omission leaves nobody: there is no member, or only one name. */
  predicate Collapses(ids: seq<string>) {
    ids == [] || exists id :: id in ids && Kept(ids, id) == []
  }

  lemma DistinctCollapses(ids: seq<string>)
    requires Distinct(ids)
    ensures Collapses(ids) <==> |ids| < 2
  {
    if |ids| == 1 {
      assert ids[0] in ids && Kept(ids, ids[0]) == [] by {
        KeptIsRemove(ids, 0);
      }
    } else if |ids| >= 2 {
      forall id | id in ids
        ensures Kept(ids, id) != []
      {
        var i :| 0 <= i < |ids| && ids[i] == id;
        KeptIsRemove(ids, i);
      }
    }
  }

  function Relative(change: real, mean: real, ratioScale: bool): Option<real> {
    if ratioScale && Abs(mean) > TOLERANCE then Some(change / Abs(mean)) else None
  }

  function InfluenceOf(ids: seq<string>, values: map<string, real>, id: string, ratioScale: bool): Influence
    requires Known(ids, values) && id in ids && Kept(ids, id) != []
  {
    Influence(OmittedMean(ids, values, id), ChangeOf(ids, values, id),
              Relative(ChangeOf(ids, values, id), Mean(Values(ids, values)), ratioScale))
  }

  predicate Leading(change: real, largest: real) {
    Abs(Abs(change) - largest) < TOLERANCE
  }

  /** largest is the largest absolute change among these members. */
  ghost predicate IsLargest(among: seq<string>, influences: map<string, Influence>, largest: real) {
    && (forall id :: id in among && id in influences ==> Abs(influences[id].change) <= largest)
    && exists id :: id in among && id in influences && Abs(influences[id].change) == largest
  }

  /** What the report of one statistic says about the family. */
  ghost predicate Describes(r: Report, ids: seq<string>, values: map<string, real>, ratioScale: bool)
    requires Known(ids, values) && !Collapses(ids)
  {
    && r.summary.mean == Mean(Values(ids, values))
    && (forall id :: id in r.influences <==> id in ids)
    && (forall id :: id in ids ==> id in r.influences && r.influences[id] == InfluenceOf(ids, values, id, ratioScale))
    && IsLargest(ids, r.influences, r.summary.largest)
    && Distinct(r.summary.leaders)
    && (forall id :: id in r.summary.leaders ==> id in ids)
    && forall id :: id in ids && id in r.influences ==>
         (id in r.summary.leaders <==> Leading(r.influences[id].change, r.summary.largest))
  }

  /** One statistic: every omission, then the leaders within the tolerance. */
  method ScalarInfluence(ids: seq<string>, values: map<string, real>, ratioScale: bool)
    returns (r: Result<Report, LomoError>)
    requires Known(ids, values)
    ensures r.Err? <==> Collapses(ids)
    ensures r.Err? ==> r.error == NoMembersLeft
    ensures r.Ok? ==> Describes(r.value, ids, values, ratioScale)
  {
    hide Mean, Relative, Kept, Values, Abs;
    if ids == [] {
      return Err(NoMembersLeft);
    }
    var mean := Mean(Values(ids, values));
    var influences: map<string, Influence> := map[];
    for i := 0 to |ids|
      invariant forall id :: id in influences <==> id in ids[..i]
      invariant forall id :: id in ids[..i] ==>
                  Kept(ids, id) != [] && influences[id] == InfluenceOf(ids, values, id, ratioScale)
    {
      var kept := Kept(ids, ids[i]);
      if kept == [] {
        return Err(NoMembersLeft);
      }
      var omitted := Mean(Values(kept, values));
      var change := omitted - mean;
      influences := influences[ids[i] := Influence(omitted, change, Relative(change, mean, ratioScale))];
      assert ids[..i + 1] == ids[..i] + [ids[i]];
    }
    assert ids[..|ids|] == ids;
    var largest := LargestChange(ids, influences);
    var leaders := Leaders(ids, influences, largest);
    return Ok(Report(Summary(mean, largest, leaders), influences));
  }

  method LargestChange(ids: seq<string>, influences: map<string, Influence>) returns (largest: real)
    requires ids != [] && forall id :: id in ids ==> id in influences
    ensures IsLargest(ids, influences, largest)
  {
    hide Abs;
    largest := Abs(influences[ids[0]].change);
    for i := 1 to |ids|
      invariant IsLargest(ids[..i], influences, largest)
    {
      assert ids[..i + 1] == ids[..i] + [ids[i]];
      if Abs(influences[ids[i]].change) > largest {
        largest := Abs(influences[ids[i]].change);
      }
    }
    assert ids[..|ids|] == ids;
  }

  method Leaders(ids: seq<string>, influences: map<string, Influence>, largest: real) returns (leaders: seq<string>)
    requires forall id :: id in ids ==> id in influences
    ensures Distinct(leaders) && forall id :: id in leaders ==> id in ids
    ensures forall id :: id in ids ==> (id in leaders <==> Leading(influences[id].change, largest))
  {
    hide Leading;
    leaders := [];
    for i := 0 to |ids|
      invariant Distinct(leaders) && forall id :: id in leaders ==> id in ids[..i]
      invariant forall id :: id in leaders ==> Leading(influences[id].change, largest)
      invariant forall id :: id in ids[..i] ==> (id in leaders <==> Leading(influences[id].change, largest))
    {
      assert ids[..i + 1] == ids[..i] + [ids[i]];
      if Leading(influences[ids[i]].change, largest) && ids[i] !in leaders {
        leaders := leaders + [ids[i]];
      }
    }
    assert ids[..|ids|] == ids;
  }

  /** The list of leaders is never empty: in a family of distinct members, one with a
      smallest or a largest value is always on it. */
  lemma SomeLeaderIsExtreme(r: Report, ids: seq<string>, values: map<string, real>, ratioScale: bool)
    requires Known(ids, values) && !Collapses(ids) && Distinct(ids) && Describes(r, ids, values, ratioScale)
    ensures exists k :: && 0 <= k < |ids| && ids[k] in r.summary.leaders
                        && (IsMinimum(Values(ids, values), k) || IsMaximum(Values(ids, values), k))
  {
    hide Change, ChangeOf, OmittedMean, Kept, IsMinimum, IsMaximum, Collapses;
    DistinctCollapses(ids);
    var xs := Values(ids, values);
    var top :| top in ids && top in r.influences && Abs(r.influences[top].change) == r.summary.largest;
    var k :| 0 <= k < |ids| && ids[k] == top;
    ChangeOfDistinct(ids, values, k);
    forall i | 0 <= i < |xs|
      ensures Abs(Change(xs, i)) <= Abs(Change(xs, k))
    {
      ChangeOfDistinct(ids, values, i);
      assert ids[i] in ids;
      assert r.influences[ids[i]] == InfluenceOf(ids, values, ids[i], ratioScale);
    }
    LargestInfluenceIsExtreme(xs, k);
    assert Leading(r.influences[top].change, r.summary.largest);
  }

  /** What a report says of one member: the change is that of the mean, a relative change is
      taken of a ratio-scale mean that is not too small, has the sign of the change and
      gives it back times the size of the mean, and leaders are those whose absolute
      change is less than the tolerance below the largest. */
  lemma ReportedInfluence(r: Report, ids: seq<string>, values: map<string, real>, ratioScale: bool, id: string)
    requires Known(ids, values) && !Collapses(ids) && Describes(r, ids, values, ratioScale) && id in ids
    ensures id in r.influences && Kept(ids, id) != []
    ensures var m, x := r.summary.mean, r.influences[id];
            && Mul(x.mean, |Kept(ids, id)| as real) == Sum(Values(Kept(ids, id), values))
            && x.change == x.mean - m
            && (x.relative.Some? <==> ratioScale && (m > 0.000000000001 || m < -0.000000000001))
            && (x.relative.Some? ==> Mul(x.relative.value, Abs(m)) == x.change)
            && (x.relative.Some? ==> (x.relative.value > 0.0 <==> x.change > 0.0))
            && (id in r.summary.leaders <==> Abs(x.change) > r.summary.largest - 0.000000000001)
  {
    hide Kept, Values, Sum, Mean, Relative, Leading, Mul, Abs;
    var m, x := r.summary.mean, r.influences[id];
    assert x == InfluenceOf(ids, values, id, ratioScale);
    MeanTimesCount(Values(Kept(ids, id), values));
    RelativeMeans(x.change, m, ratioScale);
    LeadingMeans(x.change, r.summary.largest);
  }

  lemma MeanTimesCount(xs: seq<real>)
    requires xs != []
    ensures Mul(Mean(xs), |xs| as real) == Sum(xs)
  {
  }

  lemma RelativeMeans(change: real, mean: real, ratioScale: bool)
    ensures var rel := Relative(change, mean, ratioScale);
            && (rel.Some? <==> ratioScale && (mean > 0.000000000001 || mean < -0.000000000001))
            && (rel.Some? ==> Mul(rel.value, Abs(mean)) == change && (rel.value > 0.0 <==> change > 0.0))
  {
    if Relative(change, mean, ratioScale).Some? {
      Rescaled(change, Abs(mean));
    }
  }

  lemma LeadingMeans(change: real, largest: real)
    ensures Abs(change) <= largest ==> (Leading(change, largest) <==> Abs(change) > largest - 0.000000000001)
  {
  }

  lemma Rescaled(x: real, d: real)
    requires d > 0.0
    ensures Mul(x / d, d) == x && (x / d > 0.0 <==> x > 0.0)
  {
    if x > 0.0 {
      assert x / d > 0.0;
    }
    if x / d > 0.0 {
      MulNonNegative(x / d, d);
      assert x == (x / d) * d;
    }
  }

  /** The frozen family is one of distinct members, so the laws above apply to it and no
      omission from it leaves nobody. */
  lemma FamilyIsDistinct()
    ensures Distinct(FAMILY) && !Collapses(FAMILY)
  {
    assert forall i :: 0 <= i < |FAMILY| ==> |FAMILY[i]| == 10 && FAMILY[i][9] == "1245"[i];
    DistinctCollapses(FAMILY);
  }

  /** All statistics of the family; an empty order stands for the frozen family, for
      which only a missing value is an error. */
  method ComputeFullAndLomo(members: map<string, map<string, real>>, order: seq<string>, scalars: seq<string>,
                            ratioScale: set<string>)
    returns (r: Result<map<string, Report>, LomoError>)
    ensures r.Ok? ==>
              var ids := if order == [] then FAMILY else order;
              forall s :: s in scalars ==>
                && HasValues(members, ids, s) && !Collapses(ids) && s in r.value
                && Describes(r.value[s], ids, Column(members, ids, s), s in ratioScale)
    ensures r.Err? <==>
              var ids := if order == [] then FAMILY else order;
              scalars != [] && (Collapses(ids) || exists s :: s in scalars && !HasValues(members, ids, s))
    ensures order == [] ==> r != Err(NoMembersLeft)
  {
    hide Describes, HasValues, Column, Collapses;
    FamilyIsDistinct();
    var ids := if order == [] then FAMILY else order;
    var reports: map<string, Report> := map[];
    for n := 0 to |scalars|
      invariant n > 0 ==> !Collapses(ids)
      invariant forall s :: s in scalars[..n] ==>
                  && HasValues(members, ids, s) && s in reports
                  && Describes(reports[s], ids, Column(members, ids, s), s in ratioScale)
    {
      var s := scalars[n];
      assert s in scalars;
      if !HasValues(members, ids, s) {
        return Err(MissingValue);
      }
      var report :- ScalarInfluence(ids, Column(members, ids, s), s in ratioScale);
      reports := reports[s := report];
      assert scalars[..n + 1] == scalars[..n] + [s];
    }
    assert scalars[..|scalars|] == scalars;
    return Ok(reports);
  }

  predicate HasValues(members: map<string, map<string, real>>, ids: seq<string>, scalar: string) {
    forall id :: id in ids ==> id in members && scalar in members[id]
  }

  function Column(members: map<string, map<string, real>>, ids: seq<string>, scalar: string): (c: map<string, real>)
    requires HasValues(members, ids, scalar)
    ensures Known(ids, c) && forall id :: id in ids ==> c[id] == members[id][scalar]
  {
    map id | id in ids :: members[id][scalar]
  }
}
