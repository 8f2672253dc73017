/** Chronological splits with purge and embargo: src/neuralmarket/data/calendar.py.
    Dates are day numbers. */
module Splits {
  import opened Common

  datatype Config = Config(
    trainingStart: int,
    trainingAnchor: int,
    validationAnchor: int,
    testAnchor: int,
    purge: nat,
    embargo: nat)

  function Boundary(c: Config): nat {
    c.purge + c.embargo
  }

  datatype SplitError = NoSession | ShortExclusion | EmptyBlock | OutOfOrder | TooFewSessions

  datatype Exclusion<+H> = Exclusion(start: int, end: int, count: nat, hash: H)

  datatype Split<+H> = Split(start: int, end: int, sessions: nat, hash: H)

  datatype SplitResult<+H> = SplitResult(
    training: Split<H>,
    validation: Split<H>,
    test: Split<H>,
    calendarHash: H,
    exclusions: (Exclusion<H>, Exclusion<H>))

  predicate Sorted(sessions: seq<int>) {
    forall i, j :: 0 <= i < j < |sessions| ==> sessions[i] < sessions[j]
  }

  /** How many sessions lie after one date and not after another. */
  function Between(sessions: seq<int>, after: int, until: int): (n: nat)
  {
    if sessions == [] then 0
    else Between(sessions[1..], after, until) + if after < sessions[0] <= until then 1 else 0
  }

  /** How many sessions lie on or before a date. */
  function UpTo(sessions: seq<int>, date: int): (n: nat)
    ensures n <= |sessions|
  {
    if sessions == [] then 0 else UpTo(sessions[1..], date) + if sessions[0] <= date then 1 else 0
  }

  lemma {:induction false} UpToCounts(sessions: seq<int>, date: int)
    requires Sorted(sessions)
    ensures forall i :: 0 <= i < |sessions| ==> (sessions[i] <= date <==> i < UpTo(sessions, date))
  {
    if sessions != [] {
      UpToCounts(sessions[1..], date);
      var n := UpTo(sessions[1..], date);
      forall i | 0 <= i < |sessions|
        ensures sessions[i] <= date <==> i < UpTo(sessions, date)
      {
        if i > 0 {
          assert sessions[i] == sessions[1..][i - 1];
        } else {
          assert n > 0 ==> sessions[1..][0] <= date;
        }
      }
    }
  }

  lemma {:induction false} BetweenIsDifference(sessions: seq<int>, after: int, until: int)
    ensures after <= until ==> Between(sessions, after, until) == UpTo(sessions, until) - UpTo(sessions, after)
    ensures after > until ==> Between(sessions, after, until) == 0
    ensures after > until ==> UpTo(sessions, until) <= UpTo(sessions, after)
  {
    if sessions != [] {
      BetweenIsDifference(sessions[1..], after, until);
    }
  }

  // ----- the two scanning helpers -----

  predicate IsLast(sessions: seq<int>, anchor: int, k: nat) {
    k < |sessions| && sessions[k] <= anchor && forall i :: k < i < |sessions| ==> sessions[i] > anchor
  }

  predicate IsFirst(sessions: seq<int>, anchor: int, k: nat) {
    k < |sessions| && sessions[k] >= anchor && forall i :: 0 <= i < k ==> sessions[i] < anchor
  }

  predicate AllAfter(sessions: seq<int>, anchor: int) {
    forall i :: 0 <= i < |sessions| ==> sessions[i] > anchor
  }

  predicate AllBefore(sessions: seq<int>, anchor: int) {
    forall i :: 0 <= i < |sessions| ==> sessions[i] < anchor
  }

  /** In a sorted calendar the scans find the places where the counts change. */
  lemma LastIsCount(sessions: seq<int>, date: int, k: nat)
    requires Sorted(sessions)
    ensures IsLast(sessions, date, k) ==> k + 1 == UpTo(sessions, date)
    ensures AllAfter(sessions, date) <==> UpTo(sessions, date) == 0
  {
    UpToCounts(sessions, date);
    var n := UpTo(sessions, date);
    assert n > 0 ==> sessions[0] <= date;
    assert k + 1 < n ==> sessions[k + 1] <= date;
  }

  lemma FirstIsCount(sessions: seq<int>, date: int, k: nat)
    requires Sorted(sessions)
    ensures IsFirst(sessions, date, k) ==> k == UpTo(sessions, date - 1)
    ensures AllBefore(sessions, date) <==> UpTo(sessions, date - 1) == |sessions|
  {
    UpToCounts(sessions, date - 1);
    var n := UpTo(sessions, date - 1);
    assert n < |sessions| ==> sessions[n] >= date;
    assert k < |sessions| && n < k ==> sessions[n] >= date;
  }

  method LastIndexOnOrBefore(sessions: seq<int>, anchor: int) returns (r: Result<nat, SplitError>)
    ensures r.Err? <==> AllAfter(sessions, anchor)
    ensures r.Err? ==> r.error == NoSession
    ensures r.Ok? ==> IsLast(sessions, anchor, r.value)
    ensures Sorted(sessions) ==> UpTo(sessions, anchor) == if r.Err? then 0 else r.value + 1
  {
    for index := |sessions| downto 0
      invariant forall i :: index <= i < |sessions| ==> sessions[i] > anchor
    {
      if sessions[index] <= anchor {
        if Sorted(sessions) {
          LastIsCount(sessions, anchor, index);
        }
        return Ok(index);
      }
    }
    if Sorted(sessions) {
      LastIsCount(sessions, anchor, 0);
    }
    return Err(NoSession);
  }

  method FirstIndexOnOrAfter(sessions: seq<int>, anchor: int) returns (r: Result<nat, SplitError>)
    ensures r.Err? <==> AllBefore(sessions, anchor)
    ensures r.Err? ==> r.error == NoSession
    ensures r.Ok? ==> IsFirst(sessions, anchor, r.value)
    ensures Sorted(sessions) ==> UpTo(sessions, anchor - 1) == if r.Err? then |sessions| else r.value
  {
    for index := 0 to |sessions|
      invariant forall i :: 0 <= i < index ==> sessions[i] < anchor
    {
      if sessions[index] >= anchor {
        if Sorted(sessions) {
          FirstIsCount(sessions, anchor, index);
        }
        return Ok(index);
      }
    }
    if Sorted(sessions) {
      FirstIsCount(sessions, anchor, 0);
    }
    return Err(NoSession);
  }

  method Exclude<H>(sessions: seq<int>, start: nat, count: nat, hash: seq<int> -> H)
    returns (r: Result<Exclusion<H>, SplitError>)
    ensures r.Ok? <==> count > 0 && start + count <= |sessions|
    ensures r.Err? ==> r.error == if count == 0 then EmptyBlock else ShortExclusion
    ensures r.Ok? ==> r.value == ExclusionOf(sessions[start..start + count], hash)
  {
    var from := if start < |sessions| then start else |sessions|;
    var to := if start + count < |sessions| then start + count else |sessions|;
    var block := sessions[from..to];
    if |block| != count {
      return Err(ShortExclusion);
    }
    if count == 0 {
      return Err(EmptyBlock);
    }
    return Ok(Exclusion(block[0], block[|block| - 1], count, hash(block)));
  }

  function ExclusionOf<H>(block: seq<int>, hash: seq<int> -> H): Exclusion<H>
    requires block != []
  {
    Exclusion(block[0], block[|block| - 1], |block|, hash(block))
  }

  function SplitOf<H>(block: seq<int>, hash: seq<int> -> H): Split<H>
    requires block != []
  {
    Split(block[0], block[|block| - 1], |block|, hash(block))
  }

  // ----- compute_splits -----

  /** The places where the five blocks begin and end, as counts of sessions. */
  datatype Cuts = Cuts(a: nat, b: nat, c: nat, d: nat, e: nat, f: nat)

  function CutsOf(c: Config, sessions: seq<int>): Cuts {
    var trainEnd := UpTo(sessions, c.trainingAnchor);
    var validationEnd := UpTo(sessions, c.validationAnchor);
    Cuts(UpTo(sessions, c.trainingStart - 1), trainEnd, trainEnd + Boundary(c), validationEnd,
         validationEnd + Boundary(c), UpTo(sessions, c.testAnchor))
  }

  function AtLeastTwo(n: nat): nat {
    if n < 2 then 2 else n
  }

  /** The condition on the calendar: enough sessions in each of the three windows. */
  predicate Supplies(c: Config, sessions: seq<int>) {
    var boundary := Boundary(c);
    && boundary >= 1
    && Between(sessions, c.trainingStart - 1, c.trainingAnchor) >= AtLeastTwo(boundary)
    && Between(sessions, c.trainingAnchor, c.validationAnchor) >= boundary + AtLeastTwo(boundary)
    && Between(sessions, c.validationAnchor, c.testAnchor) >= boundary + AtLeastTwo(boundary)
  }

  /** The order and size tests on the cuts. */
  predicate Fits(k: Cuts, boundary: nat) {
    && k.a + AtLeastTwo(boundary) <= k.b && k.c == k.b + boundary && k.c + AtLeastTwo(boundary) <= k.d
    && k.e == k.d + boundary && k.e + AtLeastTwo(boundary) <= k.f
  }

  lemma CutsAre(c: Config, sessions: seq<int>)
    ensures var k := CutsOf(c, sessions);
            && k.a == UpTo(sessions, c.trainingStart - 1) && k.b == UpTo(sessions, c.trainingAnchor) <= |sessions|
            && k.c == k.b + Boundary(c) && k.d == UpTo(sessions, c.validationAnchor) <= |sessions|
            && k.e == k.d + Boundary(c) && k.f == UpTo(sessions, c.testAnchor) <= |sessions|
  {
  }

  lemma FitsIsOrdered(k: Cuts, boundary: nat)
    ensures Fits(k, boundary) && boundary >= 1 ==> k.a < k.b < k.c < k.d < k.e < k.f
  {
  }

  lemma SuppliesIffFits(c: Config, sessions: seq<int>)
    ensures Supplies(c, sessions) <==> Boundary(c) >= 1 && Fits(CutsOf(c, sessions), Boundary(c))
  {
    BetweenIsDifference(sessions, c.trainingStart - 1, c.trainingAnchor);
    BetweenIsDifference(sessions, c.trainingAnchor, c.validationAnchor);
    BetweenIsDifference(sessions, c.validationAnchor, c.testAnchor);
  }

  function ResultOf<H>(sessions: seq<int>, k: Cuts, hash: seq<int> -> H): SplitResult<H>
    requires k.a < k.b < k.c < k.d < k.e < k.f <= |sessions|
  {
    SplitResult(SplitOf(sessions[k.a..k.b], hash), SplitOf(sessions[k.c..k.d], hash), SplitOf(sessions[k.e..k.f], hash),
                hash(sessions), (ExclusionOf(sessions[k.b..k.c], hash), ExclusionOf(sessions[k.d..k.e], hash)))
  }

  /** The order and size tests, and the three blocks between the exclusions. */
  method Arrange<H>(sessions: seq<int>, k: Cuts, boundary: nat, first: Exclusion<H>, second: Exclusion<H>,
                    hash: seq<int> -> H)
    returns (r: Result<SplitResult<H>, SplitError>)
    requires boundary >= 1 && k.c == k.b + boundary <= |sessions| && k.e == k.d + boundary <= |sessions|
    requires k.b >= 1 && k.d >= 1 && 1 <= k.f <= |sessions|
    requires first == ExclusionOf(sessions[k.b..k.c], hash) && second == ExclusionOf(sessions[k.d..k.e], hash)
    ensures r.Ok? <==> Fits(k, boundary)
    ensures r.Ok? ==> k.a < k.b && k.c < k.d && k.e < k.f && r.value == ResultOf(sessions, k, hash)
    ensures r.Err? ==> r.error == OutOfOrder || r.error == TooFewSessions
  {
    hide ExclusionOf, SplitOf;
    if !(k.a < k.b - 1 < k.c < k.d - 1 < k.e < k.f - 1) {
      return Err(OutOfOrder);
    }
    var training := sessions[k.a..k.b];
    var validation := sessions[k.c..k.d];
    var test := sessions[k.e..k.f];
    if |training| < boundary || |validation| < boundary || |test| < boundary {
      return Err(TooFewSessions);
    }
    return Ok(SplitResult(SplitOf(training, hash), SplitOf(validation, hash), SplitOf(test, hash),
                          hash(sessions), (first, second)));
  }

  /** The reported dates in their order: every block starts before it ends (an exclusion of
      one session at it), splits end at or before their anchors and begin after the one
      before. */
  predicate Chronological<H>(c: Config, s: SplitResult<H>) {
    && c.trainingStart <= s.training.start < s.training.end <= c.trainingAnchor
    && c.trainingAnchor < s.exclusions.0.start <= s.exclusions.0.end < s.validation.start
    && s.validation.start < s.validation.end <= c.validationAnchor
    && c.validationAnchor < s.exclusions.1.start <= s.exclusions.1.end < s.test.start
    && s.test.start < s.test.end <= c.testAnchor
  }

  /** No session lies strictly between two dates. */
  predicate Adjacent(sessions: seq<int>, before: int, after: int) {
    forall i :: 0 <= i < |sessions| ==> !(before < sessions[i] < after)
  }

  /** Each block begins at the session after the last one of the block before, the first at
      the first session from the training start on, and the last ends at the last session
      up to the test anchor; the splits end at the last sessions up to their anchors. */
  predicate Gapless<H>(c: Config, sessions: seq<int>, s: SplitResult<H>) {
    && Adjacent(sessions, c.trainingStart - 1, s.training.start)
    && Adjacent(sessions, s.training.end, c.trainingAnchor + 1)
    && Adjacent(sessions, s.training.end, s.exclusions.0.start)
    && Adjacent(sessions, s.exclusions.0.end, s.validation.start)
    && Adjacent(sessions, s.validation.end, c.validationAnchor + 1)
    && Adjacent(sessions, s.validation.end, s.exclusions.1.start)
    && Adjacent(sessions, s.exclusions.1.end, s.test.start)
    && Adjacent(sessions, s.test.end, c.testAnchor + 1)
  }

  /** The block from the session start to the session end, with its size and its hash. */
  ghost predicate IsBlock<H>(sessions: seq<int>, start: int, end: int, count: nat, h: H, hash: seq<int> -> H) {
    exists lo: nat :: && lo + count <= |sessions| && 1 <= count && h == hash(sessions[lo..lo + count])
                      && sessions[lo] == start && sessions[lo + count - 1] == end
  }

  ghost predicate ReportsBlocks<H>(c: Config, sessions: seq<int>, s: SplitResult<H>, hash: seq<int> -> H) {
    && IsBlock(sessions, s.training.start, s.training.end, s.training.sessions, s.training.hash, hash)
    && IsBlock(sessions, s.validation.start, s.validation.end, s.validation.sessions, s.validation.hash, hash)
    && IsBlock(sessions, s.test.start, s.test.end, s.test.sessions, s.test.hash, hash)
    && IsBlock(sessions, s.exclusions.0.start, s.exclusions.0.end, c.purge + c.embargo, s.exclusions.0.hash, hash)
    && IsBlock(sessions, s.exclusions.1.start, s.exclusions.1.end, c.purge + c.embargo, s.exclusions.1.hash, hash)
    && s.exclusions.0.count == s.exclusions.1.count == c.purge + c.embargo
    && s.calendarHash == hash(sessions)
  }

  lemma NeighboursAreAdjacent(sessions: seq<int>, k: nat)
    requires Sorted(sessions) && k + 1 < |sessions|
    ensures Adjacent(sessions, sessions[k], sessions[k + 1])
  {
  }

  /** At a cut: the session before it is the last up to the date, the one at it the first after. */
  lemma AtCut(sessions: seq<int>, date: int)
    requires Sorted(sessions)
    ensures var k := UpTo(sessions, date);
            && (k >= 1 ==> sessions[k - 1] <= date && Adjacent(sessions, sessions[k - 1], date + 1))
            && (k < |sessions| ==> sessions[k] > date && Adjacent(sessions, date, sessions[k]))
  {
    UpToCounts(sessions, date);
  }

  lemma Rising(sessions: seq<int>, i: nat, j: nat)
    requires Sorted(sessions) && i <= j < |sessions|
    ensures sessions[i] <= sessions[j] && (i < j ==> sessions[i] < sessions[j])
  {
  }

  /** The ordered cuts of a calendar that supplies enough sessions. */
  ghost predicate Cut(c: Config, sessions: seq<int>, k: Cuts) {
    && k == CutsOf(c, sessions) && k.a < k.b - 1 && k.b < k.c < k.d - 1 && k.d < k.e < k.f - 1 && k.f <= |sessions|
    && k.c - k.b == k.e - k.d == c.purge + c.embargo
    && k.a == UpTo(sessions, c.trainingStart - 1) && k.b == UpTo(sessions, c.trainingAnchor)
    && k.d == UpTo(sessions, c.validationAnchor) && k.f == UpTo(sessions, c.testAnchor)
  }

  lemma SuppliesCuts(c: Config, sessions: seq<int>)
    requires Supplies(c, sessions)
    ensures Cut(c, sessions, CutsOf(c, sessions))
  {
    SuppliesIffFits(c, sessions);
    CutsAre(c, sessions);
    hide UpTo, Supplies, CutsOf;
  }

  lemma CutDates(c: Config, sessions: seq<int>, k: Cuts)
    requires Sorted(sessions) && Cut(c, sessions, k)
    ensures c.trainingStart <= sessions[k.a] < sessions[k.b - 1] <= c.trainingAnchor
    ensures c.trainingAnchor < sessions[k.b] <= sessions[k.c - 1] < sessions[k.c]
    ensures sessions[k.c] < sessions[k.d - 1] <= c.validationAnchor
    ensures c.validationAnchor < sessions[k.d] <= sessions[k.e - 1] < sessions[k.e]
    ensures sessions[k.e] < sessions[k.f - 1] <= c.testAnchor
  {
    hide UpTo, CutsOf, Sorted, Adjacent;
    AtCut(sessions, c.trainingStart - 1);
    AtCut(sessions, c.trainingAnchor);
    AtCut(sessions, c.validationAnchor);
    AtCut(sessions, c.testAnchor);
    Rising(sessions, k.a, k.b - 1);
    Rising(sessions, k.b, k.c - 1);
    Rising(sessions, k.c - 1, k.c);
    Rising(sessions, k.c, k.d - 1);
    Rising(sessions, k.d, k.e - 1);
    Rising(sessions, k.e - 1, k.e);
    Rising(sessions, k.e, k.f - 1);
  }

  lemma CutGaps(c: Config, sessions: seq<int>, k: Cuts)
    requires Sorted(sessions) && Cut(c, sessions, k)
    ensures Adjacent(sessions, c.trainingStart - 1, sessions[k.a])
    ensures Adjacent(sessions, sessions[k.b - 1], c.trainingAnchor + 1)
    ensures Adjacent(sessions, sessions[k.b - 1], sessions[k.b]) && Adjacent(sessions, sessions[k.c - 1], sessions[k.c])
    ensures Adjacent(sessions, sessions[k.d - 1], c.validationAnchor + 1)
    ensures Adjacent(sessions, sessions[k.d - 1], sessions[k.d]) && Adjacent(sessions, sessions[k.e - 1], sessions[k.e])
    ensures Adjacent(sessions, sessions[k.f - 1], c.testAnchor + 1)
  {
    hide UpTo, CutsOf, Sorted, Adjacent;
    AtCut(sessions, c.trainingStart - 1);
    AtCut(sessions, c.trainingAnchor);
    AtCut(sessions, c.validationAnchor);
    AtCut(sessions, c.testAnchor);
    NeighboursAreAdjacent(sessions, k.b - 1);
    NeighboursAreAdjacent(sessions, k.c - 1);
    NeighboursAreAdjacent(sessions, k.d - 1);
    NeighboursAreAdjacent(sessions, k.e - 1);
  }

  /** The dates of the result are those of the sessions at the cuts. */
  predicate DatedBy<H>(s: SplitResult<H>, sessions: seq<int>, k: Cuts)
    requires k.a < k.b < k.c < k.d < k.e < k.f <= |sessions|
  {
    && s.training.start == sessions[k.a] && s.training.end == sessions[k.b - 1]
    && s.exclusions.0.start == sessions[k.b] && s.exclusions.0.end == sessions[k.c - 1]
    && s.validation.start == sessions[k.c] && s.validation.end == sessions[k.d - 1]
    && s.exclusions.1.start == sessions[k.d] && s.exclusions.1.end == sessions[k.e - 1]
    && s.test.start == sessions[k.e] && s.test.end == sessions[k.f - 1]
  }

  lemma ReportedSplit<H>(sessions: seq<int>, lo: nat, hi: nat, hash: seq<int> -> H, b: Split<H>)
    requires lo < hi <= |sessions| && b == SplitOf(sessions[lo..hi], hash)
    ensures b.start == sessions[lo] && b.end == sessions[hi - 1] && IsBlock(sessions, b.start, b.end, b.sessions, b.hash, hash)
  {
    assert lo + (hi - lo) == hi;
  }

  lemma ReportedExclusion<H>(sessions: seq<int>, lo: nat, hi: nat, hash: seq<int> -> H, b: Exclusion<H>, n: nat)
    requires lo < hi <= |sessions| && b == ExclusionOf(sessions[lo..hi], hash) && n == hi - lo
    ensures b.start == sessions[lo] && b.end == sessions[hi - 1] && b.count == n
    ensures IsBlock(sessions, b.start, b.end, n, b.hash, hash)
  {
    assert lo + n == hi;
  }

  lemma TrainingBlock<H>(sessions: seq<int>, k: Cuts, hash: seq<int> -> H)
    requires k.a < k.b < k.c < k.d < k.e < k.f <= |sessions|
    ensures var b := ResultOf(sessions, k, hash).training;
            && b.start == sessions[k.a] && b.end == sessions[k.b - 1]
            && IsBlock(sessions, b.start, b.end, b.sessions, b.hash, hash)
  {
    hide SplitOf, ExclusionOf, IsBlock;
    ReportedSplit(sessions, k.a, k.b, hash, ResultOf(sessions, k, hash).training);
  }

  lemma FirstExclusion<H>(sessions: seq<int>, k: Cuts, hash: seq<int> -> H, n: nat)
    requires k.a < k.b < k.c < k.d < k.e < k.f <= |sessions| && n == k.c - k.b
    ensures var b := ResultOf(sessions, k, hash).exclusions.0;
            && b.start == sessions[k.b] && b.end == sessions[k.c - 1] && b.count == n
            && IsBlock(sessions, b.start, b.end, n, b.hash, hash)
  {
    hide SplitOf, ExclusionOf, IsBlock;
    ReportedExclusion(sessions, k.b, k.c, hash, ResultOf(sessions, k, hash).exclusions.0, n);
  }

  lemma ValidationBlock<H>(sessions: seq<int>, k: Cuts, hash: seq<int> -> H)
    requires k.a < k.b < k.c < k.d < k.e < k.f <= |sessions|
    ensures var b := ResultOf(sessions, k, hash).validation;
            && b.start == sessions[k.c] && b.end == sessions[k.d - 1]
            && IsBlock(sessions, b.start, b.end, b.sessions, b.hash, hash)
  {
    hide SplitOf, ExclusionOf, IsBlock;
    ReportedSplit(sessions, k.c, k.d, hash, ResultOf(sessions, k, hash).validation);
  }

  lemma SecondExclusion<H>(sessions: seq<int>, k: Cuts, hash: seq<int> -> H, n: nat)
    requires k.a < k.b < k.c < k.d < k.e < k.f <= |sessions| && n == k.e - k.d
    ensures var b := ResultOf(sessions, k, hash).exclusions.1;
            && b.start == sessions[k.d] && b.end == sessions[k.e - 1] && b.count == n
            && IsBlock(sessions, b.start, b.end, n, b.hash, hash)
  {
    hide SplitOf, ExclusionOf, IsBlock;
    ReportedExclusion(sessions, k.d, k.e, hash, ResultOf(sessions, k, hash).exclusions.1, n);
  }

  lemma TestBlock<H>(sessions: seq<int>, k: Cuts, hash: seq<int> -> H)
    requires k.a < k.b < k.c < k.d < k.e < k.f <= |sessions|
    ensures var b := ResultOf(sessions, k, hash).test;
            && b.start == sessions[k.e] && b.end == sessions[k.f - 1]
            && IsBlock(sessions, b.start, b.end, b.sessions, b.hash, hash)
  {
    hide SplitOf, ExclusionOf, IsBlock;
    ReportedSplit(sessions, k.e, k.f, hash, ResultOf(sessions, k, hash).test);
  }

  lemma ResultBlocks<H>(c: Config, sessions: seq<int>, k: Cuts, hash: seq<int> -> H)
    requires k.a < k.b < k.c < k.d < k.e < k.f <= |sessions| && k.c - k.b == k.e - k.d == c.purge + c.embargo
    ensures DatedBy(ResultOf(sessions, k, hash), sessions, k)
    ensures ReportsBlocks(c, sessions, ResultOf(sessions, k, hash), hash)
  {
    hide *;
    CalendarHash(sessions, k, hash);
    TrainingBlock(sessions, k, hash);
    FirstExclusion(sessions, k, hash, c.purge + c.embargo);
    ValidationBlock(sessions, k, hash);
    SecondExclusion(sessions, k, hash, c.purge + c.embargo);
    TestBlock(sessions, k, hash);
    Assembled(c, sessions, k, ResultOf(sessions, k, hash), hash);
  }

  lemma CalendarHash<H>(sessions: seq<int>, k: Cuts, hash: seq<int> -> H)
    requires k.a < k.b < k.c < k.d < k.e < k.f <= |sessions|
    ensures ResultOf(sessions, k, hash).calendarHash == hash(sessions)
  {
  }

  lemma Assembled<H>(c: Config, sessions: seq<int>, k: Cuts, s: SplitResult<H>, hash: seq<int> -> H)
    requires k.a < k.b < k.c < k.d < k.e < k.f <= |sessions|
    requires s.training.start == sessions[k.a] && s.training.end == sessions[k.b - 1]
    requires s.exclusions.0.start == sessions[k.b] && s.exclusions.0.end == sessions[k.c - 1]
    requires s.validation.start == sessions[k.c] && s.validation.end == sessions[k.d - 1]
    requires s.exclusions.1.start == sessions[k.d] && s.exclusions.1.end == sessions[k.e - 1]
    requires s.test.start == sessions[k.e] && s.test.end == sessions[k.f - 1]
    requires IsBlock(sessions, s.training.start, s.training.end, s.training.sessions, s.training.hash, hash)
    requires IsBlock(sessions, s.validation.start, s.validation.end, s.validation.sessions, s.validation.hash, hash)
    requires IsBlock(sessions, s.test.start, s.test.end, s.test.sessions, s.test.hash, hash)
    requires IsBlock(sessions, s.exclusions.0.start, s.exclusions.0.end, c.purge + c.embargo, s.exclusions.0.hash, hash)
    requires IsBlock(sessions, s.exclusions.1.start, s.exclusions.1.end, c.purge + c.embargo, s.exclusions.1.hash, hash)
    requires s.exclusions.0.count == s.exclusions.1.count == c.purge + c.embargo
    requires s.calendarHash == hash(sessions)
    ensures DatedBy(s, sessions, k) && ReportsBlocks(c, sessions, s, hash)
  {
    hide IsBlock;
  }

  lemma DatesInOrder<H>(c: Config, sessions: seq<int>, k: Cuts, s: SplitResult<H>)
    requires Sorted(sessions) && Cut(c, sessions, k) && DatedBy(s, sessions, k)
    ensures Chronological(c, s) && Gapless(c, sessions, s)
  {
    hide UpTo, CutsOf, Sorted, Adjacent;
    CutDates(c, sessions, k);
    CutGaps(c, sessions, k);
  }

  lemma ResultInOrder<H>(c: Config, sessions: seq<int>, hash: seq<int> -> H)
    requires Sorted(sessions) && Supplies(c, sessions)
    ensures var k := CutsOf(c, sessions);
            && k.a < k.b < k.c < k.d < k.e < k.f <= |sessions|
            && Chronological(c, ResultOf(sessions, k, hash))
            && Gapless(c, sessions, ResultOf(sessions, k, hash))
            && ReportsBlocks(c, sessions, ResultOf(sessions, k, hash), hash)
  {
    SuppliesCuts(c, sessions);
    hide UpTo, CutsOf, Supplies, Sorted, ReportsBlocks, ResultOf, Chronological, Gapless, DatedBy;
    var k := CutsOf(c, sessions);
    ResultBlocks(c, sessions, k, hash);
    DatesInOrder(c, sessions, k, ResultOf(sessions, k, hash));
  }

  /** The splits exist exactly when the calendar supplies enough sessions in the three
      windows and the boundary is not empty: a boundary of zero sessions, which the
      configuration allows, always fails on its empty block. */
  method ComputeSplits<H>(c: Config, sessions: seq<int>, hash: seq<int> -> H)
    returns (r: Result<SplitResult<H>, SplitError>)
    requires Sorted(sessions)
    ensures r.Ok? <==> Supplies(c, sessions)
    ensures r.Ok? ==>
              var k := CutsOf(c, sessions);
              && Fits(k, Boundary(c)) && k.a < k.b < k.c < k.d < k.e < k.f
              && r.value == ResultOf(sessions, k, hash)
    ensures r.Ok? ==>
              Chronological(c, r.value) && Gapless(c, sessions, r.value) && ReportsBlocks(c, sessions, r.value, hash)
    ensures r == Err(NoSession) || r == Err(EmptyBlock) || Boundary(c) > 0
  {
    hide Supplies, Between, UpTo, Sorted, IsFirst, IsLast, ExclusionOf, ResultOf, Fits, CutsOf, Boundary, AtLeastTwo;
    hide AllAfter, AllBefore, SplitOf, Chronological, Gapless, ReportsBlocks;
    CutsAre(c, sessions);
    SuppliesIffFits(c, sessions);
    FitsIsOrdered(CutsOf(c, sessions), Boundary(c));
    var boundary := Boundary(c);
    var trainStart :- FirstIndexOnOrAfter(sessions, c.trainingStart);
    var trainEnd :- LastIndexOnOrBefore(sessions, c.trainingAnchor);
    var first :- Exclude(sessions, trainEnd + 1, boundary, hash);
    var validationStart := trainEnd + 1 + boundary;
    var validationEnd :- LastIndexOnOrBefore(sessions, c.validationAnchor);
    var second :- Exclude(sessions, validationEnd + 1, boundary, hash);
    var testStart := validationEnd + 1 + boundary;
    var testEnd :- LastIndexOnOrBefore(sessions, c.testAnchor);
    r := Arrange(sessions, Cuts(trainStart, trainEnd + 1, validationStart, validationEnd + 1, testStart, testEnd + 1),
                 boundary, first, second, hash);
    if r.Ok? {
      ResultInOrder(c, sessions, hash);
    }
  }

  // ----- what the splits are good for -----

  /** Nothing is lost and nothing is used twice: the three splits and the two exclusions
      are one contiguous run of sessions, from the start of training to the last anchor. */
  lemma BlocksAreContiguous(c: Config, sessions: seq<int>)
    requires Sorted(sessions) && Supplies(c, sessions)
    ensures var k := CutsOf(c, sessions);
            && k.a < k.b < k.c < k.d < k.e < k.f <= |sessions|
            && sessions[k.a..k.b] + sessions[k.b..k.c] + sessions[k.c..k.d] + sessions[k.d..k.e] + sessions[k.e..k.f]
               == sessions[k.a..k.f]
            && forall i :: 0 <= i < |sessions| ==> (c.trainingStart <= sessions[i] <= c.testAnchor <==> k.a <= i < k.f)
  {
    SuppliesCuts(c, sessions);
    UpToCounts(sessions, c.trainingStart - 1);
    UpToCounts(sessions, c.testAnchor);
    hide UpTo, CutsOf, Supplies, Sorted;
    var k := CutsOf(c, sessions);
    SlicesJoin(sessions, k.a, k.b, k.c);
    SlicesJoin(sessions, k.a, k.c, k.d);
    SlicesJoin(sessions, k.a, k.d, k.e);
    SlicesJoin(sessions, k.a, k.e, k.f);
  }

  lemma SlicesJoin(s: seq<int>, a: nat, b: nat, c: nat)
    requires a <= b <= c <= |s|
    ensures s[a..b] + s[b..c] == s[a..c]
  {
  }

  /** Training stays within its anchor, validation and test strictly between theirs. */
  lemma SplitsRespectTheAnchors(c: Config, sessions: seq<int>, i: nat)
    requires Sorted(sessions) && Supplies(c, sessions) && i < |sessions|
    ensures var k := CutsOf(c, sessions);
            && (k.a <= i < k.b <==> c.trainingStart <= sessions[i] <= c.trainingAnchor)
            && (k.c <= i < k.d ==> c.trainingAnchor < sessions[i] <= c.validationAnchor)
            && (k.e <= i < k.f ==> c.validationAnchor < sessions[i] <= c.testAnchor)
  {
    SuppliesIffFits(c, sessions);
    UpToCounts(sessions, c.trainingStart - 1);
    UpToCounts(sessions, c.trainingAnchor);
    UpToCounts(sessions, c.validationAnchor);
    UpToCounts(sessions, c.testAnchor);
  }

  /** Two of the three splits, the earlier one first. */
  predicate Apart(k: Cuts, i: nat, j: nat) {
    (k.a <= i < k.b && (k.c <= j < k.d || k.e <= j < k.f)) || (k.c <= i < k.d && k.e <= j < k.f)
  }

  /** Sessions of different splits are more than purge + embargo positions apart, so
      windows that look no further ahead than the purge and no further back than the
      embargo never share a session across splits. */
  lemma WindowsDoNotMeet(c: Config, sessions: seq<int>, i: nat, j: nat, ahead: nat, back: nat)
    requires Supplies(c, sessions) && Apart(CutsOf(c, sessions), i, j)
    requires ahead <= c.purge && back <= c.embargo
    ensures i + Boundary(c) < j && i + ahead < j - back
  {
    SuppliesIffFits(c, sessions);
  }

  /** The boundary is exactly as wide as configured: some window one session longer
      does meet, at the last training and the first validation session. */
  lemma BoundaryIsTight(c: Config, sessions: seq<int>, ahead: nat, back: nat)
    requires Supplies(c, sessions) && ahead + back > Boundary(c)
    ensures var k := CutsOf(c, sessions);
            exists i: nat, j: nat :: Apart(k, i, j) && i + ahead >= j - back
  {
    SuppliesIffFits(c, sessions);
    var k := CutsOf(c, sessions);
    assert Apart(k, k.b - 1, k.c);
  }
}
