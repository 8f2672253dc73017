/** Stable ranking of a candidate among the baselines of a family:
    reports/research/evidence/structured_vol_v5_external_validation_harness.py. */
module Ranking {
  import opened Common

  /** i comes before j in a stable sort: a smaller key, or an equal key met earlier. */
  predicate Precedes(keys: seq<Float>, i: nat, j: nat)
    requires i < |keys| && j < |keys|
  {
    Less(keys[i], keys[j]) || (keys[i] == keys[j] && i < j)
  }

  predicate Numbers(keys: seq<Float>) {
    forall i :: 0 <= i < |keys| ==> keys[i] != NaN
  }

  /** What a stable sort by key returns, as positions in the order of insertion. */
  predicate Arranged(keys: seq<Float>, perm: seq<nat>) {
    && |perm| == |keys|
    && (forall a :: 0 <= a < |perm| ==> perm[a] < |keys|)
    && forall a, b :: 0 <= a < b < |perm| ==> Precedes(keys, perm[a], perm[b])
  }

  lemma PrecedesIsLinear(keys: seq<Float>, i: nat, j: nat, k: nat)
    requires Numbers(keys) && i < |keys| && j < |keys| && k < |keys|
    ensures !Precedes(keys, i, i)
    ensures i == j || Precedes(keys, i, j) || Precedes(keys, j, i)
    ensures !(Precedes(keys, i, j) && Precedes(keys, j, i))
    ensures Precedes(keys, i, j) && Precedes(keys, j, k) ==> Precedes(keys, i, k)
  {
  }

  // ----- a stable sort -----

  /** The number of leading entries that do not come after i. */
  function Slot(keys: seq<Float>, perm: seq<nat>, i: nat): (p: nat)
    requires i < |keys| && forall a :: 0 <= a < |perm| ==> perm[a] < |keys|
    ensures p <= |perm|
    ensures forall a :: 0 <= a < p ==> !Less(keys[i], keys[perm[a]])
    ensures p < |perm| ==> Less(keys[i], keys[perm[p]])
  {
    if perm == [] || Less(keys[i], keys[perm[0]]) then 0 else 1 + Slot(keys, perm[1..], i)
  }

  /** Insertion from the left, each entry after all entries that are not greater. */
  function StableSort(keys: seq<Float>): (perm: seq<nat>)
    ensures |perm| == |keys| && forall a :: 0 <= a < |perm| ==> perm[a] < |keys|
  {
    if keys == [] then []
    else
      var n := |keys| - 1;
      var prior := StableSort(keys[..n]);
      var p := Slot(keys, prior, n);
      prior[..p] + [n] + prior[p..]
  }

  lemma {:induction false} StableSortArranges(keys: seq<Float>)
    requires Numbers(keys)
    ensures Arranged(keys, StableSort(keys))
  {
    if keys != [] {
      var n := |keys| - 1;
      var prior := StableSort(keys[..n]);
      StableSortArranges(keys[..n]);
      InsertArranges(keys, prior, Slot(keys, prior, n));
    }
  }

  lemma InsertArranges(keys: seq<Float>, prior: seq<nat>, p: nat)
    requires keys != [] && Numbers(keys) && Arranged(keys[..|keys| - 1], prior) && p <= |prior|
    requires forall a :: 0 <= a < p ==> !Less(keys[|keys| - 1], keys[prior[a]])
    requires p < |prior| ==> Less(keys[|keys| - 1], keys[prior[p]])
    ensures Arranged(keys, prior[..p] + [|keys| - 1] + prior[p..])
  {
    hide Less;
    var n := |keys| - 1;
    var perm := prior[..p] + [n] + prior[p..];
    forall a | 0 <= a < |prior|
      ensures if a < p then Precedes(keys, prior[a], n) else Precedes(keys, n, prior[a])
    {
      assert prior[a] < n;
      if a < p {
        NotLess(keys, prior[a], n);
      } else {
        assert a > p ==> Precedes(keys[..n], prior[p], prior[a]);
        AfterSlot(keys, prior[p], prior[a], n);
      }
    }
    forall a, b | 0 <= a < b < |perm|
      ensures Precedes(keys, perm[a], perm[b])
    {
      var x, y := if a > p then a - 1 else a, if b > p then b - 1 else b;
      if a != p && b != p {
        assert Precedes(keys[..n], prior[x], prior[y]);
      }
    }
  }

  lemma NotLess(keys: seq<Float>, i: nat, j: nat)
    requires Numbers(keys) && i < j < |keys| && !Less(keys[j], keys[i])
    ensures Precedes(keys, i, j)
  {
  }

  lemma AfterSlot(keys: seq<Float>, i: nat, j: nat, n: nat)
    requires Numbers(keys) && i < n < |keys| && j < n && Less(keys[n], keys[i])
    requires i == j || Less(keys[i], keys[j]) || keys[i] == keys[j]
    ensures Precedes(keys, n, j)
  {
  }

  // ----- ranks -----

  ghost function Predecessors(keys: seq<Float>, i: nat): set<nat>
    requires i < |keys|
  {
    set j: nat | j < |keys| && Precedes(keys, j, i)
  }

  ghost function Elements(s: seq<nat>): set<nat> {
    set x | x in s
  }

  ghost function Below(n: nat): (b: set<nat>)
    ensures |b| == n && forall j: nat :: j in b <==> j < n
  {
    if n == 0 then {} else Below(n - 1) + {n - 1}
  }

  lemma {:induction false} DistinctSize(s: seq<nat>)
    requires forall a, b :: 0 <= a < b < |s| ==> s[a] != s[b]
    ensures |Elements(s)| == |s|
  {
    if s == [] {
      assert Elements(s) == {};
    } else {
      var rest := s[1..];
      DistinctSize(rest);
      assert s[0] !in rest;
      assert Elements(s) == Elements(rest) + {s[0]};
    }
  }

  lemma ArrangedIsDistinct(keys: seq<Float>, perm: seq<nat>)
    requires Numbers(keys) && Arranged(keys, perm)
    ensures forall a, b :: 0 <= a < b < |perm| ==> perm[a] != perm[b]
    ensures forall j: nat :: j < |keys| ==> j in perm
  {
    forall a, b | 0 <= a < b < |perm|
      ensures perm[a] != perm[b]
    {
      PrecedesIsLinear(keys, perm[a], perm[b], perm[a]);
    }
    DistinctSize(perm);
    SubsetOfSameSize(Elements(perm), Below(|keys|));
    forall j: nat | j < |keys|
      ensures j in perm
    {
      assert j in Below(|keys|) && j in Elements(perm);
    }
  }

  lemma SubsetOfSameSize<T>(a: set<T>, b: set<T>)
    requires a <= b && |a| == |b|
    ensures a == b
  {
    assert |b - a| == 0;
    assert b == a + (b - a);
  }

  lemma InOrder(keys: seq<Float>, perm: seq<nat>, a: nat, b: nat)
    requires Arranged(keys, perm) && a < |perm| && b < |perm|
    ensures a < b ==> Precedes(keys, perm[a], perm[b])
  {
  }

  /** An entry's position is the number of entries that precede it. */
  lemma PositionCountsPredecessors(keys: seq<Float>, perm: seq<nat>, r: nat)
    requires Numbers(keys) && Arranged(keys, perm) && r < |perm|
    ensures r == |Predecessors(keys, perm[r])|
  {
    ArrangedIsDistinct(keys, perm);
    DistinctSize(perm[..r]);
    var before := Elements(perm[..r]);
    forall j: nat
      ensures j in before <==> j in Predecessors(keys, perm[r])
    {
      if j in before {
        var a :| 0 <= a < r && perm[a] == j;
        assert Precedes(keys, perm[a], perm[r]);
      }
      if j in Predecessors(keys, perm[r]) {
        assert j in perm;
        var a :| 0 <= a < |perm| && perm[a] == j;
        PrecedesIsLinear(keys, j, perm[r], j);
        InOrder(keys, perm, r, a);
      }
    }
    assert before == Predecessors(keys, perm[r]);
  }

  /** So there is only one stable arrangement. */
  lemma ArrangementIsUnique(keys: seq<Float>, p: seq<nat>, q: seq<nat>)
    requires Numbers(keys) && Arranged(keys, p) && Arranged(keys, q)
    ensures p == q
  {
    ArrangedIsDistinct(keys, p);
    ArrangedIsDistinct(keys, q);
    forall r | 0 <= r < |p|
      ensures p[r] == q[r]
    {
      assert p[r] in q;
      var s :| 0 <= s < |q| && q[s] == p[r];
      PositionCountsPredecessors(keys, p, r);
      PositionCountsPredecessors(keys, q, s);
    }
  }

  /** The baselines that are at least as good as the candidate. */
  ghost function AtLeastAsGood(baselines: seq<Float>, candidate: Float): set<nat> {
    set j: nat | j < |baselines| && LessEq(baselines[j], candidate)
  }

  /** Inserted last, the candidate loses every tie: its rank is one more than the number
      of baselines whose error is not greater, infinite errors included. */
  lemma CandidateRank(baselines: seq<Float>, candidate: Float, perm: seq<nat>, r: nat)
    requires Numbers(baselines + [candidate]) && Arranged(baselines + [candidate], perm)
    requires r < |perm| && perm[r] == |baselines|
    ensures r == |AtLeastAsGood(baselines, candidate)|
  {
    var keys := baselines + [candidate];
    PositionCountsPredecessors(keys, perm, r);
    PrecedesIsLinear(keys, |baselines|, |baselines|, |baselines|);
    assert Predecessors(keys, |baselines|) == AtLeastAsGood(baselines, candidate);
  }

  /** Taking the candidate out of the full ranking leaves the baselines' own ranking. */
  lemma RankingsAgree(baselines: seq<Float>, candidate: Float, perm: seq<nat>, r: nat, own: seq<nat>)
    requires Numbers(baselines + [candidate]) && Arranged(baselines + [candidate], perm)
    requires r < |perm| && perm[r] == |baselines| && Arranged(baselines, own)
    ensures perm[..r] + perm[r + 1..] == own
  {
    var keys := baselines + [candidate];
    var rest := perm[..r] + perm[r + 1..];
    ArrangedIsDistinct(keys, perm);
    forall a | 0 <= a < |rest|
      ensures rest[a] < |baselines|
    {
      assert rest[a] == perm[if a < r then a else a + 1];
    }
    forall a, b | 0 <= a < b < |rest|
      ensures Precedes(baselines, rest[a], rest[b])
    {
      var x, y := if a < r then a else a + 1, if b < r then b else b + 1;
      assert Precedes(keys, perm[x], perm[y]);
    }
    forall i | 0 <= i < |baselines|
      ensures baselines[i] != NaN
    {
      assert keys[i] == baselines[i];
    }
    ArrangementIsUnique(baselines, rest, own);
  }

  // ----- _family_block -----

  datatype RankingError = NoBaselines

  datatype Block = Block(candidateError: Float, nearestName: string, nearestError: Float, rank: nat,
                         ranking: seq<string>, allErrors: seq<Shown>)

  /** An error as reported: an infinite one is shown as none. */
  datatype Shown = Shown(name: string, error: Option<Float>)

  function ShownOf(name: string, error: Float): Shown {
    Shown(name, if error == PosInf then None else Some(error))
  }

  function ShownAll(baselines: seq<Entry>): (ss: seq<Shown>)
    ensures |ss| == |baselines|
  {
    seq(|baselines|, i requires 0 <= i < |baselines| => ShownOf(baselines[i].name, baselines[i].error))
  }

  datatype Entry = Entry(name: string, error: Float)

  function Errors(baselines: seq<Entry>): (es: seq<Float>)
    ensures |es| == |baselines|
  {
    seq(|baselines|, i requires 0 <= i < |baselines| => baselines[i].error)
  }

  function Names(baselines: seq<Entry>, perm: seq<nat>): (ns: seq<string>)
    requires forall a :: 0 <= a < |perm| ==> perm[a] < |baselines|
    ensures |ns| == |perm|
  {
    seq(|perm|, a requires 0 <= a < |perm| => baselines[perm[a]].name)
  }

  /** The names are those of all the baselines, each once, by errors that do not decrease,
      and for equal errors in the order given. */
  predicate NamesInOrder(baselines: seq<Entry>, perm: seq<nat>, names: seq<string>) {
    && |names| == |perm| == |baselines|
    && (forall a :: 0 <= a < |perm| ==> perm[a] < |baselines| && names[a] == baselines[perm[a]].name)
    && forall a, b :: 0 <= a < b < |perm| && perm[a] < |baselines| && perm[b] < |baselines| ==>
         && perm[a] != perm[b]
         && LessEq(baselines[perm[a]].error, baselines[perm[b]].error)
         && (baselines[perm[a]].error == baselines[perm[b]].error ==> perm[a] < perm[b])
  }

  lemma ArrangedNames(baselines: seq<Entry>, perm: seq<nat>)
    requires Numbers(Errors(baselines)) && Arranged(Errors(baselines), perm)
    ensures NamesInOrder(baselines, perm, Names(baselines, perm))
  {
    var errors := Errors(baselines);
    ArrangedIsDistinct(errors, perm);
    forall a, b | 0 <= a < b < |perm|
      ensures LessEq(errors[perm[a]], errors[perm[b]]) && (errors[perm[a]] == errors[perm[b]] ==> perm[a] < perm[b])
    {
      assert Precedes(errors, perm[a], perm[b]);
    }
  }

  /** The first position of an entry. */
  method IndexOf(perm: seq<nat>, i: nat) returns (r: nat)
    requires i in perm
    ensures r < |perm| && perm[r] == i && i !in perm[..r]
  {
    r := 0;
    while perm[r] != i
      invariant r < |perm| && i !in perm[..r] && i in perm[r..]
      decreases |perm| - r
    {
      r := r + 1;
    }
  }

  method FamilyBlock(baselines: seq<Entry>, candidateName: string, candidate: Float) returns (r: Result<Block, RankingError>)
    requires candidate != NaN && forall i :: 0 <= i < |baselines| ==> baselines[i].error != NaN
    ensures r.Err? <==> baselines == []
    ensures r.Ok? ==>
              && r.value.rank == 1 + |AtLeastAsGood(Errors(baselines), candidate)|
              && (r.value.rank == 1 <==> Less(candidate, r.value.nearestError))
              && (forall i :: 0 <= i < |baselines| ==> LessEq(r.value.nearestError, baselines[i].error))
              && exists i :: && 0 <= i < |baselines| && baselines[i] == Entry(r.value.nearestName, r.value.nearestError)
                             && forall k :: 0 <= k < i ==> Less(r.value.nearestError, baselines[k].error)
    ensures r.Ok? ==>
              && r.value.candidateError == candidate
              && |r.value.allErrors| == |baselines| + 1
              && r.value.allErrors[|baselines|] == ShownOf(candidateName, candidate)
              && forall i :: 0 <= i < |baselines| ==>
                   && r.value.allErrors[i].name == baselines[i].name
                   && (r.value.allErrors[i].error == None <==> baselines[i].error == PosInf)
                   && (baselines[i].error != PosInf ==> r.value.allErrors[i].error == Some(baselines[i].error))
    ensures r.Ok? ==> r.value.ranking != [] && r.value.ranking[0] == r.value.nearestName
    ensures r.Ok? ==> exists perm :: Arranged(Errors(baselines), perm) && NamesInOrder(baselines, perm, r.value.ranking)
  {
    hide StableSort;
    var errors := Errors(baselines);
    StableSortArranges(errors);
    var own := StableSort(errors);
    if own == [] {
      return Err(NoBaselines);
    }
    var all := errors + [candidate];
    StableSortArranges(all);
    var perm := StableSort(all);
    ArrangedIsDistinct(all, perm);
    assert |baselines| in perm;
    var index := IndexOf(perm, |baselines|);
    CandidateRank(errors, candidate, perm, index);
    FirstIsLeast(errors, own);
    RankOne(errors, candidate, own[0]);
    var nearest := baselines[own[0]];
    assert nearest == Entry(nearest.name, nearest.error);
    forall i | 0 <= i < |baselines|
      ensures LessEq(nearest.error, baselines[i].error) && (i < own[0] ==> Less(nearest.error, baselines[i].error))
    {
      assert errors[i] == baselines[i].error;
    }
    ArrangedNames(baselines, own);
    return Ok(Block(candidate, nearest.name, nearest.error, index + 1, Names(baselines, own),
                    ShownAll(baselines) + [ShownOf(candidateName, candidate)]));
  }

  lemma FirstIsLeast(keys: seq<Float>, perm: seq<nat>)
    requires Numbers(keys) && Arranged(keys, perm) && perm != []
    ensures forall i :: 0 <= i < |keys| ==> LessEq(keys[perm[0]], keys[i])
    ensures forall i :: 0 <= i < perm[0] ==> Less(keys[perm[0]], keys[i])
  {
    ArrangedIsDistinct(keys, perm);
    forall i | 0 <= i < |keys|
      ensures LessEq(keys[perm[0]], keys[i]) && (i < perm[0] ==> Less(keys[perm[0]], keys[i]))
    {
      assert i in perm;
      var a :| 0 <= a < |perm| && perm[a] == i;
      assert a > 0 ==> Precedes(keys, perm[0], perm[a]);
    }
  }

  /** First place means strictly below the nearest baseline. */
  lemma RankOne(baselines: seq<Float>, candidate: Float, nearest: nat)
    requires candidate != NaN && Numbers(baselines) && nearest < |baselines|
    requires forall i :: 0 <= i < |baselines| ==> LessEq(baselines[nearest], baselines[i])
    ensures |AtLeastAsGood(baselines, candidate)| == 0 <==> Less(candidate, baselines[nearest])
  {
    if Less(candidate, baselines[nearest]) {
      assert AtLeastAsGood(baselines, candidate) == {};
    } else {
      assert nearest in AtLeastAsGood(baselines, candidate);
    }
  }
}
