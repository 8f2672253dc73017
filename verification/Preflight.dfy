/** The resumable metadata preflight of src/neuralmarket/cli/data.py: the
    request / endpoint / attempt loops of pilot_prepare over a checkpoint that is
    written to disk after every recorded result, and any chain of crashed,
    interrupted and resumed runs of it. */
module Preflight {
  import opened Common

  type Id = nat
  type Value = int

  datatype Endpoint = RecordCount | BillableSize | Cost

  const ENDPOINTS: seq<Endpoint> := [RecordCount, BillableSize, Cost]

  datatype Estimate = Estimate(recordCount: Value, billableSize: Value, cost: Value)

  type Results = map<Endpoint, Value>

  /** The persistent part of MetadataCheckpoint. */
  datatype Checkpoint = Checkpoint(
    pending: seq<Id>,
    results: map<Id, Results>,
    completed: map<Id, Estimate>,
    failed: Option<(Id, Endpoint)>)

  function Recorded(c: Checkpoint, id: Id): Results {
    if id in c.results then c.results[id] else map[]
  }

  predicate AllRecorded(r: Results) {
    RecordCount in r && BillableSize in r && Cost in r
  }

  function EstimateOf(r: Results): Estimate
    requires AllRecorded(r)
  {
    Estimate(r[RecordCount], r[BillableSize], r[Cost])
  }

  /** The plan without the requests in done, in plan order. */
  function Remaining(plan: seq<Id>, done: set<Id>): (r: seq<Id>)
    ensures forall id :: id in r <==> id in plan && id !in done
  {
    if plan == [] then []
    else if plan[0] in done then Remaining(plan[1..], done)
    else [plan[0]] + Remaining(plan[1..], done)
  }

  function Without(s: seq<Id>, id: Id): seq<Id> {
    if s == [] then [] else if s[0] == id then s[1..] else [s[0]] + Without(s[1..], id)
  }

  lemma {:induction false} WithoutRemaining(plan: seq<Id>, done: set<Id>, id: Id)
    requires Distinct(plan) && id !in done
    ensures Without(Remaining(plan, done), id) == Remaining(plan, done + {id})
  {
    if plan != [] {
      if plan[0] == id {
        assert id !in plan[1..];
        RemainingUnaffected(plan[1..], done, id);
      } else {
        WithoutRemaining(plan[1..], done, id);
      }
    }
  }

  lemma {:induction false} RemainingUnaffected(plan: seq<Id>, done: set<Id>, id: Id)
    requires id !in plan
    ensures Remaining(plan, done) == Remaining(plan, done + {id})
  {
    if plan != [] {
      RemainingUnaffected(plan[1..], done, id);
    }
  }

  lemma {:induction false} RemainingDistinct(plan: seq<Id>, done: set<Id>)
    requires Distinct(plan)
    ensures Distinct(Remaining(plan, done)) && |Remaining(plan, done)| <= |plan|
  {
    if plan != [] {
      RemainingDistinct(plan[1..], done);
    }
  }

  lemma {:induction false} NothingDone(plan: seq<Id>)
    ensures Remaining(plan, {}) == plan
  {
    if plan != [] {
      NothingDone(plan[1..]);
    }
  }

  // ----- what a checkpoint on disk always satisfies -----

  /** Pending and completed partition the plan, in plan order; a completed request
      has all three endpoints recorded and its estimate is what they say. */
  ghost predicate Consistent(plan: seq<Id>, c: Checkpoint) {
    && c.completed.Keys <= (set id | id in plan)
    && c.pending == Remaining(plan, c.completed.Keys)
    && c.results.Keys <= (set id | id in plan)
    && forall id :: id in c.completed ==>
         AllRecorded(Recorded(c, id)) && c.completed[id] == EstimateOf(Recorded(c, id))
  }

  lemma {:induction false} RemainingCounts(plan: seq<Id>, done: set<Id>)
    requires Distinct(plan) && done <= set id | id in plan
    ensures |Remaining(plan, done)| + |done| == |plan|
    decreases plan
  {
    if plan == [] {
      assert done == {};
    } else {
      var rest := plan[1..];
      assert plan[0] !in rest;
      if plan[0] in done {
        var fewer := done - {plan[0]};
        RemainingCounts(rest, fewer);
        RemainingUnaffected(rest, fewer, plan[0]);
        assert fewer + {plan[0]} == done;
      } else {
        RemainingCounts(rest, done);
      }
    }
  }

  /** At every checkpoint write each planned request is pending or completed, never both. */
  lemma PartitionOfPlan(plan: seq<Id>, writes: seq<Checkpoint>, k: nat)
    requires Distinct(plan) && Chain(plan, writes) && k < |writes|
    ensures forall id :: id in plan ==> (id in writes[k].pending <==> id !in writes[k].completed)
    ensures |writes[k].pending| + |writes[k].completed| == |plan|
  {
    KeepsThroughout(plan, writes, k, k);
    var c := writes[k];
    RemainingCounts(plan, c.completed.Keys);
    assert |c.completed| == |c.completed.Keys|;
  }

  function Fresh(plan: seq<Id>): Checkpoint {
    Checkpoint(plan, map[], map[], None)
  }

  lemma FreshConsistent(plan: seq<Id>)
    ensures Consistent(plan, Fresh(plan)) && Chain(plan, [Fresh(plan)])
  {
    NothingDone(plan);
    assert Fresh(plan).completed.Keys == {};
  }

  /** Every result recorded in c is still there, unchanged, in c'. */
  ghost predicate Keeps(c: Checkpoint, c': Checkpoint) {
    && (forall id, e :: e in Recorded(c, id) ==> e in Recorded(c', id) && Recorded(c', id)[e] == Recorded(c, id)[e])
    && (forall id :: id in c.completed ==> id in c'.completed && c'.completed[id] == c.completed[id])
  }

  /** One checkpoint write after another within a chain. */
  ghost predicate Follows(plan: seq<Id>, c: Checkpoint, c': Checkpoint) {
    Consistent(plan, c') && Keeps(c, c')
  }

  ghost predicate Chain(plan: seq<Id>, writes: seq<Checkpoint>) {
    && |writes| >= 1
    && Consistent(plan, writes[0])
    && forall k :: 1 <= k < |writes| ==> Follows(plan, writes[k - 1], writes[k])
  }

  type Provider = (Id, Endpoint) -> Value

  ghost predicate AllFrom(provider: Provider, c: Checkpoint) {
    forall id, e :: e in Recorded(c, id) ==> Recorded(c, id)[e] == provider(id, e)
  }

  lemma {:induction false} KeepsThroughout(plan: seq<Id>, writes: seq<Checkpoint>, i: nat, j: nat)
    requires Chain(plan, writes) && i <= j < |writes|
    ensures Consistent(plan, writes[j]) && Keeps(writes[i], writes[j])
    decreases j - i
  {
    if i < j {
      KeepsThroughout(plan, writes, i, j - 1);
      assert Follows(plan, writes[j - 1], writes[j]);
    } else if j > 0 {
      assert Follows(plan, writes[j - 1], writes[j]);
    }
  }

  /** What every complete preflight of this plan has to end with. */
  ghost predicate IsFinal(plan: seq<Id>, provider: Provider, c: Checkpoint) {
    && c.pending == []
    && c.completed == (map id | id in plan ::
         Estimate(provider(id, RecordCount), provider(id, BillableSize), provider(id, Cost)))
    && forall id :: Recorded(c, id) ==
         if id in plan then map[RecordCount := provider(id, RecordCount),
                                BillableSize := provider(id, BillableSize),
                                Cost := provider(id, Cost)]
         else map[]
  }

  lemma OnlyThree(r: Results)
    requires AllRecorded(r)
    ensures r == map[RecordCount := r[RecordCount], BillableSize := r[BillableSize], Cost := r[Cost]]
  {
    var m := map[RecordCount := r[RecordCount], BillableSize := r[BillableSize], Cost := r[Cost]];
    forall e
      ensures e in r <==> e in m
    {
      match e
      case RecordCount =>
      case BillableSize =>
      case Cost =>
    }
  }

  /** A consistent checkpoint with nothing pending, whose values all come from one
      provider function, is determined by the plan and the provider. */
  lemma CompleteIsFinal(plan: seq<Id>, provider: Provider, c: Checkpoint)
    requires Consistent(plan, c) && AllFrom(provider, c) && c.pending == []
    ensures IsFinal(plan, provider, c)
  {
    forall id | id in plan
      ensures id in c.completed
    {
      assert id !in Remaining(plan, c.completed.Keys);
    }
    forall id
      ensures Recorded(c, id) ==
         if id in plan then map[RecordCount := provider(id, RecordCount),
                                BillableSize := provider(id, BillableSize),
                                Cost := provider(id, Cost)]
         else map[]
    {
      if id in plan {
        assert AllRecorded(Recorded(c, id));
        OnlyThree(Recorded(c, id));
      }
    }
    assert c.completed.Keys == set id | id in plan;
  }

  ghost predicate SameResults(c: Checkpoint, c': Checkpoint) {
    forall id :: Recorded(c, id) == Recorded(c', id)
  }

  /** Any two chains over the same plan and provider that empty the pending list
      agree on every endpoint value and every estimate. */
  lemma ChainsAgree(plan: seq<Id>, provider: Provider, a: seq<Checkpoint>, b: seq<Checkpoint>)
    requires Chain(plan, a) && Chain(plan, b)
    requires AllFrom(provider, a[|a| - 1]) && AllFrom(provider, b[|b| - 1])
    requires a[|a| - 1].pending == [] && b[|b| - 1].pending == []
    ensures a[|a| - 1].completed == b[|b| - 1].completed
    ensures SameResults(a[|a| - 1], b[|b| - 1])
  {
    KeepsThroughout(plan, a, |a| - 1, |a| - 1);
    KeepsThroughout(plan, b, |b| - 1, |b| - 1);
    CompleteIsFinal(plan, provider, a[|a| - 1]);
    CompleteIsFinal(plan, provider, b[|b| - 1]);
  }

  // ----- the environment -----

  /** The answer to one isolated metadata call. A terminal failure may come with a
      derived cost; the source asks for one only for the cost endpoint, and only
      once the billable size is recorded. */
  datatype Answer = Success(value: Value) | Failure(retryable: bool, derived: Option<Value>)

  /** What the world does at one tick: kill the process, report the run deadline
      as passed, or answer a call. */
  datatype Tick = Tick(crash: bool, deadline: bool, answer: (Id, Endpoint) -> Answer)

  type Environment = nat -> Tick

  /** The provider's answers are a fixed function and no derived fallback fires. */
  ghost predicate Honest(env: Environment, provider: Provider) {
    forall t, id, e :: HonestAt(Reply(env, t, id, e), provider(id, e))
  }

  ghost predicate HonestAt(a: Answer, v: Value) {
    match a
    case Success(w) => w == v
    case Failure(_, derived) => derived == None
  }

  function Reply(env: Environment, t: nat, id: Id, e: Endpoint): Answer {
    env(t).answer(id, e)
  }

  predicate Quiet(env: Environment, t: nat) {
    !env(t).crash && !env(t).deadline
  }

  /** The call at tick t fails in a way that is worth another attempt. */
  predicate Retried(env: Environment, t: nat, id: Id, e: Endpoint) {
    Quiet(env, t) && Reply(env, t, id, e).Failure? && Reply(env, t, id, e).retryable
  }

  /** What a call leaves to be recorded: the provider's value, or for the cost of a
      request whose billable size is known the derived one. */
  function Obtained(env: Environment, t: nat, id: Id, e: Endpoint, sized: bool): Option<Value> {
    match Reply(env, t, id, e)
    case Success(v) => Some(v)
    case Failure(_, derived) => if e == Cost && sized then derived else None
  }

  /** Of at most n attempts from tick first on, the one at tick t is the last: all before
      it are to be retried, and it is not, or it is the n-th. */
  ghost predicate Settles(env: Environment, id: Id, e: Endpoint, first: nat, n: nat, t: nat) {
    && first <= t < first + n
    && (forall k :: first <= k < t ==> Retried(env, k, id, e))
    && (t == first + n - 1 || !Retried(env, t, id, e))
  }

  lemma SettlesOnce(env: Environment, id: Id, e: Endpoint, first: nat, n: nat, t: nat, u: nat)
    requires Settles(env, id, e, first, n, t) && Settles(env, id, e, first, n, u)
    ensures t == u
  {
  }

  /** How the attempts for an endpoint end, by what happens at the last one. */
  ghost predicate EndsAs(s: EndpointStatus, env: Environment, id: Id, e: Endpoint, t: nat, sized: bool, r: Results) {
    match s
    case Done => Quiet(env, t) && e in r && Obtained(env, t, id, e, sized) == Some(r[e])
    case OutOfTime => !env(t).crash && env(t).deadline
    case Refused => Quiet(env, t) && Obtained(env, t, id, e, sized) == None
    case Killed => env(t).crash || env(t + 1).crash
    case Retry => false
  }

  /** No crash, no deadline, and every endpoint answers within n attempts. */
  ghost predicate Obliging(env: Environment, n: nat) {
    Peaceful(env) && forall first, id, e :: Answers(env, id, e, first, n)
  }

  ghost predicate Peaceful(env: Environment) {
    forall t :: Quiet(env, t)
  }

  ghost predicate Answers(env: Environment, id: Id, e: Endpoint, first: nat, n: nat) {
    exists t :: Settles(env, id, e, first, n, t) && Reply(env, t, id, e).Success?
  }

  /** With an obliging world the last attempt is the one that is answered. */
  lemma ObligingEnds(env: Environment, id: Id, e: Endpoint, first: nat, n: nat, t: nat, s: EndpointStatus, sized: bool,
                     r: Results)
    ensures Obliging(env, n) ==> n >= 1
    ensures Obliging(env, n) && Settles(env, id, e, first, n, t) && EndsAs(s, env, id, e, t, sized, r) ==> s == Done
  {
    if Obliging(env, n) {
      assert Answers(env, id, e, first, n);
      var u :| Settles(env, id, e, first, n, u) && Reply(env, u, id, e).Success?;
      if Settles(env, id, e, first, n, t) {
        SettlesOnce(env, id, e, first, n, t, u);
        assert Quiet(env, t) && Quiet(env, t + 1);
      }
    }
  }

  /** In a peaceful world the attempts end with a result or with a refusal. */
  lemma PeacefulEnds(env: Environment, id: Id, e: Endpoint, t: nat, s: EndpointStatus, sized: bool, r: Results)
    ensures Peaceful(env) && EndsAs(s, env, id, e, t, sized, r) ==> s == Done || s == Refused
  {
    assert Peaceful(env) ==> Quiet(env, t) && Quiet(env, t + 1);
  }

  lemma PeacefulIsQuiet(env: Environment, n: nat, t: nat)
    ensures Peaceful(env) ==> Quiet(env, t)
    ensures Obliging(env, n) ==> Peaceful(env) && n >= 1
  {
    ObligingEnds(env, 0, Cost, 0, n, 0, Done, false, map[]);
  }

  /** The endpoints that come before e. */
  function Before(e: Endpoint): set<Endpoint> {
    match e
    case RecordCount => {}
    case BillableSize => {RecordCount}
    case Cost => {RecordCount, BillableSize}
  }

  lemma InOrder(k: nat, r: Results)
    requires k < 3 && forall m :: 0 <= m < k ==> ENDPOINTS[m] in r
    ensures forall f :: f in Before(ENDPOINTS[k]) ==> f in r
  {
    assert k >= 1 ==> ENDPOINTS[0] in r;
    assert k == 2 ==> ENDPOINTS[1] in r;
  }

  /** A call as it should be: for a request that was chosen, when neither deadline nor
      crash was due, and at the endpoint asked for, or else after all endpoints that come
      before are on disk. */
  predicate RightlyAsked(c: Call, ids: seq<Id>, only: Option<Endpoint>, env: Environment) {
    && c.id in ids && Quiet(env, c.at)
    && match only
       case Some(e) => c.endpoint == e
       case None => forall f :: f in Before(c.endpoint) ==> f in Recorded(c.onDisk, c.id)
  }

  ghost predicate Asked(calls: seq<Call>, n: nat, ids: seq<Id>, only: Option<Endpoint>, env: Environment) {
    n <= |calls| && forall k :: n <= k < |calls| ==> RightlyAsked(calls[k], ids, only, env)
  }

  lemma NothingAsked(calls: seq<Call>, ids: seq<Id>, only: Option<Endpoint>, env: Environment)
    ensures Asked(calls, |calls|, ids, only, env)
  {
  }

  lemma CallsForAsked(calls: seq<Call>, n: nat, id: Id, e: Endpoint, env: Environment, c: Checkpoint,
                      only: Option<Endpoint>)
    requires CallsFor(calls, n, id, e, env, c)
    requires only.Some? ==> e == only.value
    requires only == None ==> forall f :: f in Before(e) ==> f in Recorded(c, id)
    ensures Asked(calls, n, [id], only, env)
  {
    hide Recorded;
  }

  lemma AskedJoin(mid: seq<Call>, calls: seq<Call>, n: nat, first: seq<Id>, all: seq<Id>, more: seq<Id>,
                  only: Option<Endpoint>, env: Environment)
    requires Asked(mid, n, first, only, env) && mid <= calls && Asked(calls, |mid|, more, only, env)
    requires (forall id :: id in first ==> id in all) && (forall id :: id in more ==> id in all)
    ensures Asked(calls, n, all, only, env)
  {
    hide Recorded;
    forall k | n <= k < |calls|
      ensures RightlyAsked(calls[k], all, only, env)
    {
      if k < |mid| {
        assert RightlyAsked(mid[k], first, only, env);
      }
    }
  }

  /** Nothing is recorded or completed but for these requests, and with only given nothing
      but that endpoint. */
  ghost predicate Confined(c: Checkpoint, c': Checkpoint, ids: seq<Id>, only: Option<Endpoint>) {
    && (forall id, e :: e in Recorded(c', id) && e !in Recorded(c, id) ==> id in ids && (only.Some? ==> e == only.value))
    && (forall id :: id in c'.completed && id !in c.completed ==> id in ids && only == None)
  }

  lemma ConfinedSelf(c: Checkpoint, ids: seq<Id>, only: Option<Endpoint>)
    ensures Confined(c, c, ids, only)
  {
  }

  /** Confined to one endpoint, whether that is the only one asked for or one of all. */
  lemma ConfinedToOne(c: Checkpoint, c': Checkpoint, ids: seq<Id>, e: Endpoint, only: Option<Endpoint>)
    requires Confined(c, c', ids, Some(e)) && (only.Some? ==> e == only.value)
    ensures Confined(c, c', ids, only)
  {
    hide Recorded;
  }

  predicate FailedFor(disk: Option<Checkpoint>, id: Id) {
    disk.Some? && disk.value.failed.Some? && disk.value.failed.value.0 == id
  }

  lemma ConfinedTransitive(a: Checkpoint, b: Checkpoint, c: Checkpoint, first: seq<Id>, all: seq<Id>, more: seq<Id>,
                           only: Option<Endpoint>)
    requires Confined(a, b, first, only) && Confined(b, c, more, only)
    requires (forall id :: id in first ==> id in all) && (forall id :: id in more ==> id in all)
    ensures Confined(a, c, all, only)
  {
    hide Recorded;
  }

  /** What a stretch of a run does to checkpoint and calls: nothing recorded is lost, the
      new calls are rightly asked, and only the touched requests change. */
  ghost predicate Accounts(c: Checkpoint, calls: seq<Call>, c': Checkpoint, calls': seq<Call>, touched: seq<Id>,
                           only: Option<Endpoint>, env: Environment, provider: Provider) {
    && Keeps(c, c') && calls <= calls'
    && Asked(calls', |calls|, touched, only, env) && Confined(c, c', touched, only)
    && (Honest(env, provider) && AllFrom(provider, c) ==> AllFrom(provider, c'))
  }

  lemma NothingToAccount(c: Checkpoint, calls: seq<Call>, only: Option<Endpoint>, env: Environment, provider: Provider)
    ensures Accounts(c, calls, c, calls, [], only, env, provider)
  {
    hide Recorded, Honest, AllFrom;
  }

  lemma AccountsJoin(c: Checkpoint, calls: seq<Call>, c': Checkpoint, calls': seq<Call>, c'': Checkpoint,
                     calls'': seq<Call>, touched: seq<Id>, id: Id, only: Option<Endpoint>, env: Environment,
                     provider: Provider)
    requires Accounts(c, calls, c', calls', touched, only, env, provider)
    requires Accounts(c', calls', c'', calls'', [id], only, env, provider)
    ensures Accounts(c, calls, c'', calls'', touched + [id], only, env, provider)
  {
    hide Keeps, Asked, Confined, Honest, AllFrom;
    KeepsTransitive(c, c', c'');
    AskedJoin(calls', calls'', |calls|, touched, touched + [id], [id], only, env);
    ConfinedTransitive(c, c', c'', touched, touched + [id], [id], only);
  }

  lemma AccountsExtend(c: Checkpoint, calls: seq<Call>, c': Checkpoint, calls': seq<Call>, touched: seq<Id>,
                       only: Option<Endpoint>, env: Environment, provider: Provider)
    requires Accounts(c, calls, c', calls', touched, only, env, provider)
    ensures Keeps(c, c') && calls <= calls'
    ensures Honest(env, provider) && AllFrom(provider, c) ==> AllFrom(provider, c')
  {
    hide Keeps, Asked, Confined, Honest, AllFrom;
  }

  function Members(s: seq<Id>): set<Id> {
    set id | id in s
  }

  lemma MembersSnoc(s: seq<Id>, id: Id)
    ensures Members([]) == {} && Members(s + [id]) == Members(s) + {id}
  {
  }

  datatype Options = Options(
    maxRequests: Option<nat>, onlyRequest: Option<Id>, onlyEndpoint: Option<Endpoint>, maxAttempts: nat)

  /** r' is r with one more result, at id and e. */
  ghost predicate Adds(r: map<Id, Results>, r': map<Id, Results>, id: Id, e: Endpoint) {
    && id in r && e !in r[id] && id in r' && e in r'[id]
    && r' == r[id := r[id][e := r'[id][e]]]
  }

  datatype RequestStatus = Completed | OneEndpoint | Stopped | Exited | Died

  predicate Unrestricted(opts: Options) {
    opts.maxRequests == None && opts.onlyRequest == None && opts.onlyEndpoint == None
  }

  function Capped(cap: Option<nat>, n: nat): (m: nat)
    ensures m <= n && (cap.Some? ==> m <= cap.value) && (m == n || cap == Some(m))
  {
    if cap.Some? && cap.value < n then cap.value else n
  }

  ghost predicate DiskFrom(provider: Provider, disk: Option<Checkpoint>) {
    disk.Some? ==> AllFrom(provider, disk.value)
  }

  datatype EndpointStatus = Done | OutOfTime | Refused | Killed | Retry

  datatype Status = Finished | Incomplete | EndpointOnly | Failed | Crashed | Rejected

  /** All calls from position n on are for endpoint e of request id, made with c on disk. */
  ghost predicate CallsFor(calls: seq<Call>, n: nat, id: Id, e: Endpoint, env: Environment, c: Checkpoint) {
    && n <= |calls|
    && forall k :: n <= k < |calls| ==>
         calls[k].id == id && calls[k].endpoint == e && calls[k].onDisk == c && Quiet(env, calls[k].at)
  }

  /** One provider call, with the checkpoint on disk when it was made, and the tick. */
  datatype Call = Call(id: Id, endpoint: Endpoint, onDisk: Checkpoint, at: nat)

  class MetadataPreflight {
    const plan: seq<Id>
    // The checkpoint object in memory.
    var pending: seq<Id>
    var results: map<Id, Results>
    var completed: map<Id, Estimate>
    var failed: Option<(Id, Endpoint)>
    // The checkpoint file.
    var disk: Option<Checkpoint>
    var clock: nat
    // Every checkpoint written since the last fresh start, and every provider call.
    ghost var writes: seq<Checkpoint>
    ghost var calls: seq<Call>

    constructor (plan: seq<Id>)
      requires Distinct(plan)
      ensures this.plan == plan && DiskValid() && disk == None && calls == []
    {
      this.plan := plan;
      pending, results, completed, failed := plan, map[], map[], None;
      disk, clock, writes, calls := None, 0, [], [];
    }

    function Snapshot(): Checkpoint
      reads this`pending, this`results, this`completed, this`failed
    {
      Checkpoint(pending, results, completed, failed)
    }

    /** The file holds the last write of a legal chain, and no call ever asked for
        a result that was already on disk. */
    ghost predicate DiskValid()
      reads this`disk, this`writes, this`calls
    {
      && Distinct(plan)
      && (disk == None ==> writes == [])
      && (disk.Some? ==> Chain(plan, writes) && disk.value == writes[|writes| - 1])
      && forall k :: 0 <= k < |calls| ==> calls[k].endpoint !in Recorded(calls[k].onDisk, calls[k].id)
    }

    /** Memory and file agree (memory may hold empty entries the file lacks). */
    ghost predicate Synced()
      reads this`pending, this`results, this`completed, this`failed, this`disk, this`writes, this`calls
    {
      && DiskValid() && disk.Some?
      && pending == disk.value.pending && completed == disk.value.completed
      && results.Keys <= (set id | id in plan)
      && SameResults(Snapshot(), disk.value)
    }

    /** Nothing recorded or completed before is lost, and the log only grows. */
    twostate predicate Extends()
      reads this
    {
      && old(disk).Some? && disk.Some?
      && old(writes) <= writes && old(calls) <= calls
      && Keeps(old(disk).value, disk.value)
    }

    /** Atomic replacement of the checkpoint file. */
    method Write()
      requires DiskValid() && disk.Some? && Follows(plan, disk.value, Snapshot())
      modifies this`disk, this`writes
      ensures Synced() && Extends()
      ensures disk == Some(Snapshot()) && writes == old(writes) + [Snapshot()]
    {
      disk := Some(Snapshot());
      writes := writes + [Snapshot()];
    }

    /** _resolve_checkpoint_state and the write that follows it. An explicit resume
        never starts a new generation: without an acceptable file it exits. */
    method Begin(resume: bool, acceptable: bool) returns (ok: bool)
      requires DiskValid()
      modifies this
      ensures DiskValid() && calls == old(calls)
      ensures ok <==> !resume || (old(disk).Some? && acceptable)
      ensures !ok ==> disk == old(disk) && writes == old(writes)
      ensures ok ==> Synced()
      ensures ok && resume ==> disk == old(disk) && writes == old(writes) + [disk.value]
      ensures ok && !resume ==> disk == Some(Fresh(plan)) && writes == [Fresh(plan)]
    {
      hide Consistent, Keeps, Follows, Chain;
      if !resume {
        pending, results, completed, failed := plan, map[], map[], None;
        FreshConsistent(plan);
        disk := Some(Snapshot());
        writes := [Snapshot()];
        return true;
      }
      if disk.None? || !acceptable {
        return false;
      }
      pending, results, completed, failed :=
        disk.value.pending, disk.value.results, disk.value.completed, disk.value.failed;
      LastFollowsItself(plan, writes);
      Write();
      return true;
    }

    /** A pending request whose endpoint e has no result yet. */
    ghost predicate Open(id: Id, e: Endpoint)
      reads this`pending, this`results, this`completed, this`failed, this`disk, this`writes, this`calls
    {
      Synced() && id in pending && id in results && e !in results[id]
    }

    /** Only bookkeeping outside the results has changed. */
    twostate predicate SameProgress()
      reads this
    {
      pending == old(pending) && completed == old(completed) && results == old(results)
    }

    /** Stores one result in memory and writes the checkpoint, unless the process dies first. */
    method Record(id: Id, e: Endpoint, v: Value, env: Environment, ghost provider: Provider) returns (s: EndpointStatus)
      requires Open(id, e)
      modifies this`results, this`clock, this`disk, this`writes
      ensures DiskValid() && Extends()
      ensures s == Done || s == Killed
      ensures s == Done ==> Synced() && results == old(results)[id := old(results)[id][e := v]]
      ensures AllFrom(provider, old(disk).value) && v == provider(id, e) ==> AllFrom(provider, disk.value)
      ensures s == Killed <==> env(old(clock)).crash
      ensures s == Killed ==> disk == old(disk)
      ensures s == Done ==> disk.value.failed == failed == old(failed)
      ensures Confined(old(disk).value, disk.value, [id], Some(e))
    {
      hide Consistent, Keeps, Chain, Follows, Confined;
      ConfinedSelf(disk.value, [id], Some(e));
      ghost var before := disk.value;
      KeepsSelf(before);
      RecordFollows(plan, before, Snapshot().(results := results[id := results[id][e := v]]), id, e, v) by {
        LastIsConsistent(plan, writes);
      }
      results := results[id := results[id][e := v]];
      var now := clock;
      clock := clock + 1;
      if env(now).crash {
        return Killed;
      }
      Write();
      return Done;
    }

    /** The results of a request in memory. */
    function Held(id: Id): Results
      reads this`results
    {
      if id in results then results[id] else map[]
    }

    /** One iteration of the attempt loop. */
    method Attempt(id: Id, e: Endpoint, env: Environment, last: bool, ghost provider: Provider) returns (s: EndpointStatus)
      requires Open(id, e)
      modifies this
      ensures DiskValid() && Extends() && |calls| <= |old(calls)| + 1
      ensures s != Killed ==> Synced() && pending == old(pending) && completed == old(completed)
      ensures s == Done ==> Adds(old(results), results, id, e)
      ensures s != Done && s != Killed ==> SameProgress()
      ensures s == Retry <==> !last && Retried(env, old(clock), id, e)
      ensures s == Retry ==> disk == old(disk) && clock == old(clock) + 1
      ensures s == Killed ==> disk == old(disk)
      ensures s != Retry ==> EndsAs(s, env, id, e, old(clock), BillableSize in old(results)[id], Held(id))
      ensures s == Refused ==> disk.value.failed == Some((id, e))
      ensures calls == old(calls) + if Quiet(env, old(clock)) then [Call(id, e, old(disk).value, old(clock))] else []
      ensures Confined(old(disk).value, disk.value, [id], Some(e))
      ensures Honest(env, provider) && AllFrom(provider, old(disk).value) ==> AllFrom(provider, disk.value)
    {
      hide Consistent, Keeps, Chain, Follows, AllFrom, DiskValid, SameResults, Recorded, Honest, Confined;
      KeepsSelf(disk.value);
      ConfinedSelf(disk.value, [id], Some(e));
      var now := clock;
      clock := clock + 1;
      if env(now).crash {
        return Killed;
      }
      if env(now).deadline {
        return OutOfTime;
      }
      LogCall(id, e, now);
      var answer := Reply(env, now, id, e);
      HonestMeans(env, provider, now, id, e);
      match answer
      case Success(v) =>
        s := Record(id, e, v, env, provider);
      case Failure(retryable, derived) =>
        if retryable && !last {
          return Retry;
        }
        s := GiveUp(id, e, derived, env, provider);
    }

    /** After the last failed attempt: the derived cost if there is one, or the failure. */
    method GiveUp(id: Id, e: Endpoint, derived: Option<Value>, env: Environment, ghost provider: Provider)
      returns (s: EndpointStatus)
      requires Open(id, e)
      modifies this`results, this`failed, this`clock, this`disk, this`writes
      ensures DiskValid() && Extends()
      ensures s == Refused <==> !(e == Cost && BillableSize in old(results)[id] && derived.Some?)
      ensures s == Refused ==> Synced() && SameProgress() && disk.value.failed == Some((id, e))
      ensures s == Done ==> derived.Some? && results == old(results)[id := old(results)[id][e := derived.value]]
      ensures s == Done ==> Synced() && disk.value.failed == None
      ensures s == Killed ==> env(old(clock)).crash && disk == old(disk)
      ensures s == Refused || s == Done || s == Killed
      ensures Confined(old(disk).value, disk.value, [id], Some(e))
      ensures derived == None && AllFrom(provider, old(disk).value) ==> AllFrom(provider, disk.value)
    {
      hide Consistent, Keeps, Chain, Follows, AllFrom, DiskValid, SameResults, Recorded, Confined;
      if e == Cost && BillableSize in results[id] && derived.Some? {
        ghost var was := Snapshot();
        failed := None;
        SameBut(disk.value, was, Snapshot());
        s := Record(id, e, derived.value, env, provider);
        return;
      }
      Refuse(id, e, provider);
      s := Refused;
    }

    /** A terminal failure: the checkpoint is written with its failure marker. */
    method Refuse(id: Id, e: Endpoint, ghost provider: Provider)
      requires Synced()
      modifies this`failed, this`disk, this`writes
      ensures Synced() && Extends()
      ensures disk.value.failed == Some((id, e)) && Confined(old(disk).value, disk.value, [id], Some(e))
      ensures AllFrom(provider, old(disk).value) ==> AllFrom(provider, disk.value)
    {
      hide Consistent, Keeps, Chain, Follows, AllFrom, SameResults, Confined;
      failed := Some((id, e));
      FailureFollows(plan, disk.value, Snapshot()) by {
        LastIsConsistent(plan, writes);
        SameBut(disk.value, old(Snapshot()), Snapshot());
      }
      SameBut(disk.value, old(Snapshot()), Snapshot());
      FailureFrom(provider, disk.value, Snapshot());
      Write();
    }

    ghost method LogCall(id: Id, e: Endpoint, at: nat)
      requires Open(id, e)
      modifies this`calls
      ensures calls == old(calls) + [Call(id, e, disk.value, at)] && Open(id, e)
    {
      assert e !in Recorded(Snapshot(), id);
      calls := calls + [Call(id, e, disk.value, at)];
    }

    /** Tries one endpoint until it has a result, fails for good or runs out of attempts. */
    method CallEndpoint(id: Id, e: Endpoint, env: Environment, maxAttempts: nat, ghost provider: Provider)
      returns (s: EndpointStatus, ghost at: nat)
      requires Open(id, e)
      modifies this
      ensures DiskValid() && Extends() && |calls| <= |old(calls)| + maxAttempts
      ensures s != Killed ==> Synced() && pending == old(pending) && completed == old(completed)
      ensures s == Done ==> Adds(old(results), results, id, e)
      ensures s != Done && s != Killed ==> SameProgress()
      ensures s != Retry
      ensures maxAttempts == 0 ==> s == OutOfTime && calls == old(calls)
      ensures maxAttempts >= 1 ==>
                && Settles(env, id, e, old(clock), maxAttempts, at)
                && EndsAs(s, env, id, e, at, BillableSize in old(results)[id], Held(id))
                && |calls| == |old(calls)| + (at - old(clock)) + if Quiet(env, at) then 1 else 0
      ensures s == Refused ==> disk.value.failed == Some((id, e))
      ensures CallsFor(calls, |old(calls)|, id, e, env, old(disk).value)
      ensures Confined(old(disk).value, disk.value, [id], Some(e))
      ensures Honest(env, provider) && AllFrom(provider, old(disk).value) ==> AllFrom(provider, disk.value)
    {
      hide Consistent, Keeps, Chain, Follows, AllFrom, Honest, EndsAs, Confined, DiskValid, SameResults, Recorded;
      KeepsSelf(disk.value);
      ConfinedSelf(disk.value, [id], Some(e));
      for attempt := 1 to maxAttempts + 1
        invariant Open(id, e) && SameProgress() && disk == old(disk) && Extends()
        invariant |calls| == |old(calls)| + (attempt - 1) && clock == old(clock) + (attempt - 1)
        invariant forall k :: old(clock) <= k < clock ==> Retried(env, k, id, e)
        invariant attempt > maxAttempts ==> maxAttempts == 0
        invariant CallsFor(calls, |old(calls)|, id, e, env, old(disk).value)
      {
        at := clock;
        s := Attempt(id, e, env, attempt == maxAttempts, provider);
        if s != Retry {
          return;
        }
      }
      return OutOfTime, 0;
    }

    /** Moves a fully recorded request from pending to completed and writes it. */
    method Complete(id: Id, env: Environment, ghost provider: Provider) returns (ok: bool)
      requires Synced() && id in pending && id in results && AllRecorded(results[id])
      modifies this
      ensures DiskValid() && Extends() && calls == old(calls)
      ensures ok ==> Synced() && completed.Keys == old(completed).Keys + {id}
      ensures ok ==> pending == Without(old(pending), id)
      ensures AllFrom(provider, old(disk).value) ==> AllFrom(provider, disk.value)
      ensures ok <==> !env(old(clock)).crash
      ensures ok ==> disk.value.failed == None
      ensures Confined(old(disk).value, disk.value, [id], None)
    {
      hide Consistent, Keeps, Follows, Chain, AllFrom, Without, EstimateOf;
      KeepsSelf(disk.value);
      assert results[id] == Recorded(Snapshot(), id) == Recorded(disk.value, id);
      completed := completed[id := EstimateOf(results[id])];
      pending := Without(pending, id);
      failed := None;
      var now := clock;
      clock := clock + 1;
      assert SameResults(Snapshot(), disk.value) by {
        assert forall i :: Recorded(Snapshot(), i) == Recorded(old(Snapshot()), i);
      }
      CompletionFollows(plan, disk.value, Snapshot(), id) by {
        LastIsConsistent(plan, writes);
      }
      FailureFrom(provider, disk.value, Snapshot());
      if env(now).crash {
        return false;
      }
      Write();
      return true;
    }

    /** The endpoint loop of one request: results already recorded are skipped, and
        the loop stops at the first endpoint left without a result. */
    method CallEndpoints(id: Id, only: Option<Endpoint>, env: Environment, maxAttempts: nat, ghost provider: Provider)
      returns (s: EndpointStatus)
      requires Synced() && id in pending && id in results
      modifies this
      ensures DiskValid() && Extends() && |calls| <= |old(calls)| + 3 * maxAttempts
      ensures s != Killed ==> Synced() && id in results && pending == old(pending) && completed == old(completed)
      ensures s == Done ==> if only.Some? then only.value in results[id] else AllRecorded(results[id])
      ensures s != Retry
      ensures s == Refused ==> FailedFor(disk, id)
      ensures Asked(calls, |old(calls)|, [id], only, env) && Confined(old(disk).value, disk.value, [id], only)
      ensures Honest(env, provider) && AllFrom(provider, old(disk).value) ==> AllFrom(provider, disk.value)
      ensures Peaceful(env) && maxAttempts >= 1 ==> s == Done || s == Refused
      ensures Obliging(env, maxAttempts) ==> s == Done
    {
      hide Consistent, Keeps, Chain, Follows, AllFrom, Honest, Obliging, Peaceful, EndsAs, Confined, Asked, Settles;
      KeepsSelf(disk.value);
      ConfinedSelf(disk.value, [id], only);
      NothingAsked(calls, [id], only, env);
      var selected := if only.Some? then [only.value] else ENDPOINTS;
      for k := 0 to |selected|
        invariant Synced() && Extends() && id in pending && id in results
        invariant pending == old(pending) && completed == old(completed)
        invariant |calls| <= |old(calls)| + k * maxAttempts
        invariant forall m :: 0 <= m < k ==> selected[m] in results[id]
        invariant Asked(calls, |old(calls)|, [id], only, env) && Confined(old(disk).value, disk.value, [id], only)
        invariant Honest(env, provider) && AllFrom(provider, old(disk).value) ==> AllFrom(provider, disk.value)
      {
        Budget(k, maxAttempts);
        var e := selected[k];
        if e !in results[id] {
          if only == None {
            InOrder(k, results[id]);
          }
          ghost var mid, asked, sized, first := disk.value, calls, BillableSize in results[id], clock;
          ghost var at;
          s, at := CallEndpoint(id, e, env, maxAttempts, provider);
          ObligingEnds(env, id, e, first, maxAttempts, at, s, sized, Held(id));
          PeacefulEnds(env, id, e, at, s, sized, Held(id));
          KeepsTransitive(old(disk).value, mid, disk.value);
          CallsForAsked(calls, |asked|, id, e, env, mid, only);
          AskedJoin(asked, calls, |old(calls)|, [id], [id], [id], only, env);
          ConfinedToOne(mid, disk.value, [id], e, only);
          ConfinedTransitive(old(disk).value, mid, disk.value, [id], [id], [id], only);
          if s != Done {
            return;
          }
        }
      }
      Budget(|selected|, maxAttempts);
      assert selected[0] in results[id];
      assert only == None ==> selected[1] in results[id] && selected[2] in results[id];
      s := Done;
    }

    /** Asks for the missing endpoints of one request and completes it if all are there. */
    method ProcessRequest(id: Id, only: Option<Endpoint>, env: Environment, maxAttempts: nat, ghost provider: Provider)
      returns (s: RequestStatus)
      requires Synced() && id in pending
      modifies this
      ensures DiskValid() && Extends() && |calls| <= |old(calls)| + 3 * maxAttempts
      ensures s != Died ==> Synced()
      ensures s == Completed ==> completed.Keys == old(completed).Keys + {id} && pending == Without(old(pending), id)
      ensures s != Completed && s != Died ==> pending == old(pending) && completed == old(completed)
      ensures s == OneEndpoint ==> only.Some?
      ensures s == Exited ==> FailedFor(disk, id)
      ensures Asked(calls, |old(calls)|, [id], only, env) && Confined(old(disk).value, disk.value, [id], only)
      ensures Honest(env, provider) && AllFrom(provider, old(disk).value) ==> AllFrom(provider, disk.value)
      ensures Peaceful(env) && maxAttempts >= 1 && only == None ==> s == Completed || s == Exited
      ensures Obliging(env, maxAttempts) && only == None ==> s == Completed
    {
      hide Consistent, Keeps, Chain, Follows, AllFrom, Honest, Obliging, Peaceful, Without, Confined, Asked, FailedFor;
      Prepare(id);
      var status := CallEndpoints(id, only, env, maxAttempts, provider);
      if status == Killed {
        return Died;
      } else if status == Refused {
        return Exited;
      } else if only.Some? {
        return OneEndpoint;
      } else if !AllRecorded(results[id]) {
        return Stopped;
      }
      ghost var mid := disk.value;
      PeacefulIsQuiet(env, maxAttempts, clock);
      var ok := Complete(id, env, provider);
      KeepsTransitive(old(disk).value, mid, disk.value);
      ConfinedTransitive(old(disk).value, mid, disk.value, [id], [id], [id], only);
      s := if ok then Completed else Died;
    }

    /** A request that has no results yet gets an empty set of them. */
    method Prepare(id: Id)
      requires Synced() && id in pending
      modifies this`results
      ensures Synced() && id in results
    {
      InPlan(id);
      if id !in results {
        ghost var was := Snapshot();
        results := results[id := map[]];
        assert forall i :: Recorded(Snapshot(), i) == Recorded(was, i);
      }
    }

    lemma InPlan(id: Id)
      requires Synced() && id in pending
      ensures id in plan && id !in completed
    {
      LastIsConsistent(plan, writes);
    }

    /** One turn of the request loop; nothing is returned if the loop goes on. */
    method Turn(id: Id, opts: Options, env: Environment, ghost provider: Provider) returns (s: Option<Status>)
      requires Synced() && id in pending
      modifies this
      ensures DiskValid() && Extends() && |calls| <= |old(calls)| + 3 * opts.maxAttempts
      ensures s == None ==> Synced() && pending == Without(old(pending), id)
      ensures s == Some(Finished) ==> Synced() && pending == []
      ensures s == Some(Incomplete) ==> Synced() && pending != []
      ensures s == Some(EndpointOnly) ==> opts.onlyEndpoint.Some?
      ensures s != Some(Rejected)
      ensures s == None ==> completed.Keys == old(completed).Keys + {id}
      ensures s == Some(Failed) ==> FailedFor(disk, id)
      ensures Accounts(old(disk).value, old(calls), disk.value, calls, [id], opts.onlyEndpoint, env, provider)
      ensures Peaceful(env) && opts.maxAttempts >= 1 && opts.onlyEndpoint == None ==> s == None || s == Some(Failed)
      ensures Obliging(env, opts.maxAttempts) && opts.onlyEndpoint == None ==> s == None
    {
      hide Consistent, Keeps, Chain, Follows, AllFrom, Honest, Without, Obliging, Peaceful, DiskValid, SameResults;
      hide Confined, Asked, FailedFor;
      KeepsSelf(disk.value);
      ConfinedSelf(disk.value, [id], opts.onlyEndpoint);
      NothingAsked(calls, [id], opts.onlyEndpoint, env);
      var now := clock;
      clock := clock + 1;
      PeacefulIsQuiet(env, opts.maxAttempts, now);
      if env(now).crash {
        return Some(Crashed);
      }
      if env(now).deadline {
        return Some(if pending == [] then Finished else Incomplete);
      }
      var status := ProcessRequest(id, opts.onlyEndpoint, env, opts.maxAttempts, provider);
      match status
      case Died => return Some(Crashed);
      case Exited => return Some(Failed);
      case OneEndpoint => return Some(EndpointOnly);
      case Stopped => return Some(if pending == [] then Finished else Incomplete);
      case Completed => return None;
    }

    /** One execution of the preflight after the checkpoint has been resolved: the
        selected pending requests in plan order, until one cannot be completed. */
    method Run(opts: Options, env: Environment, ghost provider: Provider)
      returns (status: Status, ghost touched: seq<Id>)
      requires Synced()
      modifies this
      ensures DiskValid() && Extends()
      ensures |calls| <= |old(calls)| + MaxCalls(|plan|, opts.maxAttempts)
      ensures touched <= Chosen(plan, old(pending), opts.onlyRequest)
      ensures opts.maxRequests.Some? ==> |touched| <= opts.maxRequests.value
      ensures Accounts(old(disk).value, old(calls), disk.value, calls, touched, opts.onlyEndpoint, env, provider)
      ensures status == Finished ==> Synced() && pending == []
      ensures status == Incomplete ==> Synced() && pending != []
      ensures status == EndpointOnly ==> opts.onlyEndpoint.Some?
      ensures status == Failed ==> touched != [] && FailedFor(disk, touched[|touched| - 1])
      ensures status != Rejected
      ensures Peaceful(env) && opts.maxAttempts >= 1 && opts.onlyEndpoint == None && status != Failed ==>
                && Synced() && completed.Keys == old(completed).Keys + Members(touched)
                && |touched| == Capped(opts.maxRequests, |Chosen(plan, old(pending), opts.onlyRequest)|)
      ensures Obliging(env, opts.maxAttempts) && opts.onlyEndpoint == None ==> status != Failed
      ensures Obliging(env, opts.maxAttempts) && Unrestricted(opts) ==> status == Finished
    {
      hide Consistent, Chain, Follows, Without, Obliging, Peaceful, Accounts, FailedFor, Members, Keeps, DiskValid, SameResults;
      hide Awaited, Distinct, MaxCalls;
      touched := [];
      PeacefulIsQuiet(env, opts.maxAttempts, clock);
      NothingToAccount(disk.value, calls, opts.onlyEndpoint, env, provider);
      MembersSnoc([], 0);
      var selected := Chosen(plan, pending, opts.onlyRequest);
      PendingDistinct();
      AwaitedAtFirst(plan, pending, opts.onlyRequest);
      var limit := if opts.maxRequests.Some? && opts.maxRequests.value < |selected|
                   then opts.maxRequests.value else |selected|;
      for i := 0 to limit
        invariant Synced() && old(writes) <= writes && touched == selected[..i]
        invariant Awaited(selected, i, pending, opts.onlyRequest)
        invariant |calls| <= |old(calls)| + MaxCalls(i, opts.maxAttempts)
        invariant completed.Keys == old(completed).Keys + Members(touched)
        invariant Accounts(old(disk).value, old(calls), disk.value, calls, touched, opts.onlyEndpoint, env, provider)
      {
        Rounds(i, |plan|, opts.maxAttempts);
        AwaitedNext(selected, i, pending, opts.onlyRequest);
        ghost var mid, asked, id := disk.value, calls, selected[i];
        var s := Turn(selected[i], opts, env, provider);
        assert selected[..i + 1] == touched + [id];
        AccountsJoin(old(disk).value, old(calls), mid, asked, disk.value, calls, touched, id, opts.onlyEndpoint, env,
                     provider);
        MembersSnoc(touched, id);
        touched := touched + [id];
        if s.Some? {
          AccountsExtend(old(disk).value, old(calls), disk.value, calls, touched, opts.onlyEndpoint, env, provider);
          status := s.value;
          return;
        }
      }
      AccountsExtend(old(disk).value, old(calls), disk.value, calls, touched, opts.onlyEndpoint, env, provider);
      Rounds(limit, |plan|, opts.maxAttempts);
      AwaitedAtLast(selected, limit, pending, opts.onlyRequest);
      status := if pending == [] then Finished else Incomplete;
    }

    lemma PendingDistinct()
      requires Synced()
      ensures Distinct(plan) && Distinct(pending) && forall id :: id in pending ==> id in plan
    {
      LastIsConsistent(plan, writes);
      RemainingDistinct(plan, completed.Keys);
    }

    /** One invocation of the command: resolve the checkpoint, then run. */
    method Invoke(resume: bool, inv: Invocation, ghost provider: Provider) returns (status: Status)
      requires DiskValid()
      modifies this
      ensures DiskValid()
      ensures status == Finished ==> disk.Some? && disk.value.pending == []
      ensures resume && old(disk).Some? ==> Extends()
      ensures status == Rejected ==> disk == old(disk)
      ensures status != Rejected ==> disk.Some?
      ensures old(disk).Some? ==> disk.Some?
      ensures status == Rejected ==> resume
      ensures (!resume || DiskFrom(provider, old(disk))) && Honest(inv.env, provider) ==> DiskFrom(provider, disk)
      ensures status != Rejected ==> |calls| <= |old(calls)| + MaxCalls(|plan|, inv.options.maxAttempts)
      ensures (!resume || (old(disk).Some? && inv.acceptable)) && Undisturbed(inv) ==> status == Finished
      ensures resume && Emptied(old(disk)) ==> Emptied(disk)
    {
      hide Consistent, Keeps, Chain, Follows, Honest, Obliging;
      if old(disk).Some? {
        KeepsSelf(old(disk).value);
      }
      var ok := Begin(resume, inv.acceptable);
      if !ok {
        return Rejected;
      }
      ghost var mid := disk.value;
      assert !resume ==> AllFrom(provider, mid);
      ghost var touched;
      ghost var asked := calls;
      status, touched := Run(inv.options, inv.env, provider);
      AccountsExtend(mid, asked, disk.value, calls, touched, inv.options.onlyEndpoint, inv.env, provider);
      if resume && Emptied(old(disk)) {
        LastIsConsistent(plan, old(writes));
        LastIsConsistent(plan, writes);
        NothingReopens(plan, old(disk).value, disk.value);
      }
    }

    /** A fresh start, over whatever checkpoint file is there, followed by any number of
        resumed invocations, each of which may crash, run out of time, fail, be
        restricted by flags or be rejected. One undisturbed run anywhere among them is
        enough to finish the preflight. */
    method RunChain(first: Invocation, resumed: seq<Invocation>, ghost provider: Provider) returns (status: Status)
      requires DiskValid()
      modifies this
      ensures DiskValid() && disk.Some?
      ensures HonestChain(first, resumed, provider) ==> DiskFrom(provider, disk)
      ensures HonestChain(first, resumed, provider) && Emptied(disk) ==> IsFinal(plan, provider, disk.value)
      ensures SomeUndisturbed(first, resumed) ==> Emptied(disk)
    {
      hide Consistent, Keeps, Chain, Honest, Undisturbed, AllFrom;
      status := Invoke(false, first, provider);
      for k := 0 to |resumed|
        invariant DiskValid() && disk.Some?
        invariant HonestChain(first, resumed, provider) ==> DiskFrom(provider, disk)
        invariant SomeUndisturbed(first, resumed[..k]) ==> Emptied(disk)
      {
        status := Invoke(true, resumed[k], provider);
        assert resumed[..k + 1] == resumed[..k] + [resumed[k]];
      }
      assert resumed[..|resumed|] == resumed;
      if HonestChain(first, resumed, provider) && Emptied(disk) {
        LastIsConsistent(plan, writes);
        CompleteIsFinal(plan, provider, disk.value);
      }
    }
  }

  ghost predicate HonestChain(first: Invocation, resumed: seq<Invocation>, provider: Provider) {
    Honest(first.env, provider) && forall k :: 0 <= k < |resumed| ==> Honest(resumed[k].env, provider)
  }

  ghost predicate Undisturbed(inv: Invocation) {
    Obliging(inv.env, inv.options.maxAttempts) && Unrestricted(inv.options)
  }

  /** The fresh start, or a resumed run whose file passes the load checks, meets no crash,
      no deadline and no limiting flag, and every endpoint answers within its attempts. */
  ghost predicate SomeUndisturbed(first: Invocation, resumed: seq<Invocation>) {
    Undisturbed(first) || exists k :: 0 <= k < |resumed| && resumed[k].acceptable && Undisturbed(resumed[k])
  }

  predicate Emptied(disk: Option<Checkpoint>) {
    disk.Some? && disk.value.pending == []
  }

  /** A preflight once finished stays finished. */
  lemma NothingReopens(plan: seq<Id>, c: Checkpoint, c': Checkpoint)
    requires Consistent(plan, c) && Consistent(plan, c') && Keeps(c, c') && c.pending == []
    ensures c'.pending == []
  {
    hide Recorded;
    RemainingShrinks(plan, c.completed.Keys, c'.completed.Keys);
  }

  lemma {:induction false} RemainingShrinks(plan: seq<Id>, done: set<Id>, more: set<Id>)
    requires done <= more && Remaining(plan, done) == []
    ensures Remaining(plan, more) == []
  {
    if plan != [] {
      RemainingShrinks(plan[1..], done, more);
    }
  }

  /** One command line: whether the file passes the load checks, the flags, the world. */
  datatype Invocation = Invocation(acceptable: bool, options: Options, env: Environment)

  /** The planned requests that are pending and match --only-request-id. */
  function Chosen(plan: seq<Id>, pending: seq<Id>, only: Option<Id>): (r: seq<Id>)
    ensures |r| <= |plan|
    ensures forall id :: id in r <==> id in plan && id in pending && (only.Some? ==> id == only.value)
  {
    if plan == [] then []
    else
      var rest := Chosen(plan[1..], pending, only);
      if plan[0] in pending && (only.Some? ==> plan[0] == only.value) then [plan[0]] + rest else rest
  }

  lemma {:induction false} ChosenFromPlan(plan: seq<Id>, pending: seq<Id>, only: Option<Id>)
    requires Distinct(plan)
    ensures Distinct(Chosen(plan, pending, only))
  {
    if plan != [] {
      ChosenFromPlan(plan[1..], pending, only);
    }
  }

  /** The requests are taken in the order of the plan. */
  lemma {:induction false} ChosenInPlanOrder(plan: seq<Id>, pending: seq<Id>, only: Option<Id>, i: nat, j: nat)
      returns (p: nat, q: nat)
    requires i < j < |plan| && plan[i] in Chosen(plan, pending, only) && plan[j] in Chosen(plan, pending, only)
    ensures p < q < |Chosen(plan, pending, only)|
    ensures Chosen(plan, pending, only)[p] == plan[i] && Chosen(plan, pending, only)[q] == plan[j]
  {
    var rest := Chosen(plan[1..], pending, only);
    assert plan[1..][j - 1] == plan[j] && plan[j] in rest;
    var shift := if |rest| < |Chosen(plan, pending, only)| then 1 else 0;
    if i == 0 {
      var k :| 0 <= k < |rest| && rest[k] == plan[j];
      p, q := 0, k + 1;
    } else {
      assert plan[1..][i - 1] == plan[i] && plan[i] in rest;
      p, q := ChosenInPlanOrder(plan[1..], pending, only, i - 1, j - 1);
      p, q := p + shift, q + shift;
    }
  }

  lemma {:induction false} WithoutMembers(s: seq<Id>, id: Id)
    requires Distinct(s)
    ensures forall x :: x in Without(s, id) <==> x in s && x != id
    ensures Distinct(Without(s, id))
  {
    if s != [] {
      assert s == [s[0]] + s[1..];
      assert s[0] !in s[1..];
      if s[0] != id {
        WithoutMembers(s[1..], id);
      }
    }
  }

  /** The requests from number i on are still pending, and without --only-request-id
      nothing else is. */
  ghost predicate Awaited(selected: seq<Id>, i: nat, pending: seq<Id>, only: Option<Id>) {
    && i <= |selected| && Distinct(selected) && Distinct(pending)
    && (forall k :: i <= k < |selected| ==> selected[k] in pending)
    && (only == None ==> forall id :: id in pending ==> id in selected[i..])
  }

  lemma AwaitedAtFirst(plan: seq<Id>, pending: seq<Id>, only: Option<Id>)
    requires Distinct(plan) && Distinct(pending) && forall id :: id in pending ==> id in plan
    ensures Awaited(Chosen(plan, pending, only), 0, pending, only)
  {
    ChosenFromPlan(plan, pending, only);
    assert Chosen(plan, pending, only)[0..] == Chosen(plan, pending, only);
  }

  lemma AwaitedNext(selected: seq<Id>, i: nat, pending: seq<Id>, only: Option<Id>)
    requires Awaited(selected, i, pending, only) && i < |selected|
    ensures selected[i] in pending && Awaited(selected, i + 1, Without(pending, selected[i]), only)
  {
    WithoutMembers(pending, selected[i]);
    assert selected[i..] == [selected[i]] + selected[i + 1..];
  }

  lemma NoneLeft(s: seq<Id>)
    ensures (forall id :: id !in s) ==> s == []
  {
    if s != [] {
      assert s[0] in s;
    }
  }

  lemma AwaitedAtLast(selected: seq<Id>, i: nat, pending: seq<Id>, only: Option<Id>)
    requires Awaited(selected, i, pending, only)
    ensures i == |selected| && only == None ==> pending == []
  {
    assert i == |selected| ==> selected[i..] == [];
    NoneLeft(pending);
  }

  /** Three endpoints a request, each with its attempts. */
  function MaxCalls(requests: nat, attempts: nat): nat {
    requests * (3 * attempts)
  }

  lemma Rounds(i: nat, n: nat, attempts: nat)
    requires i <= n
    ensures MaxCalls(i, attempts) <= MaxCalls(n, attempts) && MaxCalls(0, attempts) == 0
    ensures MaxCalls(i + 1, attempts) == MaxCalls(i, attempts) + 3 * attempts
    ensures i < n ==> MaxCalls(i + 1, attempts) <= MaxCalls(n, attempts)
  {
    assert (n - i) * (3 * attempts) == n * (3 * attempts) - i * (3 * attempts);
  }

  lemma HonestMeans(env: Environment, provider: Provider, t: nat, id: Id, e: Endpoint)
    ensures Honest(env, provider) ==> HonestAt(Reply(env, t, id, e), provider(id, e))
  {
  }

  lemma KeepsSelf(c: Checkpoint)
    ensures Keeps(c, c)
  {
  }

  lemma Budget(k: nat, m: nat)
    requires k <= 3
    ensures k * m <= 3 * m
    ensures (k + 1) * m == k * m + m
    ensures k < 3 ==> k * m + m <= 3 * m
  {
  }

  lemma KeepsTransitive(a: Checkpoint, b: Checkpoint, c: Checkpoint)
    requires Keeps(a, b) && Keeps(b, c)
    ensures Keeps(a, c)
  {
  }

  lemma LastIsConsistent(plan: seq<Id>, writes: seq<Checkpoint>)
    requires Chain(plan, writes)
    ensures Consistent(plan, writes[|writes| - 1])
  {
    KeepsThroughout(plan, writes, |writes| - 1, |writes| - 1);
  }

  lemma LastFollowsItself(plan: seq<Id>, writes: seq<Checkpoint>)
    requires Chain(plan, writes)
    ensures Follows(plan, writes[|writes| - 1], writes[|writes| - 1]) && |writes| >= 1
  {
    LastIsConsistent(plan, writes);
  }

  /** Completing a request with all three endpoints recorded is a legal write. */
  lemma CompletionFollows(plan: seq<Id>, c: Checkpoint, c': Checkpoint, id: Id)
    requires Distinct(plan) && Consistent(plan, c) && id in c.pending && AllRecorded(Recorded(c, id))
    requires SameResults(c', c) && c'.results.Keys <= (set i | i in plan)
    requires c'.completed == c.completed[id := EstimateOf(Recorded(c, id))]
    requires c'.pending == Without(c.pending, id)
    ensures Follows(plan, c, c')
  {
    hide Recorded, Remaining, Without, Distinct, AllRecorded, EstimateOf, Keeps;
    WithoutRemaining(plan, c.completed.Keys, id);
    assert c'.completed.Keys == c.completed.Keys + {id};
    SameResultsKeep(c, c');
  }

  /** Completing more requests without touching the results loses nothing. */
  lemma SameResultsKeep(c: Checkpoint, c': Checkpoint)
    requires SameResults(c', c)
    requires forall id :: id in c.completed ==> id in c'.completed && c'.completed[id] == c.completed[id]
    ensures Keeps(c, c')
  {
    hide Recorded;
  }

  lemma SameBut(d: Checkpoint, c: Checkpoint, c': Checkpoint)
    requires SameResults(c, d) && c'.results == c.results
    ensures SameResults(c', d)
  {
    assert forall id :: Recorded(c', id) == Recorded(c, id);
  }

  /** Writing a failure marker loses nothing. */
  lemma FailureFollows(plan: seq<Id>, c: Checkpoint, c': Checkpoint)
    requires Consistent(plan, c)
    requires c'.pending == c.pending && c'.completed == c.completed && c'.results.Keys <= (set i | i in plan)
    requires SameResults(c', c)
    ensures Follows(plan, c, c') && forall ids, only :: Confined(c, c', ids, only)
  {
    assert forall id :: Recorded(c', id) == Recorded(c, id);
  }

  lemma FailureFrom(provider: Provider, c: Checkpoint, c': Checkpoint)
    requires SameResults(c', c)
    ensures AllFrom(provider, c) ==> AllFrom(provider, c')
  {
    assert forall id :: Recorded(c', id) == Recorded(c, id);
  }

  /** Recording one more result of a pending request is a legal write. */
  lemma RecordFollows(plan: seq<Id>, c: Checkpoint, c': Checkpoint, id: Id, e: Endpoint, v: Value)
    requires Consistent(plan, c) && id in c.pending && e !in Recorded(c, id)
    requires c'.pending == c.pending && c'.completed == c.completed && c'.results.Keys <= (set i | i in plan)
    requires forall i :: Recorded(c', i) == if i == id then Recorded(c, id)[e := v] else Recorded(c, i)
    ensures Follows(plan, c, c') && Confined(c, c', [id], Some(e))
    ensures forall provider: Provider :: AllFrom(provider, c) && provider(id, e) == v ==> AllFrom(provider, c')
  {
    hide Recorded, EstimateOf, AllRecorded;
    assert id !in c.completed;
  }
}
