/**
 * All callers of one `PriorityRequestQueue` together. Each critical section under the condition variable is
 * one step; a caller is somewhere between `enqueue` and the last `discard` of its task.
 */
module QueueProtocol {
  import opened Common
  import opened Heap
  import opened RequestQueue
  import opened Sorting

  datatype Phase =
    | Queued   // enqueued, has not reached the wait loop yet
    | Awake    // notified, will test again
    | Asleep   // waiting on the condition
    | Running  // holds a worker lease
    | Leaving  // out of `acquire`, the final `discard` is still to come
    | Gone

  datatype Caller = Caller(kind: Kind, phase: Phase) {
    predicate Waiting() {
      phase.Queued? || phase.Awake? || phase.Asleep?
    }
  }

  /** Every request ever enqueued, with where its caller is. */
  type Callers = map<Request, Caller>

  datatype System = System(pools: Pools, callers: Callers)

  datatype Action =
    | Enqueue(request: Request, kind: Kind)
    | Check(request: Request)    // one pass of the wait loop
    | Cancel(request: Request)   // CancelledError while waiting
    | Release(request: Request)
    | Discard(request: Request)  // the `finally` of `_execute_task`, also if the caller never reached `acquire`
    | Rebalance                  // `dynamic_rebalance`

  function InPhase(callers: Callers, r: Request, phase: Phase): Callers
    requires r in callers
  {
    callers[r := callers[r].(phase := phase)]
  }

  /** `notify_all`. */
  function Woken(callers: Callers): (woken: Callers)
    ensures woken.Keys == callers.Keys
  {
    map r | r in callers :: if callers[r].phase.Asleep? then callers[r].(phase := Awake) else callers[r]
  }

  /** Object identity: no caller has a request with this identity yet. */
  ghost predicate Fresh(callers: Callers, r: Request) {
    forall x :: x in callers ==> x.id != r.id
  }

  ghost predicate RemoveNext(cfg: Config, eq: Equality, s: System, r: Request, phase: Phase, s': System)
    requires r in s.callers
  {
    var k := s.callers[r].kind;
    var q := s.pools.Queue(k);
    && Removed(cfg, eq, s.pools, r, k, s'.pools)
    && s'.callers == InPhase(if FirstMatch(eq, q, r) < |q| then Woken(s.callers) else s.callers, r, phase)
  }

  ghost predicate Next(cfg: Config, eq: Equality, s: System, a: Action, s': System) {
    match a
    case Enqueue(r, k) =>
      && Fresh(s.callers, r)
      && Enqueued(cfg, s.pools, r, k, s'.pools)
      && s'.callers == Woken(s.callers)[r := Caller(k, Queued)]
    case Check(r) =>
      && r in s.callers && (s.callers[r].phase.Queued? || s.callers[r].phase.Awake?)
      && var k := s.callers[r].kind;
         if s.pools.CanAdmit(cfg, r, k) then
           && Admitted(cfg, s.pools, r, k, s'.pools)
           && s'.callers == InPhase(s.callers, r, Running)
         else
           && s'.pools == s.pools
           && s'.callers == InPhase(s.callers, r, Asleep)
    case Cancel(r) =>
      r in s.callers && s.callers[r].Waiting() && RemoveNext(cfg, eq, s, r, Leaving, s')
    case Release(r) =>
      && r in s.callers && s.callers[r].phase.Running?
      && s'.pools == Released(cfg, s.pools, s.callers[r].kind)
      && s'.callers == InPhase(Woken(s.callers), r, Leaving)
    case Discard(r) =>
      && r in s.callers && (s.callers[r].phase.Leaving? || s.callers[r].phase.Queued?)
      && RemoveNext(cfg, eq, s, r, Gone, s')
    case Rebalance =>
      && s'.pools == s.pools.Rebalanced(cfg)
      && s'.callers == Woken(s.callers)
  }

  function Start(cfg: Config): System {
    System(Pools([], [], 0, 0, cfg.heavyWorkers), map[])
  }

  /** `states` is a run under `actions`. */
  ghost predicate Run(cfg: Config, eq: Equality, states: seq<System>, actions: seq<Action>) {
    && |states| == |actions| + 1
    && forall i :: 0 <= i < |actions| ==> Next(cfg, eq, states[i], actions[i], states[i + 1])
  }

  // ----- the invariant -------------------------------------------------------------------------

  function Leases(callers: Callers, k: Kind): set<Request> {
    set r | r in callers && callers[r].phase.Running? && callers[r].kind == k
  }

  predicate WaitsIn(callers: Callers, r: Request, k: Kind) {
    r in callers && callers[r].kind == k && callers[r].Waiting()
  }

  /** `queued` holds exactly the requests of the waiting callers of class `k`, each once. */
  ghost predicate HoldsWaiters(callers: Callers, k: Kind, queued: multiset<Request>) {
    forall r :: queued[r] == if WaitsIn(callers, r, k) then 1 else 0
  }

  /** An asleep head always has a running lease in its class that will wake it. */
  ghost predicate NoLostWakeup(callers: Callers, q: seq<Request>, active: int) {
    q != [] && q[0] in callers && callers[q[0]].phase.Asleep? ==> active > 0
  }

  ghost predicate ClassInv(callers: Callers, k: Kind, q: seq<Request>, active: int, workers: nat) {
    && HoldsWaiters(callers, k, multiset(q))
    && active == |Leases(callers, k)| <= workers
    && NoLostWakeup(callers, q, active)
  }

  ghost predicate InvFor(cfg: Config, s: System, k: Kind) {
    ClassInv(s.callers, k, s.pools.Queue(k), s.pools.Active(k), cfg.Workers(k))
  }

  ghost predicate UniqueIds(callers: Callers) {
    forall x, y :: x in callers && y in callers && x.id == y.id ==> x == y
  }

  ghost predicate Inv(cfg: Config, s: System) {
    && cfg.Valid() && s.pools.Heaps()
    && (s.pools.heavyLimit == cfg.heavyWorkers || s.pools.heavyLimit == cfg.ReducedLimit())
    && UniqueIds(s.callers)
    && InvFor(cfg, s, Normal) && InvFor(cfg, s, Heavy)
  }

  /** Class `k` sees nothing of the step, except that its sleepers may have been woken. */
  ghost predicate Unaffected(callers: Callers, callers': Callers, k: Kind) {
    && (forall r :: r in callers && callers[r].kind == k ==>
          && r in callers'
          && (callers'[r] == callers[r] || (callers[r].phase.Asleep? && callers'[r] == callers[r].(phase := Awake))))
    && (forall r :: r in callers' && callers'[r].kind == k ==> r in callers && callers[r].kind == k)
  }

  lemma UnaffectedInv(callers: Callers, callers': Callers, k: Kind, q: seq<Request>, active: int, workers: nat)
    requires ClassInv(callers, k, q, active, workers) && Unaffected(callers, callers', k)
    ensures ClassInv(callers', k, q, active, workers)
  {
    assert Leases(callers', k) == Leases(callers, k);
    if q != [] {
      assert multiset(q)[q[0]] > 0;
    }
  }

  lemma PushedInv(callers: Callers, r: Request, k: Kind, q: seq<Request>, q': seq<Request>, active: int, workers: nat)
    requires ClassInv(callers, k, q, active, workers) && r !in callers
    requires multiset(q') == multiset(q) + multiset{r}
    ensures ClassInv(Woken(callers)[r := Caller(k, Queued)], k, q', active, workers)
  {
    var callers' := Woken(callers)[r := Caller(k, Queued)];
    assert Leases(callers', k) == Leases(callers, k);
  }

  /** One caller stops waiting, and nobody else starts or stops. */
  lemma WaitersWithout(callers: Callers, callers': Callers, r: Request, k: Kind, queued: multiset<Request>)
    requires HoldsWaiters(callers, k, queued) && !WaitsIn(callers', r, k)
    requires forall x :: x != r ==> (WaitsIn(callers', x, k) <==> WaitsIn(callers, x, k))
    ensures HoldsWaiters(callers', k, queued - multiset{r})
  {
    hide WaitsIn;
  }

  lemma AdmittedInv(callers: Callers, r: Request, k: Kind, q: seq<Request>, q': seq<Request>, active: int, workers: nat)
    requires ClassInv(callers, k, q, active, workers) && active < workers
    requires r in callers && callers[r].kind == k && callers[r].Waiting()
    requires multiset(q') == multiset(q) - multiset{r}
    ensures ClassInv(InPhase(callers, r, Running), k, q', active + 1, workers)
  {
    hide HoldsWaiters;
    var callers' := InPhase(callers, r, Running);
    assert Leases(callers', k) == Leases(callers, k) + {r};
    WaitersWithout(callers, callers', r, k, multiset(q));
  }

  lemma SleepInv(callers: Callers, r: Request, k: Kind, q: seq<Request>, active: int, workers: nat)
    requires ClassInv(callers, k, q, active, workers)
    requires r in callers && callers[r].kind == k && callers[r].Waiting()
    requires q != [] && q[0] == r ==> active > 0
    ensures ClassInv(InPhase(callers, r, Asleep), k, q, active, workers)
  {
    assert Leases(InPhase(callers, r, Asleep), k) == Leases(callers, k);
  }

  lemma RemovedInv(callers: Callers, r: Request, k: Kind, q: seq<Request>, q': seq<Request>, active: int, workers: nat, phase: Phase)
    requires ClassInv(callers, k, q, active, workers)
    requires r in callers && callers[r].kind == k && !callers[r].phase.Running? && (phase.Leaving? || phase.Gone?)
    requires multiset(q') == multiset(q) - multiset{r}
    requires r !in q ==> q' == q
    ensures ClassInv(InPhase(if r in q then Woken(callers) else callers, r, phase), k, q', active, workers)
  {
    hide HoldsWaiters, InPhase, Woken, WaitsIn, Leases, NoLostWakeup;
    var callers' := InPhase(if r in q then Woken(callers) else callers, r, phase);
    LeavingKeepsOthers(callers, r, k, r in q, phase);
    WaitersWithout(callers, callers', r, k, multiset(q));
    NoLostWakeupAfter(callers, r, q, q', active, phase);
  }

  lemma LeavingKeepsOthers(callers: Callers, r: Request, k: Kind, wake: bool, phase: Phase)
    requires r in callers && !callers[r].phase.Running? && (phase.Leaving? || phase.Gone?)
    ensures var c := InPhase(if wake then Woken(callers) else callers, r, phase);
      && Leases(c, k) == Leases(callers, k) && !WaitsIn(c, r, k)
      && forall x :: x != r ==> (WaitsIn(c, x, k) <==> WaitsIn(callers, x, k))
  {
    assert Leases(InPhase(if wake then Woken(callers) else callers, r, phase), k) == Leases(callers, k);
  }

  lemma NoLostWakeupAfter(callers: Callers, r: Request, q: seq<Request>, q': seq<Request>, active: int, phase: Phase)
    requires r in callers && (phase.Leaving? || phase.Gone?) && NoLostWakeup(callers, q, active)
    requires r !in q ==> q' == q
    ensures NoLostWakeup(InPhase(if r in q then Woken(callers) else callers, r, phase), q', active)
  {
  }

  lemma ReleasedInv(callers: Callers, r: Request, k: Kind, q: seq<Request>, active: int, workers: nat)
    requires ClassInv(callers, k, q, active, workers)
    requires r in callers && callers[r].kind == k && callers[r].phase.Running?
    ensures active > 0 && ClassInv(InPhase(Woken(callers), r, Leaving), k, q, active - 1, workers)
  {
    assert r in Leases(callers, k);
    assert Leases(InPhase(Woken(callers), r, Leaving), k) == Leases(callers, k) - {r};
  }

  lemma StartInv(cfg: Config)
    requires cfg.Valid()
    ensures Inv(cfg, Start(cfg))
  {
    assert Leases(map[], Normal) == {} && Leases(map[], Heavy) == {};
  }

  function Other(k: Kind): Kind {
    if k.Heavy? then Normal else Heavy
  }

  /** What one update of class `k`, followed by a rebalance, leaves of the pools. */
  lemma PoolsAfter(cfg: Config, p: Pools, k: Kind, q: seq<Request>, active: int, p': Pools)
    requires cfg.Valid() && (p.heavyLimit == cfg.heavyWorkers || p.heavyLimit == cfg.ReducedLimit())
    requires p' == p.WithQueue(k, q).WithActive(k, active).Rebalanced(cfg)
    ensures p'.Queue(k) == q && p'.Active(k) == active
    ensures p'.Queue(Other(k)) == p.Queue(Other(k)) && p'.Active(Other(k)) == p.Active(Other(k))
    ensures p'.heavyLimit == cfg.heavyWorkers || p'.heavyLimit == cfg.ReducedLimit()
    ensures p.Heaps() && IsHeap(q) ==> p'.Heaps()
  {
  }

  lemma PoolsSame(p: Pools, k: Kind)
    ensures p.WithQueue(k, p.Queue(k)) == p && p.WithActive(k, p.Active(k)) == p
    ensures p.Heaps() ==> IsHeap(p.Queue(k))
  {
  }

  lemma Assemble(cfg: Config, s: System, k: Kind)
    requires cfg.Valid() && s.pools.Heaps() && UniqueIds(s.callers)
    requires s.pools.heavyLimit == cfg.heavyWorkers || s.pools.heavyLimit == cfg.ReducedLimit()
    requires InvFor(cfg, s, k) && InvFor(cfg, s, Other(k))
    ensures Inv(cfg, s)
  {
    hide ClassInv, UniqueIds, IsHeap;
  }

  lemma Parts(cfg: Config, s: System, k: Kind)
    requires Inv(cfg, s)
    ensures ClassInv(s.callers, k, s.pools.Queue(k), s.pools.Active(k), cfg.Workers(k))
    ensures s.pools.Capacity(cfg, k) <= cfg.Workers(k) && 1 <= s.pools.Capacity(cfg, k)
  {
    hide ClassInv, UniqueIds, IsHeap;
  }

  /** The class a step does not touch keeps its invariant. */
  lemma OtherInv(cfg: Config, s: System, s': System, k: Kind)
    requires Inv(cfg, s) && Unaffected(s.callers, s'.callers, k)
    requires s'.pools.Queue(k) == s.pools.Queue(k) && s'.pools.Active(k) == s.pools.Active(k)
    ensures InvFor(cfg, s', k)
  {
    hide ClassInv, UniqueIds, Unaffected, IsHeap;
    Parts(cfg, s, k);
    UnaffectedInv(s.callers, s'.callers, k, s.pools.Queue(k), s.pools.Active(k), cfg.Workers(k));
  }

  /** A caller of class `k` changes phase, and possibly everybody asleep is woken. */
  lemma MoveUnaffected(callers: Callers, r: Request, phase: Phase, k: Kind)
    requires r in callers && callers[r].kind != k
    ensures Unaffected(callers, InPhase(callers, r, phase), k)
    ensures Unaffected(callers, InPhase(Woken(callers), r, phase), k)
  {
  }

  lemma MoveKeepsIds(callers: Callers, r: Request, phase: Phase)
    requires r in callers && UniqueIds(callers)
    ensures UniqueIds(InPhase(callers, r, phase)) && UniqueIds(InPhase(Woken(callers), r, phase))
  {
    assert InPhase(callers, r, phase).Keys == callers.Keys;
    assert InPhase(Woken(callers), r, phase).Keys == callers.Keys;
  }

  lemma PushUnaffected(callers: Callers, r: Request, kind: Kind, k: Kind)
    requires r !in callers && kind != k
    ensures Unaffected(callers, Woken(callers)[r := Caller(kind, Queued)], k)
  {
  }

  lemma PushKeepsIds(callers: Callers, r: Request, kind: Kind)
    requires Fresh(callers, r) && UniqueIds(callers)
    ensures r !in callers && UniqueIds(Woken(callers)[r := Caller(kind, Queued)])
  {
  }

  lemma EnqueueInv(cfg: Config, s: System, r: Request, k: Kind, s': System)
    requires Inv(cfg, s) && Next(cfg, Identity, s, Enqueue(r, k), s')
    ensures Inv(cfg, s')
  {
    hide ClassInv, UniqueIds, Unaffected, IsHeap, Woken, Fresh;
    PushKeepsIds(s.callers, r, k);
    PushUnaffected(s.callers, r, k, Other(k));
    var q' := s'.pools.Queue(k);
    PoolsSame(s.pools.WithQueue(k, q'), k);
    PoolsAfter(cfg, s.pools, k, q', s.pools.Active(k), s'.pools);
    Parts(cfg, s, k);
    PushedInv(s.callers, r, k, s.pools.Queue(k), q', s.pools.Active(k), cfg.Workers(k));
    OtherInv(cfg, s, s', Other(k));
    Assemble(cfg, s', k);
  }

  lemma AdmitInv(cfg: Config, s: System, r: Request, s': System)
    requires Inv(cfg, s) && r in s.callers && s.callers[r].Waiting()
    requires s.pools.CanAdmit(cfg, r, s.callers[r].kind)
    requires Admitted(cfg, s.pools, r, s.callers[r].kind, s'.pools) && s'.callers == InPhase(s.callers, r, Running)
    ensures Inv(cfg, s')
  {
    hide ClassInv, UniqueIds, Unaffected, IsHeap, Woken, InPhase;
    MoveUnaffected(s.callers, r, Running, Other(s.callers[r].kind));
    MoveKeepsIds(s.callers, r, Running);
    var k := s.callers[r].kind;
    var q' := s'.pools.Queue(k);
    Parts(cfg, s, k);
    AdmittedInv(s.callers, r, k, s.pools.Queue(k), q', s.pools.Active(k), cfg.Workers(k));
    PoolsAfter(cfg, s.pools, k, q', s.pools.Active(k) + 1, s'.pools);
    OtherInv(cfg, s, s', Other(k));
    Assemble(cfg, s', k);
  }

  lemma FallAsleepInv(cfg: Config, s: System, r: Request, s': System)
    requires Inv(cfg, s) && r in s.callers && s.callers[r].Waiting()
    requires !s.pools.CanAdmit(cfg, r, s.callers[r].kind)
    requires s' == System(s.pools, InPhase(s.callers, r, Asleep))
    ensures Inv(cfg, s')
  {
    hide ClassInv, UniqueIds, Unaffected, IsHeap, Woken, InPhase;
    MoveUnaffected(s.callers, r, Asleep, Other(s.callers[r].kind));
    MoveKeepsIds(s.callers, r, Asleep);
    var k := s.callers[r].kind;
    Parts(cfg, s, k);
    SleepInv(s.callers, r, k, s.pools.Queue(k), s.pools.Active(k), cfg.Workers(k));
    OtherInv(cfg, s, s', Other(k));
    Assemble(cfg, s', k);
  }

  lemma CheckInv(cfg: Config, s: System, r: Request, s': System)
    requires Inv(cfg, s) && Next(cfg, Identity, s, Check(r), s')
    ensures Inv(cfg, s')
  {
    hide Inv, IsHeap, Woken, InPhase, Admitted;
    if s.pools.CanAdmit(cfg, r, s.callers[r].kind) {
      AdmitInv(cfg, s, r, s');
    } else {
      FallAsleepInv(cfg, s, r, s');
    }
  }

  lemma QueuedAreCallers(cfg: Config, s: System, k: Kind)
    requires Inv(cfg, s)
    ensures forall r :: r in s.pools.Queue(k) <==> WaitsIn(s.callers, r, k)
  {
    hide IsHeap, UniqueIds, NoLostWakeup, Leases;
    Parts(cfg, s, k);
    assert forall r :: r in s.pools.Queue(k) <==> multiset(s.pools.Queue(k))[r] > 0;
  }

  lemma RemoveQueuedInv(cfg: Config, s: System, r: Request, phase: Phase, s': System)
    requires Inv(cfg, s) && r in s.callers && (phase.Leaving? || phase.Gone?)
    requires !s.callers[r].phase.Running? && r in s.pools.Queue(s.callers[r].kind)
    requires var k := s.callers[r].kind; var q' := s'.pools.Queue(k);
      && IsHeap(q') && multiset(q') == multiset(s.pools.Queue(k)) - multiset{r}
      && s'.pools == s.pools.WithQueue(k, q').Rebalanced(cfg)
    requires s'.callers == InPhase(Woken(s.callers), r, phase)
    ensures Inv(cfg, s')
  {
    hide ClassInv, UniqueIds, Unaffected, IsHeap, Woken, InPhase;
    MoveUnaffected(s.callers, r, phase, Other(s.callers[r].kind));
    MoveKeepsIds(s.callers, r, phase);
    var k := s.callers[r].kind;
    var q' := s'.pools.Queue(k);
    Parts(cfg, s, k);
    PoolsSame(s.pools.WithQueue(k, q'), k);
    PoolsAfter(cfg, s.pools, k, q', s.pools.Active(k), s'.pools);
    assert InvFor(cfg, s', k) by {
      RemovedInv(s.callers, r, k, s.pools.Queue(k), q', s.pools.Active(k), cfg.Workers(k), phase);
    }
    OtherInv(cfg, s, s', Other(k));
    Assemble(cfg, s', k);
  }

  lemma RemoveAbsentInv(cfg: Config, s: System, r: Request, phase: Phase, s': System)
    requires Inv(cfg, s) && r in s.callers && (phase.Leaving? || phase.Gone?)
    requires !s.callers[r].phase.Running? && r !in s.pools.Queue(s.callers[r].kind)
    requires s' == System(s.pools, InPhase(s.callers, r, phase))
    ensures Inv(cfg, s')
  {
    hide ClassInv, UniqueIds, Unaffected, IsHeap, Woken, InPhase;
    MoveUnaffected(s.callers, r, phase, Other(s.callers[r].kind));
    MoveKeepsIds(s.callers, r, phase);
    var k := s.callers[r].kind;
    var q := s.pools.Queue(k);
    Parts(cfg, s, k);
    assert multiset(q) - multiset{r} == multiset(q);
    RemovedInv(s.callers, r, k, q, q, s.pools.Active(k), cfg.Workers(k), phase);
    OtherInv(cfg, s, s', Other(k));
    Assemble(cfg, s', k);
  }

  lemma RemoveInv(cfg: Config, s: System, r: Request, phase: Phase, s': System)
    requires Inv(cfg, s) && r in s.callers && (phase.Leaving? || phase.Gone?)
    requires !s.callers[r].phase.Running?
    requires RemoveNext(cfg, Identity, s, r, phase, s')
    ensures Inv(cfg, s')
  {
    hide IsHeap, Woken, InPhase, ClassInv, HoldsWaiters;
    var q := s.pools.Queue(s.callers[r].kind);
    QueuedAreCallers(cfg, s, s.callers[r].kind);
    var n := FirstMatch(Identity, q, r);
    if n < |q| {
      assert q[n] in q && q[n] == r;
      RemoveQueuedInv(cfg, s, r, phase, s');
    } else {
      assert r !in q;
      RemoveAbsentInv(cfg, s, r, phase, s');
    }
  }

  /** A release always gives back a lease that was really held: `max(0, ...)` never clamps. */
  lemma ReleaseInv(cfg: Config, s: System, r: Request, s': System)
    requires Inv(cfg, s) && Next(cfg, Identity, s, Release(r), s')
    ensures Inv(cfg, s')
    ensures s'.pools.Active(s.callers[r].kind) == s.pools.Active(s.callers[r].kind) - 1
  {
    hide ClassInv, UniqueIds, Unaffected, IsHeap, Woken, InPhase;
    MoveUnaffected(s.callers, r, Leaving, Other(s.callers[r].kind));
    MoveKeepsIds(s.callers, r, Leaving);
    var k := s.callers[r].kind;
    var q := s.pools.Queue(k);
    Parts(cfg, s, k);
    ReleasedInv(s.callers, r, k, q, s.pools.Active(k), cfg.Workers(k));
    PoolsSame(s.pools, k);
    PoolsAfter(cfg, s.pools, k, q, s.pools.Active(k) - 1, s'.pools);
    OtherInv(cfg, s, s', Other(k));
    Assemble(cfg, s', k);
  }

  lemma RebalanceInv(cfg: Config, s: System, s': System)
    requires Inv(cfg, s) && Next(cfg, Identity, s, Rebalance, s')
    ensures Inv(cfg, s')
  {
    hide ClassInv, UniqueIds, Unaffected, IsHeap, Woken;
    WakeUnaffected(s.callers);
    OtherInv(cfg, s, s', Normal);
    OtherInv(cfg, s, s', Heavy);
    Assemble(cfg, s', Normal);
  }

  lemma WakeUnaffected(callers: Callers)
    ensures Unaffected(callers, Woken(callers), Normal) && Unaffected(callers, Woken(callers), Heavy)
    ensures UniqueIds(callers) ==> UniqueIds(Woken(callers))
  {
    assert Woken(callers).Keys == callers.Keys;
  }

  lemma NextInv(cfg: Config, s: System, a: Action, s': System)
    requires Inv(cfg, s) && Next(cfg, Identity, s, a, s')
    ensures Inv(cfg, s')
  {
    hide Inv, Removed, Enqueued, Admitted, Woken, InPhase;
    match a
    case Enqueue(r, k) => EnqueueInv(cfg, s, r, k, s');
    case Check(r) => CheckInv(cfg, s, r, s');
    case Cancel(r) => RemoveInv(cfg, s, r, Leaving, s');
    case Release(r) => ReleaseInv(cfg, s, r, s');
    case Discard(r) => RemoveInv(cfg, s, r, Gone, s');
    case Rebalance => RebalanceInv(cfg, s, s');
  }

  lemma {:induction false} RunInv(cfg: Config, states: seq<System>, actions: seq<Action>, i: nat)
    requires cfg.Valid() && Run(cfg, Identity, states, actions) && states[0] == Start(cfg) && i < |states|
    ensures Inv(cfg, states[i])
  {
    hide Inv, Next, Start;
    if i == 0 {
      StartInv(cfg);
    } else {
      RunInv(cfg, states, actions, i - 1);
      NextInv(cfg, states[i - 1], actions[i - 1], states[i]);
    }
  }

  // ----- what the invariant gives ----------------------------------------------------------------

  lemma HeadReady(cfg: Config, s: System, k: Kind)
    requires Inv(cfg, s) && s.pools.Queue(k) != [] && s.pools.Active(k) == 0
    ensures var head := s.pools.Queue(k)[0];
      && head in s.callers && (s.callers[head].phase.Queued? || s.callers[head].phase.Awake?)
      && s.callers[head].kind == k && s.pools.CanAdmit(cfg, head, k)
  {
    hide IsHeap, UniqueIds, HoldsWaiters, Leases;
    Parts(cfg, s, k);
    QueuedAreCallers(cfg, s, k);
    assert s.pools.Queue(k)[0] in s.pools.Queue(k);
  }

  /**
   * No deadlock: in every reachable state, if a class has waiting requests and no running lease, its
   * head is not asleep, and the head's next test of the wait condition succeeds.
   */
  lemma DeadlockFreedom(cfg: Config, states: seq<System>, actions: seq<Action>, i: nat, k: Kind)
    requires cfg.Valid() && Run(cfg, Identity, states, actions) && states[0] == Start(cfg) && i < |states|
    requires states[i].pools.Queue(k) != [] && states[i].pools.Active(k) == 0
    ensures var s := states[i]; var head := s.pools.Queue(k)[0];
      && head in s.callers && (s.callers[head].phase.Queued? || s.callers[head].phase.Awake?)
      && s.callers[head].kind == k && s.pools.CanAdmit(cfg, head, k)
  {
    RunInv(cfg, states, actions, i);
    HeadReady(cfg, states[i], k);
  }

  /**
   * Capacity in every reachable state: the active count is the number of live leases, never negative and
   * never above the worker count, and the heavy limit is one of its two values.
   */
  lemma ActiveCountsLeases(cfg: Config, states: seq<System>, actions: seq<Action>, i: nat, k: Kind)
    requires cfg.Valid() && Run(cfg, Identity, states, actions) && states[0] == Start(cfg) && i < |states|
    ensures states[i].pools.Active(k) == |Leases(states[i].callers, k)| <= cfg.Workers(k)
    ensures states[i].pools.heavyLimit == cfg.heavyWorkers || states[i].pools.heavyLimit == cfg.ReducedLimit()
    ensures |states[i].pools.Queue(k)| == |WaitingSet(states[i].callers, k)|
  {
    RunInv(cfg, states, actions, i);
    Parts(cfg, states[i], k);
    CountWaiting(states[i].callers, k, states[i].pools.Queue(k));
  }

  lemma LimitFitsStep(cfg: Config, eq: Equality, s: System, a: Action, s': System)
    requires cfg.Valid() && LimitFits(cfg, s.pools) && Next(cfg, eq, s, a, s')
    ensures LimitFits(cfg, s'.pools)
  {
    match a
    case Enqueue(r, k) => RebalanceFits(cfg, s.pools.WithQueue(k, s'.pools.Queue(k)));
    case Check(r) =>
      var k := s.callers[r].kind;
      if s.pools.CanAdmit(cfg, r, k) {
        RebalanceFits(cfg, s.pools.WithQueue(k, s'.pools.Queue(k)).WithActive(k, s.pools.Active(k) + 1));
      }
    case Cancel(r) => RemovalFits(cfg, eq, s.pools, r, s.callers[r].kind, s'.pools);
    case Discard(r) => RemovalFits(cfg, eq, s.pools, r, s.callers[r].kind, s'.pools);
    case Release(r) =>
      var k := s.callers[r].kind;
      RebalanceFits(cfg, s.pools.WithActive(k, if s.pools.Active(k) - 1 > 0 then s.pools.Active(k) - 1 else 0));
    case Rebalance => RebalanceFits(cfg, s.pools);
  }

  lemma RemovalFits(cfg: Config, eq: Equality, p: Pools, r: Request, k: Kind, p': Pools)
    requires cfg.Valid() && LimitFits(cfg, p) && Removed(cfg, eq, p, r, k, p')
    ensures LimitFits(cfg, p')
  {
    RebalanceFits(cfg, p.WithQueue(k, p'.Queue(k)));
  }

  /**
   * In every reachable state, under either comparison, the heavy limit is what the normal backlog calls for:
   * max(1, half) above the threshold, all heavy workers at a quarter of it or less.
   */
  lemma {:induction false} LimitFollowsBacklog(cfg: Config, eq: Equality, states: seq<System>, actions: seq<Action>, i: nat)
    requires cfg.Valid() && Run(cfg, eq, states, actions) && states[0] == Start(cfg) && i < |states|
    ensures var p := states[i].pools;
      && (|p.normalQueue| > cfg.rebalanceThreshold ==> p.heavyLimit == Max(1, cfg.heavyWorkers / 2))
      && (|p.normalQueue| <= cfg.rebalanceThreshold / 4 ==> p.heavyLimit == cfg.heavyWorkers)
      && (p.heavyLimit == cfg.heavyWorkers || p.heavyLimit == Max(1, cfg.heavyWorkers / 2))
  {
    hide Next;
    if i > 0 {
      LimitFollowsBacklog(cfg, eq, states, actions, i - 1);
      assert Next(cfg, eq, states[i - 1], actions[i - 1], states[i]);
      LimitFitsStep(cfg, eq, states[i - 1], actions[i - 1], states[i]);
    }
  }

  /**
   * So a heavy request that gets a worker while the normal backlog is above the threshold finds fewer than
   * max(1, half) heavy tasks running, and any admitted request fewer than all workers of its class.
   */
  lemma BacklogHoldsHeavyBack(cfg: Config, states: seq<System>, actions: seq<Action>, i: nat, r: Request)
    requires cfg.Valid() && Run(cfg, Identity, states, actions) && states[0] == Start(cfg) && i < |actions|
    requires AdmittedAt(states, i, r)
    ensures var s := states[i]; var k := s.callers[r].kind;
      && |Leases(s.callers, k)| < cfg.Workers(k)
      && (k.Heavy? && |s.pools.normalQueue| > cfg.rebalanceThreshold ==> |Leases(s.callers, k)| < Max(1, cfg.heavyWorkers / 2))
  {
    var s, k := states[i], states[i].callers[r].kind;
    assert Next(cfg, Identity, s, actions[i], states[i + 1]);
    hide Next;
    AdmissionIsCheck(cfg, s, actions[i], states[i + 1], r);
    ActiveCountsLeases(cfg, states, actions, i, k);
    LimitFollowsBacklog(cfg, Identity, states, actions, i);
    RunInv(cfg, states, actions, i);
    Parts(cfg, s, k);
  }

  function WaitingSet(callers: Callers, k: Kind): set<Request> {
    set r | r in callers && WaitsIn(callers, r, k)
  }

  lemma CountWaiting(callers: Callers, k: Kind, q: seq<Request>)
    requires HoldsWaiters(callers, k, multiset(q))
    ensures |q| == |WaitingSet(callers, k)|
  {
    assert multiset(q) == multiset(WaitingSet(callers, k));
    assert |multiset(q)| == |q|;
  }

  /** `r` leaves the queue for a worker between state `i` and the next. */
  ghost predicate AdmittedAt(states: seq<System>, i: nat, r: Request)
    requires i + 1 < |states|
  {
    && r in states[i].callers && states[i].callers[r].Waiting()
    && r in states[i + 1].callers && states[i + 1].callers[r].phase.Running?
  }

  function Progress(p: Phase): nat {
    match p
    case Queued => 0
    case Awake => 0
    case Asleep => 0
    case Running => 1
    case Leaving => 2
    case Gone => 3
  }

  lemma {:induction false} ProgressMonotone(cfg: Config, eq: Equality, states: seq<System>, actions: seq<Action>, i: nat, j: nat, r: Request)
    requires Run(cfg, eq, states, actions) && i <= j < |states| && r in states[i].callers
    ensures r in states[j].callers
    ensures Progress(states[i].callers[r].phase) <= Progress(states[j].callers[r].phase)
  {
    hide Next;
    if i < j {
      ProgressMonotone(cfg, eq, states, actions, i, j - 1, r);
      assert Next(cfg, eq, states[j - 1], actions[j - 1], states[j]);
      ProgressStep(cfg, eq, states[j - 1], actions[j - 1], states[j], r);
    }
  }

  lemma ProgressStep(cfg: Config, eq: Equality, s: System, a: Action, s': System, r: Request)
    requires Next(cfg, eq, s, a, s') && r in s.callers
    ensures r in s'.callers && Progress(s.callers[r].phase) <= Progress(s'.callers[r].phase)
  {
    hide Removed, Enqueued, Admitted, Released;
  }

  /** A request is admitted at most once in any run, under either comparison. */
  lemma AdmittedAtMostOnce(cfg: Config, eq: Equality, states: seq<System>, actions: seq<Action>, i: nat, j: nat, r: Request)
    requires Run(cfg, eq, states, actions) && i <= j && j + 1 < |states|
    requires AdmittedAt(states, i, r) && AdmittedAt(states, j, r)
    ensures i == j
  {
    hide Next, Run;
    if i < j {
      ProgressMonotone(cfg, eq, states, actions, i + 1, j, r);
    }
  }

  /** Whoever is admitted has the smallest priority value of all callers waiting in its class. */
  lemma AdmittedIsMinimal(cfg: Config, s: System, a: Action, s': System, r: Request, other: Request)
    requires Inv(cfg, s) && Next(cfg, Identity, s, a, s') && AdmittedAt([s, s'], 0, r)
    requires WaitsIn(s.callers, other, s.callers[r].kind)
    ensures r.priority <= other.priority
    ensures s.pools.Active(s.callers[r].kind) < s.pools.Capacity(cfg, s.callers[r].kind)
  {
    var k := s.callers[r].kind;
    var q := s.pools.Queue(k);
    QueuedAreCallers(cfg, s, k);
    AdmissionIsCheck(cfg, s, a, s', r);
    PoolsSame(s.pools, k);
    assert s.pools.Heaps();
    hide Next, Inv, IsHeap, Pools.Heaps, AdmittedAt;
    var i :| 0 <= i < |q| && q[i] == other;
    RootIsMinimal(q, i);
  }

  /** Only its own test of the wait condition gets a caller a worker. */
  lemma AdmissionIsCheck(cfg: Config, s: System, a: Action, s': System, r: Request)
    requires Next(cfg, Identity, s, a, s') && AdmittedAt([s, s'], 0, r)
    ensures a == Check(r) && s.pools.CanAdmit(cfg, r, s.callers[r].kind)
  {
    hide Removed, Enqueued, Admitted, Released;
  }

  // ----- every waiter can be served ----------------------------------------------------------------

  lemma SortedIsHeap(q: seq<Request>)
    ensures IsHeap(Sort(PriorityLe, q)) && multiset(Sort(PriorityLe, q)) == multiset(q)
  {
    var t := Sort(PriorityLe, q);
    SortSorted(PriorityLe, q);
    forall i: nat | 0 < i < |t| ensures InOrder(t, i) {
      assert PriorityLe(t[Parent(i)], t[i]);
    }
  }

  /** A schedule in which callers only test the wait condition and finish their work. */
  ghost predicate ServingRun(cfg: Config, states: seq<System>, actions: seq<Action>) {
    Run(cfg, Identity, states, actions) && forall a :: a in actions ==> a.Check? || a.Release?
  }

  ghost predicate CanBeServed(cfg: Config, s: System, r: Request) {
    exists states: seq<System>, actions: seq<Action> ::
      && ServingRun(cfg, states, actions) && states[0] == s
      && r in states[|actions|].callers && states[|actions|].callers[r].phase.Running?
  }

  lemma ServedAfterStep(cfg: Config, s: System, a: Action, s': System, r: Request)
    requires Next(cfg, Identity, s, a, s') && (a.Check? || a.Release?) && CanBeServed(cfg, s', r)
    ensures CanBeServed(cfg, s, r)
  {
    var states: seq<System>, actions: seq<Action> :|
      && ServingRun(cfg, states, actions) && states[0] == s'
      && r in states[|actions|].callers && states[|actions|].callers[r].phase.Running?;
    var states', actions' := [s] + states, [a] + actions;
    forall i | 0 <= i < |actions'| ensures Next(cfg, Identity, states'[i], actions'[i], states'[i + 1]) {
      if i > 0 {
        assert Next(cfg, Identity, states[i - 1], actions[i - 1], states[i]);
      }
    }
    assert ServingRun(cfg, states', actions');
    assert states'[|actions'|] == states[|actions|];
  }

  lemma ServedNow(cfg: Config, s: System, r: Request)
    requires r in s.callers && s.callers[r].phase.Running?
    ensures CanBeServed(cfg, s, r)
  {
    assert ServingRun(cfg, [s], []);
  }

  /** One heap that a pop may leave behind. */
  lemma Popped(q: seq<Request>) returns (q': seq<Request>)
    requires q != []
    ensures IsHeap(q') && multiset(q') == multiset(q) - multiset{q[0]} && |q'| == |q| - 1
  {
    SortedIsHeap(q[1..]);
    q' := Sort(PriorityLe, q[1..]);
    assert q == [q[0]] + q[1..];
    assert |multiset(q')| == |multiset(q[1..])|;
  }

  /** With no lease running the head is admitted. */
  lemma AdmitHead(cfg: Config, s: System, k: Kind) returns (head: Request, s': System)
    requires Inv(cfg, s) && s.pools.Queue(k) != [] && s.pools.Active(k) == 0
    ensures head == s.pools.Queue(k)[0] && Next(cfg, Identity, s, Check(head), s') && Inv(cfg, s')
    ensures head in s.callers && s'.callers == InPhase(s.callers, head, Running)
    ensures |s'.pools.Queue(k)| == |s.pools.Queue(k)| - 1 && s'.pools.Active(k) == 1
  {
    head := s.pools.Queue(k)[0];
    HeadReady(cfg, s, k);
    var q' := Popped(s.pools.Queue(k));
    var pools' := s.pools.WithQueue(k, q').WithActive(k, 1).Rebalanced(cfg);
    PoolsAfter(cfg, s.pools, k, q', 1, pools');
    s' := System(pools', InPhase(s.callers, head, Running));
    assert Admitted(cfg, s.pools, head, k, pools');
    AdmitInv(cfg, s, head, s');
  }

  /** With a lease running some caller can release it. */
  lemma ReleaseOne(cfg: Config, s: System, k: Kind) returns (holder: Request, s': System)
    requires Inv(cfg, s) && s.pools.Active(k) > 0
    ensures Next(cfg, Identity, s, Release(holder), s') && Inv(cfg, s')
    ensures holder in s.callers && s.callers[holder].phase.Running? && s'.callers == InPhase(Woken(s.callers), holder, Leaving)
    ensures s'.pools.Queue(k) == s.pools.Queue(k) && s'.pools.Active(k) == s.pools.Active(k) - 1
  {
    Parts(cfg, s, k);
    holder :| holder in Leases(s.callers, k);
    var pools' := Released(cfg, s.pools, k);
    PoolsSame(s.pools, k);
    PoolsAfter(cfg, s.pools, k, s.pools.Queue(k), s.pools.Active(k) - 1, pools');
    s' := System(pools', InPhase(Woken(s.callers), holder, Leaving));
    ReleaseInv(cfg, s, holder, s');
  }

  /**
   * From every state that satisfies the invariant, so from every reachable one, each waiting caller has a
   * schedule that gets it a worker, made only of wait-condition tests and releases.
   */
  lemma {:induction false} EveryWaiterCanBeServed(cfg: Config, s: System, r: Request, k: Kind)
    requires Inv(cfg, s) && WaitsIn(s.callers, r, k)
    ensures CanBeServed(cfg, s, r)
    decreases 2 * |s.pools.Queue(k)| + s.pools.Active(k)
  {
    Parts(cfg, s, k);
    QueuedAreCallers(cfg, s, k);
    if s.pools.Active(k) == 0 {
      var head, s' := AdmitHead(cfg, s, k);
      if head == r {
        ServedNow(cfg, s', r);
      } else {
        EveryWaiterCanBeServed(cfg, s', r, k);
      }
      ServedAfterStep(cfg, s, Check(head), s', r);
    } else {
      var holder, s' := ReleaseOne(cfg, s, k);
      EveryWaiterCanBeServed(cfg, s', r, k);
      ServedAfterStep(cfg, s, Release(holder), s', r);
    }
  }

  // ----- the stronger wake-up property fails ----------------------------------------------------

  /** The head of class `k` sleeps although a worker of its class is free. */
  ghost predicate SleepsBesideFreeSlot(cfg: Config, s: System, k: Kind) {
    var q := s.pools.Queue(k);
    q != [] && q[0] in s.callers && s.callers[q[0]].phase.Asleep? && s.pools.Active(k) < s.pools.Capacity(cfg, k)
  }

  ghost predicate Reaches(cfg: Config, k: Kind, states: seq<System>, actions: seq<Action>) {
    Run(cfg, Identity, states, actions) && states[0] == Start(cfg) && SleepsBesideFreeSlot(cfg, states[|actions|], k)
  }

  /**
   * `acquire` pops without notifying, so a head can sleep beside a free worker. It is not a deadlock, and it
   * happens in some run of a class if and only if the class has more than one worker.
   */
  lemma HeadMaySleepIff(cfg: Config, k: Kind)
    requires cfg.Valid()
    ensures (exists states, actions :: Reaches(cfg, k, states, actions)) <==> cfg.Workers(k) >= 2
  {
    if cfg.Workers(k) >= 2 {
      var a, b := Request(0, 0, 0.0, "", None), Request(1, 0, 0.0, "", None);
      var states, actions := HeadMaySleepBesideFreeSlot(cfg, k, a, b);
      assert Reaches(cfg, k, states, actions);
    }
    if states, actions :| Reaches(cfg, k, states, actions) {
      RunInv(cfg, states, actions, |actions|);
      Parts(cfg, states[|actions|], k);
    }
  }

  /** For every setting with two workers in the class: two equal requests, the second one tests first. */
  lemma HeadMaySleepBesideFreeSlot(cfg: Config, k: Kind, a: Request, b: Request) returns (states: seq<System>, actions: seq<Action>)
    requires cfg.Valid() && cfg.Workers(k) >= 2 && a.id != b.id && a.priority == b.priority
    ensures Reaches(cfg, k, states, actions)
  {
    hide Next, SleepsBesideFreeSlot;
    var s1, s2 := TwoQueued(cfg, Identity, k, a, b);
    var s3, s4 := SecondSleepsFirstRuns(cfg, k, a, b, s2);
    states, actions := [Start(cfg), s1, s2, s3, s4], [Enqueue(a, k), Enqueue(b, k), Check(b), Check(a)];
  }

  lemma SecondSleepsFirstRuns(cfg: Config, k: Kind, a: Request, b: Request, s2: System) returns (s3: System, s4: System)
    requires cfg.Valid() && cfg.Workers(k) >= 2 && a != b && TwoWaiting(cfg, s2, k, a, b)
    ensures Next(cfg, Identity, s2, Check(b), s3) && Next(cfg, Identity, s3, Check(a), s4)
    ensures SleepsBesideFreeSlot(cfg, s4, k)
  {
    s3 := System(s2.pools, map[a := Caller(k, Queued), b := Caller(k, Asleep)]);
    assert s3.callers == InPhase(s2.callers, b, Asleep);
    hide IsHeap;
    s4 := RunsBesideSleeper(cfg, k, a, b, s3);
  }

  lemma RunsBesideSleeper(cfg: Config, k: Kind, a: Request, b: Request, s: System) returns (s': System)
    requires cfg.Valid() && cfg.Workers(k) >= 2 && a != b && s.pools.Queue(k) == [a, b] && s.pools.Active(k) == 0
    requires k.Heavy? ==> s.pools.heavyLimit == cfg.heavyWorkers && s.pools.normalQueue == []
    requires s.callers == map[a := Caller(k, Queued), b := Caller(k, Asleep)]
    ensures Next(cfg, Identity, s, Check(a), s') && SleepsBesideFreeSlot(cfg, s', k)
  {
    var pools := s.pools.WithQueue(k, [b]).WithActive(k, 1).Rebalanced(cfg);
    s' := System(pools, map[a := Caller(k, Running), b := Caller(k, Asleep)]);
    assert s'.callers == InPhase(s.callers, a, Running);
    TakeHead(cfg, s.pools, a, k, b);
    assert pools.Active(k) == 1 && pools.Capacity(cfg, k) >= 2;
    hide Admitted, IsHeap;
  }

  ghost predicate TwoWaiting(cfg: Config, s: System, k: Kind, a: Request, b: Request) {
    && s.pools == Start(cfg).pools.WithQueue(k, [a, b]).(heavyLimit := s.pools.heavyLimit)
    && (k.Heavy? ==> s.pools.heavyLimit == cfg.heavyWorkers)
    && s.callers == map[a := Caller(k, Queued), b := Caller(k, Queued)]
    && IsHeap([a, b]) && multiset([a, b]) == multiset{a, b}
  }

  /** Two requests of one class and priority, queued one after the other. */
  lemma TwoQueued(cfg: Config, eq: Equality, k: Kind, a: Request, b: Request) returns (s1: System, s2: System)
    requires cfg.Valid() && a.id != b.id && a.priority == b.priority
    ensures Next(cfg, eq, Start(cfg), Enqueue(a, k), s1) && Next(cfg, eq, s1, Enqueue(b, k), s2)
    ensures TwoWaiting(cfg, s2, k, a, b)
  {
    TwoEqualAreHeap(a, b);
    assert Woken(map[]) == map[];
    s1 := Enqueues(cfg, eq, Start(cfg), a, k, [a]);
    assert Woken(s1.callers) == s1.callers;
    s2 := Enqueues(cfg, eq, s1, b, k, [a, b]);
    hide Next, IsHeap, Woken;
    assert s2.pools.Queue(k) == [a, b];
  }

  lemma Enqueues(cfg: Config, eq: Equality, s: System, r: Request, k: Kind, q: seq<Request>) returns (s': System)
    requires Fresh(s.callers, r) && IsHeap(q) && multiset(q) == multiset(s.pools.Queue(k)) + multiset{r}
    ensures Next(cfg, eq, s, Enqueue(r, k), s')
    ensures s' == System(s.pools.WithQueue(k, q).Rebalanced(cfg), Woken(s.callers)[r := Caller(k, Queued)])
  {
    hide IsHeap, Enqueued, Woken;
    PutInQueue(cfg, s.pools, r, k, q);
    s' := System(s.pools.WithQueue(k, q).Rebalanced(cfg), Woken(s.callers)[r := Caller(k, Queued)]);
  }

  lemma PutInQueue(cfg: Config, p: Pools, r: Request, k: Kind, q: seq<Request>)
    requires IsHeap(q) && multiset(q) == multiset(p.Queue(k)) + multiset{r}
    ensures Enqueued(cfg, p, r, k, p.WithQueue(k, q).Rebalanced(cfg))
  {
    hide IsHeap;
    assert p.WithQueue(k, q).Rebalanced(cfg).Queue(k) == q;
  }

  lemma TwoEqualAreHeap(a: Request, b: Request)
    requires a.priority == b.priority
    ensures IsHeap([a, b]) && multiset([a, b]) == multiset([a]) + multiset{b}
  {
    assert [a, b] == [a] + [b];
  }

  // ----- the comparison the code uses --------------------------------------------------------------

  /** A waiting caller whose request is in no queue. */
  ghost predicate Lost(s: System, r: Request) {
    r in s.callers && s.callers[r].Waiting() && r !in s.pools.Queue(s.callers[r].kind)
  }

  /** A removing step hits its own request or nothing. */
  ghost predicate HarmlessStep(s: System, a: Action) {
    match a
    case Cancel(r) => r in s.callers && Harmless(s.pools.Queue(s.callers[r].kind), r)
    case Discard(r) => r in s.callers && Harmless(s.pools.Queue(s.callers[r].kind), r)
    case _ => true
  }

  lemma HarmlessRemoval(cfg: Config, p: Pools, r: Request, k: Kind, p': Pools)
    requires Removed(cfg, PriorityOnly, p, r, k, p') && Harmless(p.Queue(k), r)
    requires forall x :: x in p.Queue(k) && x.id == r.id ==> x == r
    ensures Removed(cfg, Identity, p, r, k, p')
    ensures FirstMatch(Identity, p.Queue(k), r) == FirstMatch(PriorityOnly, p.Queue(k), r)
  {
    var q := p.Queue(k);
    var n := FirstMatch(PriorityOnly, q, r);
    assert n < |q| ==> q[n] == r;
    assert forall j :: 0 <= j < n ==> q[j].id != r.id;
  }

  lemma RemovedQueue(cfg: Config, eq: Equality, p: Pools, r: Request, k: Kind, p': Pools)
    requires Removed(cfg, eq, p, r, k, p')
    ensures var n := FirstMatch(eq, p.Queue(k), r);
      n < |p.Queue(k)| ==> multiset(p'.Queue(k)) == multiset(p.Queue(k)) - multiset{p.Queue(k)[n]}
  {
    hide IsHeap;
  }

  /** The removal took somebody else's request, whose caller goes on waiting. */
  lemma HarmfulRemoval(cfg: Config, s: System, r: Request, phase: Phase, s': System) returns (victim: Request)
    requires Inv(cfg, s) && r in s.callers && RemoveNext(cfg, PriorityOnly, s, r, phase, s')
    requires !Harmless(s.pools.Queue(s.callers[r].kind), r)
    ensures victim != r && Lost(s', victim)
  {
    var k := s.callers[r].kind;
    var q := s.pools.Queue(k);
    HarmlessFirstMatch(q, r);
    RemovedQueue(cfg, PriorityOnly, s.pools, r, k, s'.pools);
    QueuedAreCallers(cfg, s, k);
    Parts(cfg, s, k);
    hide IsHeap, UniqueIds, Leases, NoLostWakeup, Harmless, Removed, Inv;
    victim := q[FirstMatch(PriorityOnly, q, r)];
    assert victim in q && multiset(q)[victim] == 1;
    assert multiset(s'.pools.Queue(k))[victim] == 0;
    assert victim !in s'.pools.Queue(k);
    assert s'.callers[victim].kind == k;
  }

  lemma NoneLost(cfg: Config, s: System)
    requires Inv(cfg, s)
    ensures forall r :: !Lost(s, r)
  {
    QueuedAreCallers(cfg, s, Normal);
    QueuedAreCallers(cfg, s, Heavy);
  }

  lemma HarmlessNext(cfg: Config, s: System, a: Action, s': System)
    requires Inv(cfg, s) && Next(cfg, PriorityOnly, s, a, s') && HarmlessStep(s, a)
    ensures Next(cfg, Identity, s, a, s')
  {
    QueuedAreCallers(cfg, s, Normal);
    QueuedAreCallers(cfg, s, Heavy);
    if a.Cancel? || a.Discard? {
      var k := s.callers[a.request].kind;
      HarmlessRemoval(cfg, s.pools, a.request, k, s'.pools);
    }
  }

  /**
   * With the comparison the code uses, a step from a good state leaves every waiting caller in its queue
   * if and only if the step is harmless: no other queued request of equal priority comes first.
   */
  lemma KeepsWaitersIffHarmless(cfg: Config, s: System, a: Action, s': System)
    requires Inv(cfg, s) && Next(cfg, PriorityOnly, s, a, s')
    ensures (forall r :: !Lost(s', r)) <==> HarmlessStep(s, a)
    ensures HarmlessStep(s, a) ==> Inv(cfg, s')
  {
    if HarmlessStep(s, a) {
      HarmlessNext(cfg, s, a, s');
      NextInv(cfg, s, a, s');
      NoneLost(cfg, s');
    } else {
      var victim := HarmfulRemoval(cfg, s, a.request, if a.Cancel? then Leaving else Gone, s');
    }
  }

  ghost predicate HarmlessUpTo(states: seq<System>, actions: seq<Action>, n: nat)
    requires n <= |actions| < |states|
  {
    forall i :: 0 <= i < n ==> HarmlessStep(states[i], actions[i])
  }

  lemma {:induction false} HarmlessRunInv(cfg: Config, states: seq<System>, actions: seq<Action>, n: nat)
    requires cfg.Valid() && Run(cfg, PriorityOnly, states, actions) && states[0] == Start(cfg)
    requires n <= |actions| && HarmlessUpTo(states, actions, n)
    ensures Inv(cfg, states[n])
  {
    if n == 0 {
      StartInv(cfg);
    } else {
      HarmlessRunInv(cfg, states, actions, n - 1);
      KeepsWaitersIffHarmless(cfg, states[n - 1], actions[n - 1], states[n]);
    }
  }

  /** Over whole runs: nobody is ever lost if and only if every removal is harmless. */
  lemma RunKeepsWaitersIffHarmless(cfg: Config, states: seq<System>, actions: seq<Action>)
    requires cfg.Valid() && Run(cfg, PriorityOnly, states, actions) && states[0] == Start(cfg)
    ensures (forall i, r :: 0 <= i < |states| ==> !Lost(states[i], r)) <==> HarmlessUpTo(states, actions, |actions|)
  {
    if HarmlessUpTo(states, actions, |actions|) {
      forall i | 0 <= i < |states| ensures forall r :: !Lost(states[i], r) {
        HarmlessRunInv(cfg, states, actions, i);
        NoneLost(cfg, states[i]);
      }
    } else {
      var n := 0;
      while HarmlessStep(states[n], actions[n])
        invariant 0 <= n < |actions| && HarmlessUpTo(states, actions, n)
        decreases |actions| - n
      {
        n := n + 1;
      }
      HarmlessRunInv(cfg, states, actions, n);
      KeepsWaitersIffHarmless(cfg, states[n], actions[n], states[n + 1]);
    }
  }

  /** A lost caller never gets a worker, whatever happens next. */
  lemma {:induction false} LostForever(cfg: Config, eq: Equality, states: seq<System>, actions: seq<Action>, r: Request, i: nat)
    requires Run(cfg, eq, states, actions) && Lost(states[0], r) && i < |states|
    ensures r in states[i].callers && !states[i].callers[r].phase.Running?
    ensures Lost(states[i], r) || Progress(states[i].callers[r].phase) >= 2
  {
    hide Next, Lost;
    if i > 0 {
      LostForever(cfg, eq, states, actions, r, i - 1);
      assert Next(cfg, eq, states[i - 1], actions[i - 1], states[i]);
      LostStep(cfg, eq, states[i - 1], actions[i - 1], states[i], r);
    }
    LostIsWaiting(states[i], r);
  }

  lemma LostIsWaiting(s: System, r: Request)
    ensures Lost(s, r) ==> r in s.callers && !s.callers[r].phase.Running?
  {
  }

  lemma AbsentStays(cfg: Config, eq: Equality, s: System, a: Action, s': System, r: Request, k: Kind)
    requires Next(cfg, eq, s, a, s') && r in s.callers && r !in s.pools.Queue(k)
    ensures r !in s'.pools.Queue(k)
  {
    match a
    case Enqueue(x, kind) => EnqueuedOnly(cfg, s.pools, x, kind, s'.pools, r, k);
    case Check(x) =>
      if s.pools.CanAdmit(cfg, x, s.callers[x].kind) {
        AdmittedShrinks(cfg, s.pools, x, s.callers[x].kind, s'.pools, k);
        OnlyShrinks(s.pools, s'.pools, k, r);
      }
    case Cancel(x) =>
      RemovedShrinks(cfg, eq, s.pools, x, s.callers[x].kind, s'.pools, k);
      OnlyShrinks(s.pools, s'.pools, k, r);
    case Discard(x) =>
      RemovedShrinks(cfg, eq, s.pools, x, s.callers[x].kind, s'.pools, k);
      OnlyShrinks(s.pools, s'.pools, k, r);
    case _ =>
  }

  lemma EnqueuedOnly(cfg: Config, p: Pools, x: Request, kind: Kind, p': Pools, r: Request, k: Kind)
    requires Enqueued(cfg, p, x, kind, p') && x != r && r !in p.Queue(k)
    ensures r !in p'.Queue(k)
  {
    assert multiset(p.Queue(k))[r] == 0;
    if k == kind {
      assert r in p'.Queue(k) ==> multiset(p'.Queue(k))[r] > 0;
    } else {
      assert p'.Queue(k) == p.Queue(k);
    }
  }

  lemma AdmittedShrinks(cfg: Config, p: Pools, x: Request, kind: Kind, p': Pools, k: Kind)
    requires Admitted(cfg, p, x, kind, p')
    ensures multiset(p'.Queue(k)) <= multiset(p.Queue(k))
  {
    if k != kind {
      assert p'.Queue(k) == p.Queue(k);
    }
  }

  lemma RemovedShrinks(cfg: Config, eq: Equality, p: Pools, x: Request, kind: Kind, p': Pools, k: Kind)
    requires Removed(cfg, eq, p, x, kind, p')
    ensures multiset(p'.Queue(k)) <= multiset(p.Queue(k))
  {
    if k != kind {
      assert p'.Queue(k) == p.Queue(k);
    }
  }

  lemma OnlyShrinks(p: Pools, p': Pools, k: Kind, r: Request)
    requires multiset(p'.Queue(k)) <= multiset(p.Queue(k)) && r !in p.Queue(k)
    ensures r !in p'.Queue(k)
  {
    assert multiset(p.Queue(k))[r] == 0;
    assert r in p'.Queue(k) ==> multiset(p'.Queue(k))[r] > 0;
  }

  lemma LostStep(cfg: Config, eq: Equality, s: System, a: Action, s': System, r: Request)
    requires Next(cfg, eq, s, a, s')
    requires Lost(s, r) || (r in s.callers && Progress(s.callers[r].phase) >= 2)
    ensures Lost(s', r) || (r in s'.callers && Progress(s'.callers[r].phase) >= 2)
  {
    hide Next;
    if Lost(s, r) {
      AbsentStays(cfg, eq, s, a, s', r, s.callers[r].kind);
    }
    PhaseStep(cfg, eq, s, a, s', r);
  }

  /** Only the queue can move a waiting caller to a worker, and nobody comes back from leaving. */
  lemma PhaseStep(cfg: Config, eq: Equality, s: System, a: Action, s': System, r: Request)
    requires Next(cfg, eq, s, a, s') && r in s.callers
    requires Progress(s.callers[r].phase) >= 2 || r !in s.pools.Queue(s.callers[r].kind)
    ensures r in s'.callers && s'.callers[r].kind == s.callers[r].kind
    ensures s'.callers[r].phase.Running? ==> s.callers[r].phase.Running?
    ensures Progress(s.callers[r].phase) <= Progress(s'.callers[r].phase)
  {
    hide Removed, Enqueued, Admitted, Released;
  }

  /**
   * The loss happens in the ordinary life of two tasks of one priority, in every setting and either class: the
   * first finishes, and its final `discard` takes the second one out of the queue.
   */
  lemma FinishedTaskDropsBystander(cfg: Config, k: Kind, a: Request, b: Request) returns (states: seq<System>, actions: seq<Action>)
    requires cfg.Valid() && a.id != b.id && a.priority == b.priority
    ensures Run(cfg, PriorityOnly, states, actions) && states[0] == Start(cfg)
    ensures forall x :: x in actions ==> !x.Cancel?
    ensures Lost(states[|actions|], b)
  {
    hide Next, Lost;
    var s1, s2 := TwoQueued(cfg, PriorityOnly, k, a, b);
    var s3, s4 := FirstRunsAndEnds(cfg, k, a, b, s2);
    var s5 := LastDiscard(cfg, k, a, b, s4);
    states := [Start(cfg), s1, s2, s3, s4, s5];
    actions := [Enqueue(a, k), Enqueue(b, k), Check(a), Release(a), Discard(a)];
  }

  lemma FirstRunsAndEnds(cfg: Config, k: Kind, a: Request, b: Request, s2: System) returns (s3: System, s4: System)
    requires cfg.Valid() && a != b && TwoWaiting(cfg, s2, k, a, b)
    ensures Next(cfg, PriorityOnly, s2, Check(a), s3) && Next(cfg, PriorityOnly, s3, Release(a), s4)
    ensures s4.pools.Queue(k) == [b]
    ensures s4.callers == map[a := Caller(k, Leaving), b := Caller(k, Queued)]
  {
    s3 := FirstRuns(cfg, PriorityOnly, k, a, b, s2);
    s4 := System(Released(cfg, s3.pools, k), map[a := Caller(k, Leaving), b := Caller(k, Queued)]);
    assert s4.callers == InPhase(Woken(s3.callers), a, Leaving);
  }

  lemma FirstRuns(cfg: Config, eq: Equality, k: Kind, a: Request, b: Request, s2: System) returns (s3: System)
    requires cfg.Valid() && a != b && TwoWaiting(cfg, s2, k, a, b)
    ensures Next(cfg, eq, s2, Check(a), s3)
    ensures s3.pools.Queue(k) == [b] && s3.callers == map[a := Caller(k, Running), b := Caller(k, Queued)]
  {
    var pools := s2.pools.WithQueue(k, [b]).WithActive(k, 1).Rebalanced(cfg);
    s3 := System(pools, map[a := Caller(k, Running), b := Caller(k, Queued)]);
    assert s3.callers == InPhase(s2.callers, a, Running);
    TakeHead(cfg, s2.pools, a, k, b);
    hide Admitted, IsHeap;
  }

  /** The head leaves a queue of two. */
  lemma TakeHead(cfg: Config, p: Pools, r: Request, k: Kind, b: Request)
    requires p.Queue(k) == [r, b] && p.Active(k) == 0 && p.Capacity(cfg, k) >= 1
    ensures Admitted(cfg, p, r, k, p.WithQueue(k, [b]).WithActive(k, 1).Rebalanced(cfg)) && p.CanAdmit(cfg, r, k)
    ensures p.WithQueue(k, [b]).WithActive(k, 1).Rebalanced(cfg).Queue(k) == [b]
  {
    SingleLeft(r, b);
    hide IsHeap;
    QueueAfter(cfg, p, k, [b], 1);
  }

  lemma QueueAfter(cfg: Config, p: Pools, k: Kind, q: seq<Request>, n: int)
    ensures p.WithQueue(k, q).WithActive(k, n).Rebalanced(cfg).Queue(k) == q
  {
  }

  lemma SingleLeft(r: Request, b: Request)
    ensures IsHeap([b]) && multiset([b]) == multiset([r, b]) - multiset{r}
  {
    assert [r, b] == [r] + [b];
  }

  lemma LastDiscard(cfg: Config, k: Kind, a: Request, b: Request, s4: System) returns (s5: System)
    requires a != b && a.priority == b.priority && s4.pools.Queue(k) == [b]
    requires s4.callers == map[a := Caller(k, Leaving), b := Caller(k, Queued)]
    ensures Next(cfg, PriorityOnly, s4, Discard(a), s5) && Lost(s5, b)
  {
    s5 := System(s4.pools.WithQueue(k, []).Rebalanced(cfg), InPhase(Woken(s4.callers), a, Gone));
  }
}
