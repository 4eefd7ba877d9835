/**
 * `PriorityRequestQueue`: two heaps, two worker pools and a heavy-pool limit that shrinks while normal work
 * piles up. `Pools` is the abstract value of the object; the predicates on two `Pools` say what one
 * critical section of each operation does, for any heap layout the heap operations may choose.
 */
module RequestQueue {
  import opened Common
  import opened Heap
  import opened Sorting

  datatype Kind = Normal | Heavy

  datatype Config = Config(normalWorkers: nat, heavyWorkers: nat, rebalanceThreshold: nat) {
    ghost predicate Valid() {
      normalWorkers >= 1 && heavyWorkers >= 1 && rebalanceThreshold >= 1
    }

    function Workers(k: Kind): nat {
      if k.Heavy? then heavyWorkers else normalWorkers
    }

    function ReducedLimit(): int {
      if heavyWorkers / 2 >= 1 then heavyWorkers / 2 else 1
    }
  }

  /**
   * Which queue element `list.remove(request)` takes for `request`. The dataclass excludes every field but
   * `priority` from comparison, so the code uses `PriorityOnly`; `Identity` is the intended behaviour.
   */
  datatype Equality = Identity | PriorityOnly {
    predicate Matches(a: Request, b: Request) {
      if Identity? then a.id == b.id else a.priority == b.priority
    }
  }

  /** Index of the first element `list.remove` accepts, or |q|. */
  function FirstMatch(eq: Equality, q: seq<Request>, r: Request): (n: nat)
    ensures n <= |q|
    ensures forall j :: 0 <= j < n ==> !eq.Matches(q[j], r)
    ensures n < |q| ==> eq.Matches(q[n], r)
  {
    if q == [] then 0
    else if eq.Matches(q[0], r) then 0
    else 1 + FirstMatch(eq, q[1..], r)
  }

  datatype Pools = Pools(
    normalQueue: seq<Request>, heavyQueue: seq<Request>,
    normalActive: int, heavyActive: int, heavyLimit: int)
  {
    function Queue(k: Kind): seq<Request> {
      if k.Heavy? then heavyQueue else normalQueue
    }

    function WithQueue(k: Kind, q: seq<Request>): Pools {
      if k.Heavy? then this.(heavyQueue := q) else this.(normalQueue := q)
    }

    function Active(k: Kind): int {
      if k.Heavy? then heavyActive else normalActive
    }

    function WithActive(k: Kind, n: int): Pools {
      if k.Heavy? then this.(heavyActive := n) else this.(normalActive := n)
    }

    function Capacity(cfg: Config, k: Kind): int {
      if k.Heavy? then heavyLimit else cfg.normalWorkers
    }

    function Rebalanced(cfg: Config): Pools {
      if |normalQueue| > cfg.rebalanceThreshold then this.(heavyLimit := cfg.ReducedLimit())
      else if |normalQueue| < cfg.rebalanceThreshold / 4 + 1 then this.(heavyLimit := cfg.heavyWorkers)
      else this
    }

    ghost predicate Heaps() {
      IsHeap(normalQueue) && IsHeap(heavyQueue)
    }

    /** The test in the wait loop of `acquire`. */
    predicate CanAdmit(cfg: Config, r: Request, k: Kind) {
      Queue(k) != [] && Queue(k)[0] == r && Active(k) < Capacity(cfg, k)
    }
  }

  ghost predicate Enqueued(cfg: Config, p: Pools, r: Request, k: Kind, p': Pools) {
    var q := p'.Queue(k);
    && IsHeap(q) && multiset(q) == multiset(p.Queue(k)) + multiset{r}
    && p' == p.WithQueue(k, q).Rebalanced(cfg)
  }

  ghost predicate Admitted(cfg: Config, p: Pools, r: Request, k: Kind, p': Pools) {
    var q := p'.Queue(k);
    && IsHeap(q) && multiset(q) == multiset(p.Queue(k)) - multiset{r}
    && p' == p.WithQueue(k, q).WithActive(k, p.Active(k) + 1).Rebalanced(cfg)
  }

  ghost predicate Removed(cfg: Config, eq: Equality, p: Pools, r: Request, k: Kind, p': Pools) {
    var n := FirstMatch(eq, p.Queue(k), r);
    if n == |p.Queue(k)| then p' == p
    else
      var q := p'.Queue(k);
      && IsHeap(q) && multiset(q) == multiset(p.Queue(k)) - multiset{p.Queue(k)[n]}
      && p' == p.WithQueue(k, q).Rebalanced(cfg)
  }

  function Released(cfg: Config, p: Pools, k: Kind): Pools {
    p.WithActive(k, if p.Active(k) - 1 > 0 then p.Active(k) - 1 else 0).Rebalanced(cfg)
  }

  predicate PriorityLe(a: Request, b: Request) {
    a.priority <= b.priority
  }

  /** The 1-based place of `r` among the first `n` entries of `ordered`, or 0. */
  function PlaceIn(ordered: seq<Request>, r: Request): (n: nat)
    ensures n <= |ordered|
    ensures n == 0 ==> r !in ordered
    ensures n > 0 ==> ordered[n - 1] == r && r !in ordered[..n - 1]
  {
    if ordered == [] then 0
    else if ordered[0] == r then 1
    else
      var n := PlaceIn(ordered[1..], r);
      if n == 0 then 0 else n + 1
  }

  function Position(q: seq<Request>, r: Request): nat {
    PlaceIn(Sort(PriorityLe, q), r)
  }

  ghost predicate NoDuplicates(q: seq<Request>) {
    forall i, j :: 0 <= i < j < |q| ==> q[i] != q[j]
  }

  /**
   * The reported position counts the requests with a smaller priority value and those of equal priority
   * that sit earlier in the heap array; in particular it is 1 exactly for the heap root.
   */
  lemma PositionIsRank(q: seq<Request>, i: nat)
    requires IsHeap(q) && NoDuplicates(q) && i < |q|
    ensures Position(q, q[i]) == 1 + Ahead(PriorityLe, q, i)
    ensures Position(q, q[i]) == 1 <==> i == 0
  {
    PriorityOrders();
    SortIndex(PriorityLe, q, i);
    SortSorted(PriorityLe, q);
    NobodyAheadOfRoot(q, i);
    hide IsHeap, NoDuplicates, Sorted, Sort, Ahead, PlaceIn, TotalPreorder, PriorityLe;
    UniqueInPermutation(q, Sort(PriorityLe, q), Ahead(PriorityLe, q, i), Position(q, q[i]) - 1);
  }

  lemma PriorityOrders()
    ensures TotalPreorder(PriorityLe)
  {
  }

  lemma NobodyAheadOfRoot(q: seq<Request>, i: nat)
    requires IsHeap(q) && i < |q|
    ensures Ahead(PriorityLe, q, i) == 0 <==> i == 0
  {
    RootIsMinimal(q, i);
    hide IsHeap;
    if i > 0 {
      assert PriorityLe(q[0], q[i]) && q[..i][0] == q[0];
      assert NotAbove(PriorityLe, q[i], q[..i]) >= 1;
    } else {
      NothingBelowRoot(q, q[1..]);
    }
  }

  lemma UniqueInPermutation(q: seq<Request>, ordered: seq<Request>, a: int, b: int)
    requires NoDuplicates(q) && multiset(ordered) == multiset(q)
    requires 0 <= a < |ordered| && 0 <= b < |ordered| && ordered[a] == ordered[b]
    ensures a == b
  {
    if a != b {
      var lo, hi := if a < b then a else b, if a < b then b else a;
      var r := ordered[a];
      assert ordered == ordered[..lo] + [r] + ordered[lo + 1..hi] + [r] + ordered[hi + 1..];
      assert multiset(ordered)[r] >= 2;
      AtMostOnce(q, r);
    }
  }

  lemma {:induction false} AtMostOnce(q: seq<Request>, r: Request)
    requires NoDuplicates(q)
    ensures multiset(q)[r] <= 1
  {
    if q != [] {
      AtMostOnce(q[1..], r);
      assert q == [q[0]] + q[1..];
      if q[0] == r {
        assert r !in q[1..];
      }
    }
  }

  lemma {:induction false} NothingBelowRoot(q: seq<Request>, tail: seq<Request>)
    requires IsHeap(q) && q != [] && forall r :: r in tail ==> r in q
    ensures Below(PriorityLe, q[0], tail) == 0
  {
    if tail != [] {
      assert tail[0] in q;
      var j :| 0 <= j < |q| && q[j] == tail[0];
      RootIsMinimal(q, j);
      NothingBelowRoot(q, tail[1..]);
    }
  }

  /** `discard` hits the request itself, or nothing, exactly when no other queued request of its priority comes first. */
  ghost predicate Harmless(q: seq<Request>, r: Request) {
    forall i :: 0 <= i < |q| && q[i].priority == r.priority ==> q[i] == r || r in q[..i]
  }

  lemma HarmlessFirstMatch(q: seq<Request>, r: Request)
    ensures var n := FirstMatch(PriorityOnly, q, r);
      Harmless(q, r) <==> if n < |q| then q[n] == r else r !in q
  {
    var n := FirstMatch(PriorityOnly, q, r);
    if n < |q| && Harmless(q, r) {
      assert r !in q[..n];
    }
  }

  /**
   * The comparison in the code removes this request or nothing, and keeps the others, if and only if
   * the removal is `Harmless`; the identity comparison always does.
   */
  lemma DiscardExactness(cfg: Config, p: Pools, r: Request, k: Kind, p': Pools)
    requires Removed(cfg, PriorityOnly, p, r, k, p')
    ensures multiset(p'.Queue(k)) == multiset(p.Queue(k)) - multiset{r} <==> Harmless(p.Queue(k), r)
  {
    hide IsHeap, Harmless;
    var q := p.Queue(k);
    var n := FirstMatch(PriorityOnly, q, r);
    HarmlessFirstMatch(q, r);
    if n < |q| && q[n] != r {
      assert multiset(q)[q[n]] > 0;
      assert multiset(p'.Queue(k))[q[n]] == multiset(q)[q[n]] - 1;
      assert (multiset(q) - multiset{r})[q[n]] == multiset(q)[q[n]];
    }
  }

  lemma IdentityDiscardExact(cfg: Config, p: Pools, r: Request, k: Kind, p': Pools)
    requires Removed(cfg, Identity, p, r, k, p')
    requires forall x :: x in p.Queue(k) && x.id == r.id ==> x == r
    ensures multiset(p'.Queue(k)) == multiset(p.Queue(k)) - multiset{r}
  {
    var n := FirstMatch(Identity, p.Queue(k), r);
    if n == |p.Queue(k)| {
      assert r !in p.Queue(k);
    }
  }

  function Max(x: int, y: int): int {
    if x >= y then x else y
  }

  /**
   * What a backlog calls for: above the threshold the heavy limit is reduced, at a quarter of it or less it is
   * full, and in between it is one of the two.
   */
  ghost predicate LimitFits(cfg: Config, p: Pools) {
    && (|p.normalQueue| > cfg.rebalanceThreshold ==> p.heavyLimit == Max(1, cfg.heavyWorkers / 2))
    && (|p.normalQueue| <= cfg.rebalanceThreshold / 4 ==> p.heavyLimit == cfg.heavyWorkers)
    && (p.heavyLimit == cfg.heavyWorkers || p.heavyLimit == Max(1, cfg.heavyWorkers / 2))
  }

  /** A rebalance makes the limit fit whatever happened to the queues before. */
  lemma RebalanceFits(cfg: Config, p: Pools)
    requires cfg.Valid() && (p.heavyLimit == cfg.heavyWorkers || p.heavyLimit == Max(1, cfg.heavyWorkers / 2))
    ensures LimitFits(cfg, p.Rebalanced(cfg))
    ensures cfg.rebalanceThreshold / 4 < |p.normalQueue| <= cfg.rebalanceThreshold ==> p.Rebalanced(cfg).heavyLimit == p.heavyLimit
  {
  }

  /** The heavy limit only ever has two values, and the backlogs that lower it and raise it are disjoint. */
  lemma RebalanceHysteresis(cfg: Config, p: Pools)
    requires cfg.Valid() && (p.heavyLimit == cfg.heavyWorkers || p.heavyLimit == cfg.ReducedLimit())
    ensures var p' := p.Rebalanced(cfg);
      && 1 <= p'.heavyLimit <= cfg.heavyWorkers
      && (p'.heavyLimit == cfg.heavyWorkers || p'.heavyLimit == cfg.ReducedLimit())
      && (p'.heavyLimit < p.heavyLimit ==> |p.normalQueue| > cfg.rebalanceThreshold)
      && (p'.heavyLimit > p.heavyLimit ==> |p.normalQueue| <= cfg.rebalanceThreshold / 4 < cfg.rebalanceThreshold)
      && (cfg.rebalanceThreshold / 4 < |p.normalQueue| <= cfg.rebalanceThreshold ==> p' == p)
  {
  }

  lemma TakenFromQueue(cfg: Config, p: Pools, r: Request, k: Kind, q: seq<Request>)
    requires p.Heaps() && IsHeap(q) && multiset(q) == multiset(p.Queue(k)) - multiset{r}
    ensures var p' := p.WithQueue(k, q).WithActive(k, p.Active(k) + 1).Rebalanced(cfg);
      Admitted(cfg, p, r, k, p') && p'.Heaps()
  {
    hide IsHeap;
  }

  lemma RemovedFromQueue(cfg: Config, p: Pools, r: Request, k: Kind, q: seq<Request>)
    requires p.Heaps() && IsHeap(q)
    requires var n := FirstMatch(PriorityOnly, p.Queue(k), r);
      n < |p.Queue(k)| && multiset(q) == multiset(Without(p.Queue(k), n))
    ensures var p' := p.WithQueue(k, q).Rebalanced(cfg);
      Removed(cfg, PriorityOnly, p, r, k, p') && p'.Heaps()
  {
    hide IsHeap, FirstMatch;
    WithoutMultiset(p.Queue(k), FirstMatch(PriorityOnly, p.Queue(k), r));
  }

  class PriorityRequestQueue {
    const cfg: Config
    var normalQueue: seq<Request>
    var heavyQueue: seq<Request>
    var normalActive: int
    var heavyActive: int
    var heavyLimit: int

    ghost predicate Valid()
      reads this
    {
      cfg.Valid() && IsHeap(normalQueue) && IsHeap(heavyQueue)
    }

    function Value(): Pools
      reads this
    {
      Pools(normalQueue, heavyQueue, normalActive, heavyActive, heavyLimit)
    }

    /** Non-positive worker counts are rejected by the caller of this constructor, as `ValueError` is. */
    constructor (normalWorkers: nat, heavyWorkers: nat, rebalanceThreshold: int)
      requires normalWorkers >= 1 && heavyWorkers >= 1
      ensures Valid() && Value() == Pools([], [], 0, 0, heavyWorkers)
      ensures cfg.normalWorkers == normalWorkers && cfg.heavyWorkers == heavyWorkers
      ensures cfg.rebalanceThreshold == if rebalanceThreshold > 1 then rebalanceThreshold else 1
    {
      cfg := Config(normalWorkers, heavyWorkers, if rebalanceThreshold > 1 then rebalanceThreshold else 1);
      normalQueue, heavyQueue := [], [];
      normalActive, heavyActive, heavyLimit := 0, 0, heavyWorkers;
    }

    method RebalanceLocked()
      modifies this`heavyLimit
      ensures Value() == old(Value()).Rebalanced(cfg)
      ensures |normalQueue| > cfg.rebalanceThreshold ==> heavyLimit == Max(1, cfg.heavyWorkers / 2)
      ensures |normalQueue| <= cfg.rebalanceThreshold / 4 ==> heavyLimit == cfg.heavyWorkers
      ensures cfg.rebalanceThreshold / 4 < |normalQueue| <= cfg.rebalanceThreshold ==> heavyLimit == old(heavyLimit)
    {
      if |normalQueue| > cfg.rebalanceThreshold {
        heavyLimit := cfg.heavyWorkers / 2;
        if heavyLimit < 1 {
          heavyLimit := 1;
        }
      } else if |normalQueue| < cfg.rebalanceThreshold / 4 + 1 {
        heavyLimit := cfg.heavyWorkers;
      }
    }

    method PositionLocked(request: Request, k: Kind) returns (position: nat)
      ensures position == Position(Value().Queue(k), request)
    {
      var ordered := Sort(PriorityLe, Value().Queue(k));
      for index := 0 to |ordered|
        invariant request !in ordered[..index]
      {
        if ordered[index] == request {
          return index + 1;
        }
      }
      position := 0;
    }

    method SetQueue(k: Kind, q: seq<Request>)
      modifies this`normalQueue, this`heavyQueue
      ensures Value() == old(Value()).WithQueue(k, q)
    {
      if k.Heavy? {
        heavyQueue := q;
      } else {
        normalQueue := q;
      }
    }

    method SetActive(k: Kind, n: int)
      modifies this`normalActive, this`heavyActive
      ensures Value() == old(Value()).WithActive(k, n)
    {
      if k.Heavy? {
        heavyActive := n;
      } else {
        normalActive := n;
      }
    }

    /** The critical section of `enqueue`; it always notifies all waiters. */
    method Enqueue(request: Request, k: Kind) returns (position: nat)
      requires Valid()
      modifies this
      ensures Valid() && Enqueued(cfg, old(Value()), request, k, Value())
      ensures position == Position(Value().Queue(k), request)
    {
      var q := HeapPush(Value().Queue(k), request);
      SetQueue(k, q);
      RebalanceLocked();
      position := PositionLocked(request, k);
    }

    /** One pass through the wait loop of `acquire`: admitted, or put to sleep without any notification. */
    method TryAcquire(request: Request, k: Kind) returns (admitted: bool)
      requires Valid()
      modifies this
      ensures Valid()
      ensures admitted == old(Value().CanAdmit(cfg, request, k))
      ensures admitted ==> Admitted(cfg, old(Value()), request, k, Value())
      ensures !admitted ==> Value() == old(Value())
    {
      hide IsHeap, Admitted;
      admitted := Value().CanAdmit(cfg, request, k);
      if admitted {
        ghost var before := Value();
        var _, q := HeapPop(Value().Queue(k));
        SetQueue(k, q);
        SetActive(k, Value().Active(k) + 1);
        RebalanceLocked();
        TakenFromQueue(cfg, before, request, k, q);
      }
    }

    /** The critical section of `_remove`; `notify` says whether it woke the waiters. */
    method Remove(request: Request, k: Kind) returns (notify: bool)
      requires Valid()
      modifies this
      ensures Valid() && Removed(cfg, PriorityOnly, old(Value()), request, k, Value())
      ensures notify == exists x :: x in old(Value().Queue(k)) && x.priority == request.priority
    {
      hide IsHeap, Without;
      var q := Value().Queue(k);
      var n := FirstMatch(PriorityOnly, q, request);
      notify := n < |q|;
      if notify {
        ghost var before := Value();
        var heap := Heapify(Without(q, n));
        SetQueue(k, heap);
        RebalanceLocked();
        RemovedFromQueue(cfg, before, request, k, heap);
        assert q[n] in q;
      }
    }

    /** The `finally` block of `acquire`; it always notifies all waiters. */
    method Release(k: Kind)
      requires Valid()
      modifies this
      ensures Valid() && Value() == Released(cfg, old(Value()), k)
    {
      var active := Value().Active(k) - 1;
      SetActive(k, if active > 0 then active else 0);
      RebalanceLocked();
    }
  }
}
