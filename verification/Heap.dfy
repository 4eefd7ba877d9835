/**
 * The binary min-heap that `heapq` keeps in a Python list, on requests ordered by priority alone.
 * An element is (object identity, priority, payload); lower priorities are served first.
 */
module Heap {
  import opened Common

  /**
   * A queued request. `id` stands for object identity (Python's `is`); the dataclass compares
   * `priority` only.
   */
  datatype Request = Request(id: nat, priority: int, timestamp: real, threadId: string, userId: Option<string>)

  function Parent(i: nat): nat
    requires i > 0
  {
    (i - 1) / 2
  }

  /** The pair made of `i` and its parent is in order. */
  ghost predicate InOrder(q: seq<Request>, i: nat)
    requires 0 < i < |q|
  {
    q[Parent(i)].priority <= q[i].priority
  }

  /** Every parent at index `lo` or later is no larger than its children. */
  ghost predicate HeapFrom(q: seq<Request>, lo: nat) {
    forall i: nat {:trigger InOrder(q, i)} :: 0 < i < |q| && lo <= Parent(i) ==> InOrder(q, i)
  }

  ghost predicate IsHeap(q: seq<Request>) {
    HeapFrom(q, 0)
  }

  lemma {:induction false} RootIsMinimal(q: seq<Request>, i: nat)
    requires IsHeap(q) && i < |q|
    ensures q[0].priority <= q[i].priority
  {
    if i > 0 {
      assert InOrder(q, i);
      RootIsMinimal(q, Parent(i));
    }
  }

  /** `i` lies in the subtree rooted at `root`. */
  ghost predicate Under(root: nat, i: nat) {
    i == root || (i > root && Under(root, Parent(i)))
  }

  function Swap(q: seq<Request>, i: nat, j: nat): (r: seq<Request>)
    requires i < |q| && j < |q|
    ensures |r| == |q| && r[i] == q[j] && r[j] == q[i]
    ensures forall k :: 0 <= k < |q| && k != i && k != j ==> r[k] == q[k]
    ensures multiset(r) == multiset(q)
  {
    q[i := q[j]][j := q[i]]
  }

  /** Every pair from `lo` on is in order, except the pairs that `hole` is part of. */
  ghost predicate OrderedAround(q: seq<Request>, lo: nat, hole: nat) {
    && (forall i: nat {:trigger InOrder(q, i)} ::
          0 < i < |q| && lo <= Parent(i) && i != hole && Parent(i) != hole ==> InOrder(q, i))
    && (lo < hole < |q| ==>
          forall i: nat {:trigger Parent(i)} ::
            0 < i < |q| && Parent(i) == hole ==> q[Parent(hole)].priority <= q[i].priority)
  }

  /** `hole` is no larger than its children. */
  ghost predicate AboveChildren(q: seq<Request>, hole: nat) {
    forall i: nat {:trigger InOrder(q, i)} :: 0 < i < |q| && Parent(i) == hole ==> InOrder(q, i)
  }

  lemma RiseStep(q: seq<Request>, lo: nat, pos: nat)
    requires lo < pos < |q| && Under(lo, pos) && OrderedAround(q, lo, pos) && AboveChildren(q, pos)
    requires q[pos].priority < q[Parent(pos)].priority
    ensures var r := Swap(q, pos, Parent(pos));
      OrderedAround(r, lo, Parent(pos)) && AboveChildren(r, Parent(pos)) && Under(lo, Parent(pos))
  {
    var up := Parent(pos);
    var r := Swap(q, pos, up);
    forall i: nat | 0 < i < |q| && Parent(i) == up ensures InOrder(r, i) {
      assert i != pos && lo <= up ==> InOrder(q, i);
    }
    forall i: nat | 0 < i < |q| && lo <= Parent(i) && i != up && Parent(i) != up ensures InOrder(r, i) {
      if Parent(i) != pos {
        assert InOrder(q, i);
      }
    }
    if lo < up {
      assert Under(lo, up) && Under(lo, Parent(up));
      assert InOrder(q, up);
      forall i: nat | 0 < i < |q| && Parent(i) == up ensures r[Parent(up)].priority <= r[i].priority {
        assert i != pos ==> InOrder(q, i);
      }
    }
  }

  lemma SinkStep(q: seq<Request>, lo: nat, pos: nat, child: nat)
    requires lo <= pos < child < |q| && Parent(child) == pos && Under(lo, pos)
    requires OrderedAround(q, lo, pos)
    requires forall i: nat {:trigger Parent(i)} :: 0 < i < |q| && Parent(i) == pos ==> q[child].priority <= q[i].priority
    ensures var r := Swap(q, pos, child); OrderedAround(r, lo, child) && Under(lo, child)
  {
    var r := Swap(q, pos, child);
    forall i: nat | 0 < i < |q| && lo <= Parent(i) && i != child && Parent(i) != child ensures InOrder(r, i) {
      if i != pos && Parent(i) != pos {
        assert InOrder(q, i);
      } else if i == pos {
        assert q[Parent(pos)].priority <= q[child].priority;
      }
    }
    forall i: nat | 0 < i < |q| && Parent(i) == child ensures r[Parent(child)].priority <= r[i].priority {
      assert InOrder(q, i);
    }
  }

  /** Moves the element at `at` up, towards `start`, until its parent is no larger. */
  method SiftDown(heap: seq<Request>, start: nat, at: nat) returns (q: seq<Request>)
    requires at < |heap| && Under(start, at)
    requires OrderedAround(heap, start, at) && AboveChildren(heap, at)
    ensures multiset(q) == multiset(heap) && |q| == |heap|
    ensures HeapFrom(q, start)
  {
    q := heap;
    var pos := at;
    while pos > start
      invariant |q| == |heap| && multiset(q) == multiset(heap)
      invariant start <= pos < |q| && Under(start, pos)
      invariant OrderedAround(q, start, pos) && AboveChildren(q, pos)
    {
      var parent := Parent(pos);
      if !(q[pos].priority < q[parent].priority) {
        forall i: nat | 0 < i < |q| && start <= Parent(i) ensures InOrder(q, i) {
        }
        return;
      }
      RiseStep(q, start, pos);
      q := Swap(q, pos, parent);
      pos := parent;
    }
    forall i: nat | 0 < i < |q| && start <= Parent(i) ensures InOrder(q, i) {
    }
  }

  /** Moves the element at `start` down to a leaf along the smaller children, then up to its place. */
  method SiftUp(heap: seq<Request>, start: nat) returns (q: seq<Request>)
    requires start < |heap| && HeapFrom(heap, start + 1)
    ensures multiset(q) == multiset(heap) && |q| == |heap|
    ensures HeapFrom(q, start)
  {
    q := heap;
    var pos := start;
    var child := 2 * pos + 1;
    while child < |q|
      invariant |q| == |heap| && multiset(q) == multiset(heap)
      invariant start <= pos < |q| && child == 2 * pos + 1 && Under(start, pos)
      invariant OrderedAround(q, start, pos)
      decreases |q| - pos
    {
      var right := child + 1;
      if right < |q| && !(q[child].priority < q[right].priority) {
        child := right;
      }
      SinkStep(q, start, pos, child);
      q := Swap(q, pos, child);
      pos := child;
      child := 2 * pos + 1;
    }
    q := SiftDown(q, start, pos);
  }

  method HeapPush(heap: seq<Request>, item: Request) returns (q: seq<Request>)
    requires IsHeap(heap)
    ensures IsHeap(q) && multiset(q) == multiset(heap) + multiset{item}
  {
    q := heap + [item];
    assert multiset(q) == multiset(heap) + multiset{item};
    UnderRoot(|heap|);
    forall i: nat | 0 < i < |heap| ensures InOrder(q, i) {
      assert InOrder(heap, i);
    }
    q := SiftDown(q, 0, |heap|);
  }

  lemma {:induction false} UnderRoot(i: nat)
    ensures Under(0, i)
  {
    if i > 0 {
      UnderRoot(Parent(i));
    }
  }

  method HeapPop(heap: seq<Request>) returns (top: Request, q: seq<Request>)
    requires IsHeap(heap) && heap != []
    ensures top == heap[0] && IsHeap(q)
    ensures multiset(q) == multiset(heap) - multiset{top}
  {
    var last := heap[|heap| - 1];
    q := heap[..|heap| - 1];
    assert heap == q + [last];
    if q == [] {
      top := last;
      return;
    }
    top := q[0];
    assert q == [top] + q[1..];
    q := [last] + q[1..];
    forall i: nat | 0 < i < |q| && 1 <= Parent(i) ensures InOrder(q, i) {
      assert InOrder(heap, i);
    }
    q := SiftUp(q, 0);
  }

  method Heapify(list: seq<Request>) returns (q: seq<Request>)
    ensures IsHeap(q) && multiset(q) == multiset(list)
  {
    q := list;
    var i := |q| / 2;
    while i > 0
      invariant 0 <= i <= |q| / 2 && |q| == |list|
      invariant HeapFrom(q, i) && multiset(q) == multiset(list)
    {
      i := i - 1;
      q := SiftUp(q, i);
    }
  }
}
