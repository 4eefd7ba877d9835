/**
 * Stable sorting, as Python's `sorted` and `list.sort` promise it: the result is ordered by `le`, and
 * elements that `le` cannot tell apart keep their input order.
 */
module Sorting {

  ghost predicate TotalPreorder<T(!new)>(le: (T, T) -> bool) {
    && (forall a, b :: le(a, b) || le(b, a))
    && (forall a, b, c :: le(a, b) && le(b, c) ==> le(a, c))
  }

  ghost predicate Sorted<T(!new)>(le: (T, T) -> bool, s: seq<T>) {
    forall i, j :: 0 <= i < j < |s| ==> le(s[i], s[j])
  }

  /** Puts `x` in front of the first element it may precede, so in front of its equals. */
  function Insert<T(!new)>(le: (T, T) -> bool, x: T, s: seq<T>): seq<T> {
    if s == [] then [x]
    else if le(x, s[0]) then [x] + s
    else [s[0]] + Insert(le, x, s[1..])
  }

  function Sort<T(!new)>(le: (T, T) -> bool, xs: seq<T>): seq<T> {
    if xs == [] then [] else Insert(le, xs[0], Sort(le, xs[1..]))
  }

  function Filter<T(!new)>(p: T -> bool, s: seq<T>): seq<T> {
    if s == [] then []
    else (if p(s[0]) then [s[0]] else []) + Filter(p, s[1..])
  }

  lemma {:induction false} InsertSorted<T(!new)>(le: (T, T) -> bool, x: T, s: seq<T>)
    requires TotalPreorder(le) && Sorted(le, s)
    ensures Sorted(le, Insert(le, x, s))
    ensures multiset(Insert(le, x, s)) == multiset(s) + multiset{x}
  {
    if s == [] {
    } else if le(x, s[0]) {
      assert multiset([x] + s) == multiset{x} + multiset(s);
    } else {
      var rest := Insert(le, x, s[1..]);
      InsertSorted(le, x, s[1..]);
      assert s == [s[0]] + s[1..];
      SortedCons(le, s[0], x, s[1..], rest);
    }
  }

  /** A list ordered behind `x` and the tail of `[least] + tail` is still ordered with `least` in front. */
  lemma SortedCons<T(!new)>(le: (T, T) -> bool, least: T, x: T, tail: seq<T>, rest: seq<T>)
    requires Sorted(le, rest) && multiset(rest) == multiset(tail) + multiset{x}
    requires le(least, x) && forall y :: y in tail ==> le(least, y)
    ensures Sorted(le, [least] + rest)
  {
    forall y | y in rest ensures le(least, y) {
      assert y in multiset(rest);
    }
  }

  lemma {:induction false} SortSorted<T(!new)>(le: (T, T) -> bool, xs: seq<T>)
    requires TotalPreorder(le)
    ensures Sorted(le, Sort(le, xs))
    ensures multiset(Sort(le, xs)) == multiset(xs)
  {
    if xs != [] {
      SortSorted(le, xs[1..]);
      InsertSorted(le, xs[0], Sort(le, xs[1..]));
      assert xs == [xs[0]] + xs[1..];
    }
  }

  /**
   * Stability, in the form the ranking needs it: leaving elements out before sorting and leaving them out
   * afterwards give the same list.
   */
  lemma {:induction false} FilterCommutesWithSort<T(!new)>(le: (T, T) -> bool, p: T -> bool, xs: seq<T>)
    requires TotalPreorder(le)
    ensures Filter(p, Sort(le, xs)) == Sort(le, Filter(p, xs))
  {
    if xs != [] {
      var x, rest := xs[0], Sort(le, xs[1..]);
      FilterCommutesWithSort(le, p, xs[1..]);
      SortSorted(le, xs[1..]);
      FilterInsert(le, p, x, rest);
      if p(x) {
        assert Filter(p, xs) == [x] + Filter(p, xs[1..]);
      } else {
        assert Filter(p, xs) == Filter(p, xs[1..]);
      }
    }
  }

  lemma {:induction false} FilterInsert<T(!new)>(le: (T, T) -> bool, p: T -> bool, x: T, s: seq<T>)
    requires TotalPreorder(le) && Sorted(le, s)
    ensures Filter(p, Insert(le, x, s)) == if p(x) then Insert(le, x, Filter(p, s)) else Filter(p, s)
  {
    if s == [] {
    } else if le(x, s[0]) {
      FilterInsertFront(le, p, x, s);
    } else {
      var inserted, kept := Insert(le, x, s[1..]), Filter(p, s[1..]);
      FilterInsert(le, p, x, s[1..]);
      assert ([s[0]] + inserted)[1..] == inserted;
      assert ([s[0]] + kept)[1..] == kept;
      if p(s[0]) {
        assert Filter(p, s) == [s[0]] + kept;
      } else {
        assert Filter(p, s) == kept;
        assert Filter(p, [s[0]] + inserted) == Filter(p, inserted);
      }
    }
  }

  lemma FilterInsertFront<T(!new)>(le: (T, T) -> bool, p: T -> bool, x: T, s: seq<T>)
    requires TotalPreorder(le) && Sorted(le, s) && s != [] && le(x, s[0])
    ensures Filter(p, Insert(le, x, s)) == if p(x) then Insert(le, x, Filter(p, s)) else Filter(p, s)
  {
    var kept := Filter(p, s);
    assert ([x] + s)[1..] == s;
    FilterMembers(p, s);
    if kept != [] {
      assert kept[0] in s;
      var i :| 0 <= i < |s| && s[i] == kept[0];
      assert i == 0 || le(s[0], s[i]);
      assert le(x, kept[0]);
    }
  }

  lemma {:induction false} FilterMembers<T(!new)>(p: T -> bool, s: seq<T>)
    ensures forall y :: y in Filter(p, s) <==> y in s && p(y)
  {
    if s != [] {
      FilterMembers(p, s[1..]);
      assert s == [s[0]] + s[1..];
    }
  }

  /** How many elements of `s` come strictly before `x`. */
  function Below<T(!new)>(le: (T, T) -> bool, x: T, s: seq<T>): nat {
    if s == [] then 0 else (if le(x, s[0]) then 0 else 1) + Below(le, x, s[1..])
  }

  /** How many elements of `s` come before `x` or tie with it. */
  function NotAbove<T(!new)>(le: (T, T) -> bool, x: T, s: seq<T>): nat {
    if s == [] then 0 else (if le(s[0], x) then 1 else 0) + NotAbove(le, x, s[1..])
  }

  /** How many elements a stable sort puts in front of `xs[i]`. */
  function Ahead<T(!new)>(le: (T, T) -> bool, xs: seq<T>, i: nat): nat
    requires i < |xs|
  {
    NotAbove(le, xs[i], xs[..i]) + Below(le, xs[i], xs[i + 1..])
  }

  /** In a sorted list the elements strictly before `x` form a prefix. */
  lemma {:induction false} BelowIsPrefix<T(!new)>(le: (T, T) -> bool, x: T, s: seq<T>, k: nat)
    requires TotalPreorder(le) && Sorted(le, s) && k < |s|
    ensures Below(le, x, s) <= |s|
    ensures k < Below(le, x, s) <==> !le(x, s[k])
  {
    if le(x, s[0]) {
      assert k == 0 || le(s[0], s[k]);
      NothingBelow(le, x, s);
    } else if k > 0 {
      BelowIsPrefix(le, x, s[1..], k - 1);
    } else if |s| > 1 {
      BelowIsPrefix(le, x, s[1..], 0);
    }
  }

  lemma {:induction false} NothingBelow<T(!new)>(le: (T, T) -> bool, x: T, s: seq<T>)
    requires TotalPreorder(le) && Sorted(le, s) && (s != [] ==> le(x, s[0]))
    ensures Below(le, x, s) == 0
  {
    if |s| > 1 {
      assert le(s[0], s[1]);
      NothingBelow(le, x, s[1..]);
    }
  }

  lemma {:induction false} InsertIndex<T(!new)>(le: (T, T) -> bool, x: T, s: seq<T>)
    requires TotalPreorder(le) && Sorted(le, s)
    ensures var n := Below(le, x, s); n <= |s| && Insert(le, x, s) == s[..n] + [x] + s[n..]
  {
    if s == [] {
    } else if le(x, s[0]) {
      NothingBelow(le, x, s);
    } else {
      var n := Below(le, x, s[1..]);
      InsertIndex(le, x, s[1..]);
      assert s[..n + 1] == [s[0]] + s[1..][..n];
    }
  }

  lemma {:induction false} BelowConcat<T(!new)>(le: (T, T) -> bool, x: T, s: seq<T>, t: seq<T>)
    ensures Below(le, x, s + t) == Below(le, x, s) + Below(le, x, t)
  {
    if s == [] {
      assert s + t == t;
    } else {
      BelowConcat(le, x, s[1..], t);
      assert (s + t)[1..] == s[1..] + t;
    }
  }

  function Without<T>(t: seq<T>, j: nat): seq<T>
    requires j < |t|
  {
    t[..j] + t[j + 1..]
  }

  lemma WithoutMultiset<T>(t: seq<T>, j: nat)
    requires j < |t|
    ensures multiset(Without(t, j)) == multiset(t) - multiset{t[j]}
  {
    assert t == t[..j] + [t[j]] + t[j + 1..];
  }

  lemma BelowWithout<T(!new)>(le: (T, T) -> bool, x: T, t: seq<T>, j: nat)
    requires j < |t|
    ensures Below(le, x, t) == Below(le, x, Without(t, j)) + if le(x, t[j]) then 0 else 1
  {
    BelowConcat(le, x, t[..j], t[j + 1..]);
    BelowConcat(le, x, t[..j], t[j..]);
    assert t[..j] + t[j..] == t && t[j..][1..] == t[j + 1..];
  }

  lemma {:induction false} BelowMultiset<T(!new)>(le: (T, T) -> bool, x: T, s: seq<T>, t: seq<T>)
    requires multiset(s) == multiset(t)
    ensures Below(le, x, s) == Below(le, x, t)
    decreases |s|
  {
    if s == [] {
      assert |multiset(t)| == 0;
    } else {
      hide Below;
      assert s[0] in multiset(t);
      var j :| 0 <= j < |t| && t[j] == s[0];
      WithoutMultiset(s, 0);
      WithoutMultiset(t, j);
      BelowMultiset(le, x, Without(s, 0), Without(t, j));
      BelowWithout(le, x, s, 0);
      BelowWithout(le, x, t, j);
    }
  }

  lemma AheadStep<T(!new)>(le: (T, T) -> bool, xs: seq<T>, i: nat)
    requires 0 < i < |xs|
    ensures Ahead(le, xs, i) == Ahead(le, xs[1..], i - 1) + if le(xs[0], xs[i]) then 1 else 0
  {
    assert xs[1..][..i - 1] == xs[..i][1..];
    assert xs[1..][i..] == xs[i + 1..];
  }

  /** Where an element of a sorted list ends up when `x` is inserted. */
  lemma InsertShifts<T(!new)>(le: (T, T) -> bool, x: T, s: seq<T>, k: nat)
    requires TotalPreorder(le) && Sorted(le, s) && k < |s|
    ensures var j := if le(x, s[k]) then k + 1 else k;
      j < |Insert(le, x, s)| && Insert(le, x, s)[j] == s[k]
  {
    InsertIndex(le, x, s);
    BelowIsPrefix(le, x, s, k);
  }

  /** The stable sort puts `xs[i]` right behind the elements counted by `Ahead`. */
  lemma {:induction false} SortIndex<T(!new)>(le: (T, T) -> bool, xs: seq<T>, i: nat)
    requires TotalPreorder(le) && i < |xs|
    ensures |Sort(le, xs)| == |xs| && Ahead(le, xs, i) < |xs|
    ensures Sort(le, xs)[Ahead(le, xs, i)] == xs[i]
  {
    hide TotalPreorder, Sorted, Insert, Ahead, Below, NotAbove;
    SortLength(le, xs);
    SortLength(le, xs[1..]);
    SortSorted(le, xs[1..]);
    if i == 0 {
      FirstIndex(le, xs);
    } else {
      SortIndex(le, xs[1..], i - 1);
      AheadStep(le, xs, i);
      InsertShifts(le, xs[0], Sort(le, xs[1..]), Ahead(le, xs[1..], i - 1));
    }
  }

  lemma SortLength<T(!new)>(le: (T, T) -> bool, xs: seq<T>)
    requires TotalPreorder(le)
    ensures |Sort(le, xs)| == |xs|
  {
    SortSorted(le, xs);
    assert |multiset(Sort(le, xs))| == |multiset(xs)|;
  }

  lemma FirstIndex<T(!new)>(le: (T, T) -> bool, xs: seq<T>)
    requires TotalPreorder(le) && xs != []
    ensures Ahead(le, xs, 0) < |Sort(le, xs)| && Sort(le, xs)[Ahead(le, xs, 0)] == xs[0]
  {
    var rest := Sort(le, xs[1..]);
    SortSorted(le, xs[1..]);
    InsertIndex(le, xs[0], rest);
    BelowMultiset(le, xs[0], rest, xs[1..]);
    assert xs[..0] == [];
  }
}
