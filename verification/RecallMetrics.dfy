/**
 * Retrieval metrics on lists of card ids. The rank discount 1/log2(i + 2) is any strictly decreasing
 * positive function `d`; everything else is exact.
 */
module RecallMetrics {
  import opened Common

  ghost predicate Discount(d: nat -> real) {
    && (forall i :: d(i) > 0.0)
    && (forall i, j :: i < j ==> d(i) > d(j))
  }

  ghost predicate Distinct(s: seq<string>) {
    forall i, j :: 0 <= i < j < |s| ==> s[i] != s[j]
  }

  function UniqueOf(values: seq<string>): seq<string> {
    if values == [] then []
    else
      var u := UniqueOf(values[..|values| - 1]);
      var last := values[|values| - 1];
      if last in u then u else u + [last]
  }

  lemma {:induction false} UniqueOfFacts(values: seq<string>)
    ensures Distinct(UniqueOf(values))
    ensures forall v :: v in UniqueOf(values) <==> v in values
  {
    if values != [] {
      UniqueOfFacts(values[..|values| - 1]);
      assert values == values[..|values| - 1] + [values[|values| - 1]];
    }
  }

  /** The order is that of first occurrences: the list of a prefix is a prefix of the list. */
  lemma {:induction false} UniqueOfGrows(values: seq<string>, n: nat)
    requires n <= |values|
    ensures UniqueOf(values[..n]) <= UniqueOf(values)
  {
    if n < |values| {
      UniqueOfGrows(values[..|values| - 1], n);
      assert values[..|values| - 1][..n] == values[..n];
    } else {
      assert values[..n] == values;
    }
  }

  method Unique(values: seq<string>) returns (result: seq<string>)
    ensures result == UniqueOf(values)
    ensures Distinct(result) && forall v :: v in result <==> v in values
  {
    var seen: set<string> := {};
    result := [];
    for i := 0 to |values|
      invariant result == UniqueOf(values[..i])
      invariant forall v :: v in seen <==> v in result
    {
      assert values[..i + 1][..i] == values[..i];
      if values[i] !in seen {
        seen := seen + {values[i]};
        result := result + [values[i]];
      }
    }
    assert values[..|values|] == values;
    UniqueOfFacts(values);
  }

  /** The first k, or all of them. */
  function Take(s: seq<string>, k: nat): (front: seq<string>)
    ensures front <= s && (|front| == k || (front == s && |s| < k))
  {
    if k < |s| then s[..k] else s
  }

  // ----- NDCG ---------------------------------------------------------------------------------------

  function IndexIn(rel: seq<string>, id: string): (n: nat)
    requires id in rel
    ensures n < |rel| && rel[n] == id && id !in rel[..n]
  {
    if rel[0] == id then 0 else
      var n := IndexIn(rel[1..], id);
      assert rel[..n + 1] == [rel[0]] + rel[1..][..n];
      n + 1
  }

  /** The grade of `id`: the list length for the most relevant id, one less for each place further down. */
  function Gain(rel: seq<string>, id: string): nat {
    if id in rel then |rel| - IndexIn(rel, id) else 0
  }

  /** Grades go down by one from the first relevant id to the last, which has grade 1; other ids have none. */
  lemma GainIs(rel: seq<string>, i: nat, id: string)
    requires Distinct(rel)
    ensures i < |rel| ==> Gain(rel, rel[i]) == |rel| - i
    ensures id !in rel ==> Gain(rel, id) == 0
  {
  }

  function Gains(rel: seq<string>, ids: seq<string>): seq<nat> {
    seq(|ids|, i requires 0 <= i < |ids| => Gain(rel, ids[i]))
  }

  function Dcg(g: seq<nat>, d: nat -> real): real {
    if g == [] then 0.0
    else Dcg(g[..|g| - 1], d) + g[|g| - 1] as real * d(|g| - 1)
  }

  function Ndcg(retrieved: seq<string>, relevant: seq<string>, k: nat, d: nat -> real): real {
    var rel := UniqueOf(relevant);
    if rel == [] then 0.0
    else
      var actual := Dcg(Gains(rel, Take(UniqueOf(retrieved), k)), d);
      var ideal := Dcg(Gains(rel, Take(rel, k)), d);
      if ideal != 0.0 then actual / ideal else 0.0
  }

  function Sum(s: seq<nat>): nat {
    if s == [] then 0 else Sum(s[..|s| - 1]) + s[|s| - 1]
  }

  lemma {:induction false} SumConcat(s: seq<nat>, t: seq<nat>)
    ensures Sum(s + t) == Sum(s) + Sum(t)
  {
    if t == [] {
      assert s + t == s;
    } else {
      SumConcat(s, t[..|t| - 1]);
      assert (s + t)[..|s + t| - 1] == s + t[..|t| - 1];
    }
  }

  /** n + (n-1) + ..., `count` terms, never below zero. */
  function TopSum(n: nat, count: nat): nat {
    if n == 0 || count == 0 then 0 else n + TopSum(n - 1, count - 1)
  }

  lemma {:induction false} TopSumMono(n: nat, count: nat)
    ensures n > 0 ==> TopSum(n - 1, count) <= TopSum(n, count)
  {
    if n > 1 && count > 0 {
      TopSumMono(n - 1, count - 1);
    }
  }

  ghost predicate DistinctPositive(s: seq<nat>) {
    forall i, j :: 0 <= i < j < |s| && s[i] == s[j] ==> s[i] == 0
  }

  /** Distinct positive grades up to `n` sum to at most the largest ones. */
  lemma {:induction false} DistinctSumBound(s: seq<nat>, n: nat)
    requires DistinctPositive(s) && forall i :: 0 <= i < |s| ==> s[i] <= n
    ensures Sum(s) <= TopSum(n, |s|)
    decreases n
  {
    if n == 0 {
      AllZero(s);
    } else if n in s {
      var j :| 0 <= j < |s| && s[j] == n;
      var rest := Without(s, j);
      SumWithout(s, j);
      forall x | 0 <= x < |rest| ensures rest[x] <= n - 1 {
        var y := if x < j then x else x + 1;
        assert rest[x] == s[y];
      }
      forall x, y | 0 <= x < y < |rest| && rest[x] == rest[y] ensures rest[x] == 0 {
        assert s[if x < j then x else x + 1] == s[if y < j then y else y + 1];
      }
      DistinctSumBound(rest, n - 1);
    } else {
      DistinctSumBound(s, n - 1);
      TopSumMono(n, |s|);
    }
  }

  function Without(s: seq<nat>, j: nat): (r: seq<nat>)
    requires j < |s|
    ensures |r| == |s| - 1 && forall x :: 0 <= x < |r| ==> r[x] == s[if x < j then x else x + 1]
  {
    s[..j] + s[j + 1..]
  }

  lemma SumOfParts(front: seq<nat>, x: nat, back: seq<nat>)
    ensures Sum((front + [x]) + back) == Sum(front + back) + x
  {
    assert Sum([x]) == x;
    hide Sum;
    SumConcat(front + [x], back);
    SumConcat(front, [x]);
    SumConcat(front, back);
  }

  lemma SplitAt(s: seq<nat>, j: nat)
    requires j < |s|
    ensures s == (s[..j] + [s[j]]) + s[j + 1..] && Without(s, j) == s[..j] + s[j + 1..]
  {
  }

  lemma SumWithout(s: seq<nat>, j: nat)
    requires j < |s|
    ensures Sum(s) == Sum(Without(s, j)) + s[j]
  {
    SplitAt(s, j);
    hide Sum, Without;
    SumOfParts(s[..j], s[j], s[j + 1..]);
  }

  lemma {:induction false} AllZero(s: seq<nat>)
    requires forall i :: 0 <= i < |s| ==> s[i] == 0
    ensures Sum(s) == 0
  {
    if s != [] {
      AllZero(s[..|s| - 1]);
    }
  }

  /** Every prefix of `b` sums to at least as much as that prefix of `a`. */
  ghost predicate Dominates(b: seq<nat>, a: seq<nat>) {
    |a| == |b| && forall j :: 0 <= j <= |a| ==> Sum(a[..j]) <= Sum(b[..j])
  }

  lemma DominatesPrefix(b: seq<nat>, a: seq<nat>)
    requires Dominates(b, a) && a != []
    ensures Dominates(b[..|b| - 1], a[..|a| - 1])
  {
    var a', b' := a[..|a| - 1], b[..|b| - 1];
    forall j | 0 <= j <= |a'| ensures Sum(a'[..j]) <= Sum(b'[..j]) {
      assert a'[..j] == a[..j] && b'[..j] == b[..j];
    }
  }

  /** One step of the summation by parts, with the partial sums `s`, `t` and the next pair of discounts. */
  lemma AbelStep(diff: real, s: real, t: real, d0: real, d1: real)
    requires diff >= s * d0 && s >= 0.0 && d0 >= d1
    ensures diff + (t - s) * d1 >= t * d1
    ensures s > 0.0 && d0 > d1 ==> diff + (t - s) * d1 > t * d1
    ensures diff > s * d0 ==> diff + (t - s) * d1 > t * d1
  {
    assert (t - s) * d1 == t * d1 - s * d1;
    assert s * d0 - s * d1 == s * (d0 - d1);
  }

  /** The discounted sum goes term by term. */
  lemma {:induction false} DcgConcat(a: seq<nat>, b: seq<nat>, d: nat -> real, from: nat -> real)
    requires forall i: nat :: from(i) == d(|a| + i)
    ensures Dcg(a + b, d) == Dcg(a, d) + Dcg(b, from)
  {
    if b == [] {
      assert a + b == a;
    } else {
      var init := b[..|b| - 1];
      DcgConcat(a, init, d, from);
      assert (a + b)[..|a + b| - 1] == a + init;
    }
  }

  /**
   * Order matters: of two neighbouring results, putting the one of higher grade first raises the sum by the
   * difference of the grades times the difference of the discounts.
   */
  lemma SwapGain(front: seq<nat>, x: nat, y: nat, back: seq<nat>, d: nat -> real)
    ensures var n := |front|;
      Dcg(front + [x, y] + back, d) - Dcg(front + [y, x] + back, d) == (x as real - y as real) * (d(n) - d(n + 1))
  {
    var n := |front|;
    hide Dcg;
    var from := (i: nat) => d(n + i);
    var behind := (i: nat) => d(n + 2 + i);
    DcgConcat(front, [x, y], d, from);
    DcgConcat(front, [y, x], d, from);
    DcgConcat(front + [x, y], back, d, behind);
    DcgConcat(front + [y, x], back, d, behind);
    DcgPair(x, y, from, d(n), d(n + 1));
    DcgPair(y, x, from, d(n), d(n + 1));
    PairDifference(x as real, y as real, d(n), d(n + 1));
  }

  lemma DcgPair(x: nat, y: nat, d: nat -> real, p: real, q: real)
    requires d(0) == p && d(1) == q
    ensures Dcg([x, y], d) == x as real * p + y as real * q
  {
    assert [x, y][..1] == [x] && [x][..0] == [];
    assert Dcg([x], d) == x as real * d(0);
  }

  lemma PairDifference(x: real, y: real, p: real, q: real)
    ensures (x * p + y * q) - (y * p + x * q) == (x - y) * (p - q)
  {
  }

  /** Some proper prefix of `b` sums to strictly more than that of `a`. */
  ghost predicate AheadSomewhere(b: seq<nat>, a: seq<nat>) {
    |a| == |b| && exists j :: 0 <= j < |a| && Sum(a[..j]) < Sum(b[..j])
  }

  lemma AheadEarlier(b: seq<nat>, a: seq<nat>)
    requires Dominates(b, a) && a != [] && AheadSomewhere(b, a)
    ensures var n := |a| - 1; AheadSomewhere(b[..n], a[..n]) || Sum(a[..n]) < Sum(b[..n])
  {
    var n := |a| - 1;
    var j :| 0 <= j < |a| && Sum(a[..j]) < Sum(b[..j]);
    if j < n {
      assert a[..n][..j] == a[..j] && b[..n][..j] == b[..j];
    }
  }

  lemma DcgLast(a: seq<nat>, b: seq<nat>, d: nat -> real)
    requires |a| == |b| > 0
    ensures var n := |a| - 1;
      var s, t := (Sum(b[..n]) - Sum(a[..n])) as real, (Sum(b) - Sum(a)) as real;
      Dcg(b, d) - Dcg(a, d) == Dcg(b[..n], d) - Dcg(a[..n], d) + (t - s) * d(n)
  {
    var n := |a| - 1;
    hide Sum, Dcg;
    Unfold(a, d);
    Unfold(b, d);
    var s, t := (Sum(b[..n]) - Sum(a[..n])) as real, (Sum(b) - Sum(a)) as real;
    CommonFactor(Dcg(b[..n], d), Dcg(a[..n], d), b[n] as real, a[n] as real, d(n), t - s);
  }

  lemma Unfold(a: seq<nat>, d: nat -> real)
    requires a != []
    ensures var n := |a| - 1; Sum(a) == Sum(a[..n]) + a[n] && Dcg(a, d) == Dcg(a[..n], d) + a[n] as real * d(n)
  {
  }

  lemma CommonFactor(p: real, q: real, x: real, y: real, w: real, diff: real)
    requires diff == x - y
    ensures p + x * w - (q + y * w) == p - q + diff * w
  {
  }

  /** Summation by parts: prefix domination under decreasing discounts, strict if `b` is ever ahead. */
  lemma {:induction false} Abel(a: seq<nat>, b: seq<nat>, d: nat -> real)
    requires Discount(d) && Dominates(b, a) && a != []
    ensures Dcg(b, d) - Dcg(a, d) >= (Sum(b) - Sum(a)) as real * d(|a| - 1)
    ensures AheadSomewhere(b, a) ==> Dcg(b, d) - Dcg(a, d) > (Sum(b) - Sum(a)) as real * d(|a| - 1)
  {
    var n := |a| - 1;
    var a', b' := a[..n], b[..n];
    DcgLast(a, b, d);
    if n > 0 {
      DominatesPrefix(b, a);
      Abel(a', b', d);
      assert Sum(a[..n]) <= Sum(b[..n]);
      AbelStep(Dcg(b', d) - Dcg(a', d), (Sum(b') - Sum(a')) as real, (Sum(b) - Sum(a)) as real, d(n - 1), d(n));
      if AheadSomewhere(b, a) {
        AheadEarlier(b, a);
      }
    }
  }

  lemma DominatedDcg(a: seq<nat>, b: seq<nat>, d: nat -> real)
    requires Discount(d) && Dominates(b, a)
    ensures Dcg(a, d) <= Dcg(b, d)
    ensures Dcg(a, d) == Dcg(b, d) ==> a == b
  {
    if a != [] {
      Abel(a, b, d);
      assert a[..|a|] == a && b[..|b|] == b;
      var gap, last := (Sum(b) - Sum(a)) as real, d(|a| - 1);
      SignOfProduct(gap, last);
      if Dcg(a, d) == Dcg(b, d) {
        assert gap == 0.0 && !AheadSomewhere(b, a);
        forall j | 0 <= j <= |a| ensures Sum(a[..j]) == Sum(b[..j]) {
        }
        SamePrefixSums(a, b);
      }
    }
  }

  lemma SignOfProduct(x: real, y: real)
    requires x >= 0.0 && y > 0.0
    ensures x * y >= 0.0 && (x > 0.0 ==> x * y > 0.0)
  {
  }

  lemma {:induction false} SamePrefixSums(a: seq<nat>, b: seq<nat>)
    requires |a| == |b| && forall j :: 0 <= j <= |a| ==> Sum(a[..j]) == Sum(b[..j])
    ensures a == b
  {
    forall i | 0 <= i < |a| ensures a[i] == b[i] {
      assert a[..i + 1][..i] == a[..i] && b[..i + 1][..i] == b[..i];
      assert Sum(a[..i + 1]) == Sum(a[..i]) + a[i] && Sum(b[..i + 1]) == Sum(b[..i]) + b[i];
    }
  }

  // ----- the two grade lists, padded with zeros to length k ---------------------------------------

  function Pad(s: seq<nat>, k: nat): seq<nat> {
    seq(k, i requires 0 <= i < k => if i < |s| then s[i] else 0)
  }

  lemma {:induction false} PadDcg(s: seq<nat>, k: nat, d: nat -> real)
    requires |s| <= k
    ensures Dcg(Pad(s, k), d) == Dcg(s, d)
  {
    if |s| == k {
      assert Pad(s, k) == s;
    } else {
      PadDcg(s, k - 1, d);
      assert Pad(s, k)[..k - 1] == Pad(s, k - 1);
    }
  }

  lemma GainFacts(rel: seq<string>, x: string, y: string)
    requires Distinct(rel)
    ensures Gain(rel, x) <= |rel|
    ensures Gain(rel, x) == Gain(rel, y) != 0 ==> x == y
    ensures forall i :: 0 <= i < |rel| ==> Gain(rel, rel[i]) == |rel| - i
  {
    forall i | 0 <= i < |rel| ensures Gain(rel, rel[i]) == |rel| - i {
      assert IndexIn(rel, rel[i]) == i;
    }
  }

  /** The ideal grade list: |rel|, |rel| - 1, ... */
  lemma IdealShape(rel: seq<string>, k: nat, i: nat)
    requires Distinct(rel) && i < k
    ensures Pad(Gains(rel, Take(rel, k)), k)[i] == if i < |rel| then |rel| - i else 0
  {
    if i < |rel| {
      GainFacts(rel, rel[i], rel[i]);
      assert Take(rel, k)[i] == rel[i];
    }
  }

  lemma {:induction false} IdealPrefixSum(rel: seq<string>, k: nat, j: nat)
    requires Distinct(rel) && j <= k
    ensures Sum(Pad(Gains(rel, Take(rel, k)), k)[..j]) == TopSum(|rel|, j)
  {
    var b := Pad(Gains(rel, Take(rel, k)), k);
    if j > 0 {
      IdealPrefixSum(rel, k, j - 1);
      IdealShape(rel, k, j - 1);
      assert b[..j][..j - 1] == b[..j - 1];
      TopSumLast(|rel|, j);
    }
  }

  lemma {:induction false} TopSumLast(n: nat, count: nat)
    requires count > 0
    ensures TopSum(n, count) == TopSum(n, count - 1) + if count <= n then n - count + 1 else 0
  {
    if n > 0 && count > 1 {
      TopSumLast(n - 1, count - 1);
    }
  }

  lemma IdealDominates(rel: seq<string>, ids: seq<string>, k: nat)
    requires Distinct(rel) && Distinct(ids) && |ids| <= k
    ensures Dominates(Pad(Gains(rel, Take(rel, k)), k), Pad(Gains(rel, ids), k))
  {
    var a, b := Pad(Gains(rel, ids), k), Pad(Gains(rel, Take(rel, k)), k);
    forall j | 0 <= j <= k ensures Sum(a[..j]) <= Sum(b[..j]) {
      forall x, y | 0 <= x < y < j && a[..j][x] == a[..j][y] ensures a[..j][x] == 0 {
        if y < |ids| {
          GainFacts(rel, ids[x], ids[y]);
        }
      }
      forall x | 0 <= x < j ensures a[..j][x] <= |rel| {
        if x < |ids| {
          GainFacts(rel, ids[x], ids[x]);
        }
      }
      DistinctSumBound(a[..j], |rel|);
      IdealPrefixSum(rel, k, j);
    }
  }

  lemma {:induction false} DcgNonNegative(g: seq<nat>, d: nat -> real)
    requires Discount(d)
    ensures Dcg(g, d) >= 0.0
    ensures g != [] && g[0] > 0 ==> Dcg(g, d) > 0.0
  {
    if g != [] {
      DcgNonNegative(g[..|g| - 1], d);
      assert g[|g| - 1] as real * d(|g| - 1) >= 0.0;
      if |g| == 1 && g[0] > 0 {
        assert g[0] as real * d(0) > 0.0;
      }
    }
  }

  lemma TakeDistinct(s: seq<string>, k: nat)
    requires Distinct(s)
    ensures Distinct(Take(s, k)) && |Take(s, k)| <= k
  {
  }

  /** The retrieved list, without repeats, starts with the first k relevant ids. */
  ghost predicate StartsIdeally(retrieved: seq<string>, relevant: seq<string>, k: nat) {
    Take(UniqueOf(relevant), k) <= UniqueOf(retrieved)
  }

  lemma IdealStartGain(u: seq<string>, rel: seq<string>, k: nat, i: nat)
    requires Distinct(u) && Distinct(rel) && Take(rel, k) <= u && i < k
    ensures Pad(Gains(rel, Take(u, k)), k)[i] == if i < |rel| then |rel| - i else 0
  {
    var ideal := Take(rel, k);
    if i < |rel| {
      assert Take(u, k)[i] == u[i] && u[i] == ideal[i] && ideal[i] == rel[i];
      GainFacts(rel, rel[i], rel[i]);
    } else if i < |u| {
      assert ideal == rel && Take(u, k)[i] == u[i];
      forall j | 0 <= j < |rel| ensures rel[j] != u[i] {
        assert rel[j] == u[j];
      }
      assert u[i] !in rel;
    }
  }

  lemma EqualGainsIff(u: seq<string>, rel: seq<string>, k: nat)
    requires Distinct(u) && Distinct(rel)
    ensures Pad(Gains(rel, Take(u, k)), k) == Pad(Gains(rel, Take(rel, k)), k) <==> Take(rel, k) <= u
  {
    var a, b := Pad(Gains(rel, Take(u, k)), k), Pad(Gains(rel, Take(rel, k)), k);
    var ideal := Take(rel, k);
    forall i | 0 <= i < k ensures b[i] == if i < |rel| then |rel| - i else 0 {
      IdealShape(rel, k, i);
    }
    if a == b {
      forall i | 0 <= i < |ideal| ensures i < |u| && u[i] == ideal[i] {
        assert a[i] == b[i] > 0;
        GainFacts(rel, u[i], rel[i]);
      }
      if ideal != [] {
        var last := ideal[|ideal| - 1];
        assert |ideal| - 1 < |u|;
      }
      assert ideal <= u;
    }
    if ideal <= u {
      forall i | 0 <= i < k ensures a[i] == b[i] {
        IdealStartGain(u, rel, k, i);
      }
      assert a == b;
    }
  }

  /**
   * NDCG lies between 0 and 1 for every retrieved list, relevant list and k >= 1, and with something
   * relevant it is 1 exactly when the deduplicated retrieved list starts with the first k relevant ids.
   */
  lemma NdcgBounds(retrieved: seq<string>, relevant: seq<string>, k: nat, d: nat -> real)
    requires Discount(d) && k >= 1
    ensures 0.0 <= Ndcg(retrieved, relevant, k, d) <= 1.0
    ensures Ndcg(retrieved, relevant, k, d) == 1.0 <==> relevant != [] && StartsIdeally(retrieved, relevant, k)
  {
    var u, rel := UniqueOf(retrieved), UniqueOf(relevant);
    UniqueOfFacts(retrieved);
    UniqueOfFacts(relevant);
    UniqueKeepsFirst(relevant);
    if rel != [] {
      assert rel[0] in relevant;
      var a, b := Gains(rel, Take(u, k)), Gains(rel, Take(rel, k));
      var actual, ideal := Dcg(a, d), Dcg(b, d);
      TakeDistinct(u, k);
      TakeDistinct(rel, k);
      PadDcg(a, k, d);
      PadDcg(b, k, d);
      IdealDominates(rel, Take(u, k), k);
      DominatedDcg(Pad(a, k), Pad(b, k), d);
      GainFacts(rel, rel[0], rel[0]);
      DcgNonNegative(a, d);
      DcgNonNegative(b, d);
      EqualGainsIff(u, rel, k);
      Quotient(actual, ideal);
    }
  }

  lemma Quotient(x: real, y: real)
    requires 0.0 <= x <= y && y > 0.0
    ensures 0.0 <= x / y <= 1.0 && (x / y == 1.0 <==> x == y)
  {
    UnitQuotient(x / y, x, y);
  }

  lemma UnitQuotient(q: real, x: real, y: real)
    requires 0.0 <= x <= y && y > 0.0 && q * y == x
    ensures 0.0 <= q <= 1.0 && (q == 1.0 <==> x == y)
  {
    if q > 1.0 {
      MulStrict(1.0, q, y);
    } else if q < 1.0 {
      MulStrict(q, 1.0, y);
    }
    if q < 0.0 {
      MulStrict(q, 0.0, y);
    }
  }

  lemma MulStrict(a: real, b: real, y: real)
    requires a < b && y > 0.0
    ensures a * y < b * y
  {
    SignOfProduct(b - a, y);
    assert (b - a) * y == b * y - a * y;
  }

  // ----- recall and reciprocal rank ------------------------------------------------------------------

  function Members(s: seq<string>): set<string> {
    set x | x in s
  }

  function Recall(retrieved: seq<string>, relevant: seq<string>, k: nat): real {
    var rel := Members(UniqueOf(relevant));
    if rel == {} then 0.0
    else |Members(Take(UniqueOf(retrieved), k)) * rel| as real / |rel| as real
  }

  /** Recall is the number of relevant ids among the first k distinct results over the number of relevant ids. */
  lemma RecallIs(retrieved: seq<string>, relevant: seq<string>, k: nat)
    ensures relevant != [] ==>
      var found := set id | id in relevant && id in Take(UniqueOf(retrieved), k);
      var all := set id | id in relevant;
      |all| > 0 && Recall(retrieved, relevant, k) == |found| as real / |all| as real
    ensures relevant == [] ==> Recall(retrieved, relevant, k) == 0.0
  {
    UniqueOfFacts(relevant);
    UniqueKeepsFirst(relevant);
    if relevant != [] {
      assert Members(UniqueOf(relevant)) == set id | id in relevant;
      assert relevant[0] in Members(UniqueOf(relevant));
      assert Members(Take(UniqueOf(retrieved), k)) * Members(UniqueOf(relevant))
          == set id | id in relevant && id in Take(UniqueOf(retrieved), k);
    }
  }

  /** Recall is 1 exactly when something is relevant and all of it is among the first k distinct results. */
  lemma RecallBounds(retrieved: seq<string>, relevant: seq<string>, k: nat)
    ensures 0.0 <= Recall(retrieved, relevant, k) <= 1.0
    ensures Recall(retrieved, relevant, k) == 1.0 <==>
            relevant != [] && forall id :: id in relevant ==> id in Take(UniqueOf(retrieved), k)
  {
    UniqueOfFacts(relevant);
    UniqueKeepsFirst(relevant);
    assert relevant != [] ==> relevant[0] in Members(UniqueOf(relevant));
    var rel, found := Members(UniqueOf(relevant)), Members(Take(UniqueOf(retrieved), k));
    if rel != {} {
      var common := found * rel;
      SubsetSize(common, rel);
      Quotient(|common| as real, |rel| as real);
      if |common| == |rel| {
        assert common == rel;
        forall id | id in relevant ensures id in Take(UniqueOf(retrieved), k) {
          assert id in rel;
        }
      }
      if forall id :: id in relevant ==> id in Take(UniqueOf(retrieved), k) {
        assert common == rel;
      }
    }
  }

  lemma SubsetSize(a: set<string>, b: set<string>)
    requires a <= b
    ensures |a| <= |b| && (|a| == |b| ==> a == b)
  {
    assert b == a + (b - a);
    assert |b| == |a| + |b - a|;
  }

  /** The reciprocal rank of the first relevant card, or zero. */
  method Mrr(retrieved: seq<string>, relevant: seq<string>) returns (r: real)
    ensures r == MrrOf(UniqueOf(retrieved), relevant, 0)
    ensures forall n :: 0 <= n < |UniqueOf(retrieved)| && UniqueOf(retrieved)[n] in relevant
                        && (forall m :: 0 <= m < n ==> UniqueOf(retrieved)[m] !in relevant) ==>
              r == 1.0 / (n + 1) as real
    ensures 0.0 <= r <= 1.0
    ensures r == 0.0 <==> forall id :: id in retrieved ==> id !in relevant
    ensures r == 1.0 <==> retrieved != [] && retrieved[0] in relevant
  {
    var cards := Unique(retrieved);
    var rel := Unique(relevant);
    UniqueKeepsFirst(retrieved);
    r := 0.0;
    for index := 0 to |cards|
      invariant r == 0.0
      invariant forall j :: 0 <= j < index ==> cards[j] !in relevant
      invariant MrrOf(cards, relevant, 0) == MrrOf(cards, relevant, index)
    {
      if cards[index] in rel {
        r := 1.0 / (index + 1) as real;
        Reciprocal(index + 1);
        assert cards[index] in retrieved;
        return;
      }
    }
  }

  lemma Reciprocal(n: nat)
    requires n >= 1
    ensures 0.0 < 1.0 / n as real <= 1.0 && (1.0 / n as real == 1.0 <==> n == 1)
  {
    var q := 1.0 / n as real;
    assert q * n as real == 1.0;
  }

  function MrrOf(cards: seq<string>, relevant: seq<string>, from: nat): real
    requires from <= |cards|
    decreases |cards| - from
  {
    if from == |cards| then 0.0
    else if cards[from] in relevant then 1.0 / (from + 1) as real
    else MrrOf(cards, relevant, from + 1)
  }

  lemma {:induction false} UniqueKeepsFirst(values: seq<string>)
    ensures values != [] ==> UniqueOf(values) != [] && UniqueOf(values)[0] == values[0]
    ensures values == [] ==> UniqueOf(values) == []
  {
    if |values| > 1 {
      UniqueKeepsFirst(values[..|values| - 1]);
    }
  }

  // ----- the averages ------------------------------------------------------------------------------

  datatype Sample = Sample(retrieved: seq<string>, relevant: seq<string>)

  datatype Evaluation = Evaluation(sampleCount: nat, k: nat, recall: real, mrr: real, ndcg: real)

  function Total(values: seq<real>): real {
    if values == [] then 0.0 else Total(values[..|values| - 1]) + values[|values| - 1]
  }

  lemma {:induction false} TotalConcat(a: seq<real>, b: seq<real>)
    ensures Total(a + b) == Total(a) + Total(b)
    ensures |a| == 1 ==> Total(a) == a[0]
  {
    if b == [] {
      assert a + b == a;
    } else {
      assert (a + b)[..|a + b| - 1] == a + b[..|b| - 1];
      TotalConcat(a, b[..|b| - 1]);
    }
    if |a| == 1 {
      assert a[..0] == [];
    }
  }

  lemma {:induction false} AverageBounds(values: seq<real>)
    requires forall i :: 0 <= i < |values| ==> 0.0 <= values[i] <= 1.0
    ensures 0.0 <= Total(values) <= |values| as real
  {
    if values != [] {
      AverageBounds(values[..|values| - 1]);
    }
  }

  /** Every evaluation it returns meets the schema's bounds; only k < 1 is an error. */
  method EvaluateRecall(samples: seq<Sample>, k: int, d: nat -> real) returns (r: Result<Evaluation, string>)
    requires Discount(d)
    ensures r.Err? <==> k < 1
    ensures r.Ok? ==>
      var e := r.value;
      && e.sampleCount == |samples| && e.k == k
      && 0.0 <= e.recall <= 1.0 && 0.0 <= e.mrr <= 1.0 && 0.0 <= e.ndcg <= 1.0
      && (samples != [] ==>
            && e.recall == Total(seq(|samples|, i requires 0 <= i < |samples| => Recall(samples[i].retrieved, samples[i].relevant, k))) / |samples| as real
            && e.ndcg == Total(seq(|samples|, i requires 0 <= i < |samples| => Ndcg(samples[i].retrieved, samples[i].relevant, k, d))) / |samples| as real
            && e.mrr == Total(seq(|samples|, i requires 0 <= i < |samples| => MrrOf(UniqueOf(samples[i].retrieved), samples[i].relevant, 0))) / |samples| as real)
  {
    if k < 1 {
      return Err("k must be positive");
    }
    if samples == [] {
      return Ok(Evaluation(0, k, 0.0, 0.0, 0.0));
    }
    var recalls := seq(|samples|, i requires 0 <= i < |samples| => Recall(samples[i].retrieved, samples[i].relevant, k));
    var ndcgs := seq(|samples|, i requires 0 <= i < |samples| => Ndcg(samples[i].retrieved, samples[i].relevant, k, d));
    var mrrs := seq(|samples|, i requires 0 <= i < |samples| => MrrOf(UniqueOf(samples[i].retrieved), samples[i].relevant, 0));
    var n := |samples| as real;
    forall i | 0 <= i < |samples|
      ensures 0.0 <= recalls[i] <= 1.0 && 0.0 <= ndcgs[i] <= 1.0 && 0.0 <= mrrs[i] <= 1.0
    {
      RecallBounds(samples[i].retrieved, samples[i].relevant, k);
      NdcgBounds(samples[i].retrieved, samples[i].relevant, k, d);
      MrrOfBounds(UniqueOf(samples[i].retrieved), samples[i].relevant, 0);
    }
    AverageBounds(recalls);
    AverageBounds(ndcgs);
    AverageBounds(mrrs);
    Quotient(Total(recalls), n);
    Quotient(Total(ndcgs), n);
    Quotient(Total(mrrs), n);
    r := Ok(Evaluation(|samples|, k, Total(recalls) / n, Total(mrrs) / n, Total(ndcgs) / n));
  }

  lemma {:induction false} MrrOfBounds(cards: seq<string>, relevant: seq<string>, from: nat)
    requires from <= |cards|
    ensures 0.0 <= MrrOf(cards, relevant, from) <= 1.0
    decreases |cards| - from
  {
    if from < |cards| {
      Reciprocal(from + 1);
      MrrOfBounds(cards, relevant, from + 1);
    }
  }
}
