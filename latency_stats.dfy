/** Latency statistics of one scenario: the samples are sorted once
    (Collections.sort), then read at nearest-rank percentiles
    (getPercentile) and averaged. Latencies are whole milliseconds; the
    percentile rank is an exact real (double rounding is not modelled). */
module LatencyStats {

  /** Ascending order. */
  predicate Sorted(s: seq<int>) {
    forall i, j :: 0 <= i <= j < |s| ==> s[i] <= s[j]
  }

  // ---------------------------------------------------------------------
  // Sorting (Collections.sort on the copied sample list)
  // ---------------------------------------------------------------------

  /** A value no larger than the head of an ascending sequence can go in front of it. */
  lemma SortedCons(x: int, s: seq<int>)
    requires Sorted(s) && (s == [] || x <= s[0])
    ensures Sorted([x] + s)
  {
    assert forall j :: 0 <= j < |s| ==> x <= s[j];
  }

  /** Inserts x into sorted samples; the head becomes the smaller of x and the old head. */
  function Insert(x: int, s: seq<int>): (r: seq<int>)
    requires Sorted(s)
    ensures |r| == |s| + 1
    ensures r[0] == if s == [] || x <= s[0] then x else s[0]
    ensures Sorted(r)
    ensures multiset(r) == multiset(s) + multiset{x}
  {
    if s == [] || x <= s[0] then
      [x] + s
    else
      var rest := Insert(x, s[1..]);
      SortedCons(s[0], rest);
      assert multiset([s[0]] + rest) == multiset(s) + multiset{x} by {
        assert s == [s[0]] + s[1..];
      }
      [s[0]] + rest
  }

  /** The sorted copy of the samples: ascending and a permutation of them. */
  function Sort(s: seq<int>): (r: seq<int>)
    ensures Sorted(r)
    ensures multiset(r) == multiset(s)
  {
    if s == [] then [] else
      assert s == [s[0]] + s[1..];
      Insert(s[0], Sort(s[1..]))
  }

  /** Every value of the sorted copy is one of the samples. */
  lemma SortedValuesAreSamples(s: seq<int>, x: int)
    requires x in Sort(s)
    ensures x in s
  {
    assert x in multiset(Sort(s));
  }

  lemma SortedTail(s: seq<int>)
    requires Sorted(s) && s != []
    ensures Sorted(s[1..])
  {
    assert forall i :: 0 <= i < |s| - 1 ==> s[1..][i] == s[i + 1];
  }

  /** Two ascending sequences with the same elements are equal. */
  lemma {:induction false} SortedUnique(a: seq<int>, b: seq<int>)
    requires Sorted(a) && Sorted(b) && multiset(a) == multiset(b)
    ensures a == b
  {
    assert |a| == |b| by {
      assert |a| == |multiset(a)| == |multiset(b)| == |b|;
    }
    if a != [] {
      assert a[0] == b[0] by {
        assert a[0] in multiset(b) && b[0] in multiset(a);
        assert a[0] in b && b[0] in a;
      }
      assert multiset(a[1..]) == multiset(b[1..]) by {
        assert a == [a[0]] + a[1..] && b == [b[0]] + b[1..];
        assert multiset(a[1..]) == multiset(a) - multiset{a[0]};
        assert multiset(b[1..]) == multiset(b) - multiset{b[0]};
      }
      SortedTail(a);
      SortedTail(b);
      SortedUnique(a[1..], b[1..]);
      assert a == [a[0]] + a[1..] && b == [b[0]] + b[1..];
    }
  }

  /** The sorted copy depends only on which samples were recorded, not on
      the order in which they were appended. */
  lemma SortIgnoresOrder(a: seq<int>, b: seq<int>)
    requires multiset(a) == multiset(b)
    ensures Sort(a) == Sort(b)
  {
    SortedUnique(Sort(a), Sort(b));
  }

  // ---------------------------------------------------------------------
  // Nearest-rank percentile (getPercentile)
  // ---------------------------------------------------------------------

  /** Math.ceil on an exact real. */
  function Ceil(x: real): (c: int)
    ensures c as real - 1.0 < x <= c as real
  {
    var f := x.Floor;
    if f as real == x then f else f + 1
  }

  /** The index getPercentile reads from a list of n samples:
      ceil(rank * n) - 1, then Math.max with 0, then Math.min with n - 1. */
  function PercentileIndex(n: nat, rank: real): (i: nat)
    requires 0 < n
    ensures i < n
  {
    ClampedIndex(n, rank * n as real)
  }

  /** ceil(x) - 1 clamped into [0, n - 1], for the scaled rank x = rank * n. */
  function ClampedIndex(n: nat, x: real): (i: nat)
    requires 0 < n
    ensures i < n
  {
    var raw := Ceil(x) - 1;
    var atLeastZero := if raw < 0 then 0 else raw;
    if atLeastZero < n - 1 then atLeastZero else n - 1
  }

  /** getPercentile: 0 for no samples, otherwise the sample at the clamped
      nearest-rank index of the (already sorted) list. */
  function Percentile(sorted: seq<int>, rank: real): (p: int)
    ensures |sorted| == 0 ==> p == 0
    ensures |sorted| > 0 ==> p in sorted
  {
    if |sorted| == 0 then 0 else sorted[PercentileIndex(|sorted|, rank)]
  }

  /** The samples at or below v. */
  function CountAtMost(s: seq<int>, v: int): (c: nat)
    ensures c <= |s|
  {
    if s == [] then 0
    else CountAtMost(s[..|s| - 1], v) + (if s[|s| - 1] <= v then 1 else 0)
  }

  /** The samples strictly below v. */
  function CountBelow(s: seq<int>, v: int): (c: nat)
    ensures c <= |s|
  {
    if s == [] then 0
    else CountBelow(s[..|s| - 1], v) + (if s[|s| - 1] < v then 1 else 0)
  }

  lemma CeilMonotone(x: real, y: real)
    requires x <= y
    ensures Ceil(x) <= Ceil(y)
  {
  }

  lemma ScaleMonotone(r1: real, r2: real, n: nat)
    requires r1 <= r2
    ensures r1 * n as real <= r2 * n as real
  {
    assert (r2 - r1) * n as real >= 0.0;
  }

  /** A larger rank never reads an earlier index. */
  lemma PercentileIndexMonotone(n: nat, r1: real, r2: real)
    requires 0 < n && r1 <= r2
    ensures PercentileIndex(n, r1) <= PercentileIndex(n, r2)
  {
    assert r1 * n as real <= r2 * n as real by { ScaleMonotone(r1, r2, n); }
    CeilMonotone(r1 * n as real, r2 * n as real);
  }

  /** On sorted samples the percentile is non-decreasing in the rank. */
  lemma PercentileMonotone(sorted: seq<int>, r1: real, r2: real)
    requires Sorted(sorted) && r1 <= r2
    ensures Percentile(sorted, r1) <= Percentile(sorted, r2)
  {
    if |sorted| > 0 {
      PercentileIndexMonotone(|sorted|, r1, r2);
    }
  }

  /** The five ranks the harness reports come out in order:
      p90 <= p95 <= p99 <= p99.9 <= p99.99. */
  lemma ReportedPercentilesOrdered(sorted: seq<int>)
    requires Sorted(sorted)
    ensures Percentile(sorted, 0.90) <= Percentile(sorted, 0.95)
    ensures Percentile(sorted, 0.95) <= Percentile(sorted, 0.99)
    ensures Percentile(sorted, 0.99) <= Percentile(sorted, 0.999)
    ensures Percentile(sorted, 0.999) <= Percentile(sorted, 0.9999)
  {
    PercentileMonotone(sorted, 0.90, 0.95);
    PercentileMonotone(sorted, 0.95, 0.99);
    PercentileMonotone(sorted, 0.99, 0.999);
    PercentileMonotone(sorted, 0.999, 0.9999);
  }

  /** Rank 1.0 reads the last sorted sample, which is the largest one. */
  lemma FullRankIsMaximum(sorted: seq<int>)
    requires Sorted(sorted) && 0 < |sorted|
    ensures Percentile(sorted, 1.0) == sorted[|sorted| - 1]
    ensures forall x :: x in sorted ==> x <= Percentile(sorted, 1.0)
  {
    var n := |sorted|;
    assert 1.0 * n as real == n as real;
    assert Ceil(n as real) == n;
  }

  lemma ScaledRankInRange(n: nat, rank: real)
    requires 0 < n && 0.0 < rank <= 1.0
    ensures 0.0 < rank * n as real <= n as real
  {
    ScaleMonotone(rank, 1.0, n);
  }

  /** For a scaled rank x in (0, n] the clamp never bites: the index read is
      the smallest i whose rank position i + 1 reaches x. */
  lemma IndexIsNearestRank(n: nat, x: real)
    requires 0 < n && 0.0 < x <= n as real
    ensures x <= (ClampedIndex(n, x) + 1) as real
    ensures ClampedIndex(n, x) == 0 || (ClampedIndex(n, x) as real) < x
  {
    var c := Ceil(x);
    assert 1 <= c <= n;
  }

  /** In sorted samples, everything up to index i is at most s[i]. */
  lemma {:induction false} SortedCountAtMost(s: seq<int>, i: nat)
    requires Sorted(s) && i < |s|
    ensures i + 1 <= CountAtMost(s, s[i])
  {
    var init := s[..|s| - 1];
    if i < |s| - 1 {
      SortedCountAtMost(init, i);
    } else {
      AllAtMost(init, s[i]);
    }
  }

  lemma {:induction false} AllAtMost(s: seq<int>, v: int)
    requires forall i :: 0 <= i < |s| ==> s[i] <= v
    ensures CountAtMost(s, v) == |s|
  {
    if s != [] {
      AllAtMost(s[..|s| - 1], v);
    }
  }

  /** In sorted samples, only indices before i can be strictly below s[i]. */
  lemma {:induction false} SortedCountBelow(s: seq<int>, i: nat)
    requires Sorted(s) && i < |s|
    ensures CountBelow(s, s[i]) <= i
  {
    var init := s[..|s| - 1];
    if i < |s| - 1 {
      SortedCountBelow(init, i);
    }
  }

  /** The nearest-rank meaning of the percentile p read at rank in (0, 1]:
      at least rank * n samples are at or below p, and fewer than rank * n
      samples are strictly below it. */
  lemma PercentileIsNearestRank(sorted: seq<int>, rank: real)
    requires Sorted(sorted) && 0 < |sorted| && 0.0 < rank <= 1.0
    ensures rank * |sorted| as real <= CountAtMost(sorted, Percentile(sorted, rank)) as real
    ensures (CountBelow(sorted, Percentile(sorted, rank)) as real) < rank * |sorted| as real
  {
    ScaledRankInRange(|sorted|, rank);
    NearestRankAt(sorted, rank * |sorted| as real);
  }

  /** The same, for the scaled rank x = rank * n. */
  lemma NearestRankAt(sorted: seq<int>, x: real)
    requires Sorted(sorted) && 0 < |sorted| && 0.0 < x <= |sorted| as real
    ensures x <= CountAtMost(sorted, sorted[ClampedIndex(|sorted|, x)]) as real
    ensures (CountBelow(sorted, sorted[ClampedIndex(|sorted|, x)]) as real) < x
  {
    var i := ClampedIndex(|sorted|, x);
    IndexIsNearestRank(|sorted|, x);
    CountsAroundIndex(sorted, i, x);
  }

  /** If position i is the first whose rank position i + 1 reaches x, then
      x samples at most lie at or below sorted[i] and fewer lie strictly below. */
  lemma CountsAroundIndex(sorted: seq<int>, i: nat, x: real)
    requires Sorted(sorted) && i < |sorted|
    requires 0.0 < x <= (i + 1) as real
    requires i == 0 || (i as real) < x
    ensures x <= CountAtMost(sorted, sorted[i]) as real
    ensures (CountBelow(sorted, sorted[i]) as real) < x
  {
    SortedCountAtMost(sorted, i);
    SortedCountBelow(sorted, i);
  }

  // ---------------------------------------------------------------------
  // Average (stream().average().orElse(0))
  // ---------------------------------------------------------------------

  function Sum(s: seq<int>): int {
    if s == [] then 0 else Sum(s[..|s| - 1]) + s[|s| - 1]
  }

  /** The average of the samples, 0 when there are none. */
  function Mean(s: seq<int>): (m: real)
    ensures |s| == 0 ==> m == 0.0
    ensures |s| > 0 ==> m * |s| as real == Sum(s) as real
  {
    if |s| == 0 then 0.0 else Sum(s) as real / |s| as real
  }

  lemma {:induction false} SumBounds(s: seq<int>, lo: int, hi: int)
    requires forall i :: 0 <= i < |s| ==> lo <= s[i] <= hi
    ensures lo * |s| <= Sum(s) <= hi * |s|
  {
    if s != [] {
      SumBounds(s[..|s| - 1], lo, hi);
    }
  }

  /** The average lies between any lower and upper bound of the samples. */
  lemma MeanWithinBounds(s: seq<int>, lo: int, hi: int)
    requires 0 < |s|
    requires forall i :: 0 <= i < |s| ==> lo <= s[i] <= hi
    ensures lo as real <= Mean(s) <= hi as real
  {
    SumBounds(s, lo, hi);
    var n := |s| as real;
    assert Mean(s) * n == Sum(s) as real;
    assert (lo as real) * n <= Mean(s) * n;
    assert Mean(s) * n <= (hi as real) * n;
  }

}
