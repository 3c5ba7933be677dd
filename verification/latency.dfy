/** Interpolated percentiles of latency samples. */
module Latency {
  import opened Rounding

  predicate Sorted(s: seq<real>) {
    forall i, j :: 0 <= i <= j < |s| ==> s[i] <= s[j]
  }

  /** Where a value belongs in a sorted sequence. */
  function Insert(x: real, s: seq<real>): seq<real> {
    if s == [] || x <= s[0] then [x] + s else [s[0]] + Insert(x, s[1..])
  }

  /** Python's `sorted`. */
  function SortedOf(s: seq<real>): seq<real> {
    if s == [] then [] else Insert(s[0], SortedOf(s[1..]))
  }

  predicate Permutation(a: seq<real>, b: seq<real>) {
    multiset(a) == multiset(b)
  }

  lemma {:induction false} InsertSorts(x: real, s: seq<real>)
    requires Sorted(s)
    ensures Sorted(Insert(x, s)) && |Insert(x, s)| == |s| + 1
    ensures Insert(x, s)[0] == x || (s != [] && Insert(x, s)[0] == s[0])
  {
    if s != [] && x > s[0] {
      InsertSorts(x, s[1..]);
      HeadSorts(s[0], Insert(x, s[1..]));
    } else if s != [] {
      HeadSorts(x, s);
    }
  }

  lemma HeadSorts(x: real, s: seq<real>)
    requires Sorted(s) && (s == [] || x <= s[0])
    ensures Sorted([x] + s)
  {
  }

  lemma {:induction false} InsertAdds(x: real, s: seq<real>)
    ensures multiset(Insert(x, s)) == multiset(s) + multiset{x}
  {
    if s != [] && x > s[0] {
      InsertAdds(x, s[1..]);
      assert s == [s[0]] + s[1..];
    }
  }

  lemma {:induction false} SortedOfSorts(s: seq<real>)
    ensures Sorted(SortedOf(s)) && |SortedOf(s)| == |s|
    ensures Permutation(SortedOf(s), s)
  {
    if s != [] {
      SortedOfSorts(s[1..]);
      InsertSorts(s[0], SortedOf(s[1..]));
      InsertAdds(s[0], SortedOf(s[1..]));
      assert s == [s[0]] + s[1..];
    }
  }

  lemma SameHead(a: seq<real>, b: seq<real>)
    requires Sorted(a) && Sorted(b) && Permutation(a, b) && a != []
    ensures b != [] && a[0] == b[0]
  {
    assert a[0] in multiset(b);
    assert b[0] in multiset(a);
    var i :| 0 <= i < |b| && b[i] == a[0];
    var j :| 0 <= j < |a| && a[j] == b[0];
  }

  lemma SameTail(a: seq<real>, b: seq<real>)
    requires a != [] && b != [] && a[0] == b[0] && Permutation(a, b)
    ensures Permutation(a[1..], b[1..])
  {
    assert a == [a[0]] + a[1..] && b == [b[0]] + b[1..];
    assert multiset(a[1..]) == multiset(a) - multiset{a[0]};
    assert multiset(b[1..]) == multiset(b) - multiset{b[0]};
  }

  lemma SortedTail(a: seq<real>)
    requires Sorted(a) && a != []
    ensures Sorted(a[1..])
  {
  }

  /** A sorted arrangement is unique. */
  lemma {:induction false} SortedUnique(a: seq<real>, b: seq<real>)
    requires Sorted(a) && Sorted(b) && Permutation(a, b)
    ensures a == b
  {
    if a == [] {
      assert |b| == |multiset(b)| == 0;
    } else {
      SameHead(a, b);
      SameTail(a, b);
      SortedTail(a);
      SortedTail(b);
      SortedUnique(a[1..], b[1..]);
      assert a == [a[0]] + a[1..] && b == [b[0]] + b[1..];
    }
  }

  // ---- Interpolation ----

  /** The piecewise linear curve through the sorted samples, at a position between the
      first and the last. */
  function At(s: seq<real>, k: real): real
    requires s != [] && 0.0 <= k <= (|s| - 1) as real
  {
    var lo := k.Floor;
    var hi := if lo + 1 < |s| - 1 then lo + 1 else |s| - 1;
    s[lo] + (k - lo as real) * (s[hi] - s[lo])
  }

  function Position(n: nat, percentile: real): real
    requires n > 0
  {
    (n - 1) as real * (percentile / 100.0)
  }

  predicate IsPercentage(p: real) {
    0.0 <= p <= 100.0
  }

  lemma PositionInRange(n: nat, p: real, q: real)
    requires n > 0 && IsPercentage(p) && IsPercentage(q) && p <= q
    ensures 0.0 <= Position(n, p) <= Position(n, q) <= (n - 1) as real
  {
    var m := (n - 1) as real;
    MulNonneg(m, p / 100.0);
    MulNonneg(m, q / 100.0 - p / 100.0);
    MulNonneg(m, 1.0 - q / 100.0);
  }

  /** `calculate_percentile`, which answers 0 for no samples and rounds to two decimals. */
  function Percentile(samples: seq<real>, percentile: real): real
    requires IsPercentage(percentile)
  {
    if samples == [] then 0.0
    else
      SortedOfSorts(samples);
      PositionInRange(|samples|, percentile, percentile);
      Round(At(SortedOf(samples), Position(|samples|, percentile)), 100.0)
  }

  lemma SegmentBounds(s: seq<real>, k: real)
    requires s != [] && Sorted(s) && 0.0 <= k <= (|s| - 1) as real
    ensures s[k.Floor] <= At(s, k)
    ensures k.Floor + 1 < |s| ==> At(s, k) <= s[k.Floor + 1]
    ensures k.Floor + 1 == |s| ==> At(s, k) == s[k.Floor]
  {
    var lo := k.Floor;
    var w := k - lo as real;
    if lo + 1 < |s| {
      var d := s[lo + 1] - s[lo];
      MulNonneg(w, d);
      MulNonneg(1.0 - w, d);
    }
  }

  /** The curve rises, across segment boundaries too. */
  lemma AtMonotone(s: seq<real>, j: real, k: real)
    requires s != [] && Sorted(s) && 0.0 <= j <= k <= (|s| - 1) as real
    ensures At(s, j) <= At(s, k)
  {
    SegmentBounds(s, j);
    SegmentBounds(s, k);
    if j.Floor == k.Floor {
      var lo := j.Floor;
      if lo + 1 < |s| {
        MulNonneg(k - j, s[lo + 1] - s[lo]);
      }
    } else {
      assert s[j.Floor + 1] <= s[k.Floor];
    }
  }

  // ---- Laws ----

  /** The order in which samples arrive does not matter. */
  lemma PercentileOfPermutation(a: seq<real>, b: seq<real>, p: real)
    requires IsPercentage(p) && Permutation(a, b)
    ensures Percentile(a, p) == Percentile(b, p)
  {
    SortedOfSorts(a);
    SortedOfSorts(b);
    SortedUnique(SortedOf(a), SortedOf(b));
    assert |a| == |multiset(a)| == |multiset(b)| == |b|;
  }

  lemma PercentileMonotone(samples: seq<real>, p: real, q: real)
    requires IsPercentage(p) && IsPercentage(q) && p <= q
    ensures Percentile(samples, p) <= Percentile(samples, q)
  {
    if samples != [] {
      SortedOfSorts(samples);
      PositionInRange(|samples|, p, q);
      AtMonotone(SortedOf(samples), Position(|samples|, p), Position(|samples|, q));
      RoundMonotone(At(SortedOf(samples), Position(|samples|, p)), At(SortedOf(samples), Position(|samples|, q)), 100.0);
    }
  }

  predicate IsMin(m: real, s: seq<real>) {
    m in s && forall x :: x in s ==> m <= x
  }

  predicate IsMax(m: real, s: seq<real>) {
    m in s && forall x :: x in s ==> x <= m
  }

  /** The ends of the sorted samples are the extremes of the samples. */
  lemma EndsAreExtremes(s: seq<real>)
    requires s != []
    ensures |SortedOf(s)| == |s| && IsMin(SortedOf(s)[0], s) && IsMax(SortedOf(s)[|s| - 1], s)
  {
    SortedOfSorts(s);
    var t := SortedOf(s);
    forall x
      ensures x in s <==> x in t
    {
      assert x in s <==> x in multiset(s);
      assert x in t <==> x in multiset(t);
    }
  }

  /** Percentile 0 is the minimum and percentile 100 the maximum, up to rounding, and every
      percentile is between them. */
  lemma PercentileExtremes(s: seq<real>, lo: real, hi: real, p: real)
    requires s != [] && IsMin(lo, s) && IsMax(hi, s) && IsPercentage(p)
    ensures Percentile(s, 0.0) == Round(lo, 100.0) && Percentile(s, 100.0) == Round(hi, 100.0)
    ensures Round(lo, 100.0) <= Percentile(s, p) <= Round(hi, 100.0)
  {
    EndsAreExtremes(s);
    var t := SortedOf(s);
    SortedOfSorts(s);
    assert lo == t[0] && hi == t[|s| - 1];
    SegmentBounds(t, 0.0);
    SegmentBounds(t, (|s| - 1) as real);
    PercentileMonotone(s, 0.0, p);
    PercentileMonotone(s, p, 100.0);
  }

  // ---- Between neighbouring ranks ----

  /** On the way from `x` to `y`, at the weight `w` of the latter. */
  function Mix(x: real, y: real, w: real): real {
    (1.0 - w) * x + w * y
  }

  lemma MixByStep(x: real, y: real, w: real)
    ensures Mix(x, y, w) == x + w * (y - x)
    ensures Mix(x, y, 0.0) == x && Mix(x, y, 1.0) == y
  {
    assert (1.0 - w) * x == x - w * x;
  }

  lemma PositionAt(n: nat, p: real, k: real)
    requires n > 0 && p * (n - 1) as real == 100.0 * k
    ensures Position(n, p) == k
  {
    var q, m := p / 100.0, (n - 1) as real;
    assert q * 100.0 == p;
    assert (q * 100.0) * m == 100.0 * (m * q);
  }

  lemma PercentileOfSorted(samples: seq<real>, t: seq<real>, p: real, k: real)
    requires Sorted(t) && Permutation(t, samples) && t != [] && IsPercentage(p)
    requires Position(|t|, p) == k && 0.0 <= k <= (|t| - 1) as real
    ensures Percentile(samples, p) == Round(At(t, k), 100.0)
  {
    SortedOfSorts(samples);
    SortedUnique(t, SortedOf(samples));
  }

  lemma PercentileOfOne(samples: seq<real>, t: seq<real>, p: real)
    requires Permutation(t, samples) && |t| == 1 && IsPercentage(p)
    ensures Percentile(samples, p) == Round(t[0], 100.0)
  {
    PositionAt(1, p, 0.0);
    PercentileOfSorted(samples, t, p, 0.0);
    SegmentBounds(t, 0.0);
  }

  /** Without samples every percentile is zero. */
  lemma PercentileOfNone(samples: seq<real>, p: real)
    requires IsPercentage(p)
    ensures samples == [] ==> Percentile(samples, p) == 0.0
  {
  }

  lemma AtBetween(t: seq<real>, i: nat, w: real)
    requires i + 1 < |t| && 0.0 <= w <= 1.0
    ensures At(t, i as real + w) == Mix(t[i], t[i + 1], w)
  {
    MixByStep(t[i], t[i + 1], w);
    if w < 1.0 {
      assert (i as real + w).Floor == i;
    } else {
      assert (i as real + w).Floor == i + 1;
    }
  }

  /** The percentile that lies at the weight `w` past the i-th of the samples in order is that
      mixture of the i-th and the next, rounded: between neighbouring ranks it is a line. */
  lemma PercentileBetweenRanks(samples: seq<real>, t: seq<real>, p: real, i: nat, w: real)
    requires Sorted(t) && Permutation(t, samples) && i + 1 < |t| && 0.0 <= w <= 1.0
    requires IsPercentage(p) && p * (|t| - 1) as real == 100.0 * (i as real + w)
    ensures Percentile(samples, p) == Round((1.0 - w) * t[i] + w * t[i + 1], 100.0)
  {
    PositionAt(|t|, p, i as real + w);
    PercentileOfSorted(samples, t, p, i as real + w);
    AtBetween(t, i, w);
  }

  lemma FirstShare(n: nat, i: nat)
    requires i < n
    ensures n > 1 ==> IsPercentage(100.0 * i as real / (n - 1) as real)
    ensures n > 1 ==> (100.0 * i as real / (n - 1) as real) * (n - 1) as real == 100.0 * i as real
  {
    if n > 1 {
      var m := (n - 1) as real;
      var q := 100.0 * i as real / m;
      assert q * m == 100.0 * i as real;
      CancelMul(0.0, q, m);
      MulMonotone(i as real, m, 100.0);
      CancelMul(q, 100.0, m);
    }
  }

  /** The percentile at a rank is the sample of that rank, rounded. */
  lemma PercentileAtRank(samples: seq<real>, t: seq<real>, i: nat)
    requires Sorted(t) && Permutation(t, samples) && i < |t|
    ensures var p := if |t| == 1 then 0.0 else 100.0 * i as real / (|t| - 1) as real;
      IsPercentage(p) && Percentile(samples, p) == Round(t[i], 100.0)
  {
    FirstShare(|t|, i);
    if |t| == 1 {
      PercentileOfOne(samples, t, 0.0);
    } else if i + 1 < |t| {
      MixByStep(t[i], t[i + 1], 0.0);
      PercentileBetweenRanks(samples, t, 100.0 * i as real / (|t| - 1) as real, i, 0.0);
    } else {
      MixByStep(t[i - 1], t[i], 1.0);
      PercentileBetweenRanks(samples, t, 100.0 * i as real / (|t| - 1) as real, i - 1, 1.0);
    }
  }

  /** The middle sample in order, or the mean of the two middle ones. */
  function Middle(t: seq<real>): real
    requires t != []
  {
    if |t| % 2 == 1 then t[|t| / 2] else (t[|t| / 2 - 1] + t[|t| / 2]) / 2.0
  }

  /** The 50th percentile is the median, rounded. */
  lemma MedianIsMiddle(samples: seq<real>, t: seq<real>)
    requires Sorted(t) && Permutation(t, samples) && t != []
    ensures Percentile(samples, 50.0) == Round(Middle(t), 100.0)
  {
    var n := |t|;
    if n == 1 {
      PercentileOfOne(samples, t, 50.0);
    } else if n % 2 == 1 {
      MixByStep(t[n / 2 - 1], t[n / 2], 1.0);
      PercentileBetweenRanks(samples, t, 50.0, n / 2 - 1, 1.0);
    } else {
      PercentileBetweenRanks(samples, t, 50.0, n / 2 - 1, 0.5);
    }
  }

  datatype LatencyStats = LatencyStats(count: nat, avg: real, p50: real, p90: real, p95: real, p99: real,
                                       p100: real, max: real, min: real)

  function Sum(s: seq<real>): real {
    if s == [] then 0.0 else Sum(s[..|s| - 1]) + s[|s| - 1]
  }

  /** A sum is that of its parts. */
  lemma {:induction false} SumOfParts(a: seq<real>, b: seq<real>)
    ensures Sum(a + b) == Sum(a) + Sum(b)
    ensures forall x :: Sum([x]) == x
  {
    forall x: real
      ensures Sum([x]) == x
    {
      assert [x][..0] == [];
    }
    if b == [] {
      assert a + b == a;
    } else {
      assert (a + b)[..|a + b| - 1] == a + b[..|b| - 1];
      SumOfParts(a, b[..|b| - 1]);
    }
  }

  /** Python's `min`, `max` and `sum` of a non-empty list. */
  method Summarise(s: seq<real>) returns (lo: real, hi: real, sum: real)
    requires s != []
    ensures IsMin(lo, s) && IsMax(hi, s) && sum == Sum(s)
    ensures TotalIn(|s|, sum, lo, hi)
  {
    lo, hi, sum := s[0], s[0], s[0];
    assert s[..1] == [s[0]] && [s[0]][..0] == [];
    for i := 1 to |s|
      invariant IsMin(lo, s[..i]) && IsMax(hi, s[..i]) && sum == Sum(s[..i])
      invariant TotalIn(i, sum, lo, hi)
    {
      assert s[..i + 1] == s[..i] + [s[i]] && s[..i + 1][..i] == s[..i];
      var lo', hi' := if s[i] < lo then s[i] else lo, if s[i] > hi then s[i] else hi;
      TotalInWidens(i, sum, lo, hi, lo', hi');
      TotalInAdds(i, sum, 1, s[i], lo', hi');
      lo, hi, sum := lo', hi', sum + s[i];
    }
    assert s[..|s|] == s;
  }

  /** The summary's figures are ordered, whatever the samples. */
  lemma FiguresAreOrdered(s: seq<real>, lo: real, hi: real)
    requires s != [] && IsMin(lo, s) && IsMax(hi, s)
    requires TotalIn(|s|, Sum(s), lo, hi)
    ensures Round(lo, 100.0) <= Percentile(s, 50.0) <= Percentile(s, 90.0) <= Percentile(s, 95.0)
    ensures Percentile(s, 95.0) <= Percentile(s, 99.0) <= Round(hi, 100.0)
    ensures Round(lo, 100.0) <= Round(Sum(s) / |s| as real, 100.0) <= Round(hi, 100.0)
  {
    PercentileExtremes(s, lo, hi, 50.0);
    PercentileExtremes(s, lo, hi, 99.0);
    PercentileMonotone(s, 50.0, 90.0);
    PercentileMonotone(s, 90.0, 95.0);
    PercentileMonotone(s, 95.0, 99.0);
    MeanIn(|s|, Sum(s), lo, hi, 100.0);
  }

  /** `from_samples`. The extremes come from the samples themselves, not from sorting. */
  method FromSamples(s: seq<real>) returns (r: LatencyStats)
    ensures r.count == |s|
    ensures s == [] ==> r == LatencyStats(0, 0.0, 0.0, 0.0, 0.0, 0.0, 0.0, 0.0, 0.0)
    ensures s != [] ==> exists lo, hi :: IsMin(lo, s) && IsMax(hi, s)
                          && r.min == Round(lo, 100.0) && r.max == Round(hi, 100.0)
    ensures s != [] ==> r.avg == Round(Sum(s) / |s| as real, 100.0)
    ensures s != [] ==> |SortedOf(s)| == |s| && r.p50 == Round(Middle(SortedOf(s)), 100.0)
    ensures s != [] ==> r.p50 == Percentile(s, 50.0) && r.p99 == Percentile(s, 99.0)
    ensures s != [] ==> r.p90 == Percentile(s, 90.0) && r.p95 == Percentile(s, 95.0)
    ensures r.min <= r.p50 <= r.p90 <= r.p95 <= r.p99 <= r.p100 == r.max
    ensures r.min <= r.avg <= r.max
  {
    if |s| == 0 {
      return LatencyStats(0, 0.0, 0.0, 0.0, 0.0, 0.0, 0.0, 0.0, 0.0);
    }
    var lo, hi, sum := Summarise(s);
    FiguresAreOrdered(s, lo, hi);
    SortedOfSorts(s);
    MedianIsMiddle(s, SortedOf(s));
    var top := Round(hi, 100.0);
    r := LatencyStats(|s|, Round(sum / |s| as real, 100.0), Percentile(s, 50.0), Percentile(s, 90.0),
                      Percentile(s, 95.0), Percentile(s, 99.0), top, top, Round(lo, 100.0));
  }
}
