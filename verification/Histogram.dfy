/**
 The latency histogram (cmd/pgnotch-load/stats.go): every doubling of
 a microsecond count is cut into four buckets, and quantiles are read off the counts.
 */
module Histogram {
  import opened Words

  const SUB_COUNT: nat := 4
  const N_BUCKETS: nat := 256

  function Pow2(k: nat): (p: nat)
    ensures p > 0
  {
    if k == 0 then 1 else 2 * Pow2(k - 1)
  }

  /** bits.Len64(us) - 1: the power of two at or below a count. */
  function Octave(us: nat): (o: nat)
    requires us > 0
    ensures Pow2(o) <= us < 2 * Pow2(o)
  {
    if us < 2 then 0 else 1 + Octave(us / 2)
  }

  /** The bucket a microsecond count is filed in: the octave and the top two bits below it. */
  function BucketOf(us: nat): nat {
    if us < SUB_COUNT then us else
      OctaveFromFour(us);
      var o := Octave(us);
      (o - 1) * SUB_COUNT + us / Pow2(o - 2) % SUB_COUNT
  }

  lemma {:induction false} OctaveFromFour(us: nat)
    requires us >= SUB_COUNT
    ensures Octave(us) >= 2
  {
    assert Octave(us) == 1 + Octave(us / 2);
    assert Octave(us / 2) == 1 + Octave(us / 2 / 2);
  }

  /** The largest count that lands in bucket i. */
  function BucketBound(i: nat): nat {
    if i < SUB_COUNT then i else
      var width := Pow2(i / SUB_COUNT - 1);
      (SUB_COUNT + i % SUB_COUNT) * width + width - 1
  }

  /** The smallest count that lands in bucket i. */
  function BucketFloor(i: nat): nat {
    if i < SUB_COUNT then i else (SUB_COUNT + i % SUB_COUNT) * Pow2(i / SUB_COUNT - 1)
  }

  lemma {:induction false} Quotient(us: nat, w: nat, q: nat)
    requires w > 0 && q * w <= us < q * w + w
    ensures us / w == q
  {
    var d := us / w;
    assert us == d * w + us % w;
    assert (d - q) * w == us - q * w - us % w;
    Multiple(d - q, w);
  }

  lemma {:induction false} Multiple(k: int, w: nat)
    requires w > 0
    ensures k >= 1 ==> k * w >= w
    ensures k <= -1 ==> k * w + w <= 0
  {
    if k >= 1 {
      assert k * w == (k - 1) * w + w;
    } else if k <= -1 {
      assert k * w == (k + 1) * w - w;
    }
  }

  /** Which of the four parts of its octave a count lies in. */
  lemma {:induction false} OctavePart(us: nat, w: nat) returns (q: nat)
    requires w > 0 && 4 * w <= us < 8 * w
    ensures 4 <= q < 8 && q * w <= us < q * w + w
  {
    q := if us < 5 * w then 4 else if us < 6 * w then 5 else if us < 7 * w then 6 else 7;
  }

  /** The octave of a count from four on, a quarter of that octave, and the part of it the count lies in. */
  lemma {:induction false} Filed(us: nat) returns (o: nat, w: nat, q: nat)
    requires us >= SUB_COUNT
    ensures o >= 2 && w == Pow2(o - 2) && 4 <= q < 8 && q * w <= us < q * w + w
    ensures BucketOf(us) == (o - 1) * SUB_COUNT + (q - 4)
  {
    OctaveFromFour(us);
    o := Octave(us);
    w := Pow2(o - 2);
    assert Pow2(o) == 2 * Pow2(o - 1) && Pow2(o - 1) == 2 * w;
    q := OctavePart(us, w);
    Quotient(us, w, q);
  }

  lemma {:induction false} BucketParts(o: nat, q: nat)
    requires o >= 2 && 4 <= q < 8
    ensures var i := (o - 1) * SUB_COUNT + (q - 4);
            i >= SUB_COUNT && i / SUB_COUNT - 1 == o - 2 && SUB_COUNT + i % SUB_COUNT == q
  {
  }

  /** A count lies in its bucket. */
  lemma {:induction false} InItsBucket(us: nat)
    ensures BucketFloor(BucketOf(us)) <= us <= BucketBound(BucketOf(us))
    ensures us >= SUB_COUNT ==> BucketOf(us) >= SUB_COUNT
  {
    if us >= SUB_COUNT {
      var o, w, q := Filed(us);
      BucketParts(o, q);
      assert BucketFloor(BucketOf(us)) == q * w;
      assert BucketBound(BucketOf(us)) == q * w + w - 1;
    }
  }

  /** The buckets are contiguous: each begins right above the one before. */
  lemma {:induction false} BucketsAbut(i: nat)
    ensures BucketBound(i) + 1 == BucketFloor(i + 1)
    ensures BucketFloor(i) <= BucketBound(i)
  {
    if i >= SUB_COUNT {
      var w, s := Pow2(i / SUB_COUNT - 1), i % SUB_COUNT;
      if s == 3 {
        assert (i + 1) / SUB_COUNT - 1 == i / SUB_COUNT && (i + 1) % SUB_COUNT == 0;
        assert Pow2(i / SUB_COUNT) == 2 * w;
        assert (SUB_COUNT + s) * w == 7 * w;
      } else {
        assert (i + 1) / SUB_COUNT == i / SUB_COUNT && (i + 1) % SUB_COUNT == s + 1;
        assert (SUB_COUNT + (s + 1)) * w == (SUB_COUNT + s) * w + w;
      }
    } else if i == 3 {
      assert Pow2(0) == 1;
    }
  }

  lemma {:induction false} BoundsClimb(i: nat, j: nat)
    requires i < j
    ensures BucketBound(i) < BucketFloor(j)
    decreases j
  {
    BucketsAbut(j - 1);
    if i < j - 1 {
      BoundsClimb(i, j - 1);
    }
  }

  /** Filing and bound are adjoint: a count is filed at or below bucket i exactly when it is at most its bound. */
  lemma {:induction false} FiledBelow(us: nat, i: nat)
    ensures BucketOf(us) <= i <==> us <= BucketBound(i)
  {
    InItsBucket(us);
    var b := BucketOf(us);
    if b < i {
      BoundsClimb(b, i);
      BucketsAbut(i);
    } else if b > i {
      BoundsClimb(i, b);
    }
  }

  /** A bound is at most a quarter above any count it stands for. */
  lemma {:induction false} BoundIsClose(us: nat)
    ensures us <= BucketBound(BucketOf(us)) && 4 * BucketBound(BucketOf(us)) <= 5 * us
  {
    InItsBucket(us);
    var i := BucketOf(us);
    if i >= SUB_COUNT {
      var w, s := Pow2(i / SUB_COUNT - 1), i % SUB_COUNT;
      QuarterAbove(w, s);
    }
  }

  lemma {:induction false} QuarterAbove(w: nat, s: nat)
    requires s < 4
    ensures 4 * ((4 + s) * w + w) <= 5 * ((4 + s) * w)
  {
    assert (4 + s) * w == 4 * w + s * w;
  }

  lemma {:induction false} Pow2Climbs(j: nat, k: nat)
    requires j <= k
    ensures Pow2(j) <= Pow2(k)
    decreases k
  {
    if j < k {
      Pow2Climbs(j, k - 1);
    }
  }

  lemma {:induction false} TwiceProduct(p: nat, q: nat)
    ensures 2 * (p * q) == (2 * p) * q
  {
  }

  lemma {:induction false} Pow2Sum(a: nat, b: nat)
    ensures Pow2(a + b) == Pow2(a) * Pow2(b)
    decreases a
  {
    if a > 0 {
      Pow2Sum(a - 1, b);
      TwiceProduct(Pow2(a - 1), Pow2(b));
    }
  }

  lemma {:induction false} Pow2At61()
    ensures Pow2(61) == 0x2000_0000_0000_0000
  {
    assert Pow2(1) == 2 && Pow2(2) == 4 && Pow2(3) == 8;
    Pow2Sum(3, 2);
    assert Pow2(5) == 32;
    Pow2Sum(5, 5);
    assert Pow2(10) == 0x400;
    Pow2Sum(10, 10);
    assert Pow2(20) == 0x10_0000;
    Pow2Sum(20, 20);
    assert Pow2(40) == 0x100_0000_0000;
    Pow2Sum(40, 20);
    assert Pow2(60) == 0x1000_0000_0000_0000;
  }

  lemma {:induction false} LastBound()
    ensures BucketBound(251) == TWO64 - 1
  {
    BucketParts(63, 7);
    Pow2At61();
  }

  /** Every 64-bit count is filed below bucket 252, and up to there no bound overflows; bucket 252's would. */
  lemma {:induction false} BucketsCoverTheWord(us: nat, i: nat)
    ensures us < TWO64 <==> BucketOf(us) < 252
    ensures BucketBound(i) < TWO64 <==> i < 252
  {
    LastBound();
    FiledBelow(us, 251);
    if i != 251 {
      BoundOrder(i, 251);
    }
  }

  lemma {:induction false} BoundOrder(i: nat, j: nat)
    requires i != j
    ensures BucketBound(i) < BucketBound(j) <==> i < j
    ensures BucketBound(i) != BucketBound(j)
  {
    BucketsAbut(i);
    BucketsAbut(j);
    if i < j {
      BoundsClimb(i, j);
    } else {
      BoundsClimb(j, i);
    }
  }

  // ---------- counting samples ----------

  /** How many samples are filed in bucket i, and how many below it. */
  function CountIn(samples: seq<nat>, i: nat): nat {
    if samples == [] then 0 else CountIn(samples[1..], i) + if BucketOf(samples[0]) == i then 1 else 0
  }

  function CountBelow(samples: seq<nat>, i: nat): nat {
    if samples == [] then 0 else CountBelow(samples[1..], i) + if BucketOf(samples[0]) < i then 1 else 0
  }

  /** The counts of a histogram that has observed these samples. */
  ghost predicate Counts(buckets: seq<nat>, samples: seq<nat>) {
    |buckets| == N_BUCKETS && forall i :: 0 <= i < N_BUCKETS ==> buckets[i] == CountIn(samples, i)
  }

  function Sum(counts: seq<nat>): nat {
    if counts == [] then 0 else Sum(counts[..|counts| - 1]) + counts[|counts| - 1]
  }

  predicate Sorted(samples: seq<nat>) {
    forall i, j :: 0 <= i < j < |samples| ==> samples[i] <= samples[j]
  }

  predicate Words64(samples: seq<nat>) {
    forall i :: 0 <= i < |samples| ==> samples[i] < TWO64
  }

  lemma {:induction false} CountInConcat(a: seq<nat>, b: seq<nat>, i: nat)
    ensures CountIn(a + b, i) == CountIn(a, i) + CountIn(b, i)
    decreases |a|
  {
    if a == [] {
      assert a + b == b;
    } else {
      assert (a + b)[1..] == a[1..] + b;
      CountInConcat(a[1..], b, i);
    }
  }

  lemma {:induction false} CountBelowConcat(a: seq<nat>, b: seq<nat>, i: nat)
    ensures CountBelow(a + b, i) == CountBelow(a, i) + CountBelow(b, i)
    decreases |a|
  {
    if a == [] {
      assert a + b == b;
    } else {
      assert (a + b)[1..] == a[1..] + b;
      CountBelowConcat(a[1..], b, i);
    }
  }

  /** The counts do not depend on the order the samples came in. */
  lemma {:induction false} CountInAnyOrder(a: seq<nat>, b: seq<nat>, i: nat)
    requires multiset(a) == multiset(b)
    ensures CountIn(a, i) == CountIn(b, i)
    decreases |a|
  {
    if a == [] {
      assert |b| == |multiset(b)| == 0;
    } else {
      assert a[0] in multiset(b);
      var k :| 0 <= k < |b| && b[k] == a[0];
      TakeOut(a, b, k);
      CountInAnyOrder(a[1..], b[..k] + b[k + 1..], i);
      CountInWithout(b, k, i);
      CountInWithout(a, 0, i);
      assert a[..0] + a[1..] == a[1..];
    }
  }

  lemma {:induction false} TakeOut(a: seq<nat>, b: seq<nat>, k: nat)
    requires a != [] && multiset(a) == multiset(b) && k < |b| && b[k] == a[0]
    ensures multiset(a[1..]) == multiset(b[..k] + b[k + 1..])
  {
    assert a == [a[0]] + a[1..];
    assert b == b[..k] + ([b[k]] + b[k + 1..]);
    SameRest(a[0], a[1..], b[..k], b[k + 1..]);
  }

  lemma {:induction false} CountInWithout(b: seq<nat>, k: nat, i: nat)
    requires k < |b|
    ensures CountIn(b, i) == CountIn(b[..k] + b[k + 1..], i) + if BucketOf(b[k]) == i then 1 else 0
  {
    assert b == b[..k] + ([b[k]] + b[k + 1..]);
    CountInConcat(b[..k], [b[k]] + b[k + 1..], i);
    CountInConcat([b[k]], b[k + 1..], i);
    CountInConcat(b[..k], b[k + 1..], i);
    assert CountIn([b[k]], i) == CountIn([], i) + if BucketOf(b[k]) == i then 1 else 0;
  }

  lemma {:induction false} SameRest(x: nat, a: seq<nat>, b: seq<nat>, c: seq<nat>)
    requires multiset([x] + a) == multiset(b + ([x] + c))
    ensures multiset(a) == multiset(b + c)
  {
    assert multiset{x} + multiset(a) == multiset{x} + multiset(b + c);
    assert multiset(a) == (multiset{x} + multiset(a)) - multiset{x};
  }

  lemma {:induction false} BelowNext(samples: seq<nat>, i: nat)
    ensures CountBelow(samples, i + 1) == CountBelow(samples, i) + CountIn(samples, i)
    decreases |samples|
  {
    if samples != [] {
      BelowNext(samples[1..], i);
    }
  }

  lemma {:induction false} BelowZero(samples: seq<nat>)
    ensures CountBelow(samples, 0) == 0
    decreases |samples|
  {
    if samples != [] {
      BelowZero(samples[1..]);
    }
  }

  /** Running totals over the counts count the samples below. */
  lemma {:induction false} SumIsBelow(buckets: seq<nat>, samples: seq<nat>, i: nat)
    requires Counts(buckets, samples) && i <= N_BUCKETS
    ensures Sum(buckets[..i]) == CountBelow(samples, i)
    decreases i
  {
    if i == 0 {
      BelowZero(samples);
    } else {
      SumIsBelow(buckets, samples, i - 1);
      BelowNext(samples, i - 1);
      assert buckets[..i][..i - 1] == buckets[..i - 1];
    }
  }

  lemma {:induction false} AllBelow(samples: seq<nat>, i: nat)
    requires forall k :: 0 <= k < |samples| ==> BucketOf(samples[k]) < i
    ensures CountBelow(samples, i) == |samples|
    decreases |samples|
  {
    if samples != [] {
      AllBelow(samples[1..], i);
    }
  }

  lemma {:induction false} NoneBelow(samples: seq<nat>, i: nat)
    requires forall k :: 0 <= k < |samples| ==> BucketOf(samples[k]) >= i
    ensures CountBelow(samples, i) == 0
    decreases |samples|
  {
    if samples != [] {
      NoneBelow(samples[1..], i);
    }
  }

  lemma {:induction false} AtMostAll(samples: seq<nat>, i: nat)
    ensures CountBelow(samples, i) <= |samples|
    decreases |samples|
  {
    if samples != [] {
      AtMostAll(samples[1..], i);
    }
  }

  lemma {:induction false} FilingClimbs(a: nat, b: nat)
    requires a <= b
    ensures BucketOf(a) <= BucketOf(b)
  {
    FiledBelow(b, BucketOf(b));
    FiledBelow(a, BucketOf(b));
  }

  /** As many as t samples lie below bucket i exactly when the t-th smallest does. */
  lemma {:induction false} RankLiesBelow(sorted: seq<nat>, i: nat, t: nat)
    requires Sorted(sorted) && 1 <= t <= |sorted|
    ensures CountBelow(sorted, i) >= t <==> BucketOf(sorted[t - 1]) < i
  {
    var low, high := sorted[..t], sorted[t - 1..];
    if BucketOf(sorted[t - 1]) < i {
      forall k | 0 <= k < |low|
        ensures BucketOf(low[k]) < i
      {
        FilingClimbs(sorted[k], sorted[t - 1]);
      }
      AllBelow(low, i);
      assert sorted == low + sorted[t..];
      CountBelowConcat(low, sorted[t..], i);
    } else {
      forall k | 0 <= k < |high|
        ensures BucketOf(high[k]) >= i
      {
        FilingClimbs(sorted[t - 1], sorted[t - 1 + k]);
      }
      NoneBelow(high, i);
      assert sorted == sorted[..t - 1] + high;
      CountBelowConcat(sorted[..t - 1], high, i);
      AtMostAll(sorted[..t - 1], i);
    }
  }

  // ---------- the histogram and its quantiles ----------

  class Histogram {
    var buckets: array<nat>

    constructor ()
      ensures fresh(buckets) && Counts(buckets[..], [])
    {
      buckets := new nat[N_BUCKETS](_ => 0);
    }

    /** One more sample, a latency in microseconds, which is below 2^63. */
    method Observe(us: nat, ghost samples: seq<nat>)
      requires us < TWO63 && Counts(buckets[..], samples)
      modifies buckets
      ensures Counts(buckets[..], samples + [us])
    {
      BucketsCoverTheWord(us, 0);
      var b := BucketOf(us);
      buckets[b] := buckets[b] + 1;
      forall i | 0 <= i < N_BUCKETS
        ensures buckets[..][i] == CountIn(samples + [us], i)
      {
        CountInConcat(samples, [us], i);
        assert CountIn([us], i) == CountIn([], i) + if b == i then 1 else 0;
      }
    }
  }

  /** The window between two readings of the counters. */
  method Sub(now: seq<nat>, before: seq<nat>, ghost early: seq<nat>, ghost late: seq<nat>) returns (window: seq<nat>)
    requires Counts(before, early) && Counts(now, early + late) && |early + late| < TWO64
    ensures Counts(window, late)
  {
    window := [];
    for i := 0 to |now|
      invariant |window| == i
      invariant forall k :: 0 <= k < i ==> window[k] == CountIn(late, k)
    {
      CountInConcat(early, late, i);
      CountInAtMost(early + late, i);
      window := window + [Sub64(now[i], before[i])];
    }
  }

  lemma {:induction false} CountInAtMost(samples: seq<nat>, i: nat)
    ensures CountIn(samples, i) <= |samples|
    decreases |samples|
  {
    if samples != [] {
      CountInAtMost(samples[1..], i);
    }
  }

  /** The rank of the num/den quantile among `total` samples. */
  function Rank(total: nat, num: nat, den: nat): (t: nat)
    requires total > 0 && den > 0 && num <= den
    ensures 1 <= t <= total
    ensures (t - 1) * den <= num * (total - 1) < t * den
  {
    RankFits(total - 1, num, den);
    RankIsFloor(num * (total - 1), den);
    num * (total - 1) / den + 1
  }

  lemma {:induction false} RankIsFloor(x: nat, den: nat)
    requires den > 0
    ensures x / den * den <= x < (x / den + 1) * den
  {
    assert x == den * (x / den) + x % den;
    assert (x / den + 1) * den == x / den * den + den;
  }

  /** There is one such rank. */
  lemma {:induction false} RankIsOne(x: nat, den: nat, j: nat, k: nat)
    requires den > 0 && j * den <= x < (j + 1) * den && k * den <= x < (k + 1) * den
    ensures j == k
  {
    Quotient(x, den, j);
    Quotient(x, den, k);
  }

  /** The sample a quantile stands for: the k-th of n in order, k being the fraction of n - 1 rounded down. */
  predicate IsRank(k: nat, n: nat, num: nat, den: nat)
    requires n > 0
  {
    k < n && k * den <= num * (n - 1) < (k + 1) * den
  }

  /** A result for the sample of the rank that was computed is one for the sample of any rank that fits. */
  lemma {:induction false} AnswersRank(sorted: seq<nat>, num: nat, den: nat, us: nat)
    requires sorted != [] && den > 0 && num <= den
    requires var sample := sorted[Rank(|sorted|, num, den) - 1]; sample <= us && 4 * us <= 5 * sample
    ensures IsRank(Rank(|sorted|, num, den) - 1, |sorted|, num, den)
    ensures forall k: nat :: IsRank(k, |sorted|, num, den) ==> sorted[k] <= us && 4 * us <= 5 * sorted[k]
  {
    var t := Rank(|sorted|, num, den);
    forall k: nat | IsRank(k, |sorted|, num, den)
      ensures k == t - 1
    {
      RankIsOne(num * (|sorted| - 1), den, k, t - 1);
    }
  }

  lemma {:induction false} RankFits(n: nat, num: nat, den: nat)
    requires den > 0 && num <= den
    ensures num * n / den <= n
  {
    assert num * n <= den * n;
    var q := num * n / den;
    assert q * den <= num * n;
    assert (n - q) * den >= 0;
  }

  /**
   The quantile, for any samples in any order: it is at least the sample of its rank
   and at most a quarter above it, and zero for no samples. The rank is the fraction
   of the number of samples but one, rounded down and counted from zero.
   */
  method Quantile(buckets: seq<nat>, num: nat, den: nat, ghost samples: seq<nat>, ghost sorted: seq<nat>) returns (us: nat)
    requires den > 0 && num <= den && Counts(buckets, samples) && Words64(sorted)
    requires Sorted(sorted) && multiset(sorted) == multiset(samples)
    ensures sorted == [] ==> us == 0
    ensures sorted != [] ==>
              && (exists k: nat :: IsRank(k, |sorted|, num, den))
              && (forall k: nat :: IsRank(k, |sorted|, num, den) ==> sorted[k] <= us && 4 * us <= 5 * sorted[k])
  {
    SortedCounts(buckets, samples, sorted);
    var total := 0;
    for i := 0 to |buckets|
      invariant total == Sum(buckets[..i])
    {
      assert buckets[..i + 1][..i] == buckets[..i];
      total := total + buckets[i];
    }
    AllAreCounted(buckets, sorted);
    assert buckets[..|buckets|] == buckets[..N_BUCKETS];
    if total == 0 {
      return 0;
    }
    var target := Rank(total, num, den);
    var seen := 0;
    for i := 0 to |buckets|
      invariant seen == CountBelow(sorted, i) && seen < target
    {
      BelowNext(sorted, i);
      seen := seen + buckets[i];
      if seen >= target {
        RankLiesBelow(sorted, i + 1, target);
        RankLiesBelow(sorted, i, target);
        BoundIsClose(sorted[target - 1]);
        AnswersRank(sorted, num, den, BucketBound(i));
        return BucketBound(i);
      }
    }
    assert false;
  }

  lemma {:induction false} SortedCounts(buckets: seq<nat>, samples: seq<nat>, sorted: seq<nat>)
    requires Counts(buckets, samples) && multiset(sorted) == multiset(samples)
    ensures Counts(buckets, sorted)
    ensures CountBelow(sorted, 0) == 0
  {
    forall i | 0 <= i < N_BUCKETS
      ensures buckets[i] == CountIn(sorted, i)
    {
      CountInAnyOrder(sorted, samples, i);
    }
    BelowZero(sorted);
  }

  lemma {:induction false} AllAreCounted(buckets: seq<nat>, samples: seq<nat>)
    requires Counts(buckets, samples) && Words64(samples)
    ensures Sum(buckets[..N_BUCKETS]) == |samples| && CountBelow(samples, N_BUCKETS) == |samples|
  {
    SumIsBelow(buckets, samples, N_BUCKETS);
    forall k | 0 <= k < |samples|
      ensures BucketOf(samples[k]) < N_BUCKETS
    {
      BucketsCoverTheWord(samples[k], 0);
    }
    AllBelow(samples, N_BUCKETS);
  }
}
