/** percentile_us over a sketch, and how far it can be from the true order statistic. */
module Percentiles {
  import opened Wrappers
  import opened Counts
  import opened Buckets
  import opened Histogram
  import opened Rounding

  /** How many recordings lie in buckets below `bound`. */
  function Upto(buckets: map<nat, nat>, bound: nat): nat {
    if bound == 0 then 0 else Upto(buckets, bound - 1) + Get(buckets, bound - 1)
  }

  lemma {:induction false} UptoMonotone(buckets: map<nat, nat>, m: nat, n: nat)
    requires m <= n
    ensures Upto(buckets, m) <= Upto(buckets, n)
    decreases n
  {
    if m < n {
      UptoMonotone(buckets, m, n - 1);
    }
  }

  lemma {:induction false} UptoGap(buckets: map<nat, nat>, m: nat, n: nat)
    requires m <= n
    requires forall k :: m <= k < n ==> k !in buckets
    ensures Upto(buckets, n) == Upto(buckets, m)
    decreases n
  {
    if m < n {
      UptoGap(buckets, m, n - 1);
    }
  }

  /** The first bucket at which the running count reaches the target. */
  ghost predicate IsRankBucket(buckets: map<nat, nat>, target: real, index: nat) {
    index in buckets && Upto(buckets, index) as real < target <= Upto(buckets, index + 1) as real
  }

  lemma RankBucketMonotone(buckets: map<nat, nat>, s: real, t: real, i: nat, j: nat)
    requires s <= t && IsRankBucket(buckets, s, i) && IsRankBucket(buckets, t, j)
    ensures i <= j
  {
    if j < i {
      UptoMonotone(buckets, j + 1, i);
    }
  }

  /** Held inside the observed extremes. */
  function Bounded(min: Option<nat>, max: Option<nat>, value: real): real {
    var low := if min.Some? && value < min.value as real then min.value as real else value;
    if max.Some? && low > max.value as real then max.value as real else low
  }

  function Target(p: real, count: nat): real {
    p / 100.0 * count as real
  }

  ghost function Percentile(h: Sketch, p: real): real {
    if h.count == 0 then 0.0
    else if p <= 0.0 then h.min.GetOr(0) as real
    else if p >= 100.0 then h.max.GetOr(0) as real
    else if i :| IsRankBucket(h.buckets, Target(p, h.count), i) then Bounded(h.min, h.max, Midpoint(i))
    else h.max.GetOr(0) as real
  }

  /** Python's sorted over the bucket numbers. */
  method SortedKeys(keys: set<nat>) returns (sorted: seq<nat>)
    ensures forall k :: k in sorted <==> k in keys
    ensures forall i, j :: 0 <= i < j < |sorted| ==> sorted[i] < sorted[j]
  {
    sorted := [];
    var left := keys;
    while left != {}
      invariant left <= keys
      invariant forall k :: k in sorted <==> k in keys - left
      invariant forall i, j :: 0 <= i < j < |sorted| ==> sorted[i] < sorted[j]
      decreases left
    {
      var key :| key in left;
      var at := |sorted|;
      while at > 0 && sorted[at - 1] > key
        invariant 0 <= at <= |sorted|
        invariant forall i :: at <= i < |sorted| ==> sorted[i] > key
      {
        at := at - 1;
      }
      assert key !in sorted;
      ghost var before := sorted;
      sorted := sorted[..at] + [key] + sorted[at..];
      InsertedAt(before, at, key);
      left := left - {key};
    }
  }

  lemma InsertedAt(s: seq<nat>, at: nat, key: nat)
    requires at <= |s|
    ensures forall k :: k in s[..at] + [key] + s[at..] <==> k in s || k == key
  {
    assert s == s[..at] + s[at..];
  }

  /** The scan of the sorted buckets with a running `seen`. */
  method FirstReaching(buckets: map<nat, nat>, target: real) returns (found: Option<nat>)
    requires target > 0.0
    ensures found.Some? ==> IsRankBucket(buckets, target, found.value)
    ensures found.None? ==> forall k :: !IsRankBucket(buckets, target, k)
  {
    var seen := 0;
    var indices := SortedKeys(buckets.Keys);
    for i := 0 to |indices|
      invariant seen == Upto(buckets, if i == 0 then 0 else indices[i - 1] + 1)
      invariant seen as real < target
    {
      var index := indices[i];
      BetweenSorted(buckets.Keys, indices, i);
      UptoGap(buckets, if i == 0 then 0 else indices[i - 1] + 1, index);
      seen := seen + buckets[index];
      if seen as real >= target {
        return Some(index);
      }
    }
    forall k | k in buckets
      ensures !IsRankBucket(buckets, target, k)
    {
      assert k in indices;
      UptoMonotone(buckets, k + 1, indices[|indices| - 1] + 1);
    }
    found := None;
  }

  method PercentileUs(h: LatencyHistogram, p: real) returns (value: real)
    ensures value == Percentile(h.View(), p)
  {
    if h.count == 0 {
      return 0.0;
    }
    if p <= 0.0 {
      return h.min.GetOr(0) as real;
    }
    if p >= 100.0 {
      return h.max.GetOr(0) as real;
    }
    var target := Target(p, h.count);
    TargetPositive(p, h.count);
    var found := FirstReaching(h.buckets, target);
    match found {
      case None =>
        value := h.max.GetOr(0) as real;
      case Some(index) =>
        RankBucketChosen(h.View(), p, index);
        value := Bounded(h.min, h.max, Midpoint(index));
    }
  }

  lemma TargetPositive(p: real, count: nat)
    requires count > 0 && p > 0.0
    ensures Target(p, count) > 0.0
  {
    assert p / 100.0 > 0.0;
  }

  lemma BetweenSorted(keys: set<nat>, sorted: seq<nat>, i: nat)
    requires i < |sorted|
    requires forall k :: k in sorted <==> k in keys
    requires forall a, b :: 0 <= a < b < |sorted| ==> sorted[a] < sorted[b]
    ensures var from := if i == 0 then 0 else sorted[i - 1] + 1;
            from <= sorted[i] && forall k :: from <= k < sorted[i] ==> k !in keys
  {
    assert forall at :: 0 <= at < |sorted| && at < i ==> sorted[at] < sorted[i] && sorted[at] <= sorted[i - 1];
    assert forall at :: i <= at < |sorted| ==> sorted[at] >= sorted[i];
  }

  lemma RankBucketChosen(h: Sketch, p: real, index: nat)
    requires h.count > 0 && 0.0 < p < 100.0
    requires IsRankBucket(h.buckets, Target(p, h.count), index)
    ensures Percentile(h, p) == Bounded(h.min, h.max, Midpoint(index))
  {
    var chosen :| IsRankBucket(h.buckets, Target(p, h.count), chosen) && Percentile(h, p) == Bounded(h.min, h.max, Midpoint(chosen));
    RankBucketMonotone(h.buckets, Target(p, h.count), Target(p, h.count), index, chosen);
    RankBucketMonotone(h.buckets, Target(p, h.count), Target(p, h.count), chosen, index);
  }

  // ---------------------------------------------------------------------
  // What a sketch knows about its samples
  // ---------------------------------------------------------------------

  /** Samples filed in buckets below `bound`. */
  function CountBelow(samples: seq<nat>, bound: nat): nat {
    if samples == [] then 0
    else CountBelow(samples[..|samples| - 1], bound) + if IndexOf(samples[|samples| - 1]) < bound then 1 else 0
  }

  lemma {:induction false} UptoBump(buckets: map<nat, nat>, key: nat, bound: nat)
    ensures Upto(Bump(buckets, key, 1), bound) == Upto(buckets, bound) + if key < bound then 1 else 0
  {
    if bound > 0 {
      UptoBump(buckets, key, bound - 1);
    }
  }

  lemma {:induction false} SketchCounts(samples: seq<nat>, bound: nat)
    ensures Upto(SketchOf(samples).buckets, bound) == CountBelow(samples, bound)
  {
    if samples == [] {
      UptoGap(map[], 0, bound);
    } else {
      var init := samples[..|samples| - 1];
      SketchCounts(init, bound);
      UptoBump(SketchOf(init).buckets, IndexOf(samples[|samples| - 1]), bound);
    }
  }

  /** Count, buckets, minimum and maximum are exact, as the module promises. */
  lemma {:induction false} SketchExact(samples: seq<nat>)
    ensures var h := SketchOf(samples);
            && h.count == |samples|
            && (samples == [] ==> h.min == h.max == None)
            && (samples != [] ==> h.min.Some? && h.max.Some? && h.min.value in samples && h.max.value in samples)
            && (forall x :: x in samples ==> h.min.value <= x <= h.max.value && IndexOf(x) in h.buckets)
  {
    if samples != [] {
      var init, last := samples[..|samples| - 1], samples[|samples| - 1];
      SketchExact(init);
      assert samples == init + [last];
    }
  }

  lemma SketchSwap(u: seq<nat>, a: nat, v: seq<nat>)
    ensures SketchOf(u + [a] + v) == SketchOf(u + v + [a])
  {
    var su, sa, sv := SketchOf(u), SketchOf([a]), SketchOf(v);
    calc {
      SketchOf(u + [a] + v);
      { MergeIsConcatenation(u + [a], v); MergeIsConcatenation(u, [a]); }
      Merged(Merged(su, sa), sv);
      { MergeAssociates(su, sa, sv); MergeCommutes(sa, sv); MergeAssociates(su, sv, sa); }
      Merged(Merged(su, sv), sa);
      { MergeIsConcatenation(u, v); MergeIsConcatenation(u + v, [a]); }
      SketchOf(u + v + [a]);
    }
  }

  /** The order in which readings arrive leaves no trace in the sketch. */
  lemma {:induction false} SketchIgnoresOrder(xs: seq<nat>, ys: seq<nat>)
    requires multiset(xs) == multiset(ys)
    ensures SketchOf(xs) == SketchOf(ys)
    decreases |xs|
  {
    if xs == [] {
      assert |multiset(ys)| == 0;
    } else {
      var init, a := xs[..|xs| - 1], xs[|xs| - 1];
      assert xs == init + [a];
      assert a in multiset(ys);
      var j :| 0 <= j < |ys| && ys[j] == a;
      var u, v := ys[..j], ys[j + 1..];
      assert ys == u + [a] + v;
      assert multiset(init) == multiset(xs) - multiset{a};
      assert multiset(u + v) == multiset(ys) - multiset{a};
      SketchIgnoresOrder(init, u + v);
      SketchSwap(u, a, v);
      assert (u + v + [a])[..|u + v|] == u + v;
    }
  }

  // ---------------------------------------------------------------------
  // Accuracy
  // ---------------------------------------------------------------------

  ghost predicate Sorted(s: seq<nat>) {
    forall i, j :: 0 <= i <= j < |s| ==> s[i] <= s[j]
  }

  /** The nearest-rank percentile of sorted samples: the ceil(p% of n)-th smallest. */
  function NearestRank(sorted: seq<nat>, p: real): nat
    requires sorted != [] && 0.0 < p < 100.0
  {
    var k := Ceil(Target(p, |sorted|));
    RankInRange(p, |sorted|);
    sorted[k - 1]
  }

  lemma RankInRange(p: real, n: nat)
    requires n > 0 && 0.0 < p < 100.0
    ensures 1 <= Ceil(Target(p, n)) <= n
  {
    var q := p / 100.0;
    assert 0.0 < q < 1.0;
    var x := q * n as real;
    assert 0.0 < x < n as real;
    assert x.Floor as real <= x;
  }

  lemma {:induction false} BelowAtMost(s: seq<nat>, bound: nat, m: nat)
    requires m <= |s| && forall j :: m <= j < |s| ==> IndexOf(s[j]) >= bound
    ensures CountBelow(s, bound) <= m
  {
    if s != [] {
      BelowAtMost(s[..|s| - 1], bound, if m == |s| then m - 1 else m);
    }
  }

  lemma {:induction false} BelowAtLeast(s: seq<nat>, bound: nat, m: nat)
    requires m <= |s| && forall j :: 0 <= j < m ==> IndexOf(s[j]) < bound
    ensures CountBelow(s, bound) >= m
  {
    if m > 0 {
      BelowAtLeast(s[..|s| - 1], bound, if m == |s| then m - 1 else m);
    }
  }

  /** The bucket the percentile stops at is the one holding the nearest-rank sample. */
  lemma RankBucketHoldsRank(sorted: seq<nat>, p: real)
    requires sorted != [] && Sorted(sorted) && 0.0 < p < 100.0
    ensures IsRankBucket(SketchOf(sorted).buckets, Target(p, |sorted|), IndexOf(NearestRank(sorted, p)))
  {
    RankInRange(p, |sorted|);
    var k := Ceil(Target(p, |sorted|));
    var x := sorted[k - 1];
    forall j | 0 <= j < |sorted|
      ensures j >= k - 1 ==> IndexOf(sorted[j]) >= IndexOf(x)
      ensures j < k ==> IndexOf(sorted[j]) < IndexOf(x) + 1
    {
      if j >= k - 1 {
        IndexMonotone(x, sorted[j]);
      }
      if j < k {
        IndexMonotone(sorted[j], x);
      }
    }
    BelowAtMost(sorted, IndexOf(x), k - 1);
    BelowAtLeast(sorted, IndexOf(x) + 1, k);
    SketchCounts(sorted, IndexOf(x));
    SketchCounts(sorted, IndexOf(x) + 1);
    SketchExact(sorted);
    assert x in sorted;
  }

  lemma BoundedTowards(h: Sketch, value: real, x: nat)
    requires h.min.Some? && h.max.Some? && h.min.value <= x <= h.max.value
    ensures h.min.value as real <= Bounded(h.min, h.max, value) <= h.max.value as real
    ensures value <= x as real ==> value <= Bounded(h.min, h.max, value) <= x as real
    ensures value >= x as real ==> x as real <= Bounded(h.min, h.max, value) <= value
  {
  }

  /** One sketch: the reported percentile is within 1/128 of the nearest-rank sample. */
  lemma PercentileAccurate(samples: seq<nat>, sorted: seq<nat>, p: real)
    requires samples != [] && Sorted(sorted) && multiset(sorted) == multiset(samples) && 0.0 < p < 100.0
    ensures sorted != []
    ensures var h := SketchOf(samples);
            var x := NearestRank(sorted, p) as real;
            && x - x / 128.0 <= Percentile(h, p) <= x + x / 128.0
            && h.min.Some? && h.max.Some?
            && h.min.value as real <= Percentile(h, p) <= h.max.value as real
  {
    assert samples[0] in multiset(sorted);
    SketchIgnoresOrder(sorted, samples);
    SketchExact(sorted);
    var h := SketchOf(samples);
    var x := NearestRank(sorted, p);
    RankInRange(p, |sorted|);
    assert x in sorted;
    RankBucketHoldsRank(sorted, p);
    RankBucketChosen(h, p, IndexOf(x));
    MidpointError(x);
    BoundedTowards(h, Midpoint(IndexOf(x)), x);
  }

  /** The fleet: percentiles over merged sketches are as accurate as over one list of all samples. */
  lemma MergedPercentileAccurate(groups: seq<seq<nat>>, sorted: seq<nat>, p: real)
    requires sorted != [] && Sorted(sorted) && multiset(sorted) == multiset(Flatten(groups)) && 0.0 < p < 100.0
    ensures var h := MergedAll(seq(|groups|, i requires 0 <= i < |groups| => SketchOf(groups[i])));
            var x := NearestRank(sorted, p) as real;
            && x - x / 128.0 <= Percentile(h, p) <= x + x / 128.0
            && h.min.Some? && h.max.Some?
            && h.min.value as real <= Percentile(h, p) <= h.max.value as real
  {
    MergeAllIsConcatenation(groups);
    assert sorted[0] in multiset(Flatten(groups));
    PercentileAccurate(Flatten(groups), sorted, p);
  }

  lemma RankBucketExists(samples: seq<nat>, p: real) returns (index: nat)
    requires samples != [] && 0.0 < p < 100.0
    ensures IsRankBucket(SketchOf(samples).buckets, Target(p, SketchOf(samples).count), index)
  {
    var sorted := SortedCopy(samples);
    SketchIgnoresOrder(sorted, samples);
    SketchExact(sorted);
    assert samples[0] in multiset(sorted);
    RankBucketHoldsRank(sorted, p);
    index := IndexOf(NearestRank(sorted, p));
  }

  function InsertSorted(s: seq<nat>, a: nat): seq<nat> {
    if s == [] || a <= s[0] then [a] + s else [s[0]] + InsertSorted(s[1..], a)
  }

  lemma {:induction false} InsertKeepsSorted(s: seq<nat>, a: nat)
    requires Sorted(s)
    ensures var t := InsertSorted(s, a);
            && Sorted(t) && multiset(t) == multiset(s) + multiset{a}
            && t[0] == if s == [] || a <= s[0] then a else s[0]
  {
    if s != [] {
      assert s == [s[0]] + s[1..];
      if a > s[0] {
        InsertKeepsSorted(s[1..], a);
      }
    }
  }

  lemma {:induction false} SortedCopy(samples: seq<nat>) returns (sorted: seq<nat>)
    ensures Sorted(sorted) && multiset(sorted) == multiset(samples)
  {
    if samples == [] {
      return [];
    }
    assert samples == [samples[0]] + samples[1..];
    var rest := SortedCopy(samples[1..]);
    InsertKeepsSorted(rest, samples[0]);
    sorted := InsertSorted(rest, samples[0]);
  }

  /** A higher percentile is never reported lower, at the clamped ends included. */
  lemma PercentileMonotone(samples: seq<nat>, p: real, q: real)
    requires p <= q
    ensures Percentile(SketchOf(samples), p) <= Percentile(SketchOf(samples), q)
  {
    var h := SketchOf(samples);
    SketchExact(samples);
    if samples != [] {
      var lo, hi := h.min.value, h.max.value;
      assert lo <= hi;
      if 0.0 < p < 100.0 {
        var i := RankBucketExists(samples, p);
        RankBucketChosen(h, p, i);
        if q < 100.0 {
          var j := RankBucketExists(samples, q);
          RankBucketChosen(h, q, j);
          TargetMonotone(p, q, h.count);
          RankBucketMonotone(h.buckets, Target(p, h.count), Target(q, h.count), i, j);
          MidpointMonotone(i, j);
        }
      } else if p <= 0.0 < q < 100.0 {
        var j := RankBucketExists(samples, q);
        RankBucketChosen(h, q, j);
      }
    }
  }

  lemma TargetMonotone(p: real, q: real, count: nat)
    requires p <= q
    ensures Target(p, count) <= Target(q, count)
  {
    var n := count as real;
    assert q / 100.0 * n == p / 100.0 * n + (q - p) / 100.0 * n;
  }
}
