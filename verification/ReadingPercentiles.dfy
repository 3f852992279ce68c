/** Percentiles, from the readings as they were taken to the figure that is reported. */
module ReadingPercentiles {
  import opened Wrappers
  import opened Rounding
  import opened Buckets
  import opened Histogram
  import opened Percentiles

  ghost predicate Ascending(readings: seq<real>) {
    forall i, j :: 0 <= i <= j < |readings| ==> readings[i] <= readings[j]
  }

  function Mapped<A, B>(f: A -> B, s: seq<A>): (r: seq<B>)
    ensures |r| == |s| && forall i :: 0 <= i < |s| ==> r[i] == f(s[i])
  {
    seq(|s|, i requires 0 <= i < |s| => f(s[i]))
  }

  lemma MappedLast<A, B>(f: A -> B, s: seq<A>, a: A)
    ensures Mapped(f, s + [a]) == Mapped(f, s) + [f(a)]
  {
  }

  lemma MappedWithout<A, B>(f: A -> B, u: seq<A>, a: A, v: seq<A>)
    ensures multiset(Mapped(f, u + [a] + v)) == multiset(Mapped(f, u + v)) + multiset{f(a)}
  {
    assert Mapped(f, u + [a] + v) == Mapped(f, u) + [f(a)] + Mapped(f, v);
    assert Mapped(f, u + v) == Mapped(f, u) + Mapped(f, v);
  }

  lemma {:induction false} MappedSame<A, B>(f: A -> B, xs: seq<A>, ys: seq<A>)
    requires multiset(xs) == multiset(ys)
    ensures multiset(Mapped(f, xs)) == multiset(Mapped(f, ys))
    decreases |xs|
  {
    hide Mapped;
    if xs == [] {
      assert |multiset(ys)| == 0;
      assert ys == [];
    } else {
      var init, a := xs[..|xs| - 1], xs[|xs| - 1];
      assert xs == init + [a];
      assert a in multiset(ys);
      var j :| 0 <= j < |ys| && ys[j] == a;
      var u, v := ys[..j], ys[j + 1..];
      assert ys == u + [a] + v;
      assert multiset(init) == multiset(xs) - multiset{a} && multiset(u + v) == multiset(ys) - multiset{a};
      MappedSame(f, init, u + v);
      MappedWithout(f, u, a, v);
      MappedLast(f, init, a);
      assert multiset(Mapped(f, init) + [f(a)]) == multiset(Mapped(f, init)) + multiset{f(a)};
    }
  }

  /** Readings in microseconds, as a histogram files them. */
  function Samples(readings: seq<real>): (samples: seq<nat>)
    ensures |samples| == |readings| && forall i :: 0 <= i < |readings| ==> samples[i] == Micros(readings[i])
  {
    Mapped(Micros, readings)
  }

  /** The rank of a percentile among n: p hundredths of n, rounded up. */
  function RankOf(p: real, n: nat): (k: int)
    requires n > 0 && 0.0 < p < 100.0
    ensures 1 <= k <= n
  {
    RankInRange(p, n);
    Ceil(p / 100.0 * n as real)
  }

  lemma RankIs(p: real, n: nat)
    requires n > 0 && 0.0 < p < 100.0
    ensures RankOf(p, n) == Ceil(Target(p, n))
  {
  }

  /** The nearest-rank percentile of readings in order, a negative one taken for nothing. */
  function RankReading(sorted: seq<real>, p: real): real
    requires sorted != [] && 0.0 < p < 100.0
  {
    MaxReal(0.0, sorted[RankOf(p, |sorted|) - 1])
  }

  /** How far a reported percentile may be from a reading of x microseconds: the half of a bucket,
    * and the half microsecond that filing it may have moved it by. */
  function Slack(x: real): real {
    (x + 0.5) / 128.0 + 0.5
  }

  /** Whatever was read, in whatever order: the percentile reported for it is within that of the
    * reading of its rank. */
  lemma ReadingPercentileAccurate(readings: seq<real>, sorted: seq<real>, p: real)
    requires readings != [] && Ascending(sorted) && multiset(sorted) == multiset(readings) && 0.0 < p < 100.0
    ensures sorted != []
    ensures var x := RankReading(sorted, p);
      x - Slack(x) <= Percentile(SketchOf(Samples(readings)), p) <= x + Slack(x)
  {
    hide Micros, Percentile, SketchOf, Slack, Mapped, RankOf, Target, Ceil;
    assert readings[0] in multiset(sorted);
    MappedSame(Micros, readings, sorted);
    SamplesInOrder(sorted);
    FiledRank(sorted, p);
    PercentileAccurate(Samples(readings), Samples(sorted), p);
    WithinSlack(RankReading(sorted, p), NearestRank(Samples(sorted), p), Percentile(SketchOf(Samples(readings)), p));
  }

  lemma SamplesInOrder(sorted: seq<real>)
    requires Ascending(sorted)
    ensures Sorted(Samples(sorted))
  {
    hide Micros, Mapped;
    forall i, j | 0 <= i <= j < |sorted|
      ensures Samples(sorted)[i] <= Samples(sorted)[j]
    {
      MicrosMonotone(sorted[i], sorted[j]);
    }
  }

  /** The sample of the rank is the filed reading of the rank. */
  lemma FiledRank(sorted: seq<real>, p: real)
    requires sorted != [] && 0.0 < p < 100.0
    ensures var x := RankReading(sorted, p);
      x - 0.5 <= NearestRank(Samples(sorted), p) as real <= x + 0.5
  {
    hide Micros, Mapped, RankOf, Target, Ceil;
    RankIs(p, |sorted|);
    RankInRange(p, |sorted|);
    MicrosNear(sorted[RankOf(p, |sorted|) - 1]);
  }

  lemma WithinSlack(x: real, filed: nat, reported: real)
    requires x - 0.5 <= filed as real <= x + 0.5
    requires filed as real - filed as real / 128.0 <= reported <= filed as real + filed as real / 128.0
    ensures x - Slack(x) <= reported <= x + Slack(x)
  {
  }

  /** In milliseconds, the unit that latencies are read in and percentiles are reported in. */
  lemma MillisecondsAccurate(readings: seq<real>, sorted: seq<real>, p: real)
    requires readings != [] && Ascending(sorted) && multiset(sorted) == multiset(readings) && 0.0 < p < 100.0
    ensures sorted != []
    ensures var x := RankReading(sorted, p);
      var reported := Percentile(SketchOf(Samples(Thousandfold(readings))), p) / 1000.0;
      x - x / 128.0 - 0.000504 <= reported <= x + x / 128.0 + 0.000504
  {
    hide Micros, Percentile, SketchOf, Slack, Mapped, RankOf, Samples;
    assert readings[0] in multiset(sorted);
    SameThousandfold(readings, sorted);
    ReadingPercentileAccurate(Thousandfold(readings), Thousandfold(sorted), p);
    ThousandfoldRank(sorted, p);
    InMilliseconds(RankReading(sorted, p), Percentile(SketchOf(Samples(Thousandfold(readings))), p));
  }

  lemma SameThousandfold(xs: seq<real>, ys: seq<real>)
    requires multiset(xs) == multiset(ys)
    ensures multiset(Thousandfold(xs)) == multiset(Thousandfold(ys))
  {
    hide Mapped;
    MappedSame(Milli, xs, ys);
  }

  lemma ThousandfoldRank(sorted: seq<real>, p: real)
    requires sorted != [] && 0.0 < p < 100.0
    ensures RankReading(Thousandfold(sorted), p) == RankReading(sorted, p) * 1000.0
  {
    hide RankOf;
  }

  function Milli(ms: real): real {
    ms * 1000.0
  }

  function Thousandfold(readings: seq<real>): (us: seq<real>)
    ensures |us| == |readings| && forall i :: 0 <= i < |readings| ==> us[i] == readings[i] * 1000.0
  {
    Mapped(Milli, readings)
  }

  lemma InMilliseconds(x: real, reported: real)
    requires x * 1000.0 - Slack(x * 1000.0) <= reported <= x * 1000.0 + Slack(x * 1000.0)
    ensures x - x / 128.0 - 0.000504 <= reported / 1000.0 <= x + x / 128.0 + 0.000504
  {
  }
}
