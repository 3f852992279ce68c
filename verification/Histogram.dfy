/** worker/regulator_agent/histogram.py: a mergeable sketch of integer microseconds. */
module Histogram {
  import opened Wrappers
  import opened Counts
  import opened Buckets
  import opened Rounding

  /** What a histogram holds. Every object below is specified by the value it holds. */
  datatype Sketch = Sketch(
    buckets: map<nat, nat>,
    count: nat,
    sum: nat,
    min: Option<nat>,
    max: Option<nat>)

  const EMPTY := Sketch(map[], 0, 0, None, None)

  function Smaller(a: Option<nat>, b: Option<nat>): Option<nat> {
    match (a, b)
    case (None, _) => b
    case (_, None) => a
    case (Some(x), Some(y)) => Some(if y < x then y else x)
  }

  function Larger(a: Option<nat>, b: Option<nat>): Option<nat> {
    match (a, b)
    case (None, _) => b
    case (_, None) => a
    case (Some(x), Some(y)) => Some(if y > x then y else x)
  }

  /** The integer number of microseconds a reading is filed as. */
  function Micros(value: real): nat {
    var clamped := if value > 0.0 then value else 0.0;
    RoundHalfEven(clamped)
  }

  /** As near to a reading as a whole number can be, a negative one taken for nothing. */
  predicate NearTo(n: nat, value: real) {
    var reading := if value > 0.0 then value else 0.0;
    reading - 0.5 <= n as real <= reading + 0.5
  }

  lemma MicrosNear(value: real)
    ensures NearTo(Micros(value), value)
    ensures value <= 0.0 ==> Micros(value) == 0
  {
  }

  lemma MicrosOfWhole(n: nat)
    ensures Micros(n as real) == n
  {
    RoundOfInteger(n);
  }

  lemma MicrosMonotone(a: real, b: real)
    requires a <= b
    ensures Micros(a) <= Micros(b)
  {
    RoundMonotone(if a > 0.0 then a else 0.0, if b > 0.0 then b else 0.0);
  }

  function Inserted(h: Sketch, value: nat, count: nat): Sketch {
    if count == 0 then h
    else Sketch(
      Bump(h.buckets, IndexOf(value), count),
      h.count + count,
      h.sum + value * count,
      Smaller(h.min, Some(value)),
      Larger(h.max, Some(value)))
  }

  function RecordedUs(h: Sketch, value: real): Sketch {
    Inserted(h, Micros(value), 1)
  }

  function RecordedMs(h: Sketch, value: real): Sketch {
    RecordedUs(h, value * 1000.0)
  }

  function Merged(a: Sketch, b: Sketch): Sketch {
    Sketch(
      Add(a.buckets, b.buckets),
      a.count + b.count,
      a.sum + b.sum,
      Smaller(a.min, b.min),
      Larger(a.max, b.max))
  }

  function MergedAll(hs: seq<Sketch>): Sketch {
    if hs == [] then EMPTY else Merged(MergedAll(hs[..|hs| - 1]), hs[|hs| - 1])
  }

  /** The sketch of a sample sequence: the reference every operation is measured against. */
  function SketchOf(samples: seq<nat>): Sketch {
    if samples == [] then EMPTY
    else Inserted(SketchOf(samples[..|samples| - 1]), samples[|samples| - 1], 1)
  }

  function Total(samples: seq<nat>): nat {
    if samples == [] then 0 else Total(samples[..|samples| - 1]) + samples[|samples| - 1]
  }

  lemma {:induction false} SketchSum(samples: seq<nat>)
    ensures SketchOf(samples).sum == Total(samples)
  {
    hide Bump;
    if samples != [] {
      SketchSum(samples[..|samples| - 1]);
    }
  }

  // ---------------------------------------------------------------------
  // Merging is a commutative monoid and agrees with recording everything once
  // ---------------------------------------------------------------------

  lemma MergeEmpty(h: Sketch)
    ensures Merged(h, EMPTY) == h == Merged(EMPTY, h)
  {
    AddEmpty(h.buckets);
  }

  lemma MergeCommutes(a: Sketch, b: Sketch)
    ensures Merged(a, b) == Merged(b, a)
  {
    AddCommutes(a.buckets, b.buckets);
  }

  lemma MergeAssociates(a: Sketch, b: Sketch, c: Sketch)
    ensures Merged(Merged(a, b), c) == Merged(a, Merged(b, c))
  {
    AddAssociates(a.buckets, b.buckets, c.buckets);
  }

  lemma MergeInsert(a: Sketch, b: Sketch, value: nat, count: nat)
    ensures Merged(a, Inserted(b, value, count)) == Inserted(Merged(a, b), value, count)
  {
    AddBump(a.buckets, b.buckets, IndexOf(value), count);
  }

  /** "The merge is exact addition": merging two sketches is sketching the joined samples. */
  lemma {:induction false} MergeIsConcatenation(xs: seq<nat>, ys: seq<nat>)
    ensures Merged(SketchOf(xs), SketchOf(ys)) == SketchOf(xs + ys)
  {
    if ys == [] {
      MergeEmpty(SketchOf(xs));
      assert xs + ys == xs;
    } else {
      var init, last := ys[..|ys| - 1], ys[|ys| - 1];
      MergeIsConcatenation(xs, init);
      MergeInsert(SketchOf(xs), SketchOf(init), last, 1);
      assert (xs + ys)[..|xs + ys| - 1] == xs + init;
    }
  }

  function Flatten(groups: seq<seq<nat>>): seq<nat> {
    if groups == [] then [] else Flatten(groups[..|groups| - 1]) + groups[|groups| - 1]
  }

  lemma {:induction false} MergeAllIsConcatenation(groups: seq<seq<nat>>)
    ensures MergedAll(seq(|groups|, i requires 0 <= i < |groups| => SketchOf(groups[i]))) == SketchOf(Flatten(groups))
  {
    var hs := seq(|groups|, i requires 0 <= i < |groups| => SketchOf(groups[i]));
    if groups != [] {
      var init := groups[..|groups| - 1];
      MergeAllIsConcatenation(init);
      assert hs[..|hs| - 1] == seq(|init|, i requires 0 <= i < |init| => SketchOf(init[i]));
      MergeIsConcatenation(Flatten(init), groups[|groups| - 1]);
    }
  }

  /** Recording a reading several times at once is recording it one by one. */
  lemma {:induction false} InsertRepeated(h: Sketch, value: nat, count: nat)
    ensures Inserted(h, value, count + 1) == Inserted(Inserted(h, value, count), value, 1)
  {
    assert value * (count + 1) == value * count + value;
    assert Bump(Bump(h.buckets, IndexOf(value), count), IndexOf(value), 1)
        == Bump(h.buckets, IndexOf(value), count + 1);
  }

  // ---------------------------------------------------------------------
  // The object
  // ---------------------------------------------------------------------

  class LatencyHistogram {
    var buckets: map<nat, nat>
    var count: nat
    var sum: nat
    var min: Option<nat>
    var max: Option<nat>

    ghost function View(): Sketch
      reads this
    {
      Sketch(buckets, count, sum, min, max)
    }

    constructor ()
      ensures View() == EMPTY
    {
      buckets, count, sum, min, max := map[], 0, 0, None, None;
    }

    method RecordUs(value: real, times: int)
      modifies this
      ensures View() == if times <= 0 then old(View()) else Inserted(old(View()), Micros(value), times)
      ensures times > 0 ==> count == old(count) + times && min.Some? && max.Some?
      ensures times > 0 ==> min == old(min) || NearTo(min.value, value)
      ensures times > 0 ==> max == old(max) || NearTo(max.value, value)
      ensures times > 0 ==> exists n: nat :: NearTo(n, value) && min.value <= n <= max.value && IndexOf(n) in buckets
    {
      hide Micros, NearTo, IndexOf;
      if times <= 0 {
        return;
      }
      var v := Micros(value);
      MicrosNear(value);
      var index := IndexOf(v);
      buckets := Bump(buckets, index, times);
      count := count + times;
      sum := sum + v * times;
      if min.None? || v < min.value {
        min := Some(v);
      }
      if max.None? || v > max.value {
        max := Some(v);
      }
    }

    /** In place, and correct even when the histogram is merged into itself. */
    method Merge(other: LatencyHistogram)
      modifies this
      ensures View() == Merged(old(View()), old(other.View()))
    {
      ghost var mine, theirs := View(), other.View();
      buckets := AddInto(buckets, other.buckets);
      count := count + other.count;
      sum := sum + other.sum;
      if other.min.Some? {
        min := if min.None? || other.min.value < min.value then other.min else min;
      }
      assert min == Smaller(mine.min, theirs.min);
      if other.max.Some? {
        max := if max.None? || other.max.value > max.value then other.max else max;
      }
      assert max == Larger(mine.max, theirs.max);
    }

    method Reset()
      modifies this
      ensures View() == EMPTY
    {
      buckets, count, sum, min, max := map[], 0, 0, None, None;
    }

    method Copy() returns (clone: LatencyHistogram)
      ensures fresh(clone) && clone.View() == View()
    {
      clone := new LatencyHistogram();
      clone.Merge(this);
      MergeEmpty(View());
    }
  }

  ghost function Views(hs: seq<LatencyHistogram>): (vs: seq<Sketch>)
    reads hs
    ensures |vs| == |hs|
    ensures forall i :: 0 <= i < |hs| ==> vs[i] == hs[i].View()
  {
    if hs == [] then [] else Views(hs[..|hs| - 1]) + [hs[|hs| - 1].View()]
  }

  method MergeHistograms(hs: seq<LatencyHistogram>) returns (merged: LatencyHistogram)
    ensures fresh(merged) && merged.View() == MergedAll(Views(hs))
  {
    ghost var views := Views(hs);
    merged := new LatencyHistogram();
    for i := 0 to |hs|
      invariant fresh(merged)
      invariant forall j :: 0 <= j < |hs| ==> hs[j].View() == views[j]
      invariant merged.View() == MergedAll(views[..i])
    {
      merged.Merge(hs[i]);
      assert views[..i + 1][..i] == views[..i];
    }
    assert views[..|hs|] == views == Views(hs);
  }
}
