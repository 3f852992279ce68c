/** A fleet's merged report, told of the records its workers took. */
module FleetAccuracy {
  import opened Wrappers
  import opened Counts
  import opened Histogram
  import opened Percentiles
  import opened ReadingPercentiles
  import opened Results
  import opened FleetMerge
  import opened MergeSummaries
  import opened MergeTheorems
  import opened Feeds

  lemma FiledIsSamples(readings: seq<real>)
    ensures SketchMs(readings) == SketchOf(Samples(Thousandfold(readings)))
  {
    hide Micros, SketchOf;
    assert Filed(readings) == Samples(Thousandfold(readings));
  }

  /** A percentile as a report gives it, in milliseconds. */
  ghost function ReportedMs(h: Sketch, p: real): real {
    Percentile(h, p) / 1000.0
  }

  lemma SketchIsAccurate(h: Sketch, readings: seq<real>, sorted: seq<real>, p: real)
    requires h == SketchMs(readings) && readings != []
    requires Ascending(sorted) && multiset(sorted) == multiset(readings) && 0.0 < p < 100.0
    ensures sorted != []
    ensures var x := RankReading(sorted, p);
      x - x / 128.0 - 0.000504 <= ReportedMs(h, p) <= x + x / 128.0 + 0.000504
  {
    hide SketchMs, SketchOf, Percentile, RankReading, Samples, Thousandfold;
    FiledIsSamples(readings);
    MillisecondsAccurate(readings, sorted, p);
  }

  /** Everything the records of a whole fleet say, each worker's in turn. */
  function AllRecords(shares: seq<Share>): seq<Event> {
    Streams(Events(shares))
  }

  /** The merged report of a fleet: its figures, and each of its steps, are those of all the records
    * that its workers took, every reading in the sketch it belongs to and every record in the
    * counts that count it. */
  lemma MergeIsItsRecords(shares: seq<Share>, id: string)
    ensures FiguresAre(MergedFigures(Summaries(shares)), AllRecords(shares))
    ensures StepIs(MergedSteps(Summaries(shares)), AllRecords(shares), id)
    ensures MergedSteps(Summaries(shares)).order == FirstSeen(AllRecords(shares))
  {
    hide FiguresAre, StepIs, Feed, Summaries, MergedFigures, MergedSteps, FirstSeen, Streams;
    MergeIsOneWorker(shares);
    FiguresAreTheRecords(AllRecords(shares));
    StepsAreTheirRecords(AllRecords(shares), id);
    StepsInOrder(AllRecords(shares));
  }

  /** The latency percentiles of a merged report, over all and step by step: within a hundred and
    * twenty-eighth of the latency of its rank among the successful searches of the whole fleet,
    * and the half microsecond of filing it. */
  lemma MergedLatencyIsAccurate(shares: seq<Share>, sorted: seq<real>, p: real)
    requires Readings(AllRecords(shares), None, Latency) != [] && 0.0 < p < 100.0
    requires Ascending(sorted) && multiset(sorted) == multiset(Readings(AllRecords(shares), None, Latency))
    ensures sorted != []
    ensures var x := RankReading(sorted, p);
      x - x / 128.0 - 0.000504 <= ReportedMs(MergedFigures(Summaries(shares)).latency, p) <= x + x / 128.0 + 0.000504
  {
    hide Readings, SketchMs, ReportedMs, RankReading, MergedFigures, Summaries, NumbersAre, ClassesAre, EpochsAre, StepIs;
    MergeIsItsRecords(shares, "");
    SketchIsAccurate(MergedFigures(Summaries(shares)).latency, Readings(AllRecords(shares), None, Latency), sorted, p);
  }

  lemma MergedStepLatencyIsAccurate(shares: seq<Share>, id: string, sorted: seq<real>, p: real)
    requires Readings(AllRecords(shares), Some(id), Latency) != [] && 0.0 < p < 100.0
    requires Ascending(sorted) && multiset(sorted) == multiset(Readings(AllRecords(shares), Some(id), Latency))
    ensures sorted != [] && id in MergedSteps(Summaries(shares)).table
    ensures var x := RankReading(sorted, p);
      x - x / 128.0 - 0.000504 <= ReportedMs(MergedSteps(Summaries(shares)).table[id].sketches.latency, p) <= x + x / 128.0 + 0.000504
  {
    hide SketchMs, ReportedMs, RankReading, MergedSteps, Summaries, FiguresAre, StepCountsAre, FirstSeen;
    MergeIsItsRecords(shares, id);
    ReadIsNamed(AllRecords(shares), id);
    SketchIsAccurate(MergedSteps(Summaries(shares)).table[id].sketches.latency, Readings(AllRecords(shares), Some(id), Latency), sorted, p);
  }

  lemma {:induction false} ReadIsNamed(events: seq<Event>, id: string)
    requires Readings(events, Some(id), Latency) != []
    ensures FirstClass(events, id).Some?
  {
    var before := events[..|events| - 1];
    if Readings(before, Some(id), Latency) != [] {
      ReadIsNamed(before, id);
    }
  }
}
