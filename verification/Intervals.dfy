/** Intervals: what is taken and what is still open always add up to the run. */
module Intervals {
  import opened Wrappers
  import opened Counts
  import opened Histogram
  import opened Results
  import FleetMerge

  function CombineIntervals(a: IntervalAgg, b: IntervalAgg): IntervalAgg {
    IntervalAgg(
      a.executions + b.executions, a.errors + b.errors, a.queued + b.queued, a.jobExecutions + b.jobExecutions,
      a.scanCount + b.scanCount, Add(a.errorsByClass, b.errorsByClass),
      Merged(a.latency, b.latency), Merged(a.failure, b.failure), Merged(a.queuedMs, b.queuedMs), Merged(a.loopLag, b.loopLag))
  }

  function IntervalSum(taken: seq<IntervalAgg>): IntervalAgg {
    if taken == [] then NO_INTERVAL else CombineIntervals(IntervalSum(taken[..|taken| - 1]), taken[|taken| - 1])
  }

  /** The figures of some intervals, as they were handed over. */
  function FiguresOf(documents: seq<IntervalDoc>): (figures: seq<IntervalAgg>)
    ensures |figures| == |documents| && forall k :: 0 <= k < |figures| ==> figures[k] == documents[k].figures
  {
    seq(|documents|, k requires 0 <= k < |documents| => documents[k].figures)
  }

  function InFlightSum(documents: seq<IntervalDoc>): nat {
    if documents == [] then 0 else InFlightSum(documents[..|documents| - 1]) + documents[|documents| - 1].inFlight
  }

  /** One interval from many. The latency of failures is not merged. */
  datatype FleetInterval = FleetInterval(
    executions: nat, errors: nat, queued: nat, jobExecutions: nat, scanCount: nat, inFlight: nat,
    errorsByClass: map<string, nat>, latency: Sketch, queuedMs: Sketch, loopLag: Sketch)

  /** What a merged interval reads as, of the sum of what it merges. */
  predicate Reads(m: FleetInterval, sum: IntervalAgg) {
    && m.executions == sum.executions && m.errors == sum.errors && m.queued == sum.queued
    && m.jobExecutions == sum.jobExecutions && m.scanCount == sum.scanCount && m.errorsByClass == sum.errorsByClass
    && m.latency == sum.latency && m.queuedMs == sum.queuedMs && m.loopLag == sum.loopLag
  }

  /** Many intervals into one: counts, classes and searches in flight added, sketches merged. */
  method MergeIntervals(documents: seq<IntervalDoc>) returns (m: FleetInterval)
    ensures Reads(m, IntervalSum(FiguresOf(documents)))
    ensures m.inFlight == InFlightSum(documents)
  {
    hide Merged, Add;
    m := FleetInterval(0, 0, 0, 0, 0, 0, map[], EMPTY, EMPTY, EMPTY);
    for k := 0 to |documents|
      invariant Reads(m, IntervalSum(FiguresOf(documents[..k])))
      invariant m.inFlight == InFlightSum(documents[..k])
    {
      assert documents[..k + 1][..k] == documents[..k];
      assert FiguresOf(documents[..k + 1])[..k] == FiguresOf(documents[..k]);
      var d := documents[k].figures;
      var classes := AddInto(m.errorsByClass, d.errorsByClass);
      m := FleetInterval(
        m.executions + d.executions, m.errors + d.errors, m.queued + d.queued, m.jobExecutions + d.jobExecutions,
        m.scanCount + d.scanCount, m.inFlight + documents[k].inFlight, classes,
        Merged(m.latency, d.latency), Merged(m.queuedMs, d.queuedMs), Merged(m.loopLag, d.loopLag));
    }
    assert documents[..|documents|] == documents;
  }

  // ------------------------------------------------------------- a run's life

  datatype Op =
    | RecordOp(r: StepRecord, now: real)
    | LagOp(ms: real)
    | TakeOp
    | EpochOp(epoch: nat, startedAt: real)
    | WindowOp(seconds: real)
    | FollowUpOp(runDuration: Option<real>, finished: bool)
    | EnterOp
    | LeaveOp

  /** A run and the intervals it has handed over. */
  datatype Life = Life(run: RunAgg, taken: seq<IntervalAgg>)

  function Lived(l: Life, op: Op): Life {
    match op
    case RecordOp(r, now) => l.(run := RunRecorded(l.run, r, now))
    case LagOp(ms) => l.(run := RunLagged(l.run, ms))
    case TakeOp => Life(l.run.(interval := NO_INTERVAL), l.taken + [l.run.interval])
    case EpochOp(epoch, startedAt) => l.(run := l.run.(clock := EpochSet(l.run.clock, epoch, startedAt)))
    case WindowOp(seconds) => l.(run := l.run.(clock := l.run.clock.(coldWindow := Some(seconds))))
    case FollowUpOp(runDuration, finished) =>
      l.(run := l.run.(totals := l.run.totals.(figures := FollowedUp(l.run.totals.figures, runDuration, finished))))
    case EnterOp => l.(run := Entered(l.run))
    case LeaveOp => l.(run := Left(l.run))
  }

  function LifeOf(ops: seq<Op>): Life {
    if ops == [] then Life(NEW_RUN, []) else Lived(LifeOf(ops[..|ops| - 1]), ops[|ops| - 1])
  }

  /** Everything the intervals saw, whether taken or still open. */
  function Covered(l: Life): IntervalAgg {
    CombineIntervals(IntervalSum(l.taken), l.run.interval)
  }

  // ----------------------------------------------------------- the figures agree

  /** The interval's figures are the run's. */
  predicate Matches(i: IntervalAgg, f: Figures) {
    && i.executions == f.executions && i.errors == f.errors && i.errorsByClass == f.errorsByClass
    && i.queued == f.queuedExecutions && i.jobExecutions == f.jobExecutions
    && i.latency == f.latency && i.failure == f.failure && i.queuedMs == f.queued && i.loopLag == f.loopLag
  }

  lemma CoveredRecord(a: IntervalAgg, open: IntervalAgg, r: StepRecord)
    ensures CombineIntervals(a, IntervalAdded(open, r)) == IntervalAdded(CombineIntervals(a, open), r)
  {
    hide RecordedMs, Merged, Bump, Add;
    FleetMerge.MergeRecorded(a.latency, open.latency, r.latencyMs);
    FleetMerge.MergeRecorded(a.failure, open.failure, r.serviceMs);
    if r.Queued() {
      FleetMerge.MergeRecorded(a.queuedMs, open.queuedMs, r.queuedMs.value);
    }
    AddBump(a.errorsByClass, open.errorsByClass, r.ErrorClass(), 1);
  }

  lemma RecordMatches(i: IntervalAgg, f: Figures, r: StepRecord, clock: EpochClock)
    requires Matches(i, f)
    ensures Matches(IntervalAdded(i, r), Counted(Stamped(f, r, clock), r))
  {
    hide RecordedMs, Bump;
  }

  lemma CombineNothing(i: IntervalAgg)
    ensures CombineIntervals(i, NO_INTERVAL) == i
  {
    hide Merged, Add;
    MergeEmpty(i.latency);
    MergeEmpty(i.failure);
    MergeEmpty(i.queuedMs);
    MergeEmpty(i.loopLag);
    AddEmpty(i.errorsByClass);
  }

  lemma LivedMatches(l: Life, op: Op)
    requires Matches(Covered(l), l.run.totals.figures)
    ensures Matches(Covered(Lived(l, op)), Lived(l, op).run.totals.figures)
  {
    hide RecordedMs, Merged, Add, IntervalAdded, Counted, Stamped, StepRecorded;
    match op
    case RecordOp(r, now) =>
      CoveredRecord(IntervalSum(l.taken), l.run.interval, r);
      RecordMatches(Covered(l), l.run.totals.figures, r, l.run.clock);
    case LagOp(ms) => FleetMerge.MergeRecorded(IntervalSum(l.taken).loopLag, l.run.interval.loopLag, ms);
    case TakeOp =>
      var taken := l.taken + [l.run.interval];
      assert taken[..|taken| - 1] == l.taken;
      CombineNothing(Covered(l));
    case _ =>
  }

  /** After any records, loop-lag readings and takes, the intervals handed over and the open one
    * add up to the run: its executions, errors by class, queued and job counts, and its latency,
    * failure, queueing and loop-lag sketches. */
  lemma {:induction false} IntervalsConserve(ops: seq<Op>)
    ensures Matches(Covered(LifeOf(ops)), LifeOf(ops).run.totals.figures)
  {
    hide Lived, Matches;
    if ops == [] {
      NothingYet(ops);
    } else {
      IntervalsConserve(ops[..|ops| - 1]);
      LivedMatches(LifeOf(ops[..|ops| - 1]), ops[|ops| - 1]);
    }
  }

  lemma NothingYet(ops: seq<Op>)
    requires ops == []
    ensures Matches(Covered(LifeOf(ops)), LifeOf(ops).run.totals.figures)
  {
    hide CombineIntervals, Lived, Merged, Add;
    CombineNothing(NO_INTERVAL);
  }

  // -------------------------------------------------------- and so do the steps

  datatype Tally = Tally(executions: nat, errors: nat, unfinished: nat, scanCount: nat)

  function Plus(a: Tally, b: Tally): Tally {
    Tally(a.executions + b.executions, a.errors + b.errors, a.unfinished + b.unfinished, a.scanCount + b.scanCount)
  }

  function TallyOf(s: StepAgg): Tally {
    Tally(s.counts.executions, s.counts.errors, s.counts.unfinished, s.counts.scanCount)
  }

  /** The sum over the steps. */
  function StepTally(order: seq<string>, table: map<string, StepAgg>): Tally
    requires forall id :: id in order ==> id in table
  {
    if order == [] then Tally(0, 0, 0, 0)
    else Plus(StepTally(order[..|order| - 1], table), TallyOf(table[order[|order| - 1]]))
  }

  /** What one record adds to its step. */
  function RecordTally(r: StepRecord): Tally {
    if r.Cancelled() then Tally(0, 0, 1, 0)
    else Tally(1, if r.ok then 0 else 1, 0, if r.ok then r.scanCount.GetOr(0) else 0)
  }

  ghost predicate Listed(s: Steps) {
    && (forall id :: id in s.order <==> id in s.table)
    && (forall i, j :: 0 <= i < j < |s.order| ==> s.order[i] != s.order[j])
  }

  lemma {:induction false} TallyWith(order: seq<string>, table: map<string, StepAgg>, id: string, step: StepAgg, gain: Tally)
    requires forall k :: k in order ==> k in table
    requires forall i, j :: 0 <= i < j < |order| ==> order[i] != order[j]
    requires id in order ==> TallyOf(step) == Plus(TallyOf(table[id]), gain)
    ensures StepTally(order, table[id := step]) ==
            if id in order then Plus(StepTally(order, table), gain) else StepTally(order, table)
  {
    hide TallyOf;
    if order != [] {
      var last := order[|order| - 1];
      assert order == order[..|order| - 1] + [last];
      TallyWith(order[..|order| - 1], table, id, step, gain);
    }
  }

  lemma AddedTally(s: StepAgg, r: StepRecord, phase: CachePhase)
    ensures TallyOf(Added(s, r, phase)) == Plus(TallyOf(s), RecordTally(r))
  {
    hide AddedSketches, Bump;
  }

  lemma StepListed(s: Steps, r: StepRecord, phase: CachePhase)
    requires Listed(s)
    ensures Listed(StepRecorded(s, r, phase))
  {
    hide Added, NewStep;
  }

  lemma StepTallies(s: Steps, r: StepRecord, phase: CachePhase)
    requires Listed(s)
    ensures Listed(StepRecorded(s, r, phase))
    ensures StepTally(StepRecorded(s, r, phase).order, StepRecorded(s, r, phase).table) ==
            Plus(StepTally(s.order, s.table), RecordTally(r))
  {
    hide Added, TallyOf, RecordTally, NewStep;
    StepListed(s, r, phase);
    var after, id := StepRecorded(s, r, phase), r.stepId;
    var step := if id in s.table then s.table[id] else NewStep(id, r.stepClass);
    AddedTally(step, r, phase);
    TallyWith(s.order, s.table, id, after.table[id], RecordTally(r));
    if id !in s.table {
      NewTally(id, r.stepClass);
      assert after.order[..|after.order| - 1] == s.order;
    }
  }

  lemma NewTally(id: string, stepClass: string)
    ensures forall gain: Tally :: Plus(TallyOf(NewStep(id, stepClass)), gain) == gain
  {
  }

  /** The run's figures are its steps': executions and errors add up, what was abandoned is what
    * the steps left unfinished, and successes are the rest. */
  ghost predicate Balanced(t: Totals) {
    && Listed(t.steps)
    && t.figures.executions == StepTally(t.steps.order, t.steps.table).executions
    && t.figures.errors == StepTally(t.steps.order, t.steps.table).errors
    && t.figures.abandoned == StepTally(t.steps.order, t.steps.table).unfinished
    && t.figures.executions == t.figures.latency.count + t.figures.errors
    && t.figures.errors == t.figures.failure.count
  }

  lemma SketchGrows(h: Sketch, value: real)
    ensures RecordedMs(h, value).count == h.count + 1
  {
  }

  lemma RecordBalances(t: Totals, r: StepRecord, clock: EpochClock, now: real)
    requires Balanced(t)
    ensures Balanced(Recorded(t, r, clock, now))
  {
    hide RecordedMs, Bump, StepRecorded, StepTally, Listed;
    StepTallies(t.steps, r, clock.PhaseAt(At(r, now)));
    SketchGrows(t.figures.latency, r.latencyMs);
    SketchGrows(t.figures.failure, r.serviceMs);
  }

  lemma {:induction false} RunsBalance(ops: seq<Op>)
    ensures Balanced(LifeOf(ops).run.totals)
  {
    hide Lived, Balanced;
    if ops == [] {
      NewRunBalances();
    } else {
      RunsBalance(ops[..|ops| - 1]);
      LivedBalances(LifeOf(ops[..|ops| - 1]), ops[|ops| - 1]);
    }
  }

  lemma NewRunBalances()
    ensures Balanced(NEW_RUN.totals)
  {
  }

  lemma LivedBalances(l: Life, op: Op)
    requires Balanced(l.run.totals)
    ensures Balanced(Lived(l, op).run.totals)
  {
    hide Recorded, RecordedMs, IntervalAdded, Listed, StepTally;
    if op.RecordOp? {
      RecordBalances(l.run.totals, op.r, l.run.clock, op.now);
    }
  }

  // ------------------------------------------------- the one figure that differs

  /** The events scanned by failed searches. */
  function FailedScan(ops: seq<Op>): nat {
    if ops == [] then 0
    else
      var last := ops[|ops| - 1];
      FailedScan(ops[..|ops| - 1]) +
      if last.RecordOp? && !last.r.Cancelled() && !last.r.ok then last.r.scanCount.GetOr(0) else 0
  }

  ghost function Scanned(t: Totals): nat
    requires Listed(t.steps)
  {
    StepTally(t.steps.order, t.steps.table).scanCount
  }

  lemma RunsList(ops: seq<Op>)
    ensures Listed(LifeOf(ops).run.totals.steps)
  {
    RunsBalance(ops);
  }

  lemma CoveredScan(l: Life, op: Op)
    ensures Covered(Lived(l, op)).scanCount == Covered(l).scanCount +
            if op.RecordOp? && !op.r.Cancelled() then op.r.scanCount.GetOr(0) else 0
  {
    hide RecordedMs, Merged, Add, Bump, Counted, Stamped, StepRecorded;
    if op.TakeOp? {
      var taken := l.taken + [l.run.interval];
      assert taken[..|taken| - 1] == l.taken;
    }
  }

  lemma {:induction false} IntervalsScanFailuresToo(ops: seq<Op>)
    ensures Listed(LifeOf(ops).run.totals.steps)
    ensures Covered(LifeOf(ops)).scanCount == Scanned(LifeOf(ops).run.totals) + FailedScan(ops)
  {
    hide Covered, Recorded, Listed;
    RunsList(ops);
    if ops != [] {
      var before, op := LifeOf(ops[..|ops| - 1]), ops[|ops| - 1];
      IntervalsScanFailuresToo(ops[..|ops| - 1]);
      CoveredScan(before, op);
      if op.RecordOp? {
        RecordScans(before.run.totals, op.r, before.run.clock, op.now);
      }
    } else {
      NothingScanned(ops);
    }
  }

  lemma NothingScanned(ops: seq<Op>)
    requires ops == []
    ensures Covered(LifeOf(ops)).scanCount == 0
  {
    hide Lived, Merged, Add;
  }

  lemma RecordScans(t: Totals, r: StepRecord, clock: EpochClock, now: real)
    requires Listed(t.steps)
    ensures Listed(Recorded(t, r, clock, now).steps)
    ensures Scanned(Recorded(t, r, clock, now)) == Scanned(t) + RecordTally(r).scanCount
  {
    hide Stamped, Counted, StepRecorded, Listed, StepTally;
    StepTallies(t.steps, r, clock.PhaseAt(At(r, now)));
  }

  /** A search that fails after scanning. */
  function FailedScanner(scanned: nat): StepRecord {
    StepRecord("s", "", "search", 1.0, 1.0, 1.0, 0.0, None, None, None, None, Some(scanned), None, false, None, false)
  }

  /** For instance: the interval counts what a failed search scanned, its step does not. */
  lemma OneFailedScan(scanned: nat)
    requires scanned > 0
    ensures var life := LifeOf([RecordOp(FailedScanner(scanned), 1.0)]);
      Listed(life.run.totals.steps) && Covered(life).scanCount == Scanned(life.run.totals) + scanned
  {
    hide Covered, Scanned, Listed, LifeOf;
    var ops := [RecordOp(FailedScanner(scanned), 1.0)];
    assert ops[..0] == [];
    assert FailedScan(ops) == scanned;
    IntervalsScanFailuresToo(ops);
  }

  /** The intervals' scan count is the steps' exactly when no failed search scanned anything. */
  lemma ScanCountsAgreeExactly(ops: seq<Op>)
    ensures Listed(LifeOf(ops).run.totals.steps)
    ensures Covered(LifeOf(ops)).scanCount == Scanned(LifeOf(ops).run.totals) <==> FailedScan(ops) == 0
  {
    hide Covered, Scanned, Listed;
    IntervalsScanFailuresToo(ops);
  }
}
