/** Merging workers' aggregates: fleet.merge_summaries over results.RunStats. */
module FleetMerge {
  import opened Wrappers
  import opened Counts
  import opened Histogram
  import opened Results
  import opened Rounding

  // ---------------------------------------------------------------------
  // Adding two aggregates
  // ---------------------------------------------------------------------

  function CombineCounts(a: StepCounts, b: StepCounts): StepCounts {
    StepCounts(
      a.executions + b.executions, a.errors + b.errors, a.partial + b.partial, a.unfinished + b.unfinished,
      a.scanCount + b.scanCount, a.resultCount + b.resultCount, Add(a.errorsByClass, b.errorsByClass))
  }

  function CombineSketches(a: StepSketches, b: StepSketches): StepSketches {
    StepSketches(
      Merged(a.latency, b.latency), Merged(a.service, b.service), Merged(a.dispatch, b.dispatch),
      Merged(a.ttfr, b.ttfr), Merged(a.failure, b.failure), Merged(a.cold, b.cold), Merged(a.warm, b.warm))
  }

  /** The first worker to report a step names its class. */
  function CombineStep(a: StepAgg, b: StepAgg): StepAgg {
    StepAgg(a.stepId, a.stepClass, CombineCounts(a.counts, b.counts), CombineSketches(a.sketches, b.sketches))
  }

  function CombineEntry(a: Steps, b: Steps, id: string): StepAgg
    requires id in a.table || id in b.table
  {
    if id !in a.table then b.table[id]
    else if id !in b.table then a.table[id]
    else CombineStep(a.table[id], b.table[id])
  }

  function Unseen(order: seq<string>, table: map<string, StepAgg>): seq<string> {
    if order == [] then []
    else
      var init, last := order[..|order| - 1], order[|order| - 1];
      Unseen(init, table) + if last in table then [] else [last]
  }

  function CombineSteps(a: Steps, b: Steps): Steps {
    Steps(a.order + Unseen(b.order, a.table), map id | id in a.table.Keys + b.table.Keys :: CombineEntry(a, b, id))
  }

  function CombineEpochs(a: map<nat, Sketch>, b: map<nat, Sketch>): map<nat, Sketch> {
    map e | e in a.Keys + b.Keys :: Merged(EpochSketch(a, e), EpochSketch(b, e))
  }

  function CombineFigures(a: Figures, b: Figures): Figures {
    Figures(
      a.executions + b.executions, a.errors + b.errors, a.partial + b.partial, a.abandoned + b.abandoned,
      a.queuedExecutions + b.queuedExecutions, a.jobExecutions + b.jobExecutions,
      a.finishedAfterEnd + b.finishedAfterEnd, a.stillRunning + b.stillRunning,
      Add(a.errorsByClass, b.errorsByClass),
      MaxReal(a.maxDrift, b.maxDrift), MaxReal(a.maxLoopLag, b.maxLoopLag),
      Merged(a.latency, b.latency), Merged(a.failure, b.failure), Merged(a.drift, b.drift),
      Merged(a.queued, b.queued), Merged(a.loopLag, b.loopLag), Merged(a.afterEnd, b.afterEnd),
      CombineEpochs(a.epochLatency, b.epochLatency), Add(a.epochExecutions, b.epochExecutions))
  }

  function Combine(a: Totals, b: Totals): Totals {
    Totals(CombineSteps(a.steps, b.steps), CombineFigures(a.figures, b.figures))
  }

  function CombineAll(all: seq<Totals>): Totals {
    if all == [] then NO_TOTALS else Combine(CombineAll(all[..|all| - 1]), all[|all| - 1])
  }

  // ---------------------------------------------------------------------
  // What happens on a worker
  // ---------------------------------------------------------------------

  /** A record under the epoch clock in force, a loop-lag reading, or one harvested straggler. */
  datatype Event =
    | Record(r: StepRecord, clock: EpochClock, now: real)
    | Lag(ms: real)
    | Straggler(runDuration: Option<real>, finished: bool)

  function Apply(t: Totals, e: Event): Totals {
    match e
    case Record(r, clock, now) => Recorded(t, r, clock, now)
    case Lag(ms) => t.(figures := Lagged(t.figures, ms))
    case Straggler(d, finished) => t.(figures := FollowedUp(t.figures, d, finished))
  }

  function Feed(events: seq<Event>): Totals {
    if events == [] then NO_TOTALS else Apply(Feed(events[..|events| - 1]), events[|events| - 1])
  }

  // ---------------------------------------------------------------------
  // Adding commutes with one more event
  // ---------------------------------------------------------------------

  lemma MergeRecorded(a: Sketch, b: Sketch, value: real)
    ensures Merged(a, RecordedMs(b, value)) == RecordedMs(Merged(a, b), value)
  {
    MergeInsert(a, b, Micros(value * 1000.0), 1);
  }

  lemma MergeRecordedSome(a: Sketch, b: Sketch, value: Option<real>)
    ensures Merged(a, RecordedSome(b, value)) == RecordedSome(Merged(a, b), value)
  {
    if value.Some? {
      MergeRecorded(a, b, value.value);
    }
  }

  lemma CountsStep(a: StepCounts, b: StepCounts, r: StepRecord)
    ensures CombineCounts(a, AddedCounts(b, r)) == AddedCounts(CombineCounts(a, b), r)
  {
    AddBump(a.errorsByClass, b.errorsByClass, r.ErrorClass(), 1);
  }

  lemma SketchesStep(a: StepSketches, b: StepSketches, r: StepRecord, phase: CachePhase)
    ensures CombineSketches(a, AddedSketches(b, r, phase)) == AddedSketches(CombineSketches(a, b), r, phase)
  {
    hide RecordedMs, Merged;
    MergeRecorded(a.latency, b.latency, r.latencyMs);
    MergeRecorded(a.service, b.service, r.serviceMs);
    MergeRecordedSome(a.dispatch, b.dispatch, r.dispatchMs);
    MergeRecordedSome(a.ttfr, b.ttfr, r.ttfrMs);
    MergeRecorded(a.failure, b.failure, r.serviceMs);
    MergeRecorded(a.cold, b.cold, r.latencyMs);
    MergeRecorded(a.warm, b.warm, r.latencyMs);
  }

  lemma StepStep(a: StepAgg, b: StepAgg, r: StepRecord, phase: CachePhase)
    ensures CombineStep(a, Added(b, r, phase)) == Added(CombineStep(a, b), r, phase)
  {
    hide AddedCounts, AddedSketches, CombineCounts, CombineSketches;
    CountsStep(a.counts, b.counts, r);
    SketchesStep(a.sketches, b.sketches, r, phase);
  }

  lemma StepFromNothing(a: StepAgg, stepId: string, stepClass: string)
    ensures CombineStep(a, NewStep(stepId, stepClass)) == a
  {
    var s := a.sketches;
    MergeEmpty(s.latency); MergeEmpty(s.service); MergeEmpty(s.dispatch); MergeEmpty(s.ttfr);
    MergeEmpty(s.failure); MergeEmpty(s.cold); MergeEmpty(s.warm);
    AddEmpty(a.counts.errorsByClass);
  }

  /** `order` lists the keys of `table`. */
  ghost predicate Ordered(s: Steps) {
    forall id :: id in s.order <==> id in s.table
  }

  lemma EntryStep(a: Steps, b: Steps, r: StepRecord, phase: CachePhase, k: string)
    requires k in a.table || k in b.table || k == r.stepId
    ensures CombineEntry(a, StepRecorded(b, r, phase), k)
         == if k == r.stepId
            then Added(if k in a.table || k in b.table then CombineEntry(a, b, k) else NewStep(k, r.stepClass), r, phase)
            else CombineEntry(a, b, k)
  {
    hide Added, CombineStep, NewStep;
    if k == r.stepId && k in a.table {
      StepStep(a.table[k], if k in b.table then b.table[k] else NewStep(k, r.stepClass), r, phase);
      StepFromNothing(a.table[k], k, r.stepClass);
    }
  }

  lemma OrderStep(a: Steps, b: Steps, r: StepRecord, phase: CachePhase)
    requires Ordered(b)
    ensures CombineSteps(a, StepRecorded(b, r, phase)).order == StepRecorded(CombineSteps(a, b), r, phase).order
  {
    hide Added, CombineEntry;
    if r.stepId !in b.table {
      assert (b.order + [r.stepId])[..|b.order|] == b.order;
    }
  }

  lemma TableStep(a: Steps, b: Steps, r: StepRecord, phase: CachePhase)
    ensures CombineSteps(a, StepRecorded(b, r, phase)).table == StepRecorded(CombineSteps(a, b), r, phase).table
  {
    hide Added, CombineEntry, NewStep, Unseen, CombineStep;
    var left, right := CombineSteps(a, StepRecorded(b, r, phase)).table, StepRecorded(CombineSteps(a, b), r, phase).table;
    assert left.Keys == right.Keys;
    forall k | k in left
      ensures left[k] == right[k]
    {
      EntryStep(a, b, r, phase, k);
    }
  }

  lemma StepsStep(a: Steps, b: Steps, r: StepRecord, phase: CachePhase)
    requires Ordered(b)
    ensures CombineSteps(a, StepRecorded(b, r, phase)) == StepRecorded(CombineSteps(a, b), r, phase)
  {
    hide CombineSteps, StepRecorded, Ordered;
    OrderStep(a, b, r, phase);
    TableStep(a, b, r, phase);
  }

  lemma EpochStep(a: map<nat, Sketch>, b: map<nat, Sketch>, epoch: nat, value: real)
    ensures CombineEpochs(a, b[epoch := RecordedMs(EpochSketch(b, epoch), value)])
         == CombineEpochs(a, b)[epoch := RecordedMs(EpochSketch(CombineEpochs(a, b), epoch), value)]
  {
    MergeRecorded(EpochSketch(a, epoch), EpochSketch(b, epoch), value);
    hide RecordedMs, Merged;
    MergeEmpty(EMPTY);
    assert EpochSketch(CombineEpochs(a, b), epoch) == Merged(EpochSketch(a, epoch), EpochSketch(b, epoch));
  }

  lemma StampStep(a: Figures, b: Figures, r: StepRecord, clock: EpochClock)
    ensures CombineFigures(a, Stamped(b, r, clock)) == Stamped(CombineFigures(a, b), r, clock)
  {
    hide RecordedMs, Merged, Bump, Add, CombineEpochs, EpochSketch;
    if clock.Running() {
      EpochStep(a.epochLatency, b.epochLatency, clock.epoch, r.latencyMs);
      AddBump(a.epochExecutions, b.epochExecutions, clock.epoch, 1);
    }
  }

  lemma DelayStep(a: Figures, b: Figures, r: StepRecord)
    ensures CombineFigures(a, CountDelays(b, r)) == CountDelays(CombineFigures(a, b), r)
  {
    hide RecordedMs, Merged, Bump, Add, CombineEpochs;
    MergeRecorded(a.drift, b.drift, r.lateByMs);
    if r.Queued() {
      MergeRecorded(a.queued, b.queued, r.queuedMs.value);
    }
  }

  lemma OutcomeStep(a: Figures, b: Figures, r: StepRecord)
    ensures CombineFigures(a, CountOutcome(b, r)) == CountOutcome(CombineFigures(a, b), r)
  {
    hide RecordedMs, Merged, Bump, Add, CombineEpochs;
    MergeRecorded(a.latency, b.latency, r.latencyMs);
    MergeRecorded(a.failure, b.failure, r.serviceMs);
    AddBump(a.errorsByClass, b.errorsByClass, r.ErrorClass(), 1);
  }

  lemma CountStep(a: Figures, b: Figures, r: StepRecord)
    ensures CombineFigures(a, Counted(b, r)) == Counted(CombineFigures(a, b), r)
  {
    if r.Cancelled() {
      hide Merged, Add, CombineEpochs;
    } else {
      hide CountOutcome, CountDelays, CombineFigures;
      OutcomeStep(a, b, r);
      DelayStep(a, CountOutcome(b, r), r);
    }
  }

  lemma RecordStep(a: Totals, b: Totals, r: StepRecord, clock: EpochClock, now: real)
    requires Ordered(b.steps)
    ensures Combine(a, Recorded(b, r, clock, now)) == Recorded(Combine(a, b), r, clock, now)
  {
    hide StepRecorded, Stamped, Counted, CombineSteps, CombineFigures, Ordered;
    StepsStep(a.steps, b.steps, r, clock.PhaseAt(At(r, now)));
    StampStep(a.figures, b.figures, r, clock);
    CountStep(a.figures, Stamped(b.figures, r, clock), r);
  }

  lemma LagStep(a: Figures, b: Figures, ms: real)
    ensures CombineFigures(a, Lagged(b, ms)) == Lagged(CombineFigures(a, b), ms)
  {
    hide RecordedMs, Merged, Add, CombineEpochs;
    MergeRecorded(a.loopLag, b.loopLag, ms);
  }

  lemma StragglerStep(a: Figures, b: Figures, duration: Option<real>, finished: bool)
    ensures CombineFigures(a, FollowedUp(b, duration, finished)) == FollowedUp(CombineFigures(a, b), duration, finished)
  {
    hide RecordedMs, Merged, Add, CombineEpochs;
    if duration.Some? {
      MergeRecorded(a.afterEnd, b.afterEnd, duration.value * 1000.0);
    }
  }

  lemma ApplyStep(a: Totals, b: Totals, e: Event)
    requires Ordered(b.steps)
    ensures Combine(a, Apply(b, e)) == Apply(Combine(a, b), e)
  {
    hide Recorded, Lagged, FollowedUp, CombineSteps, CombineFigures, Ordered;
    match e {
      case Record(r, clock, now) => RecordStep(a, b, r, clock, now);
      case Lag(ms) => LagStep(a.figures, b.figures, ms);
      case Straggler(d, finished) => StragglerStep(a.figures, b.figures, d, finished);
    }
  }

  lemma {:induction false} FeedOrdered(events: seq<Event>)
    ensures Ordered(Feed(events).steps)
    ensures Feed(events).figures.maxDrift >= 0.0 && Feed(events).figures.maxLoopLag >= 0.0
  {
    hide Apply, Ordered;
    if events == [] {
      assert Ordered(NO_STEPS) by { NothingOrdered(); }
    } else {
      FeedOrdered(events[..|events| - 1]);
      ApplyOrdered(Feed(events[..|events| - 1]), events[|events| - 1]);
    }
  }

  lemma NothingOrdered()
    ensures Ordered(NO_STEPS)
  {
  }

  lemma ApplyOrdered(t: Totals, e: Event)
    requires Ordered(t.steps) && t.figures.maxDrift >= 0.0 && t.figures.maxLoopLag >= 0.0
    ensures Ordered(Apply(t, e).steps)
    ensures Apply(t, e).figures.maxDrift >= 0.0 && Apply(t, e).figures.maxLoopLag >= 0.0
  {
    hide Added, NewStep, RecordedMs, Bump, EpochSketch;
  }

  lemma EpochsNothing(m: map<nat, Sketch>)
    ensures CombineEpochs(m, map[]) == m
  {
    forall e | e in m
      ensures CombineEpochs(m, map[])[e] == m[e]
    {
      MergeEmpty(m[e]);
    }
  }

  lemma FiguresNothing(f: Figures)
    requires f.maxDrift >= 0.0 && f.maxLoopLag >= 0.0
    ensures CombineFigures(f, NO_FIGURES) == f
  {
    hide Merged, Add, CombineEpochs;
    MergeEmpty(f.latency);
    MergeEmpty(f.failure);
    MergeEmpty(f.drift);
    MergeEmpty(f.queued);
    MergeEmpty(f.loopLag);
    MergeEmpty(f.afterEnd);
    AddEmpty(f.errorsByClass);
    AddEmpty(f.epochExecutions);
    EpochsNothing(f.epochLatency);
  }

  lemma CombineNothing(t: Totals)
    requires t.figures.maxDrift >= 0.0 && t.figures.maxLoopLag >= 0.0
    ensures Combine(t, NO_TOTALS) == t
  {
    hide CombineFigures;
    FiguresNothing(t.figures);
    assert CombineSteps(t.steps, NO_STEPS).table == t.steps.table;
  }

  /** Two workers added together are one worker that saw both streams, one after the other. */
  lemma {:induction false} CombineIsConcatenation(xs: seq<Event>, ys: seq<Event>)
    ensures Combine(Feed(xs), Feed(ys)) == Feed(xs + ys)
  {
    hide Combine, Apply, Ordered;
    if ys == [] {
      FeedOrdered(xs);
      CombineNothing(Feed(xs));
      assert xs + ys == xs;
    } else {
      var init, last := ys[..|ys| - 1], ys[|ys| - 1];
      FeedOrdered(init);
      ApplyStep(Feed(xs), Feed(init), last);
      CombineIsConcatenation(xs, init);
      assert (xs + ys)[..|xs + ys| - 1] == xs + init;
    }
  }

  function Streams(streams: seq<seq<Event>>): seq<Event> {
    if streams == [] then [] else Streams(streams[..|streams| - 1]) + streams[|streams| - 1]
  }

  function FeedEach(streams: seq<seq<Event>>): (all: seq<Totals>)
    ensures |all| == |streams|
  {
    if streams == [] then [] else FeedEach(streams[..|streams| - 1]) + [Feed(streams[|streams| - 1])]
  }

  /** The homomorphism: a fleet's aggregate is that of a single worker fed every stream in turn. */
  lemma {:induction false} FleetIsOneWorker(streams: seq<seq<Event>>)
    ensures CombineAll(FeedEach(streams)) == Feed(Streams(streams))
  {
    if streams != [] {
      var init := streams[..|streams| - 1];
      FleetIsOneWorker(init);
      CombineIsConcatenation(Streams(init), streams[|streams| - 1]);
      var all := FeedEach(streams);
      assert all[..|all| - 1] == FeedEach(init);
    }
  }
}
