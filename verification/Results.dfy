/** worker/regulator_agent/results.py: the step, interval and run aggregates. */
module Results {
  import opened Wrappers
  import opened Counts
  import opened Rounding
  import opened Histogram

  const ERROR_CANCELLED := "cancelled"
  const ERROR_CLIENT := "client"

  /** The parts of a step record the aggregates read. Times are as measured, not rounded. */
  datatype StepRecord = StepRecord(
    stepId: string,
    stepClass: string,
    stepType: string,
    startedAt: real,
    latencyMs: real,
    serviceMs: real,
    lateByMs: real,
    dispatchMs: Option<real>,
    ttfrMs: Option<real>,
    queuedMs: Option<real>,
    sid: Option<string>,
    scanCount: Option<nat>,
    resultCount: Option<nat>,
    ok: bool,
    errorClass: Option<string>,
    partial: bool)
  {
    predicate Cancelled() {
      errorClass == Some(ERROR_CANCELLED)
    }

    /** A job that could have reported queueing. */
    predicate IsJob() {
      ok && sid.Some? && sid.value != "" && stepType == "search"
    }

    predicate Queued() {
      queuedMs.Some? && queuedMs.value != 0.0
    }

    function ErrorClass(): string {
      if errorClass.Some? && errorClass.value != "" then errorClass.value else ERROR_CLIENT
    }
  }

  /** Where a record falls in a cache cycle; no phase when the run does not cycle its cache. */
  datatype CachePhase = NoPhase | Cold | Warm

  // ---------------------------------------------------------------------
  // Values: one step
  // ---------------------------------------------------------------------

  datatype StepSketches = StepSketches(
    latency: Sketch, service: Sketch, dispatch: Sketch, ttfr: Sketch,
    failure: Sketch, cold: Sketch, warm: Sketch)

  datatype StepCounts = StepCounts(
    executions: nat, errors: nat, partial: nat, unfinished: nat,
    scanCount: nat, resultCount: nat, errorsByClass: map<string, nat>)

  datatype StepAgg = StepAgg(stepId: string, stepClass: string, counts: StepCounts, sketches: StepSketches)

  const NO_SKETCHES := StepSketches(EMPTY, EMPTY, EMPTY, EMPTY, EMPTY, EMPTY, EMPTY)
  const NO_COUNTS := StepCounts(0, 0, 0, 0, 0, 0, map[])

  function NewStep(stepId: string, stepClass: string): StepAgg {
    StepAgg(stepId, stepClass, NO_COUNTS, NO_SKETCHES)
  }

  function RecordedSome(h: Sketch, value: Option<real>): Sketch {
    match value
    case None => h
    case Some(v) => RecordedMs(h, v)
  }

  function AddedCounts(c: StepCounts, r: StepRecord): StepCounts {
    if r.Cancelled() then c.(unfinished := c.unfinished + 1)
    else StepCounts(
      c.executions + 1,
      if r.ok then c.errors else c.errors + 1,
      if r.partial then c.partial + 1 else c.partial,
      c.unfinished,
      if r.ok then c.scanCount + r.scanCount.GetOr(0) else c.scanCount,
      if r.ok then c.resultCount + r.resultCount.GetOr(0) else c.resultCount,
      if r.ok then c.errorsByClass else Bump(c.errorsByClass, r.ErrorClass(), 1))
  }

  function AddedSketches(s: StepSketches, r: StepRecord, phase: CachePhase): StepSketches {
    if r.Cancelled() then s
    else if !r.ok then s.(failure := RecordedMs(s.failure, r.serviceMs))
    else StepSketches(
      RecordedMs(s.latency, r.latencyMs),
      RecordedMs(s.service, r.serviceMs),
      RecordedSome(s.dispatch, r.dispatchMs),
      RecordedSome(s.ttfr, r.ttfrMs),
      s.failure,
      if phase.Cold? then RecordedMs(s.cold, r.latencyMs) else s.cold,
      if phase.Warm? then RecordedMs(s.warm, r.latencyMs) else s.warm)
  }

  function Added(s: StepAgg, r: StepRecord, phase: CachePhase): StepAgg {
    s.(counts := AddedCounts(s.counts, r), sketches := AddedSketches(s.sketches, r, phase))
  }

  // ---------------------------------------------------------------------
  // Values: one interval
  // ---------------------------------------------------------------------

  datatype IntervalAgg = IntervalAgg(
    executions: nat, errors: nat, queued: nat, jobExecutions: nat, scanCount: nat,
    errorsByClass: map<string, nat>,
    latency: Sketch, failure: Sketch, queuedMs: Sketch, loopLag: Sketch)

  const NO_INTERVAL := IntervalAgg(0, 0, 0, 0, 0, map[], EMPTY, EMPTY, EMPTY, EMPTY)

  function IntervalAdded(i: IntervalAgg, r: StepRecord): IntervalAgg {
    if r.Cancelled() then i
    else IntervalAgg(
      i.executions + 1,
      if r.ok then i.errors else i.errors + 1,
      if r.Queued() then i.queued + 1 else i.queued,
      if r.IsJob() then i.jobExecutions + 1 else i.jobExecutions,
      i.scanCount + r.scanCount.GetOr(0),
      if r.ok then i.errorsByClass else Bump(i.errorsByClass, r.ErrorClass(), 1),
      if r.ok then RecordedMs(i.latency, r.latencyMs) else i.latency,
      if r.ok then i.failure else RecordedMs(i.failure, r.serviceMs),
      if r.Queued() then RecordedMs(i.queuedMs, r.queuedMs.value) else i.queuedMs,
      i.loopLag)
  }

  /** An interval as it is handed over. */
  datatype IntervalDoc = IntervalDoc(figures: IntervalAgg, inFlight: nat, cacheEpoch: nat)

  // ---------------------------------------------------------------------
  // Values: a whole run
  // ---------------------------------------------------------------------

  /** The cache epoch clock in force when a record arrives. */
  datatype EpochClock = EpochClock(epoch: nat, startedAt: Option<real>, coldWindow: Option<real>)
  {
    predicate Running() {
      epoch > 0 && startedAt.Some?
    }

    /** Seconds into the epoch, to the millisecond. */
    function Since(at: real): real
      requires Running()
    {
      var gap := at - startedAt.value;
      RoundHalfEven((if gap > 0.0 then gap else 0.0) * 1000.0) as real / 1000.0
    }

    function PhaseAt(at: real): CachePhase {
      if !Running() || coldWindow.GetOr(0.0) == 0.0 then NoPhase
      else if Since(at) <= coldWindow.value then Cold
      else Warm
    }
  }

  /** Steps in the order they were first seen. */
  datatype Steps = Steps(order: seq<string>, table: map<string, StepAgg>)

  const NO_STEPS := Steps([], map[])

  function StepRecorded(s: Steps, r: StepRecord, phase: CachePhase): Steps {
    var step := if r.stepId in s.table then s.table[r.stepId] else NewStep(r.stepId, r.stepClass);
    Steps(if r.stepId in s.table then s.order else s.order + [r.stepId],
          s.table[r.stepId := Added(step, r, phase)])
  }

  /** The cumulative figures of a run, its steps aside. */
  datatype Figures = Figures(
    executions: nat, errors: nat, partial: nat, abandoned: nat,
    queuedExecutions: nat, jobExecutions: nat,
    finishedAfterEnd: nat, stillRunning: nat,
    errorsByClass: map<string, nat>,
    maxDrift: real, maxLoopLag: real,
    latency: Sketch, failure: Sketch, drift: Sketch, queued: Sketch, loopLag: Sketch, afterEnd: Sketch,
    epochLatency: map<nat, Sketch>, epochExecutions: map<nat, nat>)

  const NO_FIGURES := Figures(
    0, 0, 0, 0, 0, 0, 0, 0, map[], 0.0, 0.0, EMPTY, EMPTY, EMPTY, EMPTY, EMPTY, EMPTY, map[], map[])

  /** Everything cumulative that a final report carries. */
  datatype Totals = Totals(steps: Steps, figures: Figures)

  const NO_TOTALS := Totals(NO_STEPS, NO_FIGURES)

  function EpochSketch(m: map<nat, Sketch>, epoch: nat): Sketch {
    if epoch in m then m[epoch] else EMPTY
  }

  /** The per-epoch figures, kept even for an abandoned search that succeeded. */
  function Stamped(f: Figures, r: StepRecord, clock: EpochClock): Figures {
    f.(epochLatency := if clock.Running() && r.ok
         then f.epochLatency[clock.epoch := RecordedMs(EpochSketch(f.epochLatency, clock.epoch), r.latencyMs)]
         else f.epochLatency,
       epochExecutions := if clock.Running() && !r.Cancelled()
         then Bump(f.epochExecutions, clock.epoch, 1)
         else f.epochExecutions)
  }

  function Counted(f: Figures, r: StepRecord): Figures {
    if r.Cancelled() then f.(abandoned := f.abandoned + 1)
    else CountDelays(CountOutcome(f, r), r)
  }

  function CountOutcome(f: Figures, r: StepRecord): Figures {
    f.(executions := f.executions + 1,
       errors := if r.ok then f.errors else f.errors + 1,
       partial := if r.partial then f.partial + 1 else f.partial,
       jobExecutions := if r.IsJob() then f.jobExecutions + 1 else f.jobExecutions,
       errorsByClass := if r.ok then f.errorsByClass else Bump(f.errorsByClass, r.ErrorClass(), 1),
       latency := if r.ok then RecordedMs(f.latency, r.latencyMs) else f.latency,
       failure := if r.ok then f.failure else RecordedMs(f.failure, r.serviceMs))
  }

  /** Schedule debt and dispatch queueing, counted for successes and failures alike. */
  function CountDelays(f: Figures, r: StepRecord): Figures {
    f.(queuedExecutions := if r.Queued() then f.queuedExecutions + 1 else f.queuedExecutions,
       drift := if r.lateByMs != 0.0 then RecordedMs(f.drift, r.lateByMs) else f.drift,
       maxDrift := if r.lateByMs != 0.0 then MaxReal(f.maxDrift, r.lateByMs) else f.maxDrift,
       queued := if r.Queued() then RecordedMs(f.queued, r.queuedMs.value) else f.queued)
  }

  /** `now` stands in for a record that carries no start of its own. */
  function At(r: StepRecord, now: real): real {
    if r.startedAt != 0.0 then r.startedAt else now
  }

  function Recorded(t: Totals, r: StepRecord, clock: EpochClock, now: real): Totals {
    Totals(StepRecorded(t.steps, r, clock.PhaseAt(At(r, now))), Counted(Stamped(t.figures, r, clock), r))
  }

  function Lagged(f: Figures, ms: real): Figures {
    if ms <= 0.0 then f else f.(loopLag := RecordedMs(f.loopLag, ms), maxLoopLag := MaxReal(f.maxLoopLag, ms))
  }

  function FollowedUp(f: Figures, runDuration: Option<real>, finished: bool): Figures {
    if !finished then f.(stillRunning := f.stillRunning + 1)
    else
      f.(finishedAfterEnd := f.finishedAfterEnd + 1,
         afterEnd := match runDuration case None => f.afterEnd case Some(s) => RecordedMs(f.afterEnd, s * 1000.0))
  }

  datatype RunAgg = RunAgg(totals: Totals, interval: IntervalAgg, clock: EpochClock, inFlight: nat, peak: nat)

  const NEW_RUN := RunAgg(NO_TOTALS, NO_INTERVAL, EpochClock(0, None, None), 0, 0)

  function RunRecorded(s: RunAgg, r: StepRecord, now: real): RunAgg {
    s.(totals := Recorded(s.totals, r, s.clock, now), interval := IntervalAdded(s.interval, r))
  }

  function RunLagged(s: RunAgg, ms: real): RunAgg {
    s.(totals := s.totals.(figures := Lagged(s.totals.figures, ms)),
       interval := if ms <= 0.0 then s.interval else s.interval.(loopLag := RecordedMs(s.interval.loopLag, ms)))
  }

  function Entered(s: RunAgg): RunAgg {
    s.(inFlight := s.inFlight + 1, peak := if s.inFlight + 1 > s.peak then s.inFlight + 1 else s.peak)
  }

  function Left(s: RunAgg): RunAgg {
    s.(inFlight := if s.inFlight > 0 then s.inFlight - 1 else 0)
  }

  function EpochSet(clock: EpochClock, epoch: nat, startedAt: real): EpochClock {
    if epoch <= clock.epoch then clock else clock.(epoch := epoch, startedAt := Some(startedAt))
  }

  // ---------------------------------------------------------------------
  // The objects
  // ---------------------------------------------------------------------

  class StepStats {
    var agg: StepAgg

    constructor (stepId: string, stepClass: string)
      ensures agg == NewStep(stepId, stepClass)
    {
      agg := NewStep(stepId, stepClass);
    }

    method Add(r: StepRecord, phase: CachePhase)
      modifies this
      ensures agg == Added(old(agg), r, phase)
    {
      var counts := AddCounts(agg.counts, r);
      var sketches := AddSketches(agg.sketches, r, phase);
      agg := agg.(counts := counts, sketches := sketches);
    }

    static method AddCounts(before: StepCounts, r: StepRecord) returns (counts: StepCounts)
      ensures counts == AddedCounts(before, r)
    {
      counts := before;
      if r.Cancelled() {
        return counts.(unfinished := counts.unfinished + 1);
      }
      counts := counts.(executions := counts.executions + 1);
      if r.partial {
        counts := counts.(partial := counts.partial + 1);
      }
      if r.ok {
        if r.scanCount.Some? {
          counts := counts.(scanCount := counts.scanCount + r.scanCount.value);
        }
        if r.resultCount.Some? {
          counts := counts.(resultCount := counts.resultCount + r.resultCount.value);
        }
      } else {
        counts := counts.(errors := counts.errors + 1,
                          errorsByClass := Bump(counts.errorsByClass, r.ErrorClass(), 1));
      }
    }

    /** Only successes feed the latency sketches. */
    static method AddSketches(before: StepSketches, r: StepRecord, phase: CachePhase) returns (sketches: StepSketches)
      ensures sketches == AddedSketches(before, r, phase)
    {
      sketches := before;
      if r.Cancelled() {
        return;
      }
      if !r.ok {
        return sketches.(failure := RecordedMs(sketches.failure, r.serviceMs));
      }
      match phase {
        case NoPhase =>
        case Cold => sketches := sketches.(cold := RecordedMs(sketches.cold, r.latencyMs));
        case Warm => sketches := sketches.(warm := RecordedMs(sketches.warm, r.latencyMs));
      }
      sketches := sketches.(latency := RecordedMs(sketches.latency, r.latencyMs));
      sketches := sketches.(service := RecordedMs(sketches.service, r.serviceMs));
      sketches := sketches.(dispatch := RecordedSome(sketches.dispatch, r.dispatchMs));
      sketches := sketches.(ttfr := RecordedSome(sketches.ttfr, r.ttfrMs));
    }
  }

  class IntervalStats {
    var agg: IntervalAgg

    constructor ()
      ensures agg == NO_INTERVAL
    {
      agg := NO_INTERVAL;
    }

    method Reset()
      modifies this
      ensures agg == NO_INTERVAL
    {
      agg := NO_INTERVAL;
    }

    method Add(r: StepRecord)
      modifies this
      ensures agg == IntervalAdded(old(agg), r)
    {
      if r.Cancelled() {
        return;
      }
      agg := agg.(executions := agg.executions + 1);
      if r.ok {
        agg := agg.(latency := RecordedMs(agg.latency, r.latencyMs));
      } else {
        agg := agg.(errors := agg.errors + 1,
                    failure := RecordedMs(agg.failure, r.serviceMs),
                    errorsByClass := Bump(agg.errorsByClass, r.ErrorClass(), 1));
      }
      if r.IsJob() {
        agg := agg.(jobExecutions := agg.jobExecutions + 1);
      }
      if r.Queued() {
        agg := agg.(queued := agg.queued + 1, queuedMs := RecordedMs(agg.queuedMs, r.queuedMs.value));
      }
      agg := agg.(scanCount := agg.scanCount + r.scanCount.GetOr(0));
    }

    method RecordLoopLag(ms: real)
      modifies this
      ensures agg == old(agg).(loopLag := RecordedMs(old(agg).loopLag, ms))
    {
      agg := agg.(loopLag := RecordedMs(agg.loopLag, ms));
    }
  }

  class RunStats {
    var steps: map<string, StepStats>
    var order: seq<string>
    ghost var table: map<string, StepAgg>  // what the objects in `steps` hold
    ghost var owned: set<StepStats>        // those objects
    var figures: Figures
    const interval: IntervalStats
    var clock: EpochClock
    var inFlight: nat
    var peak: nat

    ghost predicate Valid()
      reads this, owned
    {
      && (forall id :: id in order <==> id in steps)
      && (forall a, b :: a in steps && b in steps && a != b ==> steps[a] != steps[b])
      && table.Keys == steps.Keys
      && (forall id :: id in steps ==> steps[id] in owned && steps[id].agg == table[id])
    }

    ghost function View(): RunAgg
      reads this, interval
    {
      RunAgg(Totals(Steps(order, table), figures), interval.agg, clock, inFlight, peak)
    }

    constructor ()
      ensures Valid() && View() == NEW_RUN && fresh(interval)
    {
      steps, order, table, owned, figures := map[], [], map[], {}, NO_FIGURES;
      interval := new IntervalStats();
      clock, inFlight, peak := EpochClock(0, None, None), 0, 0;
    }

    /** The step's own aggregate, made on first sight. */
    method StepFor(id: string, stepClass: string) returns (stats: StepStats)
      requires Valid()
      modifies this`steps, this`order, this`table, this`owned
      ensures Valid() && id in steps && steps[id] == stats && fresh(owned - old(owned))
      ensures table == if id in old(table) then old(table) else old(table)[id := NewStep(id, stepClass)]
      ensures order == if id in old(table) then old(order) else old(order) + [id]
    {
      if id in steps {
        return steps[id];
      }
      stats := new StepStats(id, stepClass);
      steps, order := steps[id := stats], order + [id];
      table, owned := table[id := stats.agg], owned + {stats};
    }

    method StampEpoch(r: StepRecord)
      modifies this`figures
      ensures figures == Stamped(old(figures), r, clock)
    {
      if clock.Running() {
        if r.ok {
          var sketch := RecordedMs(EpochSketch(figures.epochLatency, clock.epoch), r.latencyMs);
          figures := figures.(epochLatency := figures.epochLatency[clock.epoch := sketch]);
        }
        if !r.Cancelled() {
          figures := figures.(epochExecutions := Bump(figures.epochExecutions, clock.epoch, 1));
        }
      }
    }

    method CountFigures(r: StepRecord)
      modifies this`figures
      ensures figures == Counted(old(figures), r)
    {
      var f := figures;
      if r.Cancelled() {
        figures := f.(abandoned := f.abandoned + 1);
        return;
      }
      f := f.(executions := f.executions + 1,
              partial := if r.partial then f.partial + 1 else f.partial,
              jobExecutions := if r.IsJob() then f.jobExecutions + 1 else f.jobExecutions);
      if r.ok {
        f := f.(latency := RecordedMs(f.latency, r.latencyMs));
      } else {
        f := f.(failure := RecordedMs(f.failure, r.serviceMs),
                errors := f.errors + 1,
                errorsByClass := Bump(f.errorsByClass, r.ErrorClass(), 1));
      }
      figures := CountDelays(f, r);
    }

    method AddTo(id: string, r: StepRecord, phase: CachePhase)
      requires Valid() && id in steps
      modifies this`table, owned
      ensures Valid() && table == old(table)[id := Added(old(table)[id], r, phase)]
    {
      hide RecordedMs, Bump, Added;
      var stats := steps[id];
      stats.Add(r, phase);
      table := table[id := stats.agg];
    }

    method RecordStep(r: StepRecord, phase: CachePhase)
      requires Valid()
      modifies this`steps, this`order, this`table, this`owned, owned
      ensures Valid() && fresh(owned - old(owned))
      ensures Steps(order, table) == StepRecorded(Steps(old(order), old(table)), r, phase)
    {
      hide RecordedMs, Bump, Added, NewStep;
      var stats := StepFor(r.stepId, r.stepClass);
      AddTo(r.stepId, r, phase);
    }

    method Record(r: StepRecord, now: real)
      requires Valid()
      modifies this, interval, owned
      ensures Valid() && fresh(owned - old(owned))
      ensures View() == RunRecorded(old(View()), r, now)
    {
      hide RecordedMs, Bump, Added, StepRecorded, IntervalAdded, Counted, Stamped;
      RecordStep(r, clock.PhaseAt(At(r, now)));
      interval.Add(r);
      StampEpoch(r);
      CountFigures(r);
    }

    method RecordLoopLag(ms: real)
      requires Valid()
      modifies this`figures, interval
      ensures Valid()
      ensures View() == RunLagged(old(View()), ms)
    {
      if ms <= 0.0 {
        return;
      }
      figures := figures.(loopLag := RecordedMs(figures.loopLag, ms), maxLoopLag := MaxReal(figures.maxLoopLag, ms));
      interval.RecordLoopLag(ms);
    }

    /** One abandoned search, followed up after the run. */
    method RecordAfterEnd(runDuration: Option<real>, finished: bool)
      requires Valid()
      modifies this`figures
      ensures Valid()
      ensures View() == old(View()).(totals := old(View()).totals.(figures := FollowedUp(old(figures), runDuration, finished)))
    {
      if finished {
        figures := figures.(finishedAfterEnd := figures.finishedAfterEnd + 1);
        if runDuration.Some? {
          figures := figures.(afterEnd := RecordedMs(figures.afterEnd, runDuration.value * 1000.0));
        }
      } else {
        figures := figures.(stillRunning := figures.stillRunning + 1);
      }
    }

    /** Hand over the open interval and start a fresh one. */
    method TakeInterval() returns (taken: IntervalDoc)
      requires Valid()
      modifies interval
      ensures Valid() && taken == IntervalDoc(old(interval.agg), inFlight, clock.epoch)
      ensures View() == old(View()).(interval := NO_INTERVAL)
    {
      taken := IntervalDoc(interval.agg, inFlight, clock.epoch);
      interval.Reset();
    }

    method SetEpoch(epoch: nat, startedAt: real)
      requires Valid()
      modifies this`clock
      ensures Valid() && View() == old(View()).(clock := EpochSet(old(clock), epoch, startedAt))
      ensures epoch <= old(clock).epoch ==> clock == old(clock)
      ensures epoch > old(clock).epoch ==> clock == EpochClock(epoch, Some(startedAt), old(clock).coldWindow)
    {
      if epoch <= clock.epoch {
        return;
      }
      clock := clock.(epoch := epoch, startedAt := Some(startedAt));
    }

    method Enter()
      requires Valid()
      modifies this`inFlight, this`peak
      ensures Valid() && View() == Entered(old(View()))
    {
      inFlight := inFlight + 1;
      if inFlight > peak {
        peak := inFlight;
      }
    }

    method Leave()
      requires Valid()
      modifies this`inFlight
      ensures Valid() && View() == Left(old(View()))
    {
      inFlight := if inFlight > 0 then inFlight - 1 else 0;
    }
  }
}
