/** What a worker's totals say of the records it was fed: every sketch is that of the readings that
  * belong in it, in order, and every count the number of records that it counts. */
module Feeds {
  import opened Wrappers
  import opened Counts
  import opened Rounding
  import opened Histogram
  import opened Results
  import opened FleetMerge

  // ------------------------------------------------------ records, picked out

  /** A record of one step, or of any. */
  predicate Of(e: Event, id: Option<string>) {
    e.Record? && (id.None? || e.r.stepId == id.value)
  }

  predicate Abandoned(e: Event) {
    e.Record? && e.r.errorClass == Some("cancelled")
  }

  predicate Succeeded(e: Event) {
    e.Record? && e.r.ok && !Abandoned(e)
  }

  predicate FailedThere(e: Event) {
    e.Record? && !e.r.ok && !Abandoned(e)
  }

  /** When a record started, the clock's reading where it does not say. */
  function StartOf(e: Event): real
    requires e.Record?
  {
    if e.r.startedAt != 0.0 then e.r.startedAt else e.now
  }

  predicate InEpochs(e: Event) {
    e.Record? && e.clock.epoch > 0 && e.clock.startedAt.Some?
  }

  /** Within a cold window of the epoch's start, counted in whole milliseconds. */
  predicate InWindow(clock: EpochClock, at: real)
    requires clock.startedAt.Some? && clock.coldWindow.Some?
  {
    RoundHalfEven(MaxReal(0.0, at - clock.startedAt.value) * 1000.0) as real <= clock.coldWindow.value * 1000.0
  }

  predicate Phased(e: Event) {
    InEpochs(e) && e.clock.coldWindow.Some? && e.clock.coldWindow.value != 0.0
  }

  datatype Kind =
    | Latency | Service | Dispatch | Ttfr | FailureTime | ColdLatency | WarmLatency
    | Drift | Queueing | LoopLag | AfterEnd | EpochLatency(epoch: nat)

  /** The reading in milliseconds that an event gives a measurement, if any. */
  function Reading(e: Event, id: Option<string>, kind: Kind): Option<real> {
    match kind
    case Latency => if Of(e, id) && Succeeded(e) then Some(e.r.latencyMs) else None
    case Service => if Of(e, id) && Succeeded(e) then Some(e.r.serviceMs) else None
    case Dispatch => if Of(e, id) && Succeeded(e) then e.r.dispatchMs else None
    case Ttfr => if Of(e, id) && Succeeded(e) then e.r.ttfrMs else None
    case FailureTime => if Of(e, id) && FailedThere(e) then Some(e.r.serviceMs) else None
    case ColdLatency =>
      if Of(e, id) && Succeeded(e) && Phased(e) && InWindow(e.clock, StartOf(e)) then Some(e.r.latencyMs) else None
    case WarmLatency =>
      if Of(e, id) && Succeeded(e) && Phased(e) && !InWindow(e.clock, StartOf(e)) then Some(e.r.latencyMs) else None
    case Drift => if Of(e, id) && !Abandoned(e) && e.r.lateByMs != 0.0 then Some(e.r.lateByMs) else None
    case Queueing => if Of(e, id) && !Abandoned(e) && e.r.queuedMs != Some(0.0) then e.r.queuedMs else None
    case LoopLag => if e.Lag? && e.ms > 0.0 then Some(e.ms) else None
    case AfterEnd => if e.Straggler? && e.finished && e.runDuration.Some? then Some(e.runDuration.value * 1000.0) else None
    case EpochLatency(epoch) => if Of(e, id) && InEpochs(e) && e.r.ok && e.clock.epoch == epoch then Some(e.r.latencyMs) else None
  }

  function Readings(events: seq<Event>, id: Option<string>, kind: Kind): seq<real> {
    if events == [] then []
    else
      var before := Readings(events[..|events| - 1], id, kind);
      match Reading(events[|events| - 1], id, kind)
      case None => before
      case Some(ms) => before + [ms]
  }

  /** Readings in milliseconds, as a histogram files them. */
  function Filed(readings: seq<real>): (samples: seq<nat>)
    ensures |samples| == |readings|
  {
    seq(|readings|, i requires 0 <= i < |readings| => Micros(readings[i] * 1000.0))
  }

  function SketchMs(readings: seq<real>): Sketch {
    SketchOf(Filed(readings))
  }

  datatype Tally =
    | Executions | Errors | Partial | Unfinished | Queued | Jobs | FinishedAfter | StillRunning
    | ErrorsOf(class_: string) | InEpoch(epoch: nat)

  /** The class a failure is counted under. */
  function ClassOf(e: Event): string
    requires e.Record?
  {
    match e.r.errorClass
    case None => "client"
    case Some(c) => if c == "" then "client" else c
  }

  predicate Tells(e: Event, id: Option<string>, tally: Tally) {
    match tally
    case Executions => Of(e, id) && !Abandoned(e)
    case Errors => Of(e, id) && FailedThere(e)
    case Partial => Of(e, id) && !Abandoned(e) && e.r.partial
    case Unfinished => Of(e, id) && Abandoned(e)
    case Queued => Of(e, id) && !Abandoned(e) && e.r.queuedMs.Some? && e.r.queuedMs.value != 0.0
    case Jobs => Of(e, id) && Succeeded(e) && e.r.sid.Some? && e.r.sid.value != "" && e.r.stepType == "search"
    case FinishedAfter => e.Straggler? && e.finished
    case StillRunning => e.Straggler? && !e.finished
    case ErrorsOf(c) => Of(e, id) && FailedThere(e) && ClassOf(e) == c
    case InEpoch(epoch) => Of(e, id) && InEpochs(e) && !Abandoned(e) && e.clock.epoch == epoch
  }

  function Number(events: seq<Event>, id: Option<string>, tally: Tally): nat {
    if events == [] then 0
    else Number(events[..|events| - 1], id, tally) + if Tells(events[|events| - 1], id, tally) then 1 else 0
  }

  /** The events that the successes of a step scanned, and the results they gave. */
  function ScannedBy(events: seq<Event>, id: Option<string>): nat {
    if events == [] then 0
    else
      var last := events[|events| - 1];
      ScannedBy(events[..|events| - 1], id) + if Of(last, id) && Succeeded(last) then last.r.scanCount.GetOr(0) else 0
  }

  function ResultsOf(events: seq<Event>, id: Option<string>): nat {
    if events == [] then 0
    else
      var last := events[|events| - 1];
      ResultsOf(events[..|events| - 1], id) + if Of(last, id) && Succeeded(last) then last.r.resultCount.GetOr(0) else 0
  }

  /** The largest of some readings, or zero. */
  function Greatest(readings: seq<real>): (m: real)
    ensures m >= 0.0 && forall i :: 0 <= i < |readings| ==> readings[i] <= m
    ensures m == 0.0 || exists i :: 0 <= i < |readings| && readings[i] == m
  {
    if readings == [] then 0.0
    else
      var before, last := Greatest(readings[..|readings| - 1]), readings[|readings| - 1];
      assert forall i :: 0 <= i < |readings| - 1 ==> readings[i] == readings[..|readings| - 1][i];
      if last > before then last else before
  }

  // ------------------------------------------------------------ one event more

  lemma ReadingsMore(events: seq<Event>, e: Event, id: Option<string>, kind: Kind)
    ensures Readings(events + [e], id, kind) ==
            match Reading(e, id, kind) case None => Readings(events, id, kind) case Some(ms) => Readings(events, id, kind) + [ms]
  {
    hide Reading;
    assert (events + [e])[..|events|] == events;
  }

  lemma SketchMore(readings: seq<real>, ms: real)
    ensures SketchMs(readings + [ms]) == RecordedMs(SketchMs(readings), ms)
  {
    hide Micros, Inserted;
    var more := Filed(readings + [ms]);
    assert more[..|more| - 1] == Filed(readings);
    assert more[|more| - 1] == Micros(ms * 1000.0);
  }

  /** The sketch of a measurement, after one event more. */
  lemma SketchNext(events: seq<Event>, e: Event, id: Option<string>, kind: Kind)
    ensures SketchMs(Readings(events + [e], id, kind)) == RecordedSome(SketchMs(Readings(events, id, kind)), Reading(e, id, kind))
  {
    hide Reading, SketchMs, RecordedMs;
    ReadingsMore(events, e, id, kind);
    if Reading(e, id, kind).Some? {
      SketchMore(Readings(events, id, kind), Reading(e, id, kind).value);
    }
  }

  lemma NumberMore(events: seq<Event>, e: Event, id: Option<string>, tally: Tally)
    ensures Number(events + [e], id, tally) == Number(events, id, tally) + if Tells(e, id, tally) then 1 else 0
  {
    hide Tells;
    assert (events + [e])[..|events|] == events;
  }

  lemma SumsMore(events: seq<Event>, e: Event, id: Option<string>)
    ensures ScannedBy(events + [e], id) == ScannedBy(events, id) + if Of(e, id) && Succeeded(e) then e.r.scanCount.GetOr(0) else 0
    ensures ResultsOf(events + [e], id) == ResultsOf(events, id) + if Of(e, id) && Succeeded(e) then e.r.resultCount.GetOr(0) else 0
  {
    hide Of, Succeeded;
    assert (events + [e])[..|events|] == events;
  }

  lemma GreatestMore(readings: seq<real>, ms: real)
    ensures Greatest(readings + [ms]) == MaxReal(Greatest(readings), ms)
  {
    assert (readings + [ms])[..|readings|] == readings;
  }

  lemma PhaseIs(e: Event)
    requires e.Record?
    ensures var phase := e.clock.PhaseAt(At(e.r, e.now));
      && (phase.Cold? <==> Phased(e) && InWindow(e.clock, StartOf(e)))
      && (phase.Warm? <==> Phased(e) && !InWindow(e.clock, StartOf(e)))
  {
  }

  // ------------------------------------------------------------------ the steps

  /** The sketches of a step, of the readings that its records give. */
  function StepSketchesOf(events: seq<Event>, id: string): StepSketches {
    StepSketches(
      SketchMs(Readings(events, Some(id), Latency)), SketchMs(Readings(events, Some(id), Service)),
      SketchMs(Readings(events, Some(id), Dispatch)), SketchMs(Readings(events, Some(id), Ttfr)),
      SketchMs(Readings(events, Some(id), FailureTime)), SketchMs(Readings(events, Some(id), ColdLatency)),
      SketchMs(Readings(events, Some(id), WarmLatency)))
  }

  /** The figures of a step's counts, by what they count. */
  ghost predicate StepCountsAre(c: StepCounts, events: seq<Event>, id: string) {
    && c.executions == Number(events, Some(id), Executions) && c.errors == Number(events, Some(id), Errors)
    && c.partial == Number(events, Some(id), Partial) && c.unfinished == Number(events, Some(id), Unfinished)
    && c.scanCount == ScannedBy(events, Some(id)) && c.resultCount == ResultsOf(events, Some(id))
    && forall class_ :: Get(c.errorsByClass, class_) == Number(events, Some(id), ErrorsOf(class_))
  }

  predicate Named(e: Event, id: string) {
    e.Record? && e.r.stepId == id
  }

  /** The class that the first record of a step gives it. */
  function FirstClass(events: seq<Event>, id: string): Option<string> {
    if events == [] then None
    else if FirstClass(events[..|events| - 1], id).Some? then FirstClass(events[..|events| - 1], id)
    else if Named(events[|events| - 1], id) then Some(events[|events| - 1].r.stepClass)
    else None
  }

  /** The steps, in the order of their first records. */
  function FirstSeen(events: seq<Event>): seq<string> {
    if events == [] then []
    else
      var before, last := FirstSeen(events[..|events| - 1]), events[|events| - 1];
      if last.Record? && last.r.stepId !in before then before + [last.r.stepId] else before
  }

  lemma StepSketchesNext(events: seq<Event>, e: Event, id: string)
    ensures StepSketchesOf(events + [e], id) ==
            if Named(e, id) then AddedSketches(StepSketchesOf(events, id), e.r, e.clock.PhaseAt(At(e.r, e.now)))
            else StepSketchesOf(events, id)
  {
    hide SketchMs, Readings, RecordedMs, Phased, InWindow, StartOf;
    SketchNext(events, e, Some(id), Latency);
    SketchNext(events, e, Some(id), Service);
    SketchNext(events, e, Some(id), Dispatch);
    SketchNext(events, e, Some(id), Ttfr);
    SketchNext(events, e, Some(id), FailureTime);
    SketchNext(events, e, Some(id), ColdLatency);
    SketchNext(events, e, Some(id), WarmLatency);
    if e.Record? {
      PhaseIs(e);
    }
  }

  lemma StepCountsNext(c: StepCounts, events: seq<Event>, e: Event, id: string)
    requires StepCountsAre(c, events, id)
    ensures StepCountsAre(if Named(e, id) then AddedCounts(c, e.r) else c, events + [e], id)
  {
    hide Number, ScannedBy, ResultsOf;
    NumberMore(events, e, Some(id), Executions);
    NumberMore(events, e, Some(id), Errors);
    NumberMore(events, e, Some(id), Partial);
    NumberMore(events, e, Some(id), Unfinished);
    SumsMore(events, e, Some(id));
    forall class_
      ensures Number(events + [e], Some(id), ErrorsOf(class_)) ==
              Number(events, Some(id), ErrorsOf(class_)) + if Tells(e, Some(id), ErrorsOf(class_)) then 1 else 0
    {
      NumberMore(events, e, Some(id), ErrorsOf(class_));
    }
  }

  /** A step that no record has named yet has nothing. */
  lemma {:induction false} NothingNamed(events: seq<Event>, id: string)
    requires FirstClass(events, id).None?
    ensures StepSketchesOf(events, id) == NO_SKETCHES
    ensures StepCountsAre(NO_COUNTS, events, id)
  {
    if events != [] {
      hide StepSketchesOf, StepCountsAre;
      var before, last := events[..|events| - 1], events[|events| - 1];
      assert events == before + [last];
      NothingNamed(before, id);
      StepSketchesNext(before, last, id);
      StepCountsNext(NO_COUNTS, before, last, id);
    }
  }

  ghost predicate StepIs(steps: Steps, events: seq<Event>, id: string) {
    && (id in steps.table <==> FirstClass(events, id).Some?)
    && (id in steps.table ==>
          && steps.table[id].stepId == id && Some(steps.table[id].stepClass) == FirstClass(events, id)
          && steps.table[id].sketches == StepSketchesOf(events, id) && StepCountsAre(steps.table[id].counts, events, id))
  }

  lemma FirstClassNext(events: seq<Event>, e: Event, id: string)
    ensures FirstClass(events + [e], id) ==
            if FirstClass(events, id).Some? then FirstClass(events, id) else if Named(e, id) then Some(e.r.stepClass) else None
  {
    hide Named;
    assert (events + [e])[..|events|] == events;
  }

  lemma StepIsNext(t: Totals, events: seq<Event>, e: Event, id: string)
    requires StepIs(t.steps, events, id)
    ensures StepIs(Apply(t, e).steps, events + [e], id)
  {
    hide AddedSketches, AddedCounts, StepSketchesOf, StepCountsAre, FirstClass, Stamped, Counted, Lagged, FollowedUp;
    FirstClassNext(events, e, id);
    StepSketchesNext(events, e, id);
    if id in t.steps.table {
      StepCountsNext(t.steps.table[id].counts, events, e, id);
    } else {
      NothingNamed(events, id);
      StepCountsNext(NO_COUNTS, events, e, id);
    }
  }

  /** Every step of a worker that has seen some events: it is listed exactly when a record names it,
    * under the class of the first one; each of its sketches is that of the readings which belong
    * there, in order, and each of its counts the number of the records that it counts. */
  lemma {:induction false} StepsAreTheirRecords(events: seq<Event>, id: string)
    ensures StepIs(Feed(events).steps, events, id)
  {
    hide Apply, StepIs;
    if events == [] {
      NoStepYet(id);
    } else {
      var before, last := events[..|events| - 1], events[|events| - 1];
      StepsAreTheirRecords(before, id);
      StepIsNext(Feed(before), before, last, id);
      assert events == before + [last];
    }
  }

  lemma NoStepYet(id: string)
    ensures StepIs(NO_STEPS, [], id)
  {
  }

  lemma {:induction false} StepsInOrder(events: seq<Event>)
    ensures Feed(events).steps.order == FirstSeen(events)
  {
    hide Added, NewStep, Stamped, Counted, Lagged, FollowedUp, Ordered;
    if events != [] {
      var before, last := events[..|events| - 1], events[|events| - 1];
      StepsInOrder(before);
      FeedOrdered(before);
      assert Feed(events) == Apply(Feed(before), last);
      OrderHolds(Feed(before).steps);
    }
  }

  lemma OrderHolds(s: Steps)
    requires Ordered(s)
    ensures forall id :: id in s.order <==> id in s.table
  {
  }

  // ------------------------------------------------------------------ the run

  ghost predicate SketchesAre(f: Figures, events: seq<Event>) {
    && f.latency == SketchMs(Readings(events, None, Latency)) && f.failure == SketchMs(Readings(events, None, FailureTime))
    && f.drift == SketchMs(Readings(events, None, Drift)) && f.queued == SketchMs(Readings(events, None, Queueing))
    && f.loopLag == SketchMs(Readings(events, None, LoopLag)) && f.afterEnd == SketchMs(Readings(events, None, AfterEnd))
    && f.maxDrift == Greatest(Readings(events, None, Drift)) && f.maxLoopLag == Greatest(Readings(events, None, LoopLag))
  }

  ghost predicate NumbersAre(f: Figures, events: seq<Event>) {
    && f.executions == Number(events, None, Executions) && f.errors == Number(events, None, Errors)
    && f.partial == Number(events, None, Partial) && f.abandoned == Number(events, None, Unfinished)
    && f.queuedExecutions == Number(events, None, Queued) && f.jobExecutions == Number(events, None, Jobs)
    && f.finishedAfterEnd == Number(events, None, FinishedAfter) && f.stillRunning == Number(events, None, StillRunning)
  }

  ghost predicate ClassesAre(f: Figures, events: seq<Event>) {
    && (forall class_ :: Get(f.errorsByClass, class_) == Number(events, None, ErrorsOf(class_)))
    && forall epoch :: Get(f.epochExecutions, epoch) == Number(events, None, InEpoch(epoch))
  }

  ghost predicate EpochsAre(f: Figures, events: seq<Event>) {
    forall epoch :: EpochSketch(f.epochLatency, epoch) == SketchMs(Readings(events, None, EpochLatency(epoch)))
      && (epoch in f.epochLatency <==> Readings(events, None, EpochLatency(epoch)) != [])
  }

  function MaxSome(m: real, ms: Option<real>): real {
    match ms case None => m case Some(x) => MaxReal(m, x)
  }

  lemma GreatestNext(events: seq<Event>, e: Event, kind: Kind)
    ensures Greatest(Readings(events + [e], None, kind)) == MaxSome(Greatest(Readings(events, None, kind)), Reading(e, None, kind))
  {
    hide Reading, Greatest;
    ReadingsMore(events, e, None, kind);
    if Reading(e, None, kind).Some? {
      GreatestMore(Readings(events, None, kind), Reading(e, None, kind).value);
    }
  }

  /** What one event files where, its steps and epochs aside. */
  lemma FilesTimes(t: Totals, e: Event)
    ensures var (f, g) := (t.figures, Apply(t, e).figures);
      && g.latency == RecordedSome(f.latency, Reading(e, None, Latency))
      && g.failure == RecordedSome(f.failure, Reading(e, None, FailureTime))
      && g.queued == RecordedSome(f.queued, Reading(e, None, Queueing))
  {
    hide RecordedMs, Bump, StepRecorded, EpochSketch, MaxReal;
  }

  lemma FilesDelays(t: Totals, e: Event)
    ensures var (f, g) := (t.figures, Apply(t, e).figures);
      && g.drift == RecordedSome(f.drift, Reading(e, None, Drift))
      && g.maxDrift == MaxSome(f.maxDrift, Reading(e, None, Drift))
  {
    hide RecordedMs, Bump, StepRecorded, EpochSketch, MaxReal;
  }

  lemma FilesLags(t: Totals, e: Event)
    ensures var (f, g) := (t.figures, Apply(t, e).figures);
      && g.loopLag == RecordedSome(f.loopLag, Reading(e, None, LoopLag))
      && g.maxLoopLag == MaxSome(f.maxLoopLag, Reading(e, None, LoopLag))
      && g.afterEnd == RecordedSome(f.afterEnd, Reading(e, None, AfterEnd))
  {
    hide RecordedMs, Bump, StepRecorded, EpochSketch, MaxReal;
  }

  lemma SketchesNext(t: Totals, events: seq<Event>, e: Event)
    requires SketchesAre(t.figures, events)
    ensures SketchesAre(Apply(t, e).figures, events + [e])
  {
    hide SketchMs, Readings, Reading, RecordedSome, MaxSome, Greatest, Apply;
    FilesTimes(t, e);
    FilesDelays(t, e);
    FilesLags(t, e);
    SketchNext(events, e, None, Latency);
    SketchNext(events, e, None, FailureTime);
    SketchNext(events, e, None, Drift);
    SketchNext(events, e, None, Queueing);
    SketchNext(events, e, None, LoopLag);
    SketchNext(events, e, None, AfterEnd);
    GreatestNext(events, e, Drift);
    GreatestNext(events, e, LoopLag);
  }

  lemma NumbersNext(t: Totals, events: seq<Event>, e: Event)
    requires NumbersAre(t.figures, events)
    ensures NumbersAre(Apply(t, e).figures, events + [e])
  {
    hide Number, RecordedMs, StepRecorded, EpochSketch, MaxReal, Bump;
    NumberMore(events, e, None, Executions);
    NumberMore(events, e, None, Errors);
    NumberMore(events, e, None, Partial);
    NumberMore(events, e, None, Unfinished);
    NumberMore(events, e, None, Queued);
    NumberMore(events, e, None, Jobs);
    NumberMore(events, e, None, FinishedAfter);
    NumberMore(events, e, None, StillRunning);
  }

  lemma ClassesNext(t: Totals, events: seq<Event>, e: Event)
    requires ClassesAre(t.figures, events)
    ensures ClassesAre(Apply(t, e).figures, events + [e])
  {
    hide Number, RecordedMs, StepRecorded, EpochSketch, MaxReal, Bump, Get;
    var f, g := t.figures, Apply(t, e).figures;
    forall class_
      ensures Get(g.errorsByClass, class_) == Number(events + [e], None, ErrorsOf(class_))
    {
      NumberMore(events, e, None, ErrorsOf(class_));
      if e.Record? {
        BumpAt(f.errorsByClass, ClassOf(e), class_);
      }
    }
    forall epoch
      ensures Get(g.epochExecutions, epoch) == Number(events + [e], None, InEpoch(epoch))
    {
      NumberMore(events, e, None, InEpoch(epoch));
      if e.Record? {
        BumpAt(f.epochExecutions, e.clock.epoch, epoch);
      }
    }
  }

  lemma BumpAt<K(!new)>(m: map<K, nat>, key: K, other: K)
    ensures Get(Bump(m, key, 1), other) == Get(m, other) + if other == key then 1 else 0
  {
  }

  lemma EpochsNext(t: Totals, events: seq<Event>, e: Event)
    requires EpochsAre(t.figures, events)
    ensures EpochsAre(Apply(t, e).figures, events + [e])
  {
    hide SketchMs, Readings, RecordedMs, StepRecorded, Bump, MaxReal;
    forall epoch
      ensures SketchMs(Readings(events + [e], None, EpochLatency(epoch))) ==
              RecordedSome(SketchMs(Readings(events, None, EpochLatency(epoch))), Reading(e, None, EpochLatency(epoch)))
      ensures Readings(events + [e], None, EpochLatency(epoch)) != [] <==>
              Readings(events, None, EpochLatency(epoch)) != [] || Reading(e, None, EpochLatency(epoch)).Some?
    {
      SketchNext(events, e, None, EpochLatency(epoch));
      ReadingsMore(events, e, None, EpochLatency(epoch));
    }
  }

  lemma NothingYet(id: Option<string>, kind: Kind, tally: Tally)
    ensures Readings([], id, kind) == [] && SketchMs(Readings([], id, kind)) == EMPTY && Greatest(Readings([], id, kind)) == 0.0
    ensures Number([], id, tally) == 0
  {
    hide Inserted, Micros;
    assert Filed([]) == [];
  }

  lemma NoSketches()
    ensures SketchesAre(NO_FIGURES, [])
  {
    hide SketchMs, Readings, Greatest;
    NothingYet(None, Latency, Errors);
    NothingYet(None, FailureTime, Errors);
    NothingYet(None, Drift, Errors);
    NothingYet(None, Queueing, Errors);
    NothingYet(None, LoopLag, Errors);
    NothingYet(None, AfterEnd, Errors);
  }

  lemma NoNumbers()
    ensures NumbersAre(NO_FIGURES, []) && ClassesAre(NO_FIGURES, [])
  {
    hide Number;
    forall tally
      ensures Number([], None, tally) == 0
    {
      NothingYet(None, Latency, tally);
    }
  }

  lemma NoEpochs()
    ensures EpochsAre(NO_FIGURES, [])
  {
    hide SketchMs, Readings;
    forall epoch
      ensures Readings([], None, EpochLatency(epoch)) == [] && SketchMs(Readings([], None, EpochLatency(epoch))) == EMPTY
    {
      NothingYet(None, EpochLatency(epoch), Errors);
    }
  }

  ghost predicate FiguresAre(f: Figures, events: seq<Event>) {
    SketchesAre(f, events) && NumbersAre(f, events) && ClassesAre(f, events) && EpochsAre(f, events)
  }

  lemma FiguresNext(t: Totals, events: seq<Event>, e: Event)
    requires FiguresAre(t.figures, events)
    ensures FiguresAre(Apply(t, e).figures, events + [e])
  {
    hide Apply, SketchesAre, NumbersAre, ClassesAre, EpochsAre;
    SketchesNext(t, events, e);
    NumbersNext(t, events, e);
    ClassesNext(t, events, e);
    EpochsNext(t, events, e);
  }

  /** And so are the figures of the run, over the records of all its steps: the counts by what they
    * count, the sketches and the extremes by the readings they are of, epoch by epoch. */
  lemma {:induction false} FiguresAreTheRecords(events: seq<Event>)
    ensures FiguresAre(Feed(events).figures, events)
  {
    hide Apply, FiguresAre;
    if events == [] {
      NothingFed(events);
    } else {
      var before, last := events[..|events| - 1], events[|events| - 1];
      FiguresAreTheRecords(before);
      assert events == before + [last];
      FiguresNext(Feed(before), before, last);
    }
  }

  lemma NothingFed(events: seq<Event>)
    requires events == []
    ensures FiguresAre(Feed(events).figures, events)
  {
    hide SketchesAre, NumbersAre, ClassesAre, EpochsAre;
    NoSketches();
    NoNumbers();
    NoEpochs();
    assert Feed(events) == NO_TOTALS;
  }
}
