/** The merge of a fleet's reports, told from its workers' lives: every record under the epoch clock
  * its worker then had, every search entering and leaving in any interleaving. */
module FleetLives {
  import opened Wrappers
  import opened Histogram
  import opened Results
  import opened FleetMerge
  import opened MergeSummaries
  import opened MergeTheorems
  import Intervals

  type Op = Intervals.Op

  /** What an operation is to the totals, under the clock in force: a record, a reading, a
    * follow-up, or nothing. */
  function EventOf(clock: EpochClock, op: Op): Option<Event> {
    match op
    case RecordOp(r, now) => Some(Record(r, clock, now))
    case LagOp(ms) => Some(Lag(ms))
    case FollowUpOp(runDuration, finished) => Some(Straggler(runDuration, finished))
    case _ => None
  }

  /** A worker's records and readings, each record under the clock that the operations before it
    * have set. */
  function EventsOf(ops: seq<Op>): seq<Event> {
    if ops == [] then []
    else
      var before := ops[..|ops| - 1];
      match EventOf(Intervals.LifeOf(before).run.clock, ops[|ops| - 1])
      case None => EventsOf(before)
      case Some(e) => EventsOf(before) + [e]
  }

  lemma LivedApplies(l: Intervals.Life, op: Op)
    ensures Intervals.Lived(l, op).run.totals ==
            match EventOf(l.run.clock, op) case None => l.run.totals case Some(e) => Apply(l.run.totals, e)
  {
    hide Recorded, Lagged, FollowedUp, RecordedMs, IntervalAdded;
  }

  lemma FeedOneMore(events: seq<Event>, e: Event)
    ensures Feed(events + [e]) == Apply(Feed(events), e)
  {
    hide Apply;
    assert (events + [e])[..|events|] == events;
  }

  /** A worker's totals are the feed of those. */
  lemma {:induction false} LifeIsFeed(ops: seq<Op>)
    ensures Intervals.LifeOf(ops).run.totals == Feed(EventsOf(ops))
  {
    hide Apply, EventOf, Intervals.Lived;
    if ops != [] {
      var before, op := ops[..|ops| - 1], ops[|ops| - 1];
      LifeIsFeed(before);
      LivedApplies(Intervals.LifeOf(before), op);
      var event := EventOf(Intervals.LifeOf(before).run.clock, op);
      if event.Some? {
        FeedOneMore(EventsOf(before), event.value);
      }
    }
  }

  // ------------------------------------------------------------- a fleet's operations

  /** One operation on one worker. */
  datatype Act = Act(worker: nat, op: Op)

  /** A worker's own operations, in order. */
  function Own(acts: seq<Act>, w: nat): seq<Op> {
    if acts == [] then []
    else Own(acts[..|acts| - 1], w) + if acts[|acts| - 1].worker == w then [acts[|acts| - 1].op] else []
  }

  /** The searches that start and end, on whichever worker. */
  function MovesIn(acts: seq<Act>): seq<Move> {
    if acts == [] then []
    else
      var last := acts[|acts| - 1];
      MovesIn(acts[..|acts| - 1]) +
      match last.op
      case EnterOp => [MergeTheorems.Move(last.worker, true)]
      case LeaveOp => [MergeTheorems.Move(last.worker, false)]
      case _ => []
  }

  lemma OwnNext(acts: seq<Act>, w: nat)
    requires acts != []
    ensures var before, last := Own(acts[..|acts| - 1], w), acts[|acts| - 1];
      Intervals.LifeOf(Own(acts, w)) ==
        if last.worker == w then Intervals.Lived(Intervals.LifeOf(before), last.op) else Intervals.LifeOf(before)
  {
    hide Intervals.Lived;
    var own, before := Own(acts, w), Own(acts[..|acts| - 1], w);
    if acts[|acts| - 1].worker == w {
      assert own[..|own| - 1] == before;
    } else {
      assert own == before;
    }
  }

  /** An operation starts a search, ends one, or does neither. */
  function AsMove(op: Op): Option<bool> {
    match op
    case EnterOp => Some(true)
    case LeaveOp => Some(false)
    case _ => None
  }

  lemma MovesNext(acts: seq<Act>, w: nat)
    requires acts != []
    ensures var before, last := RunOf(MovesIn(acts[..|acts| - 1]), w), acts[|acts| - 1];
      RunOf(MovesIn(acts), w) ==
        if last.worker == w && AsMove(last.op).Some? then MergeTheorems.Moved(before, AsMove(last.op).value) else before
  {
    hide MergeTheorems.Moved;
    var moves, before := MovesIn(acts), MovesIn(acts[..|acts| - 1]);
    if AsMove(acts[|acts| - 1].op).Some? {
      assert moves[..|moves| - 1] == before;
    } else {
      assert moves == before;
    }
  }

  lemma LivedMoves(l: Intervals.Life, run: RunAgg, op: Op)
    requires l.run.inFlight == run.inFlight && l.run.peak == run.peak
    ensures var (after, moved) := (Intervals.Lived(l, op).run, if AsMove(op).Some? then MergeTheorems.Moved(run, AsMove(op).value) else run);
      after.inFlight == moved.inFlight && after.peak == moved.peak
  {
    hide Recorded, Lagged, FollowedUp, RecordedMs, IntervalAdded;
  }

  lemma {:induction false} MovesAgree(acts: seq<Act>, w: nat)
    ensures RunOf(MovesIn(acts), w).inFlight == Intervals.LifeOf(Own(acts, w)).run.inFlight
    ensures RunOf(MovesIn(acts), w).peak == Intervals.LifeOf(Own(acts, w)).run.peak
  {
    if acts != [] {
      hide MovesIn, Own, RunOf, Intervals.Lived, Intervals.LifeOf, AsMove;
      var before, last := acts[..|acts| - 1], acts[|acts| - 1];
      MovesAgree(before, w);
      OwnNext(acts, w);
      MovesNext(acts, w);
      LivedMoves(Intervals.LifeOf(Own(before, w)), RunOf(MovesIn(before), w), last.op);
    }
  }

  /** How a worker ended, as its final report says. */
  datatype Ending = Ending(outcome: Option<string>, valid: bool)

  function SharesOf(acts: seq<Act>, endings: seq<Ending>): (shares: seq<Share>)
    ensures |shares| == |endings|
  {
    seq(|endings|, w requires 0 <= w < |endings| =>
      Share(EventsOf(Own(acts, w)), Intervals.LifeOf(Own(acts, w)).run.peak, endings[w].outcome, endings[w].valid))
  }

  lemma {:induction false} SummaryAt(shares: seq<Share>, w: nat)
    requires w < |shares|
    ensures Ordered(Feed(shares[w].events).steps)
    ensures Summaries(shares)[w] == SummaryOf(Feed(shares[w].events), shares[w].peak, shares[w].outcome, shares[w].valid)
  {
    hide Feed, StepDocs, ListedEpochs, Ordered;
    FeedOrdered(shares[w].events);
    if w < |shares| - 1 {
      SummaryAt(shares[..|shares| - 1], w);
    }
  }

  lemma {:induction false} PeaksTie(shares: seq<Share>, moves: seq<Move>)
    requires forall w :: 0 <= w < |shares| ==> shares[w].peak == RunOf(moves, w).peak
    ensures PeakSum(Summaries(shares)) == PeaksAdded(moves, |shares|)
  {
    hide RunOf, Feed, StepDocs, ListedEpochs, Ordered;
    if shares != [] {
      var before := shares[..|shares| - 1];
      PeaksTie(before, moves);
      FeedOrdered(shares[|before|].events);
      assert Summaries(shares)[..|before|] == Summaries(before);
    }
  }

  /** However the operations of a fleet's workers interleave: each report is its worker's own
    * snapshot; merged, they have the figures and the steps of one worker fed every stream in turn;
    * and the merged peak is at least the most the fleet ever had in flight at once. */
  lemma FleetReadsAsOneWorker(acts: seq<Act>, endings: seq<Ending>)
    ensures var shares := SharesOf(acts, endings);
      && (forall w :: 0 <= w < |endings| ==>
            var run := Intervals.LifeOf(Own(acts, w)).run;
            Ordered(run.totals.steps) && Summaries(shares)[w] == SummaryOf(run.totals, run.peak, endings[w].outcome, endings[w].valid))
      && MergedFigures(Summaries(shares)) == Feed(Streams(Events(shares))).figures
      && MergedSteps(Summaries(shares)) == Feed(Streams(Events(shares))).steps
      && TruePeak(MovesIn(acts), |endings|) <= PeakSum(Summaries(shares))
  {
    hide Feed, Summaries, SummaryOf, Streams, MergedFigures, MergedSteps, RunOf, TruePeak, PeakSum, PeaksAdded, Ordered, Own, MovesIn, EventsOf;
    var shares, moves := SharesOf(acts, endings), MovesIn(acts);
    MergeIsOneWorker(shares);
    forall w | 0 <= w < |endings|
      ensures var run := Intervals.LifeOf(Own(acts, w)).run;
        Ordered(run.totals.steps) && Summaries(shares)[w] == SummaryOf(run.totals, run.peak, endings[w].outcome, endings[w].valid)
      ensures shares[w].peak == RunOf(moves, w).peak
    {
      LifeIsFeed(Own(acts, w));
      SummaryAt(shares, w);
      MovesAgree(acts, w);
    }
    PeaksTie(shares, moves);
    SummedPeakBoundsTruePeak(moves, |endings|);
  }
}
