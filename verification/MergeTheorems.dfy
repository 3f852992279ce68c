/** What the fleet merge promises: the same figures as one worker that had done everything. */
module MergeTheorems {
  import opened Wrappers
  import opened Counts
  import opened Histogram
  import opened Results
  import opened FleetMerge
  import opened MergeSummaries

  /** What one worker saw and how it ended. */
  datatype Share = Share(events: seq<Event>, peak: nat, outcome: Option<string>, valid: bool)

  function Events(shares: seq<Share>): (streams: seq<seq<Event>>)
    ensures |streams| == |shares| && forall i :: 0 <= i < |shares| ==> streams[i] == shares[i].events
  {
    seq(|shares|, i requires 0 <= i < |shares| => shares[i].events)
  }

  /** Every worker's final report. */
  ghost function Summaries(shares: seq<Share>): (summaries: seq<Summary>)
    ensures |summaries| == |shares|
  {
    if shares == [] then []
    else
      var last := shares[|shares| - 1];
      FeedOrdered(last.events);
      Summaries(shares[..|shares| - 1]) + [SummaryOf(Feed(last.events), last.peak, last.outcome, last.valid)]
  }

  // ------------------------------------------------------------------- figures

  lemma {:induction false} FiguresAreOneWorkers(shares: seq<Share>)
    ensures MergedFigures(Summaries(shares)) == CombineAll(FeedEach(Events(shares))).figures
  {
    hide CombineFigures, CombineSteps, Apply, Ordered;
    if shares != [] {
      var before := shares[..|shares| - 1];
      FiguresAreOneWorkers(before);
      FeedOrdered(shares[|shares| - 1].events);
      assert Events(shares)[..|shares| - 1] == Events(before);
      assert Summaries(shares)[..|shares| - 1] == Summaries(before);
      assert FeedEach(Events(shares))[..|shares| - 1] == FeedEach(Events(before));
    }
  }

  // --------------------------------------------------------------------- steps

  /** Steps keyed by their own id, each listed once. */
  ghost predicate Keyed(s: Steps) {
    && Ordered(s)
    && (forall id :: id in s.table ==> s.table[id].stepId == id)
    && (forall i, j :: 0 <= i < j < |s.order| ==> s.order[i] != s.order[j])
  }

  lemma {:induction false} FeedKeyed(events: seq<Event>)
    ensures Keyed(Feed(events).steps)
  {
    hide Counted, Stamped, AddedCounts, AddedSketches, Lagged, FollowedUp;
    if events != [] {
      FeedKeyed(events[..|events| - 1]);
    }
  }

  /** The first k steps of a worker. */
  function Prefix(t: Steps, k: nat): Steps
    requires k <= |t.order|
  {
    Steps(t.order[..k], map id | id in t.table && id in t.order[..k] :: t.table[id])
  }

  lemma FromNothing(counts: StepCounts, sketches: StepSketches)
    ensures CombineCounts(NO_COUNTS, counts) == counts
    ensures CombineSketches(NO_SKETCHES, sketches) == sketches
  {
    hide Merged, Add;
    MergeEmpty(sketches.latency);
    MergeEmpty(sketches.service);
    MergeEmpty(sketches.dispatch);
    MergeEmpty(sketches.ttfr);
    MergeEmpty(sketches.failure);
    MergeEmpty(sketches.cold);
    MergeEmpty(sketches.warm);
    AddEmpty(counts.errorsByClass);
  }

  function DocAt(t: Steps, k: nat): StepDoc
    requires k < |t.order| && t.order[k] in t.table
  {
    StepDoc(t.order[k], t.table[t.order[k]].stepClass, t.table[t.order[k]].counts)
  }

  function SketchesOf(t: Steps): map<string, StepSketches> {
    map id | id in t.table :: t.table[id].sketches
  }

  lemma {:induction false} UnseenMore(order: seq<string>, id: string, table: map<string, StepAgg>)
    ensures Unseen(order + [id], table) == Unseen(order, table) + if id in table then [] else [id]
  {
    assert (order + [id])[..|order|] == order;
  }

  /** The step after the first k, looked up before it is folded in. */
  lemma EntryBefore(s: Steps, before: Steps, id: string)
    requires id !in before.table
    ensures id in CombineSteps(s, before).table <==> id in s.table
    ensures id in s.table ==> CombineSteps(s, before).table[id] == s.table[id]
  {
    hide CombineStep;
  }

  lemma NewEntry(c: Steps, t: Steps, id: string, sketches: map<string, StepSketches>)
    requires id in t.table && t.table[id].stepId == id
    requires id in sketches && sketches[id] == t.table[id].sketches
    ensures AbsorbStep(c, StepDoc(id, t.table[id].stepClass, t.table[id].counts), sketches) ==
            Steps(if id in c.table then c.order else c.order + [id],
                  c.table[id := if id in c.table then CombineStep(c.table[id], t.table[id]) else t.table[id]])
  {
    hide CombineCounts, CombineSketches;
    FromNothing(t.table[id].counts, t.table[id].sketches);
  }

  lemma PrefixNext(t: Steps, k: nat)
    requires Keyed(t) && k < |t.order|
    ensures Prefix(t, k + 1).order == Prefix(t, k).order + [t.order[k]]
    ensures t.order[k] !in Prefix(t, k).table
    ensures Prefix(t, k + 1).table == Prefix(t, k).table[t.order[k] := t.table[t.order[k]]]
  {
    assert t.order[..k + 1] == t.order[..k] + [t.order[k]];
  }

  lemma CombineNext(s: Steps, before: Steps, id: string, step: StepAgg)
    requires id !in before.table
    ensures CombineSteps(s, Steps(before.order + [id], before.table[id := step])) ==
            Steps(CombineSteps(s, before).order + if id in s.table then [] else [id],
                  CombineSteps(s, before).table[id := if id in s.table then CombineStep(s.table[id], step) else step])
  {
    hide CombineStep, CombineEntry, Unseen;
    var after := Steps(before.order + [id], before.table[id := step]);
    UnseenMore(before.order, id, s.table);
    var left := CombineSteps(s, after).table;
    var right := CombineSteps(s, before).table[id := if id in s.table then CombineStep(s.table[id], step) else step];
    assert left.Keys == right.Keys;
    forall key | key in left
      ensures left[key] == right[key]
    {
      OtherEntry(s, before, after, id, key);
    }
  }

  lemma OtherEntry(s: Steps, before: Steps, after: Steps, id: string, key: string)
    requires after.table.Keys == before.table.Keys + {id} && (key in s.table || key in after.table)
    requires forall k :: k in before.table && k != id ==> after.table[k] == before.table[k]
    ensures key != id ==> (key in s.table || key in before.table) && CombineEntry(s, after, key) == CombineEntry(s, before, key)
    ensures key == id ==> CombineEntry(s, after, key) == if id in s.table then CombineStep(s.table[id], after.table[id]) else after.table[id]
  {
    hide CombineStep;
  }

  /** The step after the first k, folded in. */
  lemma AbsorbNext(s: Steps, t: Steps, k: nat)
    requires Keyed(t) && k < |t.order|
    ensures AbsorbStep(CombineSteps(s, Prefix(t, k)), DocAt(t, k), SketchesOf(t)) == CombineSteps(s, Prefix(t, k + 1))
  {
    hide CombineSteps, CombineStep, AbsorbStep, Prefix;
    var id, before := t.order[k], Prefix(t, k);
    PrefixNext(t, k);
    EntryBefore(s, before, id);
    NewEntry(CombineSteps(s, before), t, id, SketchesOf(t));
    CombineNext(s, before, id, t.table[id]);
    assert Prefix(t, k + 1) == Steps(before.order + [id], before.table[id := t.table[id]]);
  }

  lemma {:induction false} AbsorbPrefix(s: Steps, t: Steps, k: nat)
    requires Keyed(t) && Ordered(s) && k <= |t.order|
    ensures AbsorbSteps(s, StepDocs(t, t.order[..k]), SketchesOf(t)) == CombineSteps(s, Prefix(t, k))
  {
    hide CombineSteps, AbsorbStep, Prefix, Keyed;
    if k == 0 {
      NothingAbsorbed(s, t);
      assert t.order[..0] == [];
    } else {
      AbsorbPrefix(s, t, k - 1);
      AbsorbNext(s, t, k - 1);
      KeyedIsOrdered(t);
      DocsNext(t, k - 1);
    }
  }

  lemma KeyedIsOrdered(t: Steps)
    requires Keyed(t)
    ensures Ordered(t)
  {
  }

  lemma NothingAbsorbed(s: Steps, t: Steps)
    ensures CombineSteps(s, Prefix(t, 0)) == s
  {
    assert CombineSteps(s, Prefix(t, 0)).table == s.table;
  }

  lemma DocsNext(t: Steps, k: nat)
    requires Ordered(t) && k < |t.order|
    ensures StepDocs(t, t.order[..k + 1]) == StepDocs(t, t.order[..k]) + [DocAt(t, k)]
  {
    assert t.order[..k + 1][..k] == t.order[..k];
  }

  /** Folding in a whole report is combining with the run behind it. */
  lemma AbsorbWhole(s: Steps, t: Steps)
    requires Keyed(t) && Ordered(s)
    ensures AbsorbSteps(s, StepDocs(t, t.order), SketchesOf(t)) == CombineSteps(s, t)
  {
    hide AbsorbSteps, StepDocs, CombineSteps;
    AbsorbPrefix(s, t, |t.order|);
    assert t.order[..|t.order|] == t.order;
    assert Prefix(t, |t.order|) == t;
  }

  lemma {:induction false} StepsAreOneWorkers(shares: seq<Share>)
    ensures MergedSteps(Summaries(shares)) == CombineAll(FeedEach(Events(shares))).steps
  {
    hide CombineFigures, CombineSteps, Apply, AbsorbSteps, StepDocs, Keyed;
    if shares != [] {
      var before, last := shares[..|shares| - 1], shares[|shares| - 1];
      StepsAreOneWorkers(before);
      FeedOrdered(last.events);
      FeedKeyed(last.events);
      MergedOrdered(Summaries(before));
      AbsorbWhole(MergedSteps(Summaries(before)), Feed(last.events).steps);
      assert Events(shares)[..|shares| - 1] == Events(before);
      assert Summaries(shares)[..|shares| - 1] == Summaries(before);
      assert FeedEach(Events(shares))[..|shares| - 1] == FeedEach(Events(before));
    }
  }

  /** The merge of the workers' reports has the figures, the sketches and the steps, in the same
    * order, of one worker fed every stream in turn. */
  lemma MergeIsOneWorker(shares: seq<Share>)
    ensures MergedFigures(Summaries(shares)) == Feed(Streams(Events(shares))).figures
    ensures MergedSteps(Summaries(shares)) == Feed(Streams(Events(shares))).steps
  {
    hide Feed, Streams, FeedEach, Summaries, MergedFigures, MergedSteps;
    FiguresAreOneWorkers(shares);
    StepsAreOneWorkers(shares);
    FleetIsOneWorker(Events(shares));
  }

  // -------------------------------------------------------------------- epochs

  /** A worker that executed anything in an epoch lists it. */
  ghost predicate ListsAll(f: Figures, epoch: nat) {
    Get(f.epochExecutions, epoch) > 0 ==> epoch in f.epochLatency
  }

  ghost predicate AllList(shares: seq<Share>, epoch: nat) {
    forall i :: 0 <= i < |shares| ==> ListsAll(Feed(shares[i].events).figures, epoch)
  }

  lemma ListedAt(f: Figures, epoch: nat)
    ensures Get(ListedEpochs(f), epoch) <= Get(f.epochExecutions, epoch)
    ensures Get(ListedEpochs(f), epoch) == Get(f.epochExecutions, epoch) <==> ListsAll(f, epoch)
  {
  }

  /** The merged executions of an epoch are never too many, and are all of them exactly when every
    * worker that executed anything in that epoch had a success there. */
  lemma {:induction false} EpochsExactWhenListed(shares: seq<Share>, epoch: nat)
    ensures Get(MergedEpochs(Summaries(shares)), epoch) <= Get(MergedFigures(Summaries(shares)).epochExecutions, epoch)
    ensures Get(MergedEpochs(Summaries(shares)), epoch) == Get(MergedFigures(Summaries(shares)).epochExecutions, epoch)
       <==> AllList(shares, epoch)
  {
    hide ListsAll, Get, Feed, ListedEpochs, Summaries, MergedEpochs, MergedFigures, AllList;
    if shares == [] {
      NoCounts(epoch);
    } else {
      var before, last := shares[..|shares| - 1], shares[|shares| - 1];
      EpochsExactWhenListed(before, epoch);
      ListedAt(Feed(last.events).figures, epoch);
      OneMoreReport(shares, epoch);
      AllListNext(shares, epoch);
    }
  }

  lemma OneMoreReport(shares: seq<Share>, epoch: nat)
    requires shares != []
    ensures var before, last := shares[..|shares| - 1], Feed(shares[|shares| - 1].events).figures;
      && Get(MergedEpochs(Summaries(shares)), epoch) ==
           Get(MergedEpochs(Summaries(before)), epoch) + Get(ListedEpochs(last), epoch)
      && Get(MergedFigures(Summaries(shares)).epochExecutions, epoch) ==
           Get(MergedFigures(Summaries(before)).epochExecutions, epoch) + Get(last.epochExecutions, epoch)
  {
    hide Get, Feed, ListedEpochs, StepDocs, Merged, CombineEpochs;
    FeedOrdered(shares[|shares| - 1].events);
    var summaries := Summaries(shares);
    assert summaries[..|summaries| - 1] == Summaries(shares[..|shares| - 1]);
  }

  lemma AllListNext(shares: seq<Share>, epoch: nat)
    requires shares != []
    ensures AllList(shares, epoch) <==>
            AllList(shares[..|shares| - 1], epoch) && ListsAll(Feed(shares[|shares| - 1].events).figures, epoch)
  {
    hide ListsAll, Feed;
    var before := shares[..|shares| - 1];
    if AllList(shares, epoch) {
      forall i | 0 <= i < |before|
        ensures ListsAll(Feed(before[i].events).figures, epoch)
      {
        assert ListsAll(Feed(shares[i].events).figures, epoch);
      }
    } else {
      var i :| 0 <= i < |shares| && !ListsAll(Feed(shares[i].events).figures, epoch);
      assert i < |before| ==> before[i] == shares[i];
    }
  }

  lemma NoCounts(epoch: nat)
    ensures Get(MergedEpochs(Summaries([])), epoch) == 0
    ensures Get(MergedFigures(Summaries([])).epochExecutions, epoch) == 0
    ensures AllList([], epoch)
  {
  }

  /** For instance: a worker all of whose searches in an epoch failed loses them from the merge. */
  lemma FailedEpochIsLost(r: StepRecord, clock: EpochClock, now: real)
    requires !r.ok && !r.Cancelled() && clock.Running()
    ensures Get(MergedEpochs(Summaries([Share([Record(r, clock, now)], 0, None, true)])), clock.epoch) <
            Get(MergedFigures(Summaries([Share([Record(r, clock, now)], 0, None, true)])).epochExecutions, clock.epoch)
  {
    hide Summaries, MergedEpochs, MergedFigures, StepRecorded;
    var shares := [Share([Record(r, clock, now)], 0, None, true)];
    var events := shares[0].events;
    assert events[..|events| - 1] == [];
    assert Feed(events) == Apply(NO_TOTALS, events[0]);
    EpochsExactWhenListed(shares, clock.epoch);
    assert !ListsAll(Feed(shares[0].events).figures, clock.epoch);
  }

  // -------------------------------------------------------- order independence

  lemma EpochsCommute(a: map<nat, Sketch>, b: map<nat, Sketch>)
    ensures CombineEpochs(a, b) == CombineEpochs(b, a)
  {
    hide Merged;
    forall e | e in a.Keys + b.Keys
      ensures CombineEpochs(a, b)[e] == CombineEpochs(b, a)[e]
    {
      MergeCommutes(EpochSketch(a, e), EpochSketch(b, e));
    }
  }

  lemma EpochsAssociate(a: map<nat, Sketch>, b: map<nat, Sketch>, c: map<nat, Sketch>)
    ensures CombineEpochs(CombineEpochs(a, b), c) == CombineEpochs(a, CombineEpochs(b, c))
  {
    hide Merged;
    MergeEmpty(EMPTY);
    var left, right := CombineEpochs(CombineEpochs(a, b), c), CombineEpochs(a, CombineEpochs(b, c));
    assert left.Keys == right.Keys;
    forall e | e in left
      ensures left[e] == right[e]
    {
      EpochOfBoth(a, b, e);
      EpochOfBoth(b, c, e);
      MergeAssociates(EpochSketch(a, e), EpochSketch(b, e), EpochSketch(c, e));
    }
  }

  lemma EpochOfBoth(a: map<nat, Sketch>, b: map<nat, Sketch>, e: nat)
    ensures EpochSketch(CombineEpochs(a, b), e) == Merged(EpochSketch(a, e), EpochSketch(b, e))
  {
    hide Merged;
    MergeEmpty(EMPTY);
  }

  lemma FiguresCommute(a: Figures, b: Figures)
    ensures CombineFigures(a, b) == CombineFigures(b, a)
  {
    hide Merged, Add, CombineEpochs;
    AddCommutes(a.errorsByClass, b.errorsByClass);
    AddCommutes(a.epochExecutions, b.epochExecutions);
    MergeCommutes(a.latency, b.latency);
    MergeCommutes(a.failure, b.failure);
    MergeCommutes(a.drift, b.drift);
    MergeCommutes(a.queued, b.queued);
    MergeCommutes(a.loopLag, b.loopLag);
    MergeCommutes(a.afterEnd, b.afterEnd);
    EpochsCommute(a.epochLatency, b.epochLatency);
  }

  lemma FiguresAssociate(a: Figures, b: Figures, c: Figures)
    ensures CombineFigures(CombineFigures(a, b), c) == CombineFigures(a, CombineFigures(b, c))
  {
    hide Merged, Add, CombineEpochs;
    AddAssociates(a.errorsByClass, b.errorsByClass, c.errorsByClass);
    AddAssociates(a.epochExecutions, b.epochExecutions, c.epochExecutions);
    MergeAssociates(a.latency, b.latency, c.latency);
    MergeAssociates(a.failure, b.failure, c.failure);
    MergeAssociates(a.drift, b.drift, c.drift);
    MergeAssociates(a.queued, b.queued, c.queued);
    MergeAssociates(a.loopLag, b.loopLag, c.loopLag);
    MergeAssociates(a.afterEnd, b.afterEnd, c.afterEnd);
    EpochsAssociate(a.epochLatency, b.epochLatency, c.epochLatency);
  }

  function Without(s: seq<Summary>, i: nat): seq<Summary>
    requires i < |s|
  {
    s[..i] + s[i + 1..]
  }

  /** Any one report might as well have come last. */
  lemma {:induction false} MovedLast(s: seq<Summary>, i: nat)
    requires i < |s|
    ensures MergedFigures(s) == CombineFigures(MergedFigures(Without(s, i)), s[i].figures)
    ensures MergedEpochs(s) == Add(MergedEpochs(Without(s, i)), s[i].epochs)
    ensures PeakSum(s) == PeakSum(Without(s, i)) + s[i].peakInFlight
    decreases |s|
  {
    hide CombineFigures, Add;
    var n := |s| - 1;
    var before, last := s[..n], s[n];
    if i == n {
      assert Without(s, i) == before;
    } else {
      MovedLast(before, i);
      var rest, others := Without(before, i), Without(s, i);
      assert others[..|others| - 1] == rest && others[|others| - 1] == last;
      FiguresSwap(MergedFigures(rest), s[i].figures, last.figures);
      CountsSwap(MergedEpochs(rest), s[i].epochs, last.epochs);
    }
  }

  lemma FiguresSwap(a: Figures, b: Figures, c: Figures)
    ensures CombineFigures(CombineFigures(a, b), c) == CombineFigures(CombineFigures(a, c), b)
  {
    hide CombineFigures;
    FiguresAssociate(a, b, c);
    FiguresCommute(b, c);
    FiguresAssociate(a, c, b);
  }

  lemma CountsSwap(a: map<nat, nat>, b: map<nat, nat>, c: map<nat, nat>)
    ensures Add(Add(a, b), c) == Add(Add(a, c), b)
  {
    hide Add;
    AddAssociates(a, b, c);
    AddCommutes(b, c);
    AddAssociates(a, c, b);
  }

  lemma SameMembers(a: seq<Summary>, b: seq<Summary>, outcome: string)
    requires multiset(a) == multiset(b)
    ensures Reports(a, outcome) <==> Reports(b, outcome)
    ensures AllValid(a) <==> AllValid(b)
  {
    assert forall i :: 0 <= i < |a| ==> a[i] in multiset(b);
    assert forall i :: 0 <= i < |b| ==> b[i] in multiset(a);
    assert forall s :: s in multiset(a) ==> s in a;
    assert forall s :: s in multiset(b) ==> s in b;
  }

  lemma RestOfReports(a: seq<Summary>, b: seq<Summary>) returns (i: nat)
    requires multiset(a) == multiset(b) && a != []
    ensures i < |b| && b[i] == a[|a| - 1]
    ensures multiset(a[..|a| - 1]) == multiset(Without(b, i))
  {
    var last := a[|a| - 1];
    assert last in multiset(b);
    i :| 0 <= i < |b| && b[i] == last;
    assert a == a[..|a| - 1] + [last];
    assert b == b[..i] + [last] + b[i + 1..];
    var rest, others := multiset(a[..|a| - 1]), multiset(Without(b, i));
    assert rest + multiset{last} == others + multiset{last} by {
      assert multiset(b) == multiset(b[..i]) + multiset{last} + multiset(b[i + 1..]);
    }
    assert rest == (rest + multiset{last}) - multiset{last};
    assert others == (others + multiset{last}) - multiset{last};
  }

  lemma {:induction false} FiguresIgnoreOrder(a: seq<Summary>, b: seq<Summary>)
    requires multiset(a) == multiset(b)
    ensures MergedFigures(a) == MergedFigures(b) && MergedEpochs(a) == MergedEpochs(b) && PeakSum(a) == PeakSum(b)
    decreases |a|
  {
    hide CombineFigures, Add, Without;
    if a == [] {
      assert |multiset(a)| == |multiset(b)|;
      assert b == [];
    } else {
      var i := RestOfReports(a, b);
      FiguresIgnoreOrder(a[..|a| - 1], Without(b, i));
      MovedLast(b, i);
    }
  }

  // ---------------------------------------------------------------------- peaks

  /** A search starts or ends on a worker. */
  datatype Move = Move(worker: nat, enters: bool)

  function Moved(s: RunAgg, enters: bool): RunAgg {
    if enters then Entered(s) else Left(s)
  }

  /** One worker's run, through its own moves only. */
  function RunOf(moves: seq<Move>, w: nat): RunAgg {
    if moves == [] then NEW_RUN
    else
      var last, before := moves[|moves| - 1], RunOf(moves[..|moves| - 1], w);
      if last.worker == w then Moved(before, last.enters) else before
  }

  /** One run that sees every move. */
  function RunOfAll(moves: seq<Move>): RunAgg {
    if moves == [] then NEW_RUN else Moved(RunOfAll(moves[..|moves| - 1]), moves[|moves| - 1].enters)
  }

  function InFlight(moves: seq<Move>, workers: nat): nat {
    if workers == 0 then 0 else InFlight(moves, workers - 1) + RunOf(moves, workers - 1).inFlight
  }

  function PeaksAdded(moves: seq<Move>, workers: nat): nat {
    if workers == 0 then 0 else PeaksAdded(moves, workers - 1) + RunOf(moves, workers - 1).peak
  }

  /** The most the fleet ever had in flight at once. */
  function TruePeak(moves: seq<Move>, workers: nat): nat {
    if moves == [] then 0
    else
      var before := TruePeak(moves[..|moves| - 1], workers);
      if InFlight(moves, workers) > before then InFlight(moves, workers) else before
  }

  lemma {:induction false} InFlightWithinPeaks(moves: seq<Move>, workers: nat)
    ensures InFlight(moves, workers) <= PeaksAdded(moves, workers)
  {
    if workers > 0 {
      InFlightWithinPeaks(moves, workers - 1);
      PeakCovers(moves, workers - 1);
    }
  }

  lemma {:induction false} PeakCovers(moves: seq<Move>, w: nat)
    ensures RunOf(moves, w).inFlight <= RunOf(moves, w).peak
  {
    if moves != [] {
      PeakCovers(moves[..|moves| - 1], w);
    }
  }

  lemma {:induction false} PeaksGrow(moves: seq<Move>, workers: nat)
    requires moves != []
    ensures PeaksAdded(moves[..|moves| - 1], workers) <= PeaksAdded(moves, workers)
  {
    if workers > 0 {
      PeaksGrow(moves, workers - 1);
    }
  }

  /** However the workers' searches interleave, the summed peaks are at least the most that was
    * ever in flight at once. */
  lemma {:induction false} SummedPeakBoundsTruePeak(moves: seq<Move>, workers: nat)
    ensures TruePeak(moves, workers) <= PeaksAdded(moves, workers)
  {
    if moves != [] {
      SummedPeakBoundsTruePeak(moves[..|moves| - 1], workers);
      PeaksGrow(moves, workers);
      InFlightWithinPeaks(moves, workers);
    }
  }

  lemma {:induction false} InFlightNext(moves: seq<Move>, workers: nat)
    requires moves != []
    ensures var last, before := moves[|moves| - 1], moves[..|moves| - 1];
      InFlight(moves, workers) ==
        if last.worker >= workers then InFlight(before, workers)
        else InFlight(before, workers) - RunOf(before, last.worker).inFlight + RunOf(moves, last.worker).inFlight
  {
    if workers > 0 {
      InFlightNext(moves, workers - 1);
    }
  }

  /** One run that saw every move would not have counted more in flight than the workers did. */
  lemma {:induction false} OneRunPeak(moves: seq<Move>, workers: nat)
    requires forall i :: 0 <= i < |moves| ==> moves[i].worker < workers
    ensures RunOfAll(moves).inFlight <= InFlight(moves, workers)
    ensures RunOfAll(moves).peak <= TruePeak(moves, workers)
  {
    if moves != [] {
      OneRunPeak(moves[..|moves| - 1], workers);
      InFlightNext(moves, workers);
    }
  }
}
