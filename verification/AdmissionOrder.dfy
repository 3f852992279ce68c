/** What every operation on the admission queue keeps. */
module AdmissionOrder {
  import opened Wrappers
  import opened AdmissionQueue

  // ------------------------------------------------------------ the invariant

  predicate Increasing(s: seq<nat>) {
    forall i, j :: 0 <= i < j < |s| ==> s[i] < s[j]
  }

  predicate NoRepeats(s: seq<nat>) {
    forall i, j :: 0 <= i < j < |s| ==> s[i] != s[j]
  }

  /** One past the last ticket admitted. */
  function Frontier(admitted: seq<nat>): nat {
    if admitted == [] then 0 else admitted[|admitted| - 1] + 1
  }

  /** The lists in order of arrival: whoever waits came after everybody that was ever admitted. */
  predicate InOrder(q: Queue) {
    && Increasing(q.active) && Increasing(q.pending) && Increasing(q.admitted)
    && Frontier(q.admitted) <= |q.jobs|
    && Below(q.active, Frontier(q.admitted))
    && Below(q.pending, |q.jobs|)
    && (forall i :: 0 <= i < |q.pending| ==> q.pending[i] >= Frontier(q.admitted))
  }

  /** Nothing is counted twice: what was counted is retired. */
  predicate CountedOnce(jobs: seq<Job>, counted: seq<nat>, done: nat) {
    && NoRepeats(counted) && done == |counted| && Below(counted, |jobs|)
    && (forall i :: 0 <= i < |counted| ==> jobs[counted[i]].retired)
  }

  /** A running job has started; a waiting one has not, unless it was finalised; neither is retired. */
  predicate Flagged(jobs: seq<Job>, active: seq<nat>, pending: seq<nat>)
    requires Below(active, |jobs|) && Below(pending, |jobs|)
  {
    && (forall i :: 0 <= i < |active| ==> jobs[active[i]].startedAt.Some? && !jobs[active[i]].retired)
    && (forall i :: 0 <= i < |pending| ==>
          !jobs[pending[i]].retired && (jobs[pending[i]].startedAt.Some? ==> jobs[pending[i]].finalized))
  }

  predicate WithinLimit(q: Queue) {
    q.config.limit > 0 ==> |q.active| <= q.config.limit
  }

  /** Nobody waits while there is room. */
  predicate Conserving(q: Queue) {
    q.pending != [] ==> q.config.limit > 0 && |q.active| == q.config.limit
  }

  predicate Tidy(q: Queue) {
    InRange(q) && InOrder(q) && CountedOnce(q.jobs, q.counted, q.done) && Flagged(q.jobs, q.active, q.pending) && WithinLimit(q)
  }

  predicate Orderly(q: Queue) {
    Tidy(q) && Conserving(q)
  }

  // ---------------------------------------------------------- what a pump keeps

  lemma {:induction false} SweepLists(q: Queue, k: nat, now: real)
    requires InRange(q) && k <= |q.active| && Increasing(q.active)
    ensures var w := SweepTo(q, k, now);
      && Increasing(w.still) && |w.still| <= k
      && (forall i :: 0 <= i < |w.still| ==> k > 0 && w.still[i] <= q.active[k - 1])
  {
    hide IsComplete;
    if k > 0 {
      SweepLists(q, k - 1, now);
    }
  }

  /** What a sweep leaves alone: everything but the retired flags of the jobs it has passed. */
  lemma {:induction false} SweepJobs(q: Queue, k: nat, now: real)
    requires InRange(q) && Increasing(q.active) && k <= |q.active|
    ensures var w := SweepTo(q, k, now);
      && (forall t :: 0 <= t < |q.jobs| ==> w.jobs[t] == q.jobs[t].(retired := w.jobs[t].retired))
      && (forall t :: 0 <= t < |q.jobs| && q.jobs[t].retired ==> w.jobs[t].retired)
      && (forall t :: 0 <= t < |q.jobs| && (k == 0 || t > q.active[k - 1]) ==> w.jobs[t] == q.jobs[t])
  {
    hide IsComplete;
    if k > 0 {
      SweepJobs(q, k - 1, now);
    }
  }

  lemma {:induction false} SweepStill(q: Queue, k: nat, now: real)
    requires InRange(q) && Increasing(q.active) && k <= |q.active|
    requires forall i :: 0 <= i < |q.active| ==> !q.jobs[q.active[i]].retired
    ensures forall i :: 0 <= i < |SweepTo(q, k, now).still| ==> !SweepTo(q, k, now).jobs[SweepTo(q, k, now).still[i]].retired
  {
    hide IsComplete, Counts;
    if k > 0 {
      SweepStill(q, k - 1, now);
      SweepLists(q, k - 1, now);
      SweepJobs(q, k - 1, now);
    }
  }

  lemma {:induction false} SweepCounts(q: Queue, k: nat, now: real)
    requires InRange(q) && CountedOnce(q.jobs, q.counted, q.done) && k <= |q.active|
    ensures CountedOnce(SweepTo(q, k, now).jobs, SweepTo(q, k, now).counted, SweepTo(q, k, now).done)
  {
    hide IsComplete;
    if k > 0 {
      SweepCounts(q, k - 1, now);
      var w, t := SweepTo(q, k - 1, now), q.active[k - 1];
    }
  }

  lemma RetireTidy(q: Queue, now: real)
    requires Tidy(q)
    ensures Tidy(Retire(q, now))
  {
    hide SweepTo, CountedOnce;
    var k := |q.active|;
    SweepLists(q, k, now);
    SweepJobs(q, k, now);
    SweepCounts(q, k, now);
    SweepStill(q, k, now);
    var r := Retire(q, now);
    forall i | 0 <= i < |r.pending|
      ensures r.jobs[r.pending[i]] == q.jobs[q.pending[i]]
    {
    }
    forall i | 0 <= i < |r.active|
      ensures r.jobs[r.active[i]].startedAt.Some? && !r.jobs[r.active[i]].retired
    {
      StillStarted(q, k, now, i);
    }
  }

  lemma {:induction false} StillStarted(q: Queue, k: nat, now: real, i: nat)
    requires InRange(q) && k <= |q.active| && i < |SweepTo(q, k, now).still|
    requires forall j :: 0 <= j < |q.active| ==> q.jobs[q.active[j]].startedAt.Some?
    ensures q.jobs[SweepTo(q, k, now).still[i]].startedAt.Some?
  {
    hide IsComplete;
    if k > 0 && i < |SweepTo(q, k - 1, now).still| {
      StillStarted(q, k - 1, now, i);
    }
  }

  lemma AdmitOneTidy(q: Queue, now: real)
    requires Tidy(q) && q.pending != [] && HasRoom(q.config, |q.active|)
    ensures Tidy(AdmitOne(q, now)) && |AdmitOne(q, now).pending| < |q.pending|
  {
    var t, r := q.pending[0], AdmitOne(q, now);
    assert Frontier(r.admitted) == t + 1;
    assert InOrder(r);
    assert CountedOnce(r.jobs, r.counted, r.done);
    assert Flagged(r.jobs, r.active, r.pending);
  }

  lemma {:induction false} AdmitOrderly(q: Queue, now: real)
    requires Tidy(q)
    ensures Orderly(Admit(q, now))
    decreases |q.pending|
  {
    hide InOrder, CountedOnce, Flagged, AdmitOne;
    if q.pending != [] && HasRoom(q.config, |q.active|) {
      AdmitOneTidy(q, now);
      AdmitOrderly(AdmitOne(q, now), now);
    }
  }

  lemma PumpOrderly(q: Queue, now: real)
    requires Tidy(q)
    ensures Orderly(Pumped(q, now))
  {
    hide Retire, Admit, InOrder, CountedOnce, Flagged;
    RetireTidy(q, now);
    AdmitOrderly(Retire(q, now), now);
    var a := Admit(Retire(q, now), now);
    assert InOrder(Gauged(a)) by { GaugedInOrder(a); }
  }

  lemma GaugedInOrder(q: Queue)
    requires InOrder(q)
    ensures InOrder(Gauged(q))
  {
  }

  // ------------------------------------------------ what every operation keeps

  lemma EnteredTidy(q: Queue, a: Arrival, now: real)
    requires Orderly(q)
    ensures Tidy(Entered(q, a, now))
  {
    hide DurationS;
    var r := Entered(q, a, now);
    assert InOrder(r);
    assert CountedOnce(r.jobs, r.counted, r.done);
    assert Flagged(r.jobs, r.active, r.pending);
  }

  lemma {:induction false} OthersIncreasing(jobs: seq<Job>, tickets: seq<nat>, sid: string)
    requires Below(tickets, |jobs|) && Increasing(tickets)
    ensures Increasing(Others(jobs, tickets, sid)) && |Others(jobs, tickets, sid)| <= |tickets|
    ensures forall i :: 0 <= i < |Others(jobs, tickets, sid)| ==> tickets != [] && Others(jobs, tickets, sid)[i] <= tickets[|tickets| - 1]
  {
    if tickets != [] {
      OthersIncreasing(jobs, tickets[..|tickets| - 1], sid);
    }
  }

  lemma RemovedOrderly(q: Queue, t: nat, now: real)
    requires Tidy(q) && t < |q.jobs|
    ensures Orderly(Removed(q, t, now))
  {
    hide Pumped, Orderly;
    var sid := q.jobs[t].sid;
    OthersIncreasing(q.jobs, q.active, sid);
    OthersIncreasing(q.jobs, q.pending, sid);
    var r := q.(bySid := q.bySid - {sid}, active := Others(q.jobs, q.active, sid), pending := Others(q.jobs, q.pending, sid));
    assert InOrder(r);
    assert Flagged(r.jobs, r.active, r.pending) by { FewerFlagged(q.jobs, q.active, q.pending, sid); }
    PumpOrderly(r, now);
  }

  lemma FewerFlagged(jobs: seq<Job>, active: seq<nat>, pending: seq<nat>, sid: string)
    requires Below(active, |jobs|) && Below(pending, |jobs|) && Flagged(jobs, active, pending)
    ensures Flagged(jobs, Others(jobs, active, sid), Others(jobs, pending, sid))
  {
    hide Others;
  }

  /** A job's own fields may change, as long as it stays retired or not, and stays started. */
  lemma WithJobTidy(q: Queue, t: nat, job: Job)
    requires Tidy(q) && t < |q.jobs| && job.retired == q.jobs[t].retired
    requires q.jobs[t].startedAt.Some? ==> job.startedAt.Some?
    requires job.startedAt.Some? ==> job.finalized || q.jobs[t].startedAt.Some?
    requires q.jobs[t].finalized ==> job.finalized
    ensures Tidy(WithJob(q, t, job))
  {
    var r := WithJob(q, t, job);
    assert InOrder(r);
    assert CountedOnce(r.jobs, r.counted, r.done);
    assert Flagged(r.jobs, r.active, r.pending);
  }

  lemma OrderlyIsTidy(q: Queue)
    requires Orderly(q)
    ensures Tidy(q) && InRange(q)
  {
  }

  lemma OpOrderly(q: Queue, op: Op)
    requires Orderly(q)
    ensures Orderly(Done(q, op))
  {
    hide Tidy, Orderly, Pumped, Removed, Entered;
    OrderlyIsTidy(q);
    match op
    case PumpOp(now) => PumpOrderly(q, now);
    case CreateOp(arrival, now) =>
      PumpOrderly(q, now);
      EnteredTidy(Pumped(q, now), arrival, now);
      PumpOrderly(Entered(Pumped(q, now), arrival, now), now);
    case RemoveOp(t, now) =>
      if t < |q.jobs| {
        RemovedOrderly(q, t, now);
      }
    case CancelOp(t, now) =>
      if t < |q.jobs| {
        RemovedOrderly(q, t, now);
        CancelKeeps(Removed(q, t, now), Removed(q, t, now).cancelled + 1);
      }
    case FinalizeOp(t, now) =>
      if t < |q.jobs| {
        WithJobTidy(q, t, FinalizedJob(q.jobs[t], now));
        PumpOrderly(WithJob(q, t, FinalizedJob(q.jobs[t], now)), now);
      }
    case PauseOp(t, now) =>
      if t < |q.jobs| {
        WithJobTidy(q, t, PausedJob(q.jobs[t], now));
        SameListsOrderly(q, WithJob(q, t, PausedJob(q.jobs[t], now)));
      }
    case ResumeOp(t, now) =>
      if t < |q.jobs| {
        WithJobTidy(q, t, ResumedJob(q.jobs[t], now));
        SameListsOrderly(q, WithJob(q, t, ResumedJob(q.jobs[t], now)));
      }
    case ResetOp(_) => ClearedOrderly(q);
  }

  lemma SameListsOrderly(q: Queue, r: Queue)
    requires Orderly(q) && Tidy(r) && r.active == q.active && r.pending == q.pending && r.config == q.config
    ensures Orderly(r)
  {
  }

  lemma CancelKeeps(q: Queue, n: nat)
    requires Orderly(q)
    ensures Orderly(q.(cancelled := n))
  {
  }

  lemma ClearedOrderly(q: Queue)
    ensures Orderly(Cleared(q))
  {
  }

  /** After every operation, in every run: the jobs that run are within the limit, and as many as
    * the limit whenever anybody waits; jobs are admitted in the order they arrived; no job is in
    * both lists or twice in one; and none is counted done twice. */
  lemma {:induction false} EveryRunIsOrderly(config: Config, ops: seq<Op>)
    ensures Orderly(DoneAll(Empty(config), ops))
  {
    hide Done, Tidy;
    if ops == [] {
      ClearedOrderly(Empty(config));
    } else {
      EveryRunIsOrderly(config, ops[..|ops| - 1]);
      OpOrderly(DoneAll(Empty(config), ops[..|ops| - 1]), ops[|ops| - 1]);
    }
  }

  // ------------------------------------------------------------- for instance

  /** A limit of one, and searches that take a second. */
  const ONE_AT_A_TIME := Config(1, 1000.0, 0.0)

  function Plain(sid: string): Arrival {
    Arrival(sid, 0.0, false, false, false)
  }

  /** One job starts, another waits, and the first is paused when it is already over. */
  function PausedTooLate(): seq<Op> {
    [CreateOp(Plain("a"), 0.0), CreateOp(Plain("b"), 0.0), PauseOp(0, 5.0)]
  }

  predicate OneRuns(q: Queue, pausedAt: Option<real>) {
    && q.config == ONE_AT_A_TIME && q.active == [0] && |q.jobs| > 0
    && q.jobs[0].startedAt == Some(0.0) && q.jobs[0].durationS == 1.0 && !q.jobs[0].finalized && !q.jobs[0].willFail
    && q.jobs[0].pausedAt == pausedAt && q.jobs[0].pausedTotal == 0.0
  }

  /** A pump finds the one slot taken by a job that is not complete. */
  lemma StillTaken(q: Queue, pausedAt: Option<real>, now: real)
    requires InRange(q) && OneRuns(q, pausedAt) && (pausedAt.Some? || now < 1.0)
    ensures Pumped(q, now).jobs == q.jobs && Pumped(q, now).config == q.config
    ensures Pumped(q, now).active == q.active && Pumped(q, now).pending == q.pending
  {
    assert SweepTo(q, 1, now) == SweepTo(q, 0, now).(still := [0]);
  }

  lemma FirstStarts()
    ensures var q := Created(Empty(ONE_AT_A_TIME), Plain("a"), 0.0); OneRuns(q, None) && q.pending == [] && |q.jobs| == 1
  {
    var e := Empty(ONE_AT_A_TIME);
    assert Pumped(e, 0.0) == e;
    var q := Entered(e, Plain("a"), 0.0);
    assert DurationS(ONE_AT_A_TIME, Plain("a"), 0) == 1.0;
    StillTaken(q, None, 0.0);
  }

  lemma SecondWaits(q: Queue)
    requires InRange(q) && OneRuns(q, None) && q.pending == [] && |q.jobs| == 1
    ensures var r := Created(q, Plain("b"), 0.0); OneRuns(r, None) && r.pending == [1] && |r.jobs| == 2
  {
    hide Pumped, DurationS;
    StillTaken(q, None, 0.0);
    StillTaken(Entered(Pumped(q, 0.0), Plain("b"), 0.0), None, 0.0);
  }

  /** It has finished, and the other waits for as long as it stays paused. */
  lemma PausedJobKeepsItsSlot(now: real)
    requires now >= 5.0
    ensures var q := DoneAll(Empty(ONE_AT_A_TIME), PausedTooLate());
      |q.jobs| == 2 && Finished(q.jobs[0], now) && Pumped(q, now).active == [0] && Pumped(q, now).pending == [1]
  {
    hide Pumped, Created;
    var ops, e := PausedTooLate(), Empty(ONE_AT_A_TIME);
    assert ops[..2][..1] == ops[..1] && ops[..1][..0] == [];
    assert DoneAll(e, ops[..1]) == Created(e, Plain("a"), 0.0);
    assert DoneAll(e, ops[..2]) == Created(DoneAll(e, ops[..1]), Plain("b"), 0.0);
    FirstStarts();
    SecondWaits(DoneAll(e, ops[..1]));
    StillTaken(DoneAll(e, ops), Some(5.0), now);
  }
}
