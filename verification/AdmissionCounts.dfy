/** What the search head's counters count, and who gives up a slot. */
module AdmissionCounts {
  import opened Wrappers
  import opened AdmissionQueue
  import opened AdmissionOrder

  // ------------------------------------------------------------------ retiring

  /** Over, and not held back by a pause. */
  predicate GivesUp(job: Job, now: real) {
    Finished(job, now) && job.pausedAt.None?
  }

  predicate Tallied(job: Job) {
    !job.isInternal && !job.willFail
  }

  lemma SweepStep(q: Queue, k: nat, now: real)
    requires InRange(q) && Increasing(q.active) && 0 < k <= |q.active| && !q.jobs[q.active[k - 1]].retired
    ensures var (v, w, t) := (SweepTo(q, k - 1, now), SweepTo(q, k, now), q.active[k - 1]);
      && w.still == v.still + (if GivesUp(q.jobs[t], now) then [] else [t])
      && w.counted == v.counted + (if GivesUp(q.jobs[t], now) && Tallied(q.jobs[t]) then [t] else [])
      && w.jobs == v.jobs[t := q.jobs[t].(retired := GivesUp(q.jobs[t], now))]
  {
    hide IsComplete, Finished;
    SweepJobs(q, k - 1, now);
    CompleteExactly(q.jobs[q.active[k - 1]], now);
    assert GivesUp(q.jobs[q.active[k - 1]], now) <==> IsComplete(q.jobs[q.active[k - 1]], now);
  }

  lemma {:induction false} SweepExactly(q: Queue, k: nat, now: real, j: nat)
    requires InRange(q) && Increasing(q.active) && k <= |q.active| && j < |q.active|
    requires forall i :: 0 <= i < |q.active| ==> !q.jobs[q.active[i]].retired
    ensures var (w, t, job) := (SweepTo(q, k, now), q.active[j], q.jobs[q.active[j]]);
      && (t in w.still <==> j < k && !GivesUp(job, now))
      && (t in w.counted <==> t in q.counted || (j < k && GivesUp(job, now) && Tallied(job)))
      && (w.jobs[t].retired <==> j < k && GivesUp(job, now))
  {
    if k > 0 {
      hide SweepTo, GivesUp, Tallied;
      SweepExactly(q, k - 1, now, j);
      SweepStep(q, k, now);
      var (v, w, t) := (SweepTo(q, k - 1, now), SweepTo(q, k, now), q.active[j]);
      if j != k - 1 {
        assert t != q.active[k - 1];
        assert (t in w.still <==> t in v.still) && (t in w.counted <==> t in v.counted);
      }
    }
  }

  /** A pump takes a job's slot exactly when it has finished and is not paused, and then counts it
    * as done exactly when it neither failed nor is one of the server's own. */
  lemma RetireExactly(q: Queue, now: real, j: nat)
    requires Tidy(q) && j < |q.active|
    ensures var (r, t, job) := (Retire(q, now), q.active[j], q.jobs[q.active[j]]);
      && (t in r.active <==> !GivesUp(job, now))
      && r.jobs[t] == job.(retired := GivesUp(job, now))
      && (t in r.counted <==> t in q.counted || (GivesUp(job, now) && Tallied(job)))
      && r.done == |r.counted|
  {
    hide SweepTo, GivesUp, Tallied;
    SweepExactly(q, |q.active|, now, j);
    SweepJobs(q, |q.active|, now);
    RetireTidy(q, now);
  }

  // ------------------------------------------------------------------ counters

  /** What is counted since the last reset: searches of users, cancellations, and arrivals that found
    * the limit reached. */
  datatype Tally = Tally(created: nat, cancelled: nat, queued: nat)

  function More(n: nat, b: bool): nat {
    if b then n + 1 else n
  }

  function TallyOf(config: Config, ops: seq<Op>): Tally {
    if ops == [] then Tally(0, 0, 0)
    else
      var before, q := TallyOf(config, ops[..|ops| - 1]), DoneAll(Empty(config), ops[..|ops| - 1]);
      match ops[|ops| - 1]
      case CreateOp(a, now) =>
        before.(created := More(before.created, !a.isInternal),
                queued := More(before.queued, config.limit > 0 && |Pumped(q, now).active| >= config.limit))
      case CancelOp(t, _) => before.(cancelled := More(before.cancelled, t < |q.jobs|))
      case ResetOp(_) => Tally(0, 0, 0)
      case _ => before
  }

  predicate SameCounters(q: Queue, r: Queue) {
    r.config == q.config && r.created == q.created && r.cancelled == q.cancelled && r.queuedTotal == q.queuedTotal
  }

  lemma {:induction false} AdmitCounters(q: Queue, now: real)
    requires InRange(q)
    ensures SameCounters(q, Admit(q, now)) && Admit(q, now).peak == q.peak
    decreases |q.pending|
  {
    if q.pending != [] && HasRoom(q.config, |q.active|) {
      AdmitCounters(AdmitOne(q, now), now);
    }
  }

  lemma PumpCounters(q: Queue, now: real)
    requires InRange(q)
    ensures SameCounters(q, Pumped(q, now))
    ensures var r := Pumped(q, now);
      r.current == |r.active| && r.peak == if r.current > q.peak then r.current else q.peak
  {
    hide SweepTo, Admit;
    AdmitCounters(Retire(q, now), now);
  }

  /** The counters count that, in every run; the gauge is of the jobs that run, whenever the queue has
    * just been pumped. */
  lemma {:induction false} CountersExactly(config: Config, ops: seq<Op>)
    ensures var q := DoneAll(Empty(config), ops);
      q.config == config && Tally(q.created, q.cancelled, q.queuedTotal) == TallyOf(config, ops)
  {
    hide Pumped, NewJob, Others, FinalizedJob, PausedJob, ResumedJob;
    if ops != [] {
      CountersExactly(config, ops[..|ops| - 1]);
      var q, op := DoneAll(Empty(config), ops[..|ops| - 1]), ops[|ops| - 1];
      StepCounters(q, op);
    }
  }

  /** What one operation adds to the counters. */
  lemma StepCounters(q: Queue, op: Op)
    requires InRange(q)
    ensures var r := Done(q, op);
      && r.config == q.config
      && (op.ResetOp? ==> r.created == r.cancelled == r.queuedTotal == r.peak == 0)
      && (!op.ResetOp? ==>
            && r.created == More(q.created, op.CreateOp? && !op.arrival.isInternal)
            && r.cancelled == More(q.cancelled, op.CancelOp? && op.t < |q.jobs|)
            && r.queuedTotal ==
                 More(q.queuedTotal, op.CreateOp? && q.config.limit > 0 && |Pumped(q, op.now).active| >= q.config.limit))
  {
    hide Pumped, NewJob, Others, FinalizedJob, PausedJob, ResumedJob;
    match op
    case PumpOp(now) => PumpCounters(q, now);
    case CreateOp(a, now) =>
      PumpCounters(q, now);
      PumpCounters(Entered(Pumped(q, now), a, now), now);
    case RemoveOp(t, now) => RemoveCounters(q, t, now);
    case CancelOp(t, now) => RemoveCounters(q, t, now);
    case FinalizeOp(t, now) =>
      if t < |q.jobs| {
        PumpCounters(WithJob(q, t, FinalizedJob(q.jobs[t], now)), now);
      }
    case _ =>
  }

  lemma RemoveCounters(q: Queue, t: nat, now: real)
    requires InRange(q)
    ensures t < |q.jobs| ==> SameCounters(q, Removed(q, t, now)) && q.peak <= Removed(q, t, now).peak
  {
    hide Pumped;
    if t < |q.jobs| {
      var sid := q.jobs[t].sid;
      PumpCounters(q.(bySid := q.bySid - {sid}, active := Others(q.jobs, q.active, sid), pending := Others(q.jobs, q.pending, sid)), now);
    }
  }

  /** The peak only falls at a reset, is never below the gauge, and a pump takes the gauge afresh. */
  lemma PeakOnlyGrows(q: Queue, op: Op)
    requires InRange(q) && q.current <= q.peak
    ensures var r := Done(q, op);
      && r.current <= r.peak && (!op.ResetOp? ==> q.peak <= r.peak)
      && (op.PumpOp? || op.CreateOp? ==> r.current == |r.active|)
  {
    hide Pumped, NewJob, Others, FinalizedJob, PausedJob, ResumedJob, Removed;
    match op
    case PumpOp(now) => PumpCounters(q, now);
    case CreateOp(a, now) =>
      PumpCounters(q, now);
      PumpCounters(Entered(Pumped(q, now), a, now), now);
    case RemoveOp(t, now) => RemovePeak(q, t, now);
    case CancelOp(t, now) => RemovePeak(q, t, now);
    case FinalizeOp(t, now) =>
      if t < |q.jobs| {
        PumpCounters(WithJob(q, t, FinalizedJob(q.jobs[t], now)), now);
      }
    case _ =>
  }

  lemma RemovePeak(q: Queue, t: nat, now: real)
    requires InRange(q)
    ensures t < |q.jobs| ==> q.peak <= Removed(q, t, now).peak && Removed(q, t, now).current <= Removed(q, t, now).peak
  {
    hide Pumped;
    if t < |q.jobs| {
      var sid := q.jobs[t].sid;
      PumpCounters(q.(bySid := q.bySid - {sid}, active := Others(q.jobs, q.active, sid), pending := Others(q.jobs, q.pending, sid)), now);
    }
  }
}
