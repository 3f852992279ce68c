/** A finished job stays finished. */
module FinishedJobs {
  import opened Wrappers
  import opened AdmissionQueue
  import opened AdmissionOrder

  lemma FinishedLater(job: Job, now: real, later: real)
    requires Finished(job, now) && now <= later
    ensures Finished(job, later)
  {
  }

  /** The same job, but for its retirement and, where it waited, its start. */
  predicate JobKept(a: Job, b: Job) {
    && b == a.(retired := b.retired, startedAt := b.startedAt)
    && (a.startedAt.Some? ==> b.startedAt.Some?)
    && (b.startedAt == a.startedAt || a.startedAt.None? || a.finalized)
  }

  lemma KeptFinished(a: Job, b: Job, now: real)
    requires JobKept(a, b) && Finished(a, now)
    ensures Finished(b, now)
  {
  }

  lemma {:induction false} AdmitKeepsJobs(q: Queue, now: real, t: nat)
    requires Tidy(q) && t < |q.jobs|
    ensures JobKept(q.jobs[t], Admit(q, now).jobs[t])
    decreases |q.pending|
  {
    hide InOrder, CountedOnce;
    if q.pending != [] && HasRoom(q.config, |q.active|) {
      AdmitOneTidy(q, now);
      AdmitKeepsJobs(AdmitOne(q, now), now, t);
      assert JobKept(q.jobs[t], AdmitOne(q, now).jobs[t]);
    }
  }

  lemma PumpKeepsJobs(q: Queue, now: real, t: nat)
    requires Tidy(q) && t < |q.jobs|
    ensures JobKept(q.jobs[t], Pumped(q, now).jobs[t])
  {
    hide Admit, SweepTo, CountedOnce, Flagged;
    SweepJobs(q, |q.active|, now);
    RetireTidy(q, now);
    AdmitKeepsJobs(Retire(q, now), now, t);
  }

  lemma PumpFinished(q: Queue, now: real, t: nat)
    requires Tidy(q) && t < |q.jobs| && Finished(q.jobs[t], now)
    ensures Finished(Pumped(q, now).jobs[t], now)
  {
    hide Pumped, InOrder, CountedOnce, Flagged, Finished;
    PumpKeepsJobs(q, now, t);
    KeptFinished(q.jobs[t], Pumped(q, now).jobs[t], now);
  }

  function OpTime(op: Op): real {
    op.now
  }

  lemma OwnChangeFinished(job: Job, now: real)
    requires Finished(job, now)
    ensures Finished(FinalizedJob(job, now), now)
    ensures Finished(PausedJob(job, now), now)
    ensures Finished(ResumedJob(job, now), now)
  {
  }

  lemma RemoveFinished(q: Queue, t: nat, gone: nat, now: real)
    requires Tidy(q) && t < |q.jobs| && gone < |q.jobs| && Finished(q.jobs[t], now)
    ensures |Removed(q, gone, now).jobs| == |q.jobs| && Finished(Removed(q, gone, now).jobs[t], now)
  {
    hide Pumped, Finished;
    var sid := q.jobs[gone].sid;
    OthersIncreasing(q.jobs, q.active, sid);
    OthersIncreasing(q.jobs, q.pending, sid);
    var r := q.(bySid := q.bySid - {sid}, active := Others(q.jobs, q.active, sid), pending := Others(q.jobs, q.pending, sid));
    assert InOrder(r);
    assert Flagged(r.jobs, r.active, r.pending) by { FewerFlagged(q.jobs, q.active, q.pending, sid); }
    PumpFinished(r, now, t);
  }

  lemma CreateFinished(q: Queue, a: Arrival, t: nat, now: real)
    requires Orderly(q) && t < |q.jobs| && Finished(q.jobs[t], now)
    ensures |Created(q, a, now).jobs| == |q.jobs| + 1 && Finished(Created(q, a, now).jobs[t], now)
  {
    hide Pumped, Finished, Tidy, NewJob;
    OrderlyIsTidy(q);
    PumpFinished(q, now, t);
    PumpOrderly(q, now);
    var p := Pumped(q, now);
    OrderlyIsTidy(p);
    EnteredTidy(p, a, now);
    PumpFinished(Entered(p, a, now), now, t);
  }

  /** One operation, on a clock that does not go back, leaves a finished job finished. */
  lemma OpFinished(q: Queue, op: Op, t: nat, before: real)
    requires Orderly(q) && t < |q.jobs| && Finished(q.jobs[t], before) && before <= OpTime(op)
    ensures t < |Done(q, op).jobs| && Finished(Done(q, op).jobs[t], OpTime(op))
  {
    hide Pumped, Finished, Tidy, Removed, Created;
    OrderlyIsTidy(q);
    var now := OpTime(op);
    FinishedLater(q.jobs[t], before, now);
    OwnChangeFinished(q.jobs[t], now);
    match op
    case PumpOp(_) => PumpFinished(q, now, t);
    case CreateOp(arrival, _) => CreateFinished(q, arrival, t, now);
    case RemoveOp(gone, _) =>
      if gone < |q.jobs| {
        RemoveFinished(q, t, gone, now);
      }
    case CancelOp(gone, _) =>
      if gone < |q.jobs| {
        RemoveFinished(q, t, gone, now);
      }
    case FinalizeOp(own, _) =>
      if own < |q.jobs| {
        WithJobTidy(q, own, FinalizedJob(q.jobs[own], now));
        PumpFinished(WithJob(q, own, FinalizedJob(q.jobs[own], now)), now, t);
      }
    case _ =>
  }

  predicate ClockRuns(ops: seq<Op>, from: real) {
    ops == [] || (OpTime(ops[|ops| - 1]) >= (if |ops| > 1 then OpTime(ops[|ops| - 2]) else from) && ClockRuns(ops[..|ops| - 1], from))
  }

  function Latest(ops: seq<Op>, from: real): real {
    if ops == [] then from else OpTime(ops[|ops| - 1])
  }

  /** A job once done or failed stays finished under any pauses, resumes, finalises, removals and
    * dispatches that follow, for as long as the clock does not go back. */
  lemma {:induction false} FinishedForGood(q: Queue, ops: seq<Op>, t: nat, now: real)
    requires Orderly(q) && t < |q.jobs| && Finished(q.jobs[t], now) && ClockRuns(ops, now)
    ensures Orderly(DoneAll(q, ops)) && t < |DoneAll(q, ops).jobs|
    ensures Finished(DoneAll(q, ops).jobs[t], Latest(ops, now))
  {
    hide Done, Finished, Tidy;
    OrderlyIsTidy(q);
    if ops != [] {
      var earlier := ops[..|ops| - 1];
      FinishedForGood(q, earlier, t, now);
      OpOrderly(DoneAll(q, earlier), ops[|ops| - 1]);
      OpFinished(DoneAll(q, earlier), ops[|ops| - 1], t, Latest(earlier, now));
    }
  }
}
