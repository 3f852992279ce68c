/** The search head double's own state, updated in place under its lock. */
module SearchHeads {
  import opened Wrappers
  import opened AdmissionQueue

  class SearchHead {
    const config: Config
    var jobs: seq<Job>
    var bySid: map<string, nat>
    var active: seq<nat>
    var pending: seq<nat>
    var created: nat
    var done: nat
    var cancelled: nat
    var queuedTotal: nat
    var current: nat
    var peak: nat
    ghost var admitted: seq<nat>
    ghost var counted: seq<nat>

    ghost function View(): Queue
      reads this
    {
      Queue(config, jobs, bySid, active, pending, created, done, cancelled, queuedTotal, current, peak, admitted, counted)
    }

    constructor (config: Config)
      ensures View() == Empty(config)
    {
      this.config := config;
      jobs, bySid, active, pending := [], map[], [], [];
      created, done, cancelled, queuedTotal, current, peak := 0, 0, 0, 0, 0, 0;
      admitted, counted := [], [];
    }

    method RetireComplete(now: real)
      requires InRange(View())
      modifies this
      ensures View() == Retire(old(View()), now)
    {
      hide IsComplete;
      ghost var q := View();
      var stillActive: seq<nat> := [];
      for k := 0 to |active|
        invariant active == q.active
        invariant View() == q.(jobs := SweepTo(q, k, now).jobs, counted := SweepTo(q, k, now).counted, done := SweepTo(q, k, now).done)
        invariant stillActive == SweepTo(q, k, now).still
      {
        var t := active[k];
        if IsComplete(jobs[t], now) {
          if !jobs[t].retired && !jobs[t].isInternal && !jobs[t].willFail {
            done := done + 1;
            counted := counted + [t];
          }
          jobs := jobs[t := jobs[t].(retired := true)];
        } else {
          stillActive := stillActive + [t];
        }
      }
      active := stillActive;
    }

    method Pump(now: real)
      requires InRange(View())
      modifies this
      ensures View() == Pumped(old(View()), now)
    {
      hide Retire;
      RetireComplete(now);
      ghost var q := View();
      while pending != [] && (config.limit <= 0 || |active| < config.limit)
        invariant InRange(View())
        invariant Admit(View(), now) == Admit(q, now)
        decreases |pending|
      {
        var t := pending[0];
        jobs := jobs[t := jobs[t].(startedAt := Some(now))];
        active, pending := active + [t], pending[1..];
        admitted := admitted + [t];
      }
      current := |active|;
      if current > peak {
        peak := current;
      }
    }

    method CreateJob(a: Arrival, now: real) returns (t: nat)
      requires InRange(View())
      modifies this
      ensures View() == Created(old(View()), a, now)
      ensures t == |jobs| - 1
    {
      hide Pumped, DurationS;
      Pump(now);
      var job := NewJob(config, a, |active|);
      t := |jobs|;
      bySid := bySid[a.sid := t];
      if !a.isInternal {
        created := created + 1;
      }
      if config.limit <= 0 || |active| < config.limit {
        jobs := jobs + [job.(startedAt := Some(now))];
        active := active + [t];
        admitted := admitted + [t];
      } else {
        jobs := jobs + [job];
        pending := pending + [t];
        queuedTotal := queuedTotal + 1;
      }
      Pump(now);
    }

    method RemoveJob(t: nat, now: real)
      requires InRange(View()) && t < |jobs|
      modifies this
      ensures View() == Removed(old(View()), t, now)
    {
      hide Pumped;
      var sid := jobs[t].sid;
      bySid := bySid - {sid};
      active := Others(jobs, active, sid);
      pending := Others(jobs, pending, sid);
      Pump(now);
    }

    method Cancel(t: nat, now: real)
      requires InRange(View()) && t < |jobs|
      modifies this
      ensures View() == Done(old(View()), CancelOp(t, now))
    {
      hide Removed;
      RemoveJob(t, now);
      cancelled := cancelled + 1;
    }

    method Finalize(t: nat, now: real)
      requires InRange(View()) && t < |jobs|
      modifies this
      ensures View() == Done(old(View()), FinalizeOp(t, now))
    {
      hide Pumped;
      var job := jobs[t].(finalized := true);
      if job.startedAt.None? {
        job := job.(startedAt := Some(now));
      }
      job := job.(willFail := false);
      job := job.(durationS := MaxZero(Elapsed(job, now)));
      jobs := jobs[t := job];
      Pump(now);
    }

    method Pause(t: nat, now: real)
      requires InRange(View()) && t < |jobs|
      modifies this`jobs
      ensures View() == Done(old(View()), PauseOp(t, now))
    {
      if jobs[t].startedAt.Some? && jobs[t].pausedAt.None? {
        jobs := jobs[t := jobs[t].(pausedAt := Some(now))];
      }
    }

    method Resume(t: nat, now: real)
      requires InRange(View()) && t < |jobs|
      modifies this`jobs
      ensures View() == Done(old(View()), ResumeOp(t, now))
    {
      if jobs[t].pausedAt.Some? {
        jobs := jobs[t := jobs[t].(pausedTotal := jobs[t].pausedTotal + (now - jobs[t].pausedAt.value), pausedAt := None)];
      }
    }

    method Reset()
      modifies this
      ensures View() == Cleared(old(View()))
    {
      bySid, active, pending := map[], [], [];
      created, done, cancelled, queuedTotal, current, peak := 0, 0, 0, 0, 0, 0;
      admitted, counted := [], [];
    }
  }
}
