/** What one pass of the supervisor makes of the rows it finds. */
module Passes {
  import opened Wrappers
  import opened RunControl
  import opened Leases
  import opened Supervisor

  // ------------------------------------------------------ the provisioning deadline

  /** A lease that is ready and was heard of within its time. */
  predicate ReadyInTime(lease: Lease, leaseS: real, now: real) {
    && lease.state.Ready?
    && (lease.beatAt.None? || lease.beatAt.value == 0.0 || now - lease.beatAt.value <= leaseS)
  }

  predicate SomeReadyInTime(leases: seq<Lease>, leaseS: real, now: real) {
    exists i :: 0 <= i < |leases| && ReadyInTime(leases[i], leaseS, now)
  }

  /** Waiting for its workers beyond the time they have for it. */
  predicate Overdue(run: Run, w: Watch, now: real) {
    run.fleetState.Provisioning? && run.t0.None? && now > w.provisionDeadline
  }

  lemma ReadyAfterLapsing(f: Fleet, w: Watch, now: real)
    requires f.run.fleetState.Provisioning?
    ensures AnyReady(Lapsing(f, w, now).leases) <==> SomeReadyInTime(f.leases, w.leaseS, now)
  {
    var a := Lapsing(f, w, now);
    forall i | 0 <= i < |f.leases|
      ensures a.leases[i].state.Ready? <==> ReadyInTime(f.leases[i], w.leaseS, now)
    {
    }
  }

  /** What the sweep does to the run, its leases aside. */
  lemma SweptRun(f: Fleet, w: Watch, delay: real, now: real)
    ensures var run := Swept(f, w, delay, now).run;
      && (!Overdue(f.run, w, now) ==> run == f.run)
      && (Overdue(f.run, w, now) && SomeReadyInTime(f.leases, w.leaseS, now) ==>
            run == f.run.(t0 := Some(now + delay), fleetState := Releasing))
      && (Overdue(f.run, w, now) && !SomeReadyInTime(f.leases, w.leaseS, now) ==>
            run == f.run.(error := Some(NOBODY_READY), fleetState := Draining))
  {
    hide Lapses, SomeReadyInTime, AnyReady;
    if Overdue(f.run, w, now) {
      ReadyAfterLapsing(f, w, now);
    }
  }

  /** Past the provisioning deadline a run without T0 is released, a release delay from now, exactly
    * when some lease is ready and its worker was heard of in time; otherwise it drains, for that
    * reason, and gets no T0. Any other pass, so every one up to the deadline, leaves T0 and the
    * phase as they are. */
  lemma DeadlineReleasesExactly(f: Fleet, w: Watch, delay: real, now: real)
    ensures var run := Tick(f, w, delay, now).0.run;
      && (!Overdue(f.run, w, now) ==> run.t0 == f.run.t0 && run.fleetState == f.run.fleetState)
      && (Overdue(f.run, w, now) ==>
            && (run.t0 == Some(now + delay) <==> SomeReadyInTime(f.leases, w.leaseS, now))
            && (run.t0.Some? <==> SomeReadyInTime(f.leases, w.leaseS, now))
            && (run.fleetState.Releasing? <==> SomeReadyInTime(f.leases, w.leaseS, now))
            && (run.fleetState.Draining? <==> !SomeReadyInTime(f.leases, w.leaseS, now))
            && (!SomeReadyInTime(f.leases, w.leaseS, now) ==> run.error == Some(NOBODY_READY)))
  {
    hide Swept, TimedOut, SomeReadyInTime;
    SweptRun(f, w, delay, now);
  }

  // ------------------------------------------------------------ each of its leases

  predicate Silent(lease: Lease, forS: real, now: real) {
    lease.beatAt.Some? && lease.beatAt.value != 0.0 && now - lease.beatAt.value > forS
  }

  /** How long a claimed lease may be silent: the longer warm-up before the deadline, unless the
    * run is already draining. */
  function WarmUpS(run: Run, w: Watch, now: real): real {
    if now <= w.provisionDeadline && !run.fleetState.Draining? && w.provisionS > w.leaseS then w.provisionS else w.leaseS
  }

  /** Whether the sweep takes a lease from its worker, or from whoever might have claimed it. */
  predicate SweptAway(lease: Lease, run: Run, w: Watch, now: real) {
    match lease.state
    case Free => run.fleetState.Draining? || Overdue(run, w, now)
    case Claimed => Silent(lease, WarmUpS(run, w, now), now) || Overdue(run, w, now)
    case Ready => Silent(lease, w.leaseS, now)
    case Running => Silent(lease, w.leaseS, now)
    case _ => false
  }

  /** Short of the cut-off a pass marks lost exactly those leases, and changes nothing else of any. */
  lemma SweepTakesExactly(f: Fleet, w: Watch, delay: real, now: real, i: nat)
    requires i < |f.leases|
    ensures |Swept(f, w, delay, now).leases| == |f.leases|
    ensures Swept(f, w, delay, now).leases[i] ==
            if SweptAway(f.leases[i], f.run, w, now) then f.leases[i].(state := Lost) else f.leases[i]
  {
    hide AnyReady, AnyUnready;
    var a := Lapsing(f, w, now);
    var b := Provisioned(a, w, delay, now);
    assert a.leases[i] == LostIf(f.leases[i], Lapses(f.leases[i], w, f.run.fleetState.Draining?, now));
    if Overdue(f.run, w, now) {
      assert b.leases[i] == if Unready(a.leases[i].state) then a.leases[i].(state := Lost) else a.leases[i];
    }
  }

  /** A pass is the sweep, and beyond a deadline the cut-off: then whatever is not done is lost, and
    * a run that was not given up for another reason says so. */
  lemma PassIsSweepThenCutOff(f: Fleet, w: Watch, delay: real, now: real, i: nat)
    requires i < |f.leases|
    ensures var swept := Swept(f, w, delay, now);
      var (g, over) := Tick(f, w, delay, now);
      && |g.leases| == |f.leases|
      && g.leases[i] == (if TimedOut(swept.run, w, now) && !swept.leases[i].state.Done? then swept.leases[i].(state := Lost)
                         else swept.leases[i])
      && (over <==> TimedOut(swept.run, w, now) || forall k :: 0 <= k < |f.leases| ==> g.leases[k].state.Done? || g.leases[k].state.Lost?)
  {
    hide Swept, TimedOut;
    SweepTakesExactly(f, w, delay, now, i);
    var swept := Swept(f, w, delay, now);
    assert |swept.leases| == |f.leases|;
    if TimedOut(swept.run, w, now) && Settled(swept.leases) {
      assert swept.leases[i].state.Done? || swept.leases[i].state.Lost?;
    }
  }

  // --------------------------------------------------------------- the cut-off

  /** A run with T0 is cut off once its duration, five minutes, the drain and the harvest have
    * passed, the time it was paused not counted; and any run at the ceiling. */
  lemma CutOffExactly(s: Settings, duration: real, started: real, run: Run, now: real)
    requires Accounted(run) && run.pausedAt != Some(0.0)
    ensures var w := WatchFrom(s, duration, started);
      var basis := if duration != 0.0 then duration else s.maxRunS;
      TimedOut(run, w, now) <==>
        || (run.t0.Some? && now - run.t0.value - PausesCover(run.controls, now) > basis + 300.0 + s.drainBudgetS + s.harvestS)
        || now > started + s.provisionS + basis + 600.0 + s.maxPauseS + s.drainBudgetS + s.harvestS
  {
    hide PausesCover, Accounted;
    PausedSecondsReplays(run, now);
  }

  /** A pause moves the deadline by exactly its own length, and while it lasts no deadline comes any
    * nearer. */
  lemma PauseMovesDeadline(run: Run, w: Watch, entry: Entry, from: real, until: real, now: real)
    requires Objection(run, entry).None? && run.pausedAt.None? && run.t0.Some? && from != 0.0 && from <= until <= now
    ensures var paused := PauseRun(run, entry, from).0;
      var resumed := ResumeRun(paused, entry, until).0;
      && HardDeadline(resumed, w, now) == Some(HardDeadline(run, w, now).value + (until - from))
      && (now > HardDeadline(paused, w, now).value <==> from > HardDeadline(run, w, from).value)
  {
  }
}
