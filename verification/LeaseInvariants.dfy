/** What holds of the rows in every state a launched run can reach, and what the fence gives. */
module LeaseInvariants {
  import opened Wrappers
  import opened Planning
  import opened RunControl
  import opened Leases
  import opened Supervisor
  import opened Protocol

  predicate RunSound(run: Run) {
    && (run.fleetState.Provisioning? ==> run.t0.None?)
    && (run.fleetState.Releasing? || run.fleetState.Underway? ==> run.t0.Some?)
    && (Terminal(run.state) ==> run.fleetState.Finished?)
    && (run.state.Active? ==> Rank(run.fleetState) >= Rank(Underway))
    && (run.fleetState.Underway? ==> run.state.Active?)
  }

  predicate LeaseSound(lease: Lease, issued: nat, released: bool) {
    && (lease.leaseId.Some? ==> lease.leaseId.value < issued)
    && (lease.leaseId.Some? <==> lease.holder.Some?)
    && (Live(lease.state) ==> lease.leaseId.Some?)
    && (lease.state.Running? ==> released)
    && (lease.summary.Some? <==> lease.state.Done?)
  }

  predicate DistinctIds(leases: seq<Lease>) {
    forall i, j :: 0 <= i < j < |leases| && leases[i].leaseId.Some? ==> leases[i].leaseId != leases[j].leaseId
  }

  predicate DistinctSlots(leases: seq<Lease>) {
    forall i, j :: 0 <= i < j < |leases| ==> leases[i].slot.number != leases[j].slot.number
  }

  /** The rows of a run are coherent. */
  predicate Sound(f: Fleet) {
    && RunSound(f.run)
    && (forall i :: 0 <= i < |f.leases| ==> LeaseSound(f.leases[i], f.issued, f.run.t0.Some?))
    && DistinctIds(f.leases)
    && DistinctSlots(f.leases)
  }

  /** As a run is launched: no T0, every slot free. */
  predicate Launched(f: Fleet) {
    && f.run.fleetState.Provisioning? && f.run.state.Pending? && f.run.t0.None?
    && (forall i :: 0 <= i < |f.leases| ==>
          f.leases[i].state.Free? && f.leases[i].leaseId.None? && f.leases[i].holder.None? && f.leases[i].summary.None?)
    && DistinctSlots(f.leases)
  }

  lemma LaunchedIsSound(f: Fleet)
    requires Launched(f)
    ensures Sound(f)
  {
  }

  lemma WithLeaseSound(f: Fleet, at: nat, lease: Lease)
    requires Sound(f) && at < |f.leases|
    requires lease.slot == f.leases[at].slot && lease.leaseId == f.leases[at].leaseId
    requires LeaseSound(lease, f.issued, f.run.t0.Some?)
    ensures Sound(WithLease(f, at, lease))
  {
    hide LeaseSound, RunSound;
  }

  /** The same leases, some of them lost. */
  predicate SomeLost(a: seq<Lease>, b: seq<Lease>) {
    && |b| == |a|
    && forall i :: 0 <= i < |a| ==> b[i] == a[i] || (!a[i].state.Done? && b[i] == a[i].(state := Lost))
  }

  lemma SomeLostSound(f: Fleet, g: Fleet)
    requires Sound(f) && SomeLost(f.leases, g.leases) && g.issued == f.issued
    requires RunSound(g.run) && (f.run.t0.Some? ==> g.run.t0.Some?)
    ensures Sound(g)
  {
    hide RunSound;
    forall i | 0 <= i < |g.leases|
      ensures LeaseSound(g.leases[i], g.issued, g.run.t0.Some?)
    {
      assert LeaseSound(f.leases[i], f.issued, f.run.t0.Some?);
    }
  }

  lemma ReleaseSound(f: Fleet, force: bool, delay: real, now: real)
    requires Sound(f)
    ensures Sound(EvaluateRelease(f, force, delay, now))
  {
    hide LeaseSound, MayRelease, DistinctIds, DistinctSlots;
    if MayRelease(f, force) {
      MayReleaseNeeds(f, force);
      SomeLostSound(f, EvaluateRelease(f, force, delay, now));
    }
  }

  lemma ReadySound(f: Fleet, slot: nat, leaseId: Option<nat>, delay: real, now: real)
    requires Sound(f)
    ensures Sound(MarkReady(f, slot, leaseId, delay, now).0)
  {
    hide EvaluateRelease, DistinctIds, DistinctSlots, RunSound;
    var found := FindSlot(f.leases, slot);
    if found.Some? {
      var at := found.value;
      var lease := f.leases[at];
      if HolderOk(lease, leaseId) && !Over(f.run, false) {
        WithLeaseSound(f, at, Warmed(lease, now));
        ReleaseSound(WithLease(f, at, Warmed(lease, now)), false, delay, now);
      }
    }
  }

  lemma StartedSound(f: Fleet, at: nat, reported: string)
    requires Sound(f) && at < |f.leases| && f.run.t0.Some? && !Stopping(f.run)
    ensures Sound(Started(f, at, reported))
  {
    hide DistinctIds, DistinctSlots;
    var lease := f.leases[at];
    assert LeaseSound(lease, f.issued, true);
    var g := if lease.state.Claimed? || lease.state.Ready? then WithLease(f, at, lease.(state := Running)) else f;
    if lease.state.Claimed? || lease.state.Ready? {
      WithLeaseSound(f, at, lease.(state := Running));
    }
    assert Sound(g);
    SomeLostSound(g, Started(f, at, reported));
  }

  lemma BeatSound(f: Fleet, at: nat, reported: string, stats: Option<string>, delay: real, now: real)
    requires Sound(f) && at < |f.leases| && f.leases[at].leaseId.Some?
    ensures Sound(Beat(f, at, reported, stats, delay, now).0)
  {
    hide EvaluateRelease, DistinctIds, DistinctSlots, RunSound, Started, LoadOf, Stopping, SaysStarted;
    assert LeaseSound(f.leases[at], f.issued, f.run.t0.Some?);
    var beaten := WithLease(f, at, Beaten(f.leases[at], stats, now));
    WithLeaseSound(f, at, Beaten(f.leases[at], stats, now));
    if !Stopping(f.run) {
      var restored := Restored(beaten.leases[at], reported);
      var g := WithLease(beaten, at, restored);
      WithLeaseSound(beaten, at, restored);
      ReleaseSound(g, false, delay, now);
      if g.run.t0.Some? {
        StartedSound(g, at, reported);
      }
    }
  }

  lemma WriteSound(f: Fleet, ticket: Ticket)
    requires Sound(f) && ticket.candidates != [] && ticket.candidates[0].at < |f.leases|
    ensures Sound(ClaimWrite(f, ticket).0)
  {
    hide RunSound;
    var g := ClaimWrite(f, ticket).0;
    forall i | 0 <= i < |g.leases|
      ensures LeaseSound(g.leases[i], g.issued, g.run.t0.Some?)
    {
      assert LeaseSound(f.leases[i], f.issued, f.run.t0.Some?);
    }
  }

  lemma TickSound(f: Fleet, w: Watch, delay: real, now: real)
    requires Sound(f)
    ensures Sound(Tick(f, w, delay, now).0)
  {
    hide Sound, EvaluateRelease, MayRelease, TimedOut;
    assert RunSound(f.run) by { RunIsSound(f); }
    var a := Lapsing(f, w, now);
    SomeLostSound(f, a);
    var b := Provisioned(a, w, delay, now);
    ReleaseSound(a, true, delay, now);
    if b != EvaluateRelease(a, true, delay, now) && b != a {
      SomeLostSound(a, b);
    }
    RunIsSound(b);
    var d := Drained(b);
    SomeLostSound(b, d);
    SomeLostSound(d, CutOff(d, TimedOut(d.run, w, now)));
  }

  lemma RunIsSound(f: Fleet)
    requires Sound(f)
    ensures RunSound(f.run)
  {
  }

  lemma FinalSound(f: Fleet, slot: nat, leaseId: Option<nat>, report: Report, now: real)
    requires Sound(f)
    ensures Sound(Final(f, slot, leaseId, report, now))
  {
    hide RunSound, DistinctIds, DistinctSlots;
    var found := FindSlot(f.leases, slot);
    if found.Some? {
      var at := found.value;
      assert LeaseSound(f.leases[at], f.issued, f.run.t0.Some?);
      WithLeaseSound(f, at, f.leases[at].(summary := Some(report), state := Done, beatAt := Some(now)));
    }
  }

  lemma StepSound(c: Constants, f: Fleet, step: Step)
    requires Sound(f)
    ensures Sound(Stepped(c, f, step))
  {
    hide MarkReady, Heartbeat, Tick, LoadRefusal, Objection, DistinctIds, DistinctSlots, LeaseSound, Final, ClaimWrite;
    match step
    case RenewClaim(at, now) =>
      if at < |f.leases| {
        RenewSound(f, at, now);
      }
    case WriteClaim(ticket) =>
      if ticket.candidates != [] && ticket.candidates[0].at < |f.leases| {
        WriteSound(f, ticket);
      }
    case ReadyStep(slot, leaseId, now) => ReadySound(f, slot, leaseId, c.delay, now);
    case BeatStep(slot, leaseId, reported, stats, now) => HeartbeatSound(f, slot, leaseId, reported, stats, c.delay, now);
    case FinalStep(slot, leaseId, report, now) => FinalSound(f, slot, leaseId, report, now);
    case TickStep(now) => TickSound(f, c.watch, c.delay, now);
    case _ =>
  }

  lemma RenewSound(f: Fleet, at: nat, now: real)
    requires Sound(f) && at < |f.leases|
    ensures Sound(ClaimRenew(f, at, now))
  {
    assert LeaseSound(f.leases[at], f.issued, f.run.t0.Some?);
    WithLeaseSound(f, at, f.leases[at].(beatAt := Some(now)));
  }

  lemma HeartbeatSound(f: Fleet, slot: nat, leaseId: Option<nat>, reported: string, stats: Option<string>, delay: real, now: real)
    requires Sound(f)
    ensures Sound(Heartbeat(f, slot, leaseId, reported, stats, delay, now).0)
  {
    hide Beat, RunSound, LeaseSound, DistinctIds, DistinctSlots;
    var found := FindSlot(f.leases, slot);
    if found.Some? && HolderOk(f.leases[found.value], leaseId) {
      BeatSound(f, found.value, reported, stats, delay, now);
    }
  }

  /** In every reachable state a run that is releasing or running has its T0, so has any running
    * lease; live leases have an id and a holder, no two leases the same id; and a lease has a
    * report exactly when it is done. */
  lemma {:induction false} ReachableIsSound(c: Constants, f: Fleet, steps: seq<Step>)
    requires Launched(f)
    ensures Sound(SteppedBy(c, f, steps))
  {
    hide Sound, Stepped, Launched;
    LaunchedIsSound(f);
    if steps != [] {
      ReachableIsSound(c, f, steps[..|steps| - 1]);
      StepSound(c, SteppedBy(c, f, steps[..|steps| - 1]), steps[|steps| - 1]);
    }
  }

  // -------------------------------------------------------- the release instant

  /** T0 is set exactly when a provisioning run has a ready lease and nothing pending, or is
    * forced; and then nothing is left pending and somebody is ready. */
  lemma ReleaseExactly(f: Fleet, force: bool, delay: real, now: real)
    requires f.run.t0.None?
    ensures var g := EvaluateRelease(f, force, delay, now);
      && (g.run.t0.Some? <==> MayRelease(f, force))
      && (g.run.t0.Some? ==> g.run.t0.value == now + delay && g.run.fleetState.Releasing? &&
                             AnyReady(g.leases) && !AnyUnready(g.leases))
  {
    if MayRelease(f, force) {
      var i :| 0 <= i < |f.leases| && f.leases[i].state.Ready?;
      assert EvaluateRelease(f, force, delay, now).leases[i].state.Ready?;
    }
  }

  // ------------------------------------------------------------------ the fence

  predicate Bears(step: Step, slot: nat, leaseId: nat) {
    || (step.ReadyStep? && step.slot == slot && step.leaseId == Some(leaseId))
    || (step.BeatStep? && step.slot == slot && step.leaseId == Some(leaseId))
    || (step.FinalStep? && step.slot == slot && step.leaseId == Some(leaseId))
  }

  lemma {:induction false} FindSlotAt(leases: seq<Lease>, i: nat)
    requires i < |leases| && DistinctSlots(leases)
    ensures FindSlot(leases, leases[i].slot.number) == Some(i)
  {
    var found := FindSlot(leases, leases[i].slot.number);
    assert found.Some?;
  }

  /** A ready, heartbeat or final with an id its slot no longer has leaves every row as it was. */
  lemma Fenced(c: Constants, f: Fleet, step: Step, i: nat, leaseId: nat)
    requires i < |f.leases| && DistinctSlots(f.leases)
    requires f.leases[i].leaseId != Some(leaseId) && Bears(step, f.leases[i].slot.number, leaseId)
    ensures Stepped(c, f, step) == f
  {
    FindSlotAt(f.leases, i);
  }

  /** Once a lease's id has been replaced it is never that lease's again, so whoever still
    * bears it is shut out of the rows for good. */
  lemma ReplacedStaysFenced(c: Constants, f: Fleet, steps: seq<Step>, step: Step, i: nat, leaseId: nat)
    requires Sound(f) && i < |f.leases|
    requires leaseId < f.issued && f.leases[i].leaseId != Some(leaseId)
    requires Bears(step, f.leases[i].slot.number, leaseId)
    ensures var g := SteppedBy(c, f, steps);
      |g.leases| == |f.leases| && g.leases[i].leaseId != Some(leaseId) && Stepped(c, g, step) == g
  {
    hide Stepped, SteppedBy, LeaseSound, RunSound;
    var g := SteppedBy(c, f, steps);
    RunsGoForward(c, f, steps);
    assert LeaseForward(f.leases[i], g.leases[i], f.issued);
    forall a, b | 0 <= a < b < |g.leases|
      ensures g.leases[a].slot.number != g.leases[b].slot.number
    {
      assert LeaseForward(f.leases[a], g.leases[a], f.issued) && LeaseForward(f.leases[b], g.leases[b], f.issued);
    }
    Fenced(c, g, step, i, leaseId);
  }

  /** The first report accepted for a slot is the only one: nothing after it changes it. */
  lemma FirstReportStays(c: Constants, f: Fleet, steps: seq<Step>, i: nat)
    requires Sound(f) && i < |f.leases| && f.leases[i].summary.Some?
    ensures var g := SteppedBy(c, f, steps);
      |g.leases| == |f.leases| && g.leases[i].state.Done? && g.leases[i].summary == f.leases[i].summary
  {
    RunsGoForward(c, f, steps);
    assert LeaseSound(f.leases[i], f.issued, f.run.t0.Some?);
    assert LeaseForward(f.leases[i], SteppedBy(c, f, steps).leases[i], f.issued);
  }

  /** A final report is taken exactly when its run is not over, its slot exists and is not yet
    * done, and its id, when it has one, is the slot's. */
  lemma ReportTakenExactly(f: Fleet, i: nat, leaseId: Option<nat>, report: Report, now: real)
    requires i < |f.leases| && DistinctSlots(f.leases)
    ensures Final(f, f.leases[i].slot.number, leaseId, report, now) != f <==>
            !f.run.fleetState.Finished? && !f.leases[i].state.Done? && (leaseId.None? || f.leases[i].leaseId == leaseId)
  {
    FindSlotAt(f.leases, i);
    var g := Final(f, f.leases[i].slot.number, leaseId, report, now);
    if g.leases[i].state.Done? && !f.leases[i].state.Done? {
      assert g.leases[i] != f.leases[i];
    }
  }

  // ------------------------------------------------------ what a heartbeat is told

  predicate Heard(f: Fleet, i: nat, leaseId: nat) {
    && i < |f.leases| && DistinctSlots(f.leases) && f.leases[i].leaseId == Some(leaseId)
    && !f.run.fleetState.Finished? && !Stopping(f.run)
  }

  /** A worker of a released run that has not started is told T0 by every beat that is heard, and
    * only a slot that is already done is not. */
  lemma ReleasedByNextBeat(f: Fleet, i: nat, leaseId: nat, reported: string, stats: Option<string>, delay: real, now: real)
    requires Heard(f, i, leaseId) && f.run.t0.Some? && !SaysStarted(reported)
    ensures var (g, reply) := Heartbeat(f, f.leases[i].slot.number, Some(leaseId), reported, stats, delay, now);
      && reply.Answered?
      && (reply.reply.command == Release(f.run.t0.value) <==> !f.leases[i].state.Done?)
      && (reply.reply.command == Continue <==> f.leases[i].state.Done?)
  {
    hide LoadOf;
    FindSlotAt(f.leases, i);
  }

  /** The beat that completes the fleet releases it: a lease that was the last one not ready. */
  lemma LastReadyReleases(f: Fleet, i: nat, leaseId: nat, delay: real, now: real)
    requires Heard(f, i, leaseId) && f.run.fleetState.Provisioning? && f.run.t0.None?
    requires f.leases[i].state.Claimed? || f.leases[i].state.Lost? || f.leases[i].state.Ready?
    requires forall j :: 0 <= j < |f.leases| && j != i ==> !Unready(f.leases[j].state)
    ensures MarkReady(f, f.leases[i].slot.number, Some(leaseId), delay, now).1 == ReadyAt(Some(now + delay))
  {
    FindSlotAt(f.leases, i);
    var g := WithLease(f, i, Warmed(f.leases[i], now));
    assert g.leases[i].state.Ready?;
  }

  /** The lease of a worker that reports itself started, after its beat. */
  function RunningLease(lease: Lease, stats: Option<string>, now: real): Lease {
    lease.(beatAt := Some(now),
           stats := if stats.Some? then stats else lease.stats,
           state := if lease.state.Free? || lease.state.Done? then lease.state else Running)
  }

  /** The run, after a beat that reports a worker started. */
  function RunningRun(run: Run): Run {
    if run.fleetState.Releasing? then
      run.(fleetState := Underway, state := Active,
           startedAt := if run.startedAt.Some? && run.startedAt.value != 0.0 then run.startedAt else run.t0)
    else run
  }

  /** What a beat of a started worker does to a released run, and what it is told: the pause, its
    * slot's load, the cache epoch. */
  lemma RunningBeat(f: Fleet, at: nat, reported: string, stats: Option<string>, delay: real, now: real)
    requires at < |f.leases| && f.run.t0.Some? && !Stopping(f.run) && SaysStarted(reported)
    ensures Beat(f, at, reported, stats, delay, now) ==
            (WithLease(f, at, RunningLease(f.leases[at], stats, now)).(run := RunningRun(f.run)),
             Reply(Continue, Some(f.run.pausedAt.Some?), LoadOf(f, at), LastEpoch(f.epochs)))
  {
    hide SlotLoad;
    var g := Beat(f, at, reported, stats, delay, now).0;
    assert g.leases == WithLease(f, at, RunningLease(f.leases[at], stats, now)).leases;
    assert RosterOf(g.leases) == RosterOf(f.leases);
  }

  lemma RunningHeartbeat(f: Fleet, i: nat, leaseId: nat, reported: string, stats: Option<string>, delay: real, now: real)
    requires Heard(f, i, leaseId) && f.run.t0.Some? && SaysStarted(reported)
    ensures Heartbeat(f, f.leases[i].slot.number, Some(leaseId), reported, stats, delay, now) ==
            (WithLease(f, i, RunningLease(f.leases[i], stats, now)).(run := RunningRun(f.run)),
             Answered(Reply(Continue, Some(f.run.pausedAt.Some?), LoadOf(f, i), LastEpoch(f.epochs))))
  {
    hide Beat, LoadOf, WithLease, RunningLease, RunningRun;
    FindSlotAt(f.leases, i);
    RunningBeat(f, i, reported, stats, delay, now);
  }

  /** A repeated beat changes nothing but the instant the worker was last heard at, and is told
    * the same. */
  lemma RepeatedBeatChangesNothing(f: Fleet, i: nat, leaseId: nat, reported: string, stats: Option<string>, delay: real, now: real, later: real)
    requires Heard(f, i, leaseId) && f.run.t0.Some? && SaysStarted(reported)
    ensures var slot := f.leases[i].slot.number;
      var (g, told) := Heartbeat(f, slot, Some(leaseId), reported, stats, delay, now);
      && |g.leases| == |f.leases|
      && Heartbeat(g, slot, Some(leaseId), reported, stats, delay, later) ==
           (WithLease(g, i, g.leases[i].(beatAt := Some(later))), told)
  {
    hide SlotLoad, Heartbeat;
    RunningHeartbeat(f, i, leaseId, reported, stats, delay, now);
    var g := WithLease(f, i, RunningLease(f.leases[i], stats, now)).(run := RunningRun(f.run));
    assert RosterOf(g.leases) == RosterOf(f.leases);
    RunningHeartbeat(g, i, leaseId, reported, stats, delay, later);
  }

  // --------------------------------------------------- what a permitted control is worth

  /** The answer to a started worker's beat. */
  function ToldWhenRunning(f: Fleet, i: nat, leaseId: nat, delay: real, now: real): Reply
    requires Heard(f, i, leaseId) && f.run.t0.Some?
  {
    Heartbeat(f, f.leases[i].slot.number, Some(leaseId), "running", None, delay, now).1.reply
  }

  /** A control of a fleet is permitted exactly while the fleet runs; then T0 is set, every slot's
    * holder is heard, and its next beat is told the run as the control left it. */
  lemma PermittedControlIsHeard(f: Fleet, entry: Entry, sizing: Sizing, value: real, i: nat, leaseId: nat, now: real, delay: real, later: real)
    requires Sound(f) && !f.run.inProcess && i < |f.leases| && f.leases[i].leaseId == Some(leaseId)
    ensures Objection(f.run, entry).None? <==> f.run.fleetState.Underway?
    ensures Objection(f.run, entry).None? ==>
      var paused := f.(run := PauseRun(f.run, entry, now).0);
      Heard(paused, i, leaseId) && paused.run.t0.Some? && ToldWhenRunning(paused, i, leaseId, delay, later).paused == Some(true)
    ensures Objection(f.run, entry).None? ==>
      var resumed := f.(run := ResumeRun(f.run, entry, now).0);
      Heard(resumed, i, leaseId) && resumed.run.t0.Some? && ToldWhenRunning(resumed, i, leaseId, delay, later).paused == Some(false)
    ensures LoadRefusal(f.run, entry, RosterOf(f.leases), sizing, 0, value).None? ==>
      var loaded := f.(run := LoadRun(f.run, entry, RosterOf(f.leases), sizing, 0, value, now).0);
      && Heard(loaded, i, leaseId) && loaded.run.t0.Some?
      && ToldWhenRunning(loaded, i, leaseId, delay, later).load == SlotLoad(RosterOf(f.leases), Some(value), f.leases[i].slot)
  {
    hide Heartbeat, SlotLoad, FleetRefusal, LeaseSound, DistinctIds;
    if Objection(f.run, entry).None? {
      RunningHeartbeat(f.(run := PauseRun(f.run, entry, now).0), i, leaseId, "running", None, delay, later);
      RunningHeartbeat(f.(run := ResumeRun(f.run, entry, now).0), i, leaseId, "running", None, delay, later);
      if LoadRefusal(f.run, entry, RosterOf(f.leases), sizing, 0, value).None? {
        RunningHeartbeat(f.(run := LoadRun(f.run, entry, RosterOf(f.leases), sizing, 0, value, now).0), i, leaseId, "running", None, delay, later);
      }
    }
  }

  // ------------------------------------------------------------------- the end

  /** In every later state of a run that is not finished yet, finished means over: its outcome is
    * final, and whoever asks or reports from then on is refused. */
  lemma {:induction false} FinishedIsOver(c: Constants, f: Fleet, steps: seq<Step>)
    requires !f.run.fleetState.Finished?
    ensures var g := SteppedBy(c, f, steps);
      g.run.fleetState.Finished? ==> Terminal(g.run.state) && Over(g.run, false) && Over(g.run, true)
  {
    if steps != [] {
      var before := SteppedBy(c, f, steps[..|steps| - 1]);
      FinishedIsOver(c, f, steps[..|steps| - 1]);
      EndsOver(c, before, steps[|steps| - 1]);
    }
  }

  lemma EndsOver(c: Constants, f: Fleet, step: Step)
    requires f.run.fleetState.Finished? ==> Terminal(f.run.state)
    ensures Stepped(c, f, step).run.fleetState.Finished? ==> Terminal(Stepped(c, f, step).run.state)
    ensures step.FinishStep? && Terminal(step.outcome) ==>
      Stepped(c, f, step).run == f.run.(state := step.outcome, fleetState := Finished)
  {
    hide LoadRefusal, Objection, LoadOf, AnyReady, AnyUnready, TimedOut, Lapses;
  }
}
