/** The supervisor's loop: it ends by a fixed ceiling, and leaves no lease live. */
module FleetRuns {
  import opened Wrappers
  import opened Planning
  import opened Rounding
  import opened RunControl
  import opened Leases
  import opened FleetStores
  import opened Supervisor
  import opened Protocol

  /** What happens between two passes, and the instant the second one reads. */
  datatype Pass = Pass(steps: seq<Step>, now: real)

  /** Requests and controls: everything but the supervisor's own steps. */
  predicate FromOutside(step: Step) {
    !step.TickStep? && !step.FinishStep?
  }

  ghost predicate Outside(schedule: nat -> Pass) {
    forall k: nat, i: nat :: i < |schedule(k).steps| ==> FromOutside(schedule(k).steps[i])
  }

  /** The clock gains at least a tick from each pass to the next. */
  ghost predicate Advances(schedule: nat -> Pass) {
    forall k: nat :: schedule(k + 1).now >= schedule(k).now + 1.0
  }

  function Before(c: Constants, f: Fleet, schedule: nat -> Pass, n: nat): Fleet {
    SteppedBy(c, Watched(c, f, schedule, n), schedule(n).steps)
  }

  /** The rows after n passes. */
  function Watched(c: Constants, f: Fleet, schedule: nat -> Pass, n: nat): Fleet {
    if n == 0 then f
    else Tick(SteppedBy(c, Watched(c, f, schedule, n - 1), schedule(n - 1).steps), c.watch, c.delay, schedule(n - 1).now).0
  }

  /** Whether pass n is the last. */
  predicate Ends(c: Constants, f: Fleet, schedule: nat -> Pass, n: nat) {
    Tick(Before(c, f, schedule, n), c.watch, c.delay, schedule(n).now).1
  }

  class FleetRun {
    const store: FleetStore
    const c: Constants

    constructor (store: FleetStore, c: Constants)
      ensures this.store == store && this.c == c
    {
      this.store, this.c := store, c;
    }

    method Lapse(draining: bool, now: real)
      modifies store`leases
      ensures store.leases == WithLapsed(old(store.leases), c.watch, draining, now)
    {
      var n := |store.leases|;
      for i := 0 to n
        invariant |store.leases| == n == |old(store.leases)|
        invariant forall j :: 0 <= j < i ==> store.leases[j] == WithLapsed(old(store.leases), c.watch, draining, now)[j]
        invariant forall j :: i <= j < n ==> store.leases[j] == old(store.leases)[j]
      {
        var lease := store.leases[i];
        if !Live(lease.state) || lease.beatAt.None? || lease.beatAt.value == 0.0 {
          continue;
        }
        var warming := lease.state.Claimed? && now <= c.watch.provisionDeadline && !draining;
        var allowance := if warming then MaxReal(c.watch.leaseS, c.watch.provisionS) else c.watch.leaseS;
        if now - lease.beatAt.value > allowance {
          store.leases := store.leases[i := lease.(state := Lost)];
        }
      }
    }

    method LoseFree()
      modifies store`leases
      ensures store.leases == WithoutFree(old(store.leases))
    {
      var n := |store.leases|;
      for i := 0 to n
        invariant |store.leases| == n == |old(store.leases)|
        invariant forall j :: 0 <= j < i ==> store.leases[j] == WithoutFree(old(store.leases))[j]
        invariant forall j :: i <= j < n ==> store.leases[j] == old(store.leases)[j]
      {
        if store.leases[i].state.Free? {
          store.leases := store.leases[i := store.leases[i].(state := Lost)];
        }
      }
    }

    method LoseUndone()
      modifies store`leases
      ensures store.leases == WithoutUndone(old(store.leases))
    {
      var n := |store.leases|;
      for i := 0 to n
        invariant |store.leases| == n == |old(store.leases)|
        invariant forall j :: 0 <= j < i ==> store.leases[j] == WithoutUndone(old(store.leases))[j]
        invariant forall j :: i <= j < n ==> store.leases[j] == old(store.leases)[j]
      {
        if !store.leases[i].state.Done? {
          store.leases := store.leases[i := store.leases[i].(state := Lost)];
        }
      }
    }

    method Paused(now: real) returns (seconds: real)
      ensures seconds == PausedSeconds(store.run.View(), now)
    {
      seconds := store.run.pausedS;
      if store.run.pausedAt.Some? && store.run.pausedAt.value != 0.0 {
        seconds := seconds + PauseLength(store.run.pausedAt.value, now);
      }
    }

    /** The provisioning deadline: a forced release, or giving up. */
    method Provision(now: real)
      modifies store, store.run
      ensures store.View() == Provisioned(old(store.View()), c.watch, c.delay, now)
    {
      hide WithoutUnready, MayRelease;
      var run := store.run;
      if run.t0.None? && run.fleetState.Provisioning? && now > c.watch.provisionDeadline {
        var released := store.EvaluateRelease(true, c.delay, now);
        if !released {
          store.GiveUpUnready();
          run.error := Some(NOBODY_READY);
          run.fleetState := Draining;
        }
      }
    }

    method OutOfTime(now: real) returns (timedOut: bool)
      ensures timedOut == TimedOut(store.run.View(), c.watch, now)
    {
      timedOut := now > c.watch.ceiling;
      if store.run.t0.Some? {
        var paused := Paused(now);
        if now > store.run.t0.value + c.watch.duration + 300.0 + c.watch.endAllowance + paused {
          timedOut := true;
        }
      }
    }

    method OnePass(now: real) returns (over: bool)
      modifies store, store.run
      ensures (store.View(), over) == Tick(old(store.View()), c.watch, c.delay, now)
    {
      hide Provisioned, TimedOut, WithLapsed, WithoutFree, WithoutUndone;
      Lapse(store.run.fleetState.Draining?, now);
      Provision(now);
      if store.run.fleetState.Draining? {
        LoseFree();
      }
      assert store.View() == Swept(old(store.View()), c.watch, c.delay, now);
      var timedOut := OutOfTime(now);
      var finished := forall i :: 0 <= i < |store.leases| ==> store.leases[i].state.Done? || store.leases[i].state.Lost?;
      if timedOut && !finished {
        LoseUndone();
        if store.run.error.None? {
          store.run.error := Some(OUTLIVED);
        }
      }
      over := finished || timedOut;
    }

    method Handle(step: Step)
      requires FromOutside(step)
      modifies store, store.run
      ensures store.View() == Stepped(c, old(store.View()), step)
    {
      hide Leases.MarkReady, Leases.Heartbeat, Leases.ClaimWrite, Leases.Final, LoadRefusal, Objection;
      match step
      case RenewClaim(at, now) =>
        if at < |store.leases| {
          store.ClaimRenew(at, now);
        }
      case WriteClaim(ticket) =>
        if ticket.candidates != [] && ticket.candidates[0].at < |store.leases| {
          var _ := store.ClaimWrite(ticket);
        }
      case ReadyStep(slot, leaseId, now) =>
        var _ := store.MarkReady(slot, leaseId, c.delay, now);
      case BeatStep(slot, leaseId, reported, stats, now) =>
        var _ := store.Heartbeat(slot, leaseId, reported, stats, c.delay, now);
      case FinalStep(slot, leaseId, report, now) => store.Final(slot, leaseId, report, now);
      case StopStep => store.RequestStop();
      case PauseStep(now) => var _ := store.run.Pause(NotInFlight, now);
      case ResumeStep(now) => var _ := store.run.Resume(NotInFlight, now);
      case LoadStep(value, now) => var _ := store.run.SetLoad(NotInFlight, RosterOf(store.leases), c.sizing, 0, value, now);
      case EpochStep(requestedAt) => store.epochs := store.epochs + [requestedAt];
    }

    method HandleAll(steps: seq<Step>)
      requires forall i :: 0 <= i < |steps| ==> FromOutside(steps[i])
      modifies store, store.run
      ensures store.View() == SteppedBy(c, old(store.View()), steps)
    {
      hide Stepped;
      for i := 0 to |steps|
        invariant store.View() == SteppedBy(c, old(store.View()), steps[..i])
      {
        assert steps[..i + 1][..i] == steps[..i];
        Handle(steps[i]);
      }
      assert steps[..|steps|] == steps;
    }

    /** Whatever the requests and controls in between, the watch ends with the first pass that
      * says so, no later than the first past the ceiling, and then every lease is done or lost. */
    method Watch(schedule: nat -> Pass) returns (passes: nat)
      requires Outside(schedule) && Advances(schedule)
      modifies store, store.run
      ensures passes > 0 && store.View() == Watched(c, old(store.View()), schedule, passes)
      ensures Ends(c, old(store.View()), schedule, passes - 1)
      ensures GoesOn(c, old(store.View()), schedule, passes - 1)
      ensures Settled(store.leases)
    {
      hide Tick, SteppedBy, Watched, Before, Ends, GoesOn, Settled, Left;
      passes := 0;
      ghost var f := store.View();
      StartsWith(c, f, schedule);
      var over := false;
      while !over
        invariant store.View() == Watched(c, f, schedule, passes)
        invariant over ==> passes > 0 && Ends(c, f, schedule, passes - 1) && Settled(store.leases)
        invariant GoesOn(c, f, schedule, if over && passes > 0 then passes - 1 else passes)
        decreases !over, Left(c.watch.ceiling, schedule(passes).now)
      {
        var pass := schedule(passes);
        assert forall i :: 0 <= i < |pass.steps| ==> FromOutside(schedule(passes).steps[i]);
        HandleAll(pass.steps);
        ghost var before := store.View();
        over := OnePass(pass.now);
        OneMore(c, f, schedule, passes, before);
        LeftFalls(c.watch.ceiling, pass.now, schedule(passes + 1).now);
        passes := passes + 1;
      }
    }
  }

  /** None of the first n passes is the last, and none is past the ceiling. */
  ghost predicate GoesOn(c: Constants, f: Fleet, schedule: nat -> Pass, n: nat) {
    forall k :: 0 <= k < n ==> !Ends(c, f, schedule, k) && schedule(k).now <= c.watch.ceiling
  }

  lemma StartsWith(c: Constants, f: Fleet, schedule: nat -> Pass)
    ensures Watched(c, f, schedule, 0) == f && GoesOn(c, f, schedule, 0)
  {
  }

  /** One more pass, from the rows its steps left. */
  lemma OneMore(c: Constants, f: Fleet, schedule: nat -> Pass, n: nat, before: Fleet)
    requires before == SteppedBy(c, Watched(c, f, schedule, n), schedule(n).steps)
    ensures var (after, over) := Tick(before, c.watch, c.delay, schedule(n).now);
      && Watched(c, f, schedule, n + 1) == after
      && (Ends(c, f, schedule, n) <==> over)
      && (over ==> Settled(after.leases))
      && (GoesOn(c, f, schedule, n) && !over ==> GoesOn(c, f, schedule, n + 1) && schedule(n).now <= c.watch.ceiling)
  {
    hide Tick, SteppedBy, Watched, Before, Ends, GoesOn, Settled;
    TickSettles(before, c.watch, c.delay, schedule(n).now);
    NextPass(c, f, schedule, n);
    if GoesOn(c, f, schedule, n) && !Ends(c, f, schedule, n) {
      GoesOnFurther(c, f, schedule, n);
    }
  }

  lemma NextPass(c: Constants, f: Fleet, schedule: nat -> Pass, n: nat)
    ensures var before := SteppedBy(c, Watched(c, f, schedule, n), schedule(n).steps);
      && Watched(c, f, schedule, n + 1) == Tick(before, c.watch, c.delay, schedule(n).now).0
      && (Ends(c, f, schedule, n) <==> Tick(before, c.watch, c.delay, schedule(n).now).1)
  {
    hide Tick, SteppedBy;
    assert n + 1 - 1 == n;
  }

  lemma GoesOnFurther(c: Constants, f: Fleet, schedule: nat -> Pass, n: nat)
    requires GoesOn(c, f, schedule, n) && !Ends(c, f, schedule, n) && schedule(n).now <= c.watch.ceiling
    ensures GoesOn(c, f, schedule, n + 1)
  {
    hide Ends;
  }

  /** Whole seconds until the ceiling. */
  function Left(ceiling: real, now: real): nat {
    if now > ceiling then 0 else (ceiling - now).Floor + 1
  }

  lemma LeftFalls(ceiling: real, now: real, later: real)
    requires later >= now + 1.0
    ensures now <= ceiling ==> Left(ceiling, later) < Left(ceiling, now)
  {
  }

  // -------------------------------------------------------------- the ceiling

  /** The instant a step happens at, where it can set T0. */
  function At(step: Step): Option<real> {
    match step
    case ReadyStep(_, _, now) => Some(now)
    case BeatStep(_, _, _, _, now) => Some(now)
    case TickStep(now) => Some(now)
    case _ => None
  }

  /** T0 is only ever set by a step of a provisioning run, a release delay after that step. */
  lemma NewT0(c: Constants, f: Fleet, step: Step)
    requires f.run.t0.None? && Stepped(c, f, step).run.t0.Some?
    ensures f.run.fleetState.Provisioning?
    ensures At(step).Some? && Stepped(c, f, step).run.t0.value == At(step).value + c.delay
  {
    hide MayRelease, LoadOf, LoadRefusal, Objection, Lapses, TimedOut;
    match step
    case TickStep(now) => TickT0(f, c.watch, c.delay, now);
    case BeatStep(_, _, _, _, _) => MayReleaseOnlyProvisioning();
    case ReadyStep(_, _, _) => MayReleaseOnlyProvisioning();
    case _ =>
  }

  lemma MayReleaseOnlyProvisioning()
    ensures forall f: Fleet, force: bool :: MayRelease(f, force) ==> f.run.fleetState.Provisioning?
  {
  }

  lemma TickT0(f: Fleet, w: Watch, delay: real, now: real)
    ensures var g := Tick(f, w, delay, now).0;
      && (f.run.t0.None? && g.run.t0.Some? ==> f.run.fleetState.Provisioning? && g.run.t0.value == now + delay)
      && (now > w.provisionDeadline ==> g.run.t0.Some? || !g.run.fleetState.Provisioning?)
      && g.run.t0 == Swept(f, w, delay, now).run.t0
  {
    hide MayRelease, Lapses, TimedOut;
  }

  predicate T0By(f: Fleet, limit: real) {
    f.run.t0.Some? ==> f.run.t0.value <= limit
  }

  /** No step of a pass happens after the pass itself. */
  predicate UpTo(steps: seq<Step>, now: real) {
    forall i :: 0 <= i < |steps| && At(steps[i]).Some? ==> At(steps[i]).value <= now
  }

  lemma {:induction false} StepsT0(c: Constants, f: Fleet, steps: seq<Step>, now: real, limit: real)
    requires T0By(f, limit) && UpTo(steps, now)
    requires f.run.t0.None? && f.run.fleetState.Provisioning? ==> now + c.delay <= limit
    ensures T0By(SteppedBy(c, f, steps), limit)
    ensures var g := SteppedBy(c, f, steps);
      g.run.t0.None? && g.run.fleetState.Provisioning? ==> f.run.t0.None? && f.run.fleetState.Provisioning?
  {
    hide Stepped;
    if steps != [] {
      var before := SteppedBy(c, f, steps[..|steps| - 1]);
      StepsT0(c, f, steps[..|steps| - 1], now, limit);
      StepForward(c, before, steps[|steps| - 1]);
      if before.run.t0.None? && Stepped(c, before, steps[|steps| - 1]).run.t0.Some? {
        NewT0(c, before, steps[|steps| - 1]);
      }
    }
  }

  /** Passes no more than a gap apart, their steps in time. */
  ghost predicate Paced(schedule: nat -> Pass, started: real, gap: real) {
    && schedule(0).now <= started + gap
    && (forall k: nat :: schedule(k + 1).now <= schedule(k).now + gap)
    && (forall k: nat :: UpTo(schedule(k).steps, schedule(k).now))
  }

  /** T0 comes at latest one gap and one release delay after the provisioning deadline. */
  lemma {:induction false} T0ComesInTime(c: Constants, f: Fleet, schedule: nat -> Pass, started: real, gap: real, n: nat)
    requires f.run.t0.None? && Paced(schedule, started, gap) && started <= c.watch.provisionDeadline
    ensures T0By(Watched(c, f, schedule, n), c.watch.provisionDeadline + gap + c.delay)
    ensures T0By(Swept(Before(c, f, schedule, n), c.watch, c.delay, schedule(n).now), c.watch.provisionDeadline + gap + c.delay)
    ensures var g := Watched(c, f, schedule, n);
      g.run.t0.None? && g.run.fleetState.Provisioning? ==> n == 0 || schedule(n - 1).now <= c.watch.provisionDeadline
  {
    hide Tick, Swept, Stepped, SteppedBy;
    var limit := c.watch.provisionDeadline + gap + c.delay;
    var g := Watched(c, f, schedule, n);
    if n > 0 {
      T0ComesInTime(c, f, schedule, started, gap, n - 1);
      TickT0(Before(c, f, schedule, n - 1), c.watch, c.delay, schedule(n - 1).now);
      assert schedule(n - 1 + 1).now <= schedule(n - 1).now + gap;
    }
    StepsT0(c, g, schedule(n).steps, schedule(n).now, limit);
    var before := Before(c, f, schedule, n);
    TickT0(before, c.watch, c.delay, schedule(n).now);
    assert T0By(before, limit);
    StepForward(c, before, TickStep(schedule(n).now));
    assert Stepped(c, before, TickStep(schedule(n).now)) == Tick(before, c.watch, c.delay, schedule(n).now).0 by { TickIsAStep(c, before, schedule(n).now); }
  }

  lemma TickIsAStep(c: Constants, f: Fleet, now: real)
    ensures Stepped(c, f, TickStep(now)) == Tick(f, c.watch, c.delay, now).0
  {
  }

  /** The ceiling never cuts a run short of its own deadline: at every pass, as long as the run
    * has not been paused for longer than is allowed, and a pass's gap and the release delay fit
    * into five minutes. */
  lemma CeilingCoversDeadline(c: Constants, f: Fleet, schedule: nat -> Pass, s: Settings, duration: real, started: real, gap: real, n: nat)
    requires f.run.t0.None? && Paced(schedule, started, gap) && s.provisionS >= 0.0
    requires c.watch == WatchFrom(s, duration, started) && gap + c.delay <= 300.0
    ensures var g := Swept(Before(c, f, schedule, n), c.watch, c.delay, schedule(n).now);
      var deadline := HardDeadline(g.run, c.watch, schedule(n).now);
      deadline.Some? && PausedSeconds(g.run, schedule(n).now) <= s.maxPauseS ==> deadline.value <= c.watch.ceiling
  {
    hide Swept, Before, PausedSeconds;
    T0ComesInTime(c, f, schedule, started, gap, n);
  }
}
