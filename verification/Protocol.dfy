/** What every step of the control plane keeps, whatever the order requests arrive in. */
module Protocol {
  import opened Wrappers
  import opened Planning
  import opened RunControl
  import opened Leases
  import opened Supervisor

  datatype Constants = Constants(delay: real, watch: Watch, sizing: Sizing)

  /** Everything that writes to the rows of a fleet run while its supervisor is alive. */
  datatype Step =
    | RenewClaim(at: nat, now: real)
    | WriteClaim(ticket: Ticket)
    | ReadyStep(slot: nat, leaseId: Option<nat>, now: real)
    | BeatStep(slot: nat, leaseId: Option<nat>, reported: string, stats: Option<string>, now: real)
    | FinalStep(slot: nat, leaseId: Option<nat>, report: Report, now: real)
    | StopStep
    | PauseStep(now: real)
    | ResumeStep(now: real)
    | LoadStep(value: real, now: real)
    | EpochStep(requestedAt: real)
    | TickStep(now: real)
    | FinishStep(outcome: RunState)

  function Controlled(c: Constants, f: Fleet, step: Step): Run
    requires step.PauseStep? || step.ResumeStep? || step.LoadStep?
  {
    match step
    case PauseStep(now) => PauseRun(f.run, NotInFlight, now).0
    case ResumeStep(now) => ResumeRun(f.run, NotInFlight, now).0
    case LoadStep(value, now) => LoadRun(f.run, NotInFlight, RosterOf(f.leases), c.sizing, 0, value, now).0
  }

  function Stepped(c: Constants, f: Fleet, step: Step): Fleet {
    match step
    case RenewClaim(at, now) => if at < |f.leases| then ClaimRenew(f, at, now) else f
    case WriteClaim(ticket) =>
      if ticket.candidates != [] && ticket.candidates[0].at < |f.leases| then ClaimWrite(f, ticket).0 else f
    case ReadyStep(slot, leaseId, now) => MarkReady(f, slot, leaseId, c.delay, now).0
    case BeatStep(slot, leaseId, reported, stats, now) => Heartbeat(f, slot, leaseId, reported, stats, c.delay, now).0
    case FinalStep(slot, leaseId, report, now) => Final(f, slot, leaseId, report, now)
    case StopStep => StopRequested(f)
    case EpochStep(requestedAt) => f.(epochs := f.epochs + [requestedAt])
    case TickStep(now) => Tick(f, c.watch, c.delay, now).0
    case FinishStep(outcome) =>
      if Terminal(outcome) then f.(run := f.run.(state := outcome, fleetState := Finished)) else f
    case _ => f.(run := Controlled(c, f, step))
  }

  function SteppedBy(c: Constants, f: Fleet, steps: seq<Step>): Fleet {
    if steps == [] then f else Stepped(c, SteppedBy(c, f, steps[..|steps| - 1]), steps[|steps| - 1])
  }

  function Rank(s: FleetState): nat {
    match s
    case Provisioning => 0
    case Releasing => 1
    case Underway => 2
    case Draining => 3
    case Finished => 4
  }

  // -------------------------------------------------------- what never goes back

  predicate LeaseForward(a: Lease, b: Lease, issued: nat) {
    && b.slot == a.slot
    && (a.state.Done? ==> b.state.Done? && b.summary == a.summary && b.leaseId == a.leaseId && b.holder == a.holder)
    && (b.leaseId == a.leaseId || (b.leaseId.Some? && b.leaseId.value >= issued))
  }

  predicate RunForward(a: Run, b: Run) {
    && (a.t0.Some? ==> b.t0 == a.t0)
    && Rank(a.fleetState) <= Rank(b.fleetState)
    && (Rank(a.fleetState) >= Rank(Draining) && a.t0.None? ==> b.t0.None?)
    && (a.loadOverride.Some? ==> b.loadOverride.Some?)
  }

  /** T0, once set, is for good; the run's phase never goes back; a run that drains without T0
    * never gets one; a done lease stays done with the report it has; an id that changes, changes
    * to one never issued before. */
  predicate Forward(f: Fleet, g: Fleet) {
    && RunForward(f.run, g.run)
    && |g.leases| == |f.leases|
    && (forall i :: 0 <= i < |f.leases| ==> LeaseForward(f.leases[i], g.leases[i], f.issued))
    && f.issued <= g.issued
    && f.epochs <= g.epochs
  }

  lemma ForwardTransitive(f: Fleet, g: Fleet, h: Fleet)
    requires Forward(f, g) && Forward(g, h)
    ensures Forward(f, h)
  {
    forall i | 0 <= i < |f.leases|
      ensures LeaseForward(f.leases[i], h.leases[i], f.issued)
    {
      assert LeaseForward(f.leases[i], g.leases[i], f.issued);
      assert LeaseForward(g.leases[i], h.leases[i], g.issued);
    }
  }

  lemma ReleaseForward(f: Fleet, force: bool, delay: real, now: real)
    ensures Forward(f, EvaluateRelease(f, force, delay, now))
  {
    hide MayRelease;
    assert MayRelease(f, force) ==> f.run.t0.None? && f.run.fleetState.Provisioning? by { MayReleaseNeeds(f, force); }
  }

  lemma MayReleaseNeeds(f: Fleet, force: bool)
    ensures MayRelease(f, force) ==> f.run.t0.None? && f.run.fleetState.Provisioning?
  {
  }

  lemma WithLeaseForward(f: Fleet, at: nat, lease: Lease)
    requires at < |f.leases| && LeaseForward(f.leases[at], lease, f.issued)
    ensures Forward(f, WithLease(f, at, lease))
  {
  }

  lemma ReadyForward(f: Fleet, slot: nat, leaseId: Option<nat>, delay: real, now: real)
    ensures Forward(f, MarkReady(f, slot, leaseId, delay, now).0)
  {
    hide EvaluateRelease, Forward;
    SameForward(f);
    var found := FindSlot(f.leases, slot);
    if found.Some? {
      var at := found.value;
      var g := WithLease(f, at, Warmed(f.leases[at], now));
      WithLeaseForward(f, at, Warmed(f.leases[at], now));
      ReleaseForward(g, false, delay, now);
      ForwardTransitive(f, g, EvaluateRelease(g, false, delay, now));
    }
  }

  lemma SameForward(f: Fleet)
    ensures Forward(f, f)
  {
  }

  lemma StartedForward(f: Fleet, at: nat, reported: string)
    requires at < |f.leases|
    ensures Forward(f, Started(f, at, reported))
  {
  }

  lemma BeatForward(f: Fleet, at: nat, reported: string, stats: Option<string>, delay: real, now: real)
    requires at < |f.leases|
    ensures Forward(f, Beat(f, at, reported, stats, delay, now).0)
  {
    hide EvaluateRelease, Forward, Started, LoadOf;
    var beaten := WithLease(f, at, Beaten(f.leases[at], stats, now));
    WithLeaseForward(f, at, Beaten(f.leases[at], stats, now));
    var g := WithLease(beaten, at, Restored(beaten.leases[at], reported));
    WithLeaseForward(beaten, at, Restored(beaten.leases[at], reported));
    ForwardTransitive(f, beaten, g);
    ReleaseForward(g, false, delay, now);
    ForwardTransitive(f, g, EvaluateRelease(g, false, delay, now));
    StartedForward(g, at, reported);
    ForwardTransitive(f, g, Started(g, at, reported));
  }

  lemma LostForward(f: Fleet, g: Fleet)
    requires |g.leases| == |f.leases| && g.issued == f.issued && g.epochs == f.epochs && RunForward(f.run, g.run)
    requires forall i :: 0 <= i < |f.leases| ==>
      g.leases[i] == f.leases[i] || (!f.leases[i].state.Done? && g.leases[i] == f.leases[i].(state := Lost))
    ensures Forward(f, g)
  {
    forall i | 0 <= i < |f.leases|
      ensures LeaseForward(f.leases[i], g.leases[i], f.issued)
    {
    }
  }

  lemma ProvisionedForward(f: Fleet, w: Watch, delay: real, now: real)
    ensures Forward(f, Provisioned(f, w, delay, now))
  {
    hide Forward, MayRelease, EvaluateRelease;
    SameForward(f);
    ReleaseForward(f, true, delay, now);
    if f.run.t0.None? && f.run.fleetState.Provisioning? {
      LostForward(f, f.(leases := WithoutUnready(f.leases), run := f.run.(error := Some(NOBODY_READY), fleetState := Draining)));
    }
  }

  lemma TickForward(f: Fleet, w: Watch, delay: real, now: real)
    ensures Forward(f, Tick(f, w, delay, now).0)
  {
    hide Forward, Provisioned, TimedOut;
    SameForward(f);
    var a := Lapsing(f, w, now);
    LostForward(f, a);
    var b := Provisioned(a, w, delay, now);
    ProvisionedForward(a, w, delay, now);
    ForwardTransitive(f, a, b);
    var d := Drained(b);
    LostForward(b, d);
    ForwardTransitive(f, b, d);
    var e := CutOff(d, TimedOut(d.run, w, now));
    LostForward(d, e);
    ForwardTransitive(f, d, e);
  }

  lemma StepForward(c: Constants, f: Fleet, step: Step)
    ensures Forward(f, Stepped(c, f, step))
  {
    hide MarkReady, Heartbeat, Tick, LoadRefusal, Objection;
    match step
    case ReadyStep(slot, leaseId, now) => ReadyForward(f, slot, leaseId, c.delay, now);
    case BeatStep(slot, leaseId, reported, stats, now) => HeartbeatForward(f, slot, leaseId, reported, stats, c.delay, now);
    case TickStep(now) => TickForward(f, c.watch, c.delay, now);
    case _ =>
  }

  lemma HeartbeatForward(f: Fleet, slot: nat, leaseId: Option<nat>, reported: string, stats: Option<string>, delay: real, now: real)
    ensures Forward(f, Heartbeat(f, slot, leaseId, reported, stats, delay, now).0)
  {
    hide Beat, Forward;
    SameForward(f);
    var found := FindSlot(f.leases, slot);
    if found.Some? {
      BeatForward(f, found.value, reported, stats, delay, now);
    }
  }

  /** Over every run, from any rows at all. */
  lemma {:induction false} RunsGoForward(c: Constants, f: Fleet, steps: seq<Step>)
    ensures Forward(f, SteppedBy(c, f, steps))
  {
    hide Stepped, Forward;
    SameForward(f);
    if steps != [] {
      var before := SteppedBy(c, f, steps[..|steps| - 1]);
      RunsGoForward(c, f, steps[..|steps| - 1]);
      StepForward(c, before, steps[|steps| - 1]);
      ForwardTransitive(f, before, SteppedBy(c, f, steps));
    }
  }
}
