/** When a holder keeps to one live lease, and exactly which steps break that. */
module OneHolder {
  import opened Wrappers
  import opened Planning
  import opened RunControl
  import opened Leases
  import opened Supervisor
  import opened Protocol
  import opened LeaseInvariants
  import opened FleetSystem
  import opened FleetSafety

  /** No holder has two live leases. */
  predicate OneEach(leases: seq<Lease>) {
    forall i, j :: 0 <= i < j < |leases| && Live(leases[i].state) && Live(leases[j].state) ==> leases[i].holder != leases[j].holder
  }

  /** A conditional write that lands for a holder who by then has a live lease. */
  predicate WriteDoubles(f: Fleet, ticket: Ticket) {
    && ticket.candidates != [] && ticket.candidates[0].at < |f.leases|
    && Claimable(f.leases[ticket.candidates[0].at].state)
    && HeldBy(f.leases, ticket.holder).Some?
  }

  /** A request that is not fenced, for a lost lease whose holder has another one live. */
  predicate Revives(f: Fleet, slot: nat, leaseId: Option<nat>) {
    var found := FindSlot(f.leases, slot);
    && found.Some? && HolderOk(f.leases[found.value], leaseId)
    && f.leases[found.value].state.Lost?
    && f.leases[found.value].holder.Some? && HeldBy(f.leases, f.leases[found.value].holder.value).Some?
  }

  predicate Doubles(f: Fleet, step: Step) {
    match step
    case WriteClaim(ticket) => WriteDoubles(f, ticket)
    case ReadyStep(slot, leaseId, _) => !Over(f.run, false) && Revives(f, slot, leaseId)
    case BeatStep(slot, leaseId, _, _, _) => !Over(f.run, true) && !Stopping(f.run) && Revives(f, slot, leaseId)
    case _ => false
  }

  // ------------------------------------------------- steps that bring nothing to life

  predicate Tame(a: seq<Lease>, b: seq<Lease>) {
    && |b| == |a|
    && forall i :: 0 <= i < |a| ==> b[i].holder == a[i].holder && (Live(b[i].state) ==> Live(a[i].state))
  }

  lemma TameKeeps(a: seq<Lease>, b: seq<Lease>)
    requires Tame(a, b) && OneEach(a)
    ensures OneEach(b)
  {
  }

  lemma UnforcedReleaseKeeps(f: Fleet, delay: real, now: real)
    ensures EvaluateRelease(f, false, delay, now).leases == f.leases
  {
  }

  lemma ForcedReleaseTame(f: Fleet, delay: real, now: real)
    ensures Tame(f.leases, EvaluateRelease(f, true, delay, now).leases)
  {
    hide MayRelease;
  }

  lemma TickTame(f: Fleet, w: Watch, delay: real, now: real)
    ensures Tame(f.leases, Tick(f, w, delay, now).0.leases)
  {
    hide TimedOut, MayRelease, EvaluateRelease, Lapses;
    var a := Lapsing(f, w, now);
    ForcedReleaseTame(a, delay, now);
    var b := Provisioned(a, w, delay, now);
    assert Tame(f.leases, a.leases) && Tame(a.leases, b.leases);
    var d := Drained(b);
    assert Tame(b.leases, d.leases);
    assert Tame(d.leases, CutOff(d, TimedOut(d.run, w, now)).leases);
  }

  // ----------------------------------------------------- a lease that comes to life

  lemma ComesAlive(a: seq<Lease>, at: nat, lease: Lease, holder: string)
    requires at < |a| && !Live(a[at].state) && Live(lease.state) && lease.holder == Some(holder) && OneEach(a)
    ensures OneEach(a[at := lease]) <==> HeldBy(a, holder).None?
  {
    var b, held := a[at := lease], HeldBy(a, holder);
    if held.Some? {
      var i := held.value;
      assert i != at && b[i] == a[i] && b[at] == lease;
      assert i < at || at < i;
    } else {
      forall i, j | 0 <= i < j < |b| && Live(b[i].state) && Live(b[j].state)
        ensures b[i].holder != b[j].holder
      {
        assert (i == at || b[i] == a[i]) && (j == at || b[j] == a[j]);
      }
    }
  }

  lemma WriteExactly(f: Fleet, ticket: Ticket)
    requires OneEach(f.leases) && ticket.candidates != [] && ticket.candidates[0].at < |f.leases|
    ensures OneEach(ClaimWrite(f, ticket).0.leases) <==> !WriteDoubles(f, ticket)
  {
    hide OneEach, HeldBy;
    var c := ticket.candidates[0];
    if Claimable(f.leases[c.at].state) {
      var lease := ClaimWrite(f, ticket).0.leases[c.at];
      ComesAlive(f.leases, c.at, lease, ticket.holder);
    }
  }

  /** One lease replaced, alive afterwards if it was or if it was lost and `back`. */
  lemma ReplacedExactly(f: Fleet, at: nat, lease: Lease, back: bool)
    requires Sound(f) && OneEach(f.leases) && at < |f.leases| && lease.holder == f.leases[at].holder && f.leases[at].leaseId.Some?
    requires Live(lease.state) <==> Live(f.leases[at].state) || (f.leases[at].state.Lost? && back)
    ensures OneEach(f.leases[at := lease]) <==>
            !(back && f.leases[at].state.Lost? && HeldBy(f.leases, f.leases[at].holder.GetOr("")).Some?)
  {
    hide HeldBy, DistinctIds, DistinctSlots, RunSound;
    assert LeaseSound(f.leases[at], f.issued, f.run.t0.Some?);
    if f.leases[at].state.Lost? && back {
      hide OneEach;
      ComesAlive(f.leases, at, lease, f.leases[at].holder.value);
    } else {
      TameKeeps(f.leases, f.leases[at := lease]);
    }
  }

  lemma ReadyExactly(f: Fleet, slot: nat, leaseId: Option<nat>, delay: real, now: real)
    requires Sound(f) && OneEach(f.leases)
    ensures OneEach(MarkReady(f, slot, leaseId, delay, now).0.leases) <==> Over(f.run, false) || !Revives(f, slot, leaseId)
  {
    hide Sound, OneEach, HeldBy, EvaluateRelease, Over;
    var found := FindSlot(f.leases, slot);
    if !Over(f.run, false) && found.Some? && HolderOk(f.leases[found.value], leaseId) {
      var at := found.value;
      HasHolder(f, at);
      var lease := Warmed(f.leases[at], now);
      UnforcedReleaseKeeps(WithLease(f, at, lease), delay, now);
      ReplacedExactly(f, at, lease, true);
    }
  }

  lemma HasHolder(f: Fleet, at: nat)
    requires Sound(f) && at < |f.leases| && f.leases[at].leaseId.Some?
    ensures f.leases[at].holder.Some?
  {
    assert LeaseSound(f.leases[at], f.issued, f.run.t0.Some?);
  }

  /** A beat touches one lease, and revives it if it was lost and the run is not stopping. */
  lemma BeatTouches(f: Fleet, at: nat, reported: string, stats: Option<string>, delay: real, now: real) returns (lease: Lease)
    requires at < |f.leases|
    ensures Beat(f, at, reported, stats, delay, now).0.leases == f.leases[at := lease]
    ensures lease.holder == f.leases[at].holder
    ensures Live(lease.state) <==> Live(f.leases[at].state) || (f.leases[at].state.Lost? && !Stopping(f.run))
  {
    hide EvaluateRelease, LoadOf, Stopping, SaysStarted;
    var beaten := WithLease(f, at, Beaten(f.leases[at], stats, now));
    lease := beaten.leases[at];
    if !Stopping(f.run) {
      var restored := WithLease(beaten, at, Restored(beaten.leases[at], reported));
      UnforcedReleaseKeeps(restored, delay, now);
      lease := restored.leases[at];
      assert restored.leases == f.leases[at := lease];
      if Beat(f, at, reported, stats, delay, now).0 == Started(restored, at, reported) {
        lease := Started(restored, at, reported).leases[at];
        assert Started(restored, at, reported).leases == f.leases[at := lease];
      }
    }
  }

  lemma HeartbeatExactly(f: Fleet, slot: nat, leaseId: Option<nat>, reported: string, stats: Option<string>, delay: real, now: real)
    requires Sound(f) && OneEach(f.leases)
    ensures OneEach(Heartbeat(f, slot, leaseId, reported, stats, delay, now).0.leases) <==>
            Over(f.run, true) || Stopping(f.run) || !Revives(f, slot, leaseId)
  {
    hide Sound, OneEach, HeldBy, Beat, Over, Stopping;
    var found := FindSlot(f.leases, slot);
    if !Over(f.run, true) && found.Some? && HolderOk(f.leases[found.value], leaseId) {
      var at := found.value;
      HasHolder(f, at);
      var lease := BeatTouches(f, at, reported, stats, delay, now);
      ReplacedExactly(f, at, lease, !Stopping(f.run));
    }
  }

  /** From a sound state in which no holder has two live leases, a step keeps it so exactly unless
    * it is one of three: a conditional write that lands for a holder who has a live lease by then,
    * or an unfenced ready or heartbeat for a lost lease whose holder has another one live. */
  lemma StepKeepsOneEachExactly(c: Constants, f: Fleet, step: Step)
    requires Sound(f) && OneEach(f.leases)
    ensures OneEach(Stepped(c, f, step).leases) <==> !Doubles(f, step)
  {
    hide Sound, OneEach, MarkReady, Heartbeat, Tick, LoadRefusal, Objection, ClaimWrite, HeldBy, Revives, Over, Stopping;
    match step
    case WriteClaim(ticket) =>
      if ticket.candidates != [] && ticket.candidates[0].at < |f.leases| {
        WriteExactly(f, ticket);
      }
    case ReadyStep(slot, leaseId, now) => ReadyExactly(f, slot, leaseId, c.delay, now);
    case BeatStep(slot, leaseId, reported, stats, now) => HeartbeatExactly(f, slot, leaseId, reported, stats, c.delay, now);
    case RenewClaim(at, now) =>
      if at < |f.leases| {
        TameKeeps(f.leases, ClaimRenew(f, at, now).leases);
      }
    case FinalStep(slot, leaseId, report, now) =>
      TameKeeps(f.leases, Final(f, slot, leaseId, report, now).leases);
    case TickStep(now) =>
      TickTame(f, c.watch, c.delay, now);
      TameKeeps(f.leases, Tick(f, c.watch, c.delay, now).0.leases);
    case _ =>
  }

  /** A claim written straight after its read never doubles: overlap is what it takes. */
  lemma UnhurriedClaimKeeps(f: Fleet, holder: string, hint: Option<nat>, engine: Option<string>, now: real)
    requires ClaimRead(f, holder, hint, engine, now).Contends?
    ensures !WriteDoubles(f, ClaimRead(f, holder, hint, engine, now).ticket)
  {
  }

  // -------------------------------------------------------------------- whole runs

  /** The step of the rows that an action makes, if it makes one. */
  function StepOf(s: System, a: Action): Option<Step> {
    match a
    case Deliver(ReadyRequest(_, slot, leaseId), now) => if a.request in s.sent then Some(ReadyStep(slot, leaseId, now)) else None
    case Deliver(BeatRequest(_, slot, leaseId, reported, stats), now) =>
      if a.request in s.sent then Some(BeatStep(slot, leaseId, reported, stats, now)) else None
    case Deliver(FinalRequest(_, slot, leaseId, report), now) =>
      if a.request in s.sent then Some(FinalStep(slot, leaseId, report, now)) else None
    case ProceedClaim(k, now) =>
      if k >= |s.claims| || s.claims[k].ClosedClaim? then None
      else (match s.claims[k].look
        case Refuses => None
        case Resumes(at, _, _) => Some(RenewClaim(at, now))
        case Contends(ticket) => Some(WriteClaim(ticket)))
    case Control(step) => if ControlPlaneStep(step) then Some(step) else None
    case _ => None
  }

  lemma ActionSteps(c: Constants, s: System, a: Action)
    ensures Acted(c, s, a).fleet == match StepOf(s, a) case None => s.fleet case Some(step) => Stepped(c, s.fleet, step)
  {
    hide MarkReady, Heartbeat, Final, ClaimRead, ClaimWrite, Tick, Moved, HeardBy;
  }

  predicate ActionDoubles(s: System, a: Action) {
    StepOf(s, a).Some? && Doubles(s.fleet, StepOf(s, a).value)
  }

  lemma ActionKeepsOneEachExactly(c: Constants, s: System, a: Action)
    requires Sound(s.fleet) && OneEach(s.fleet.leases)
    ensures OneEach(Acted(c, s, a).fleet.leases) <==> !ActionDoubles(s, a)
  {
    hide Sound, OneEach, Acted, StepOf, Doubles;
    ActionSteps(c, s, a);
    if StepOf(s, a).Some? {
      StepKeepsOneEachExactly(c, s.fleet, StepOf(s, a).value);
    }
  }

  ghost predicate OneEachThroughout(c: Constants, s: System, actions: seq<Action>) {
    forall n :: 0 <= n <= |actions| ==> OneEach(ActedBy(c, s, actions[..n]).fleet.leases)
  }

  ghost predicate NothingDoubles(c: Constants, s: System, actions: seq<Action>) {
    forall n :: 0 <= n < |actions| ==> !ActionDoubles(ActedBy(c, s, actions[..n]), actions[n])
  }

  lemma NextState(c: Constants, s: System, actions: seq<Action>, n: nat)
    requires n < |actions|
    ensures ActedBy(c, s, actions[..n + 1]) == Acted(c, ActedBy(c, s, actions[..n]), actions[n])
  {
    hide Acted;
    assert actions[..n + 1][..n] == actions[..n];
  }

  lemma {:induction false} OneEachSoFar(c: Constants, s: System, actions: seq<Action>, n: nat)
    requires Initial(s) && NothingDoubles(c, s, actions) && n <= |actions|
    ensures OneEach(ActedBy(c, s, actions[..n]).fleet.leases)
  {
    hide SystemSound, ActionDoubles, Acted;
    if n > 0 {
      hide OneEach, Initial, ActedBy;
      OneEachSoFar(c, s, actions, n - 1);
      var before := ActedBy(c, s, actions[..n - 1]);
      EveryRunIsSound(c, s, actions[..n - 1]);
      FleetIsSound(before);
      NextState(c, s, actions, n - 1);
      ActionKeepsOneEachExactly(c, before, actions[n - 1]);
    }
  }

  /** In every run of the protocol, no holder ever has two live leases exactly when no action is
    * one of those three. */
  lemma RunKeepsOneEachExactly(c: Constants, s: System, actions: seq<Action>)
    requires Initial(s)
    ensures OneEachThroughout(c, s, actions) <==> NothingDoubles(c, s, actions)
  {
    hide OneEach, Initial, ActedBy, SystemSound, ActionDoubles, Acted;
    if NothingDoubles(c, s, actions) {
      forall n | 0 <= n <= |actions|
        ensures OneEach(ActedBy(c, s, actions[..n]).fleet.leases)
      {
        OneEachSoFar(c, s, actions, n);
      }
    } else {
      var n :| 0 <= n < |actions| && ActionDoubles(ActedBy(c, s, actions[..n]), actions[n]);
      EveryRunIsSound(c, s, actions[..n]);
      FleetIsSound(ActedBy(c, s, actions[..n]));
      NextState(c, s, actions, n);
      if OneEach(ActedBy(c, s, actions[..n]).fleet.leases) {
        ActionKeepsOneEachExactly(c, ActedBy(c, s, actions[..n]), actions[n]);
        assert !OneEach(ActedBy(c, s, actions[..n + 1]).fleet.leases);
      }
    }
  }
}
