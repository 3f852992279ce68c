/** The handlers as they run: on a run row and its leases, updated in place. */
module FleetStores {
  import opened Wrappers
  import opened Planning
  import opened RunControl
  import opened Leases

  class FleetStore {
    const run: RunRow
    var leases: seq<Lease>
    var issued: nat
    var epochs: seq<real>

    ghost function View(): Fleet
      reads this, run
    {
      Fleet(run.View(), leases, issued, epochs)
    }

    constructor (roster: seq<Slot>)
      ensures fresh(run)
      ensures View() == Fleet(Run(false, RunState.Pending, Provisioning, None, None, None, 0.0, None, [], None), Seeded(roster), 0, [])
    {
      run := new RunRow(false);
      leases := [];
      issued := 0;
      epochs := [];
      new;
      ghost var whole := Seeded(roster);
      for i := 0 to |roster|
        invariant leases == whole[..i]
        invariant run.View() == Run(false, RunState.Pending, Provisioning, None, None, None, 0.0, None, [], None)
        invariant issued == 0 && epochs == [] && fresh(run)
      {
        leases := leases + [Lease(roster[i], None, None, Free, None, 0, None, None)];
      }
    }

    /** Sets T0 once every live lease is ready, or with what is ready when forced. */
    method EvaluateRelease(force: bool, delay: real, now: real) returns (released: bool)
      modifies this, run
      ensures View() == Leases.EvaluateRelease(old(View()), force, delay, now)
      ensures released == MayRelease(old(View()), force)
    {
      if run.t0.Some? || run.fleetState != Provisioning {
        return false;
      }
      var ready, pending := false, false;
      for i := 0 to |leases|
        invariant ready == exists j :: 0 <= j < i && leases[j].state.Ready?
        invariant pending == exists j :: 0 <= j < i && Unready(leases[j].state)
        invariant leases == old(leases) && View() == old(View())
      {
        ready := ready || leases[i].state.Ready?;
        pending := pending || Unready(leases[i].state);
      }
      if !ready || (pending && !force) {
        return false;
      }
      GiveUpUnready();
      run.t0 := Some(now + delay);
      run.fleetState := Releasing;
      released := true;
    }

    method GiveUpUnready()
      modifies this`leases
      ensures leases == WithoutUnready(old(leases))
    {
      var n := |leases|;
      for i := 0 to n
        invariant |leases| == n == |old(leases)|
        invariant forall j :: 0 <= j < i ==> leases[j] == WithoutUnready(old(leases))[j]
        invariant forall j :: i <= j < n ==> leases[j] == old(leases)[j]
      {
        if Unready(leases[i].state) {
          leases := leases[i := leases[i].(state := Lost)];
        }
      }
    }

    method ClaimRead(holder: string, hint: Option<nat>, engine: Option<string>, now: real) returns (look: ClaimLook)
      ensures look == Leases.ClaimRead(View(), holder, hint, engine, now)
    {
      if run.fleetState.Draining? || run.fleetState.Finished? || Terminal(run.state) {
        return Refuses;
      }
      var held := HeldBy(leases, holder);
      if held.Some? {
        return Resumes(held.value, leases[held.value].leaseId, run.t0);
      }
      var hinted: seq<Candidate>, others: seq<Candidate> := [], [];
      for i := 0 to |leases|
        invariant hinted == CandidatesAt(leases, i, engine, hint, true)
        invariant others == CandidatesAt(leases, i, engine, hint, false)
      {
        if Wanted(leases[i], engine) {
          var candidate := Candidate(i, leases[i].restarts, leases[i].state.Lost?);
          if hint == Some(leases[i].slot.number) {
            hinted := hinted + [candidate];
          } else {
            others := others + [candidate];
          }
        }
      }
      var candidates := hinted + others;
      look := if candidates == [] then Refuses else Contends(Ticket(holder, candidates, run.t0, now));
    }

    method ClaimRenew(at: nat, now: real)
      requires at < |leases|
      modifies this`leases
      ensures View() == Leases.ClaimRenew(old(View()), at, now)
    {
      leases := leases[at := leases[at].(beatAt := Some(now))];
    }

    method ClaimWrite(ticket: Ticket) returns (reply: Option<ClaimReply>)
      requires ticket.candidates != [] && ticket.candidates[0].at < |leases|
      modifies this
      ensures (View(), reply) == Leases.ClaimWrite(old(View()), ticket)
    {
      var c := ticket.candidates[0];
      var leaseId := issued;
      issued := issued + 1;
      var lease := leases[c.at];
      if !Claimable(lease.state) {
        return if |ticket.candidates| == 1 then Some(NoLease) else None;
      }
      leases := leases[c.at := lease.(
        leaseId := Some(leaseId), holder := Some(ticket.holder), state := Claimed,
        beatAt := Some(ticket.readAt), restarts := c.restarts + if c.wasLost then 1 else 0)];
      reply := Some(Granted(lease.slot.number, Some(leaseId), ticket.holder, ticket.t0));
    }

    method MarkReady(slot: nat, leaseId: Option<nat>, delay: real, now: real) returns (reply: ReadyReply)
      modifies this, run
      ensures (View(), reply) == Leases.MarkReady(old(View()), slot, leaseId, delay, now)
    {
      if run.fleetState.Finished? || Terminal(run.state) {
        return ReadyRefused;
      }
      var found := FindSlot(leases, slot);
      if found.None? || !HolderOk(leases[found.value], leaseId) {
        return ReadySuperseded;
      }
      var lease := leases[found.value].(beatAt := Some(now));
      if lease.state.Claimed? || lease.state.Ready? || lease.state.Lost? {
        lease := lease.(state := Ready);
      }
      leases := leases[found.value := lease];
      var _ := EvaluateRelease(false, delay, now);
      reply := ReadyAt(run.t0);
    }

    /** The worker has started: so has its lease, and with the first of them the run. */
    method Start(at: nat, reported: string)
      requires at < |leases|
      modifies this, run
      ensures View() == Started(old(View()), at, reported) && |leases| == |old(leases)|
    {
      var lease := leases[at];
      if lease.state.Claimed? || lease.state.Ready? {
        leases := leases[at := lease.(state := Running)];
      }
      if run.fleetState.Releasing? && SaysStarted(reported) {
        run.fleetState := Underway;
        run.state := Active;
        if run.startedAt.None? || run.startedAt.value == 0.0 {
          run.startedAt := run.t0;
        }
      }
    }

    method Beat(at: nat, reported: string, stats: Option<string>, delay: real, now: real) returns (reply: Reply)
      requires at < |leases|
      modifies this, run
      ensures (View(), reply) == Leases.Beat(old(View()), at, reported, stats, delay, now)
    {
      hide SlotLoad, Leases.EvaluateRelease, Started;
      var epoch := LastEpoch(epochs);
      var lease := leases[at].(beatAt := Some(now));
      if stats.Some? {
        lease := lease.(stats := stats);
      }
      leases := leases[at := lease];
      if run.fleetState.Draining? || Terminal(run.state) {
        return Reply(Stop, None, None, epoch);
      }
      if lease.state.Lost? {
        lease := lease.(state := if reported == "ready" || SaysStarted(reported) then Ready else Claimed);
      }
      leases := leases[at := lease];
      if run.t0.None? {
        if lease.state.Ready? {
          var _ := EvaluateRelease(false, delay, now);
        }
        return Reply(if run.t0.None? then Continue else Release(run.t0.value), None, None, epoch);
      }
      if !SaysStarted(reported) && !lease.state.Done? {
        return Reply(Release(run.t0.value), None, None, epoch);
      }
      Start(at, reported);
      reply := Reply(Continue, Some(run.pausedAt.Some?), SlotLoad(RosterOf(leases), run.loadOverride, leases[at].slot), epoch);
    }

    method Heartbeat(slot: nat, leaseId: Option<nat>, reported: string, stats: Option<string>, delay: real, now: real)
      returns (reply: BeatReply)
      modifies this, run
      ensures (View(), reply) == Leases.Heartbeat(old(View()), slot, leaseId, reported, stats, delay, now)
    {
      hide Leases.Beat;
      if run.fleetState.Finished? {
        return BeatRefused;
      }
      var found := FindSlot(leases, slot);
      if found.None? || !HolderOk(leases[found.value], leaseId) {
        return Answered(Reply(Superseded, None, None, LastEpoch(epochs)));
      }
      var answer := Beat(found.value, reported, stats, delay, now);
      reply := Answered(answer);
    }

    method Final(slot: nat, leaseId: Option<nat>, report: Report, now: real)
      modifies this`leases
      ensures View() == Leases.Final(old(View()), slot, leaseId, report, now)
    {
      if run.fleetState.Finished? {
        return;
      }
      var found := FindSlot(leases, slot);
      if found.None? {
        return;
      }
      var lease := leases[found.value];
      if leaseId.Some? && lease.leaseId != leaseId {
        return;
      }
      if !lease.state.Done? {
        leases := leases[found.value := lease.(summary := Some(report), state := Done, beatAt := Some(now))];
      }
    }

    method RequestStop()
      modifies run
      ensures View() == StopRequested(old(View()))
    {
      if run.fleetState != Finished {
        run.fleetState := Draining;
      }
    }
  }
}
