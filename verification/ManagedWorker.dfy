/** A fleet member as it runs: its phase, its release and what its heartbeats bring it. */
module ManagedWorkers {
  import opened Wrappers
  import opened Leases
  import opened FleetSystem

  class ManagedWorker {
    const holder: string
    const hint: Option<nat>
    const engine: Option<string>
    var phase: Phase
    var slot: nat
    var leaseId: Option<nat>
    var t0: Option<real>
    var released: bool
    var stopped: bool
    var superseded: bool
    var readyAcked: bool
    var reported: bool
    var startAt: Option<Option<real>>
    var paused: bool
    var load: Option<real>
    var epoch: nat

    function View(): Worker
      reads this
    {
      Worker(holder, hint, engine, phase, slot, leaseId, t0, released, stopped, superseded, readyAcked, reported,
             startAt, paused, load, epoch)
    }

    constructor (holder: string, hint: Option<nat>, engine: Option<string>)
      ensures FreshWorker(View()) && View().holder == holder && View().hint == hint && View().engine == engine
    {
      this.holder, this.hint, this.engine := holder, hint, engine;
      phase, slot, leaseId, t0 := Joining, 0, None, None;
      released, stopped, superseded, readyAcked, reported := false, false, false, false, false;
      startAt, paused, load, epoch := None, false, None, 0;
    }

    /** Whoever asks, the worker stops waiting too. */
    method RequestStop()
      modifies this
      ensures View() == StopWorker(old(View()))
    {
      stopped := true;
      released := true;
    }

    method OnClaim(reply: ClaimReply)
      modifies this
      ensures View() == HearClaim(old(View()), reply)
    {
      if phase.Joining? && reply.Granted? {
        slot, leaseId := reply.slot, reply.leaseId;
        phase := Phase.Starting;
      }
    }

    method OnReady(reply: ReadyReply)
      modifies this
      ensures View() == HearReady(old(View()), reply)
    {
      if !phase.Warm? || readyAcked {
        return;
      }
      match reply
      case ReadyRefused =>
      case ReadySuperseded => phase := Gone;
      case ReadyAt(carried) =>
        readyAcked := true;
        if carried.Some? {
          t0 := carried;
        }
        if t0.Some? {
          released := true;
        }
    }

    method OnEpoch(carried: Option<(nat, real)>)
      modifies this`epoch
      ensures View() == FollowEpoch(old(View()), carried)
    {
      if HasScheduler(View()) && carried.Some? && carried.value.0 > 0 && carried.value.0 != epoch {
        SetEpoch(carried.value.0);
      }
    }

    method SetEpoch(next: nat)
      modifies this`epoch
      ensures epoch == if next > old(epoch) then next else old(epoch)
    {
      if next <= epoch {
        return;
      }
      epoch := next;
    }

    method OnCommand(command: Command)
      modifies this
      ensures View() == FollowCommand(old(View()), command)
    {
      if command.Release? {
        t0 := Some(command.t0);
        if phase.Warm? {
          released := true;
        }
      } else if command.Stop? {
        RequestStop();
      }
    }

    /** Pause and load ride every reply, so one that is lost only delays them. */
    method OnState(reply: Reply)
      modifies this`paused, this`load
      ensures View() == FollowState(old(View()), reply)
      ensures reply.load.None? ==> load == old(load)
      ensures reply.paused.None? ==> paused == old(paused)
    {
      if !HasScheduler(View()) || reply.command.Stop? {
        return;
      }
      if reply.paused == Some(true) && !paused {
        paused := true;
      } else if reply.paused == Some(false) && paused {
        paused := false;
      }
      if reply.load.Some? && reply.load != load {
        load := reply.load;
      }
    }

    /** One answered heartbeat: the epoch first, then the command, then pause and load. */
    method OnHeartbeat(answer: BeatReply)
      modifies this
      ensures View() == HearBeat(old(View()), answer)
    {
      hide FollowEpoch, FollowCommand, FollowState;
      if !Beating(View()) || answer.BeatRefused? {
        return;
      }
      var reply := answer.reply;
      if reply.command.Superseded? {
        superseded := true;
        RequestStop();
        return;
      }
      OnEpoch(reply.epoch);
      OnCommand(reply.command);
      OnState(reply);
    }

    /** The end of the wait for a release. */
    method StartWhenReleased(w: nat) returns (started: bool)
      modifies this
      ensures View() == Moved(old(View()), StartRun(w)) && started == MayStart(old(View()))
    {
      started := phase.Warm? && readyAcked && released && !superseded;
      if started {
        phase := Working;
        startAt := Some(t0);
      }
    }
  }
}
