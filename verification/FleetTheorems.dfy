/** What the fleet protocol is for: one T0, one owner for each lease id, releases that cannot be
  * missed, and state that cannot be lost. */
module FleetTheorems {
  import opened Wrappers
  import opened Planning
  import opened RunControl
  import opened Leases
  import opened Supervisor
  import opened Protocol
  import opened LeaseInvariants
  import opened FleetSystem
  import opened FleetSafety
  import opened FleetProgress
  import opened LeaseAnswers

  /** A state some run of the protocol reaches from a launched one, with any actions in any order. */
  ghost predicate Reachable(u: System) {
    exists c: Constants, s: System, actions: seq<Action> :: Initial(s) && u == ActedBy(c, s, actions)
  }

  lemma ReachableIsSound(u: System)
    requires Reachable(u)
    ensures SystemSound(u)
  {
    hide SystemSound, Initial, ActedBy;
    var c: Constants, s: System, actions: seq<Action> :| Initial(s) && u == ActedBy(c, s, actions);
    EveryRunIsSound(c, s, actions);
  }

  // ------------------------------------------------------------------- one T0

  /** The T0 an answer carries. */
  function T0In(answer: Answer): Option<real> {
    match answer
    case ClaimAnswer(_, Granted(_, _, _, t0)) => t0
    case ReadyAnswer(_, ReadyAt(t0)) => t0
    case BeatAnswer(_, Answered(reply)) => if reply.command.Release? then Some(reply.command.t0) else None
    case _ => None
  }

  /** However the network behaves, every T0 in any answer ever given is the run's one T0. */
  lemma EveryAnswerCarriesOneT0(u: System, answer: Answer)
    requires Reachable(u) && answer in u.replies && T0In(answer).Some?
    ensures T0In(answer) == u.fleet.run.t0
  {
    hide Reachable, SystemSound;
    ReachableIsSound(u);
    AnswerIsSound(u, answer);
  }

  /** A worker that starts, starts at T0, or at no set instant only because it was told to stop. */
  lemma EveryStartIsAtT0(u: System, w: nat)
    requires Reachable(u) && w < |u.workers|
    ensures u.workers[w].phase.Working? || u.workers[w].phase.Finishing? ==> u.workers[w].startAt.Some?
    ensures u.workers[w].startAt.Some? ==>
      u.workers[w].startAt.value == u.fleet.run.t0 || (u.workers[w].startAt.value.None? && u.workers[w].stopped)
  {
    hide Reachable, SystemSound;
    ReachableIsSound(u);
    WorkerIsSound(u, w);
  }

  // --------------------------------------------------- one owner for a lease id

  /** Two claims answered with the same lease id are the same slot's, for the same holder. */
  lemma LeaseIdsIdentify(u: System, a: Answer, b: Answer)
    requires Reachable(u) && a in u.replies && b in u.replies
    requires a.ClaimAnswer? && a.claim.Granted? && b.ClaimAnswer? && b.claim.Granted?
    ensures a.claim.leaseId.Some?
    ensures a.claim.leaseId == b.claim.leaseId ==> a.claim.slot == b.claim.slot && a.claim.holder == b.claim.holder
  {
    hide Reachable, SystemSound;
    ReachableIsSound(u);
    AnswerIsSound(u, a);
    AnswerIsSound(u, b);
  }

  predicate DistinctHolders(workers: seq<Worker>) {
    forall v, w :: 0 <= v < w < |workers| ==> workers[v].holder != workers[w].holder
  }

  predicate OnALease(w: Worker) {
    !w.phase.Joining? && !w.phase.Gone?
  }

  /** Containers with names of their own never hold the same lease id. */
  lemma LeaseIdsAreExclusive(u: System, v: nat, w: nat)
    requires Reachable(u) && DistinctHolders(u.workers) && v < w < |u.workers|
    requires OnALease(u.workers[v]) && OnALease(u.workers[w])
    ensures u.workers[v].leaseId != u.workers[w].leaseId
  {
    hide Reachable, SystemSound;
    ReachableIsSound(u);
    WorkerIsSound(u, v);
    WorkerIsSound(u, w);
  }

  // ------------------------------------------------------- releases that cannot be missed

  /** Another container on the same lease, under the same name, that has reported. */
  predicate ReportedFor(s: System, w: nat, v: nat)
    requires w < |s.workers|
  {
    && v < |s.workers| && v != w && s.workers[v].reported
    && s.workers[v].holder == s.workers[w].holder && s.workers[v].leaseId == s.workers[w].leaseId
  }

  /** A ready worker's slot is done only where another container of its own name reported under
    * the very lease it holds. */
  lemma ReadyWorkersSlot(s: System, w: nat, i: nat)
    requires SystemSound(s)
    requires w < |s.workers| && s.workers[w].phase.Warm?
    requires i < |s.fleet.leases| && s.fleet.leases[i].leaseId == s.workers[w].leaseId
    ensures s.fleet.leases[i].slot.number == s.workers[w].slot
    ensures s.fleet.leases[i].state.Done? ==> exists v :: ReportedFor(s, w, v)
  {
    hide Sound, ClaimSound, AnswerSound;
    assert WorkerSound(s.workers[w], s);
    assert LeaseGranted(s.fleet.leases[i], s.grants) && DoneReported(s.fleet.leases[i], s.sent);
    if s.fleet.leases[i].state.Done? {
      var r :| r in s.sent && r.FinalRequest? && r.slot == s.fleet.leases[i].slot.number && r.leaseId == s.fleet.leases[i].leaseId;
      ReporterIsAnother(s, w, r);
    }
  }

  /** Whoever reported under a ready worker's lease is another container of its name. */
  lemma ReporterIsAnother(s: System, w: nat, r: FleetSystem.Request)
    requires SystemSound(s)
    requires w < |s.workers| && s.workers[w].phase.Warm?
    requires r in s.sent && r.FinalRequest? && r.leaseId == s.workers[w].leaseId
    ensures ReportedFor(s, w, r.worker)
  {
    hide Sound, ClaimSound, AnswerSound, LeaseGranted, DoneReported;
    assert WorkerSound(s.workers[w], s) && RequestSound(r, s);
  }

  /** A ready worker that still holds its lease in a released run that is not draining: its next
    * beat to be answered, whatever was lost before, releases it, to start at T0, exactly when its
    * slot is not done; when it is, the beat neither releases it nor tells it T0. */
  lemma ReadyWorkerIsReleased(u: System, w: nat, i: nat, leaseId: nat, stats: Option<string>, delay: real, now: real)
    requires Reachable(u)
    requires w < |u.workers| && u.workers[w].phase.Warm? && !u.workers[w].superseded && u.workers[w].leaseId == Some(leaseId)
    requires Heard(u.fleet, i, leaseId) && u.fleet.run.t0.Some?
    ensures var worker := u.workers[w];
      var (g, reply) := Heartbeat(u.fleet, worker.slot, worker.leaseId, PhaseName(worker.phase), stats, delay, now);
      var told := HearBeat(worker, reply);
      && g.run.t0 == u.fleet.run.t0
      && (!u.fleet.leases[i].state.Done? ==> told.released && told.t0 == u.fleet.run.t0)
      && (!u.fleet.leases[i].state.Done? && told.readyAcked ==> Moved(told, StartRun(w)).startAt == Some(u.fleet.run.t0))
      && (u.fleet.leases[i].state.Done? ==> told.released == worker.released && told.t0 == worker.t0)
  {
    hide SystemSound, Heartbeat, Reachable;
    ReachableIsSound(u);
    ReadyWorkersSlot(u, w, i);
    ReleasedByNextBeat(u.fleet, i, leaseId, "ready", stats, delay, now);
    HeartbeatForward(u.fleet, u.workers[w].slot, Some(leaseId), "ready", stats, delay, now);
  }

  // ------------------------------------------------------------ stops that cannot be missed

  /** A worker that holds its lease in a run that is draining, whatever it is doing and whatever was
    * lost before, is told to stop by its next beat to be answered, and waits for no release. */
  lemma DrainingWorkerStops(u: System, w: nat, i: nat, leaseId: nat, stats: Option<string>, delay: real, now: real)
    requires Reachable(u)
    requires w < |u.workers| && Beating(u.workers[w]) && u.workers[w].leaseId == Some(leaseId)
    requires i < |u.fleet.leases| && u.fleet.leases[i].leaseId == Some(leaseId) && u.fleet.run.fleetState.Draining?
    ensures var worker := u.workers[w];
      var (g, answer) := Heartbeat(u.fleet, worker.slot, worker.leaseId, PhaseName(worker.phase), stats, delay, now);
      var told := HearBeat(worker, answer);
      answer.Answered? && answer.reply.command.Stop? && told.stopped && told.released && !told.superseded
  {
    hide Heartbeat, Reachable, SystemSound, PhaseName, FollowEpoch, FollowState;
    HoldersSlot(u, w, i);
    StopExactly(u.fleet, i, leaseId, PhaseName(u.workers[w].phase), stats, delay, now);
    FollowingKeeps(u.workers[w], Heartbeat(u.fleet, u.workers[w].slot, Some(leaseId), PhaseName(u.workers[w].phase), stats, delay, now).1.reply);
  }

  lemma FollowingKeeps(w: Worker, reply: Reply)
    ensures FollowEpoch(w, reply.epoch) == w.(epoch := FollowEpoch(w, reply.epoch).epoch)
    ensures var after := FollowState(w, reply); after.stopped == w.stopped && after.released == w.released && after.superseded == w.superseded
    ensures forall v: Worker :: reply.command.Stop? ==> FollowState(v, reply) == v
  {
  }

  lemma HoldersSlot(u: System, w: nat, i: nat)
    requires Reachable(u) && w < |u.workers| && Beating(u.workers[w])
    requires i < |u.fleet.leases| && u.fleet.leases[i].leaseId == u.workers[w].leaseId
    ensures DistinctSlots(u.fleet.leases) && u.fleet.leases[i].slot.number == u.workers[w].slot
  {
    hide Reachable, SystemSound, LeaseSound, DistinctIds;
    ReachableIsSound(u);
    WorkerIsSound(u, w);
    LeaseIsGranted(u, i);
    FleetIsSound(u);
  }

  lemma {:induction false} ActedByBoth(c: Constants, s: System, a: seq<Action>, b: seq<Action>)
    ensures ActedBy(c, s, a + b) == ActedBy(c, ActedBy(c, s, a), b)
    decreases |b|
  {
    hide Acted;
    if b == [] {
      assert a + b == a;
    } else {
      assert (a + b)[..|a + b| - 1] == a + b[..|b| - 1];
      ActedByBoth(c, s, a, b[..|b| - 1]);
    }
  }

  /** The state after a stop was requested in the middle of a run. */
  function Stopped(c: Constants, s: System, before: seq<Action>, after: seq<Action>): System {
    ActedBy(c, s, before + [Control(StopStep)] + after)
  }

  /** Once a stop has been requested the run drains until it is finished: whatever happens in
    * between, every worker that still holds its lease is told to stop by its next answered beat. */
  lemma StopReachesEveryHolder(c: Constants, s: System, before: seq<Action>, after: seq<Action>, w: nat, i: nat, leaseId: nat,
      stats: Option<string>, delay: real, now: real)
    requires Initial(s)
    requires var v := Stopped(c, s, before, after);
      && w < |v.workers| && Beating(v.workers[w]) && v.workers[w].leaseId == Some(leaseId)
      && i < |v.fleet.leases| && v.fleet.leases[i].leaseId == Some(leaseId) && !v.fleet.run.fleetState.Finished?
    ensures var v := Stopped(c, s, before, after);
      var worker := v.workers[w];
      var (g, answer) := Heartbeat(v.fleet, worker.slot, worker.leaseId, PhaseName(worker.phase), stats, delay, now);
      v.fleet.run.fleetState.Draining? && HearBeat(worker, answer).stopped && HearBeat(worker, answer).released
  {
    hide Heartbeat, ActedBy, HearBeat, PhaseName, Initial;
    var u := ActedBy(c, s, before);
    var stop := Acted(c, u, Control(StopStep));
    assert ActedBy(c, s, before + [Control(StopStep)]) == stop by { OneMoreAct(c, s, before, Control(StopStep)); }
    ActedByBoth(c, s, before + [Control(StopStep)], after);
    EveryRunGoesForward(c, stop, after);
    assert Reachable(Stopped(c, s, before, after));
    DrainingWorkerStops(Stopped(c, s, before, after), w, i, leaseId, stats, delay, now);
  }

  lemma OneMoreAct(c: Constants, s: System, actions: seq<Action>, a: Action)
    ensures ActedBy(c, s, actions + [a]) == Acted(c, ActedBy(c, s, actions), a)
  {
    hide Acted;
    assert (actions + [a])[..|actions|] == actions;
  }

  // ------------------------------------------------------------ state, not commands

  /** Whatever answers were lost before, one answered beat of a running worker brings its pause,
    * its load and its cache epoch to what the control plane has; hearing it again changes nothing. */
  lemma OneBeatConverges(u: System, w: nat, i: nat, leaseId: nat, stats: Option<string>, delay: real, now: real)
    requires Reachable(u)
    requires w < |u.workers| && u.workers[w].phase.Working? && !u.workers[w].superseded && u.workers[w].leaseId == Some(leaseId)
    requires Heard(u.fleet, i, leaseId) && u.fleet.run.t0.Some?
    ensures var worker := u.workers[w];
      var (g, reply) := Heartbeat(u.fleet, worker.slot, worker.leaseId, PhaseName(worker.phase), stats, delay, now);
      var told := HearBeat(worker, reply);
      && told.paused == u.fleet.run.pausedAt.Some?
      && told.epoch == |u.fleet.epochs|
      && (LoadOf(u.fleet, i).Some? ==> told.load == LoadOf(u.fleet, i))
      && (u.fleet.run.loadOverride.None? ==> told.load.None?)
      && HearBeat(told, reply) == told
  {
    hide Heartbeat, LoadOf, Reachable, SystemSound;
    ReachableIsSound(u);
    WorkerIsSound(u, w);
    LeaseIsGranted(u, i);
    RunningHeartbeat(u.fleet, i, leaseId, "running", stats, delay, now);
    NoLoadWithoutOverride(u.fleet, i);
  }

  /** Where the beat of a worker that holds its lease leaves it, in a released run, by what the worker is
    * doing: one that still warms up is never taken for ready, one that is ready never for running,
    * and one that runs or finishes always for running. */
  lemma PhasesAreHeard(u: System, w: nat, i: nat, leaseId: nat, stats: Option<string>, delay: real, now: real)
    requires Reachable(u) && w < |u.workers| && Beating(u.workers[w]) && u.workers[w].leaseId == Some(leaseId)
    requires Heard(u.fleet, i, leaseId) && u.fleet.run.t0.Some? && Live(u.fleet.leases[i].state)
    requires u.workers[w].phase.Starting? || u.workers[w].phase.Warm? || u.workers[w].phase.Working? || u.workers[w].phase.Finishing?
    ensures var (worker, before) := (u.workers[w], u.fleet.leases[i].state);
      var g := Heartbeat(u.fleet, worker.slot, worker.leaseId, PhaseName(worker.phase), stats, delay, now).0;
      && |g.leases| == |u.fleet.leases|
      && g.leases[i].state == if worker.phase.Working? || worker.phase.Finishing? then LeaseState.Running else before
  {
    hide Heartbeat, Reachable, SystemSound;
    HoldersSlot(u, w, i);
    BeatPlaces(u.fleet, i, leaseId, PhaseName(u.workers[w].phase), stats, delay, now);
  }

  /** And a lost one: it comes back as claimed, as ready or as running. */
  lemma PhasesComeBack(u: System, w: nat, i: nat, leaseId: nat, stats: Option<string>, delay: real, now: real)
    requires Reachable(u) && w < |u.workers| && Beating(u.workers[w]) && u.workers[w].leaseId == Some(leaseId)
    requires Heard(u.fleet, i, leaseId) && u.fleet.run.t0.Some? && u.fleet.leases[i].state.Lost?
    ensures var worker := u.workers[w];
      var g := Heartbeat(u.fleet, worker.slot, worker.leaseId, PhaseName(worker.phase), stats, delay, now).0;
      && |g.leases| == |u.fleet.leases|
      && (worker.phase.Starting? ==> g.leases[i].state.Claimed?)
      && (worker.phase.Warm? ==> g.leases[i].state.Ready?)
      && (worker.phase.Working? || worker.phase.Finishing? ==> g.leases[i].state.Running?)
  {
    hide Heartbeat, Reachable, SystemSound;
    HoldersSlot(u, w, i);
    BeatPlaces(u.fleet, i, leaseId, PhaseName(u.workers[w].phase), stats, delay, now);
  }

  /** One answered beat of a worker that is ready, running or finishing, unless it calls the worker
    * superseded, brings its cache epoch to the control plane's. */
  lemma EpochConverges(u: System, w: nat, stats: Option<string>, delay: real, now: real)
    requires Reachable(u) && w < |u.workers| && !u.workers[w].superseded && !u.fleet.run.fleetState.Finished?
    requires u.workers[w].phase.Warm? || u.workers[w].phase.Working? || u.workers[w].phase.Finishing?
    ensures var worker := u.workers[w];
      var (g, answer) := Heartbeat(u.fleet, worker.slot, worker.leaseId, PhaseName(worker.phase), stats, delay, now);
      answer.Answered? && (!answer.reply.command.Superseded? ==> HearBeat(worker, answer).epoch == |u.fleet.epochs|)
  {
    hide Heartbeat, Reachable, SystemSound, PhaseName, HearBeat, LastEpoch;
    ReachableIsSound(u);
    WorkerIsSound(u, w);
    var worker := u.workers[w];
    CarriesEpoch(u.fleet, worker.slot, worker.leaseId, PhaseName(worker.phase), stats, delay, now);
    HearsEpoch(worker, Heartbeat(u.fleet, worker.slot, worker.leaseId, PhaseName(worker.phase), stats, delay, now).1.reply,
               u.fleet.epochs);
  }

  lemma HearsEpoch(w: Worker, reply: Reply, epochs: seq<real>)
    requires w.phase.Warm? || w.phase.Working? || w.phase.Finishing?
    requires !w.superseded && w.epoch <= |epochs| && reply.epoch == LastEpoch(epochs)
    ensures !reply.command.Superseded? ==> HearBeat(w, Answered(reply)).epoch == |epochs|
  {
  }

  lemma CarriesEpoch(f: Fleet, slot: nat, leaseId: Option<nat>, reported: string, stats: Option<string>, delay: real, now: real)
    requires !f.run.fleetState.Finished?
    ensures var answer := Heartbeat(f, slot, leaseId, reported, stats, delay, now).1;
      answer.Answered? && answer.reply.epoch == LastEpoch(f.epochs)
  {
    hide LoadOf, EvaluateRelease, Started;
  }

  lemma LeaseIsGranted(u: System, i: nat)
    requires SystemSound(u) && i < |u.fleet.leases|
    ensures LeaseGranted(u.fleet.leases[i], u.grants)
  {
  }

  lemma NoLoadWithoutOverride(f: Fleet, i: nat)
    requires i < |f.leases|
    ensures f.run.loadOverride.None? ==> LoadOf(f, i).None?
  {
  }
}
