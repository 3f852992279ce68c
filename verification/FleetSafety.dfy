/** What every run of the whole protocol keeps, however the network behaves. */
module FleetSafety {
  import opened Wrappers
  import opened Planning
  import opened RunControl
  import opened Leases
  import opened Supervisor
  import opened Protocol
  import opened LeaseInvariants
  import opened FleetSystem

  // -------------------------- steps that neither issue an id nor take a report

  predicate LeaseQuiet(a: Lease, b: Lease) {
    b.slot == a.slot && b.leaseId == a.leaseId && b.holder == a.holder && (b.state.Done? ==> a.state.Done?)
  }

  predicate Quiet(f: Fleet, g: Fleet) {
    && |g.leases| == |f.leases| && g.issued == f.issued
    && forall i :: 0 <= i < |f.leases| ==> LeaseQuiet(f.leases[i], g.leases[i])
  }

  lemma QuietTransitive(f: Fleet, g: Fleet, h: Fleet)
    requires Quiet(f, g) && Quiet(g, h)
    ensures Quiet(f, h)
  {
    forall i | 0 <= i < |f.leases|
      ensures LeaseQuiet(f.leases[i], h.leases[i])
    {
      assert LeaseQuiet(f.leases[i], g.leases[i]) && LeaseQuiet(g.leases[i], h.leases[i]);
    }
  }

  lemma ReleaseQuiet(f: Fleet, force: bool, delay: real, now: real)
    ensures Quiet(f, EvaluateRelease(f, force, delay, now))
  {
    hide MayRelease;
  }

  lemma ReadyQuiet(f: Fleet, slot: nat, leaseId: Option<nat>, delay: real, now: real)
    ensures Quiet(f, MarkReady(f, slot, leaseId, delay, now).0)
  {
    hide EvaluateRelease;
    var found := FindSlot(f.leases, slot);
    if found.Some? {
      var g := WithLease(f, found.value, Warmed(f.leases[found.value], now));
      ReleaseQuiet(g, false, delay, now);
      QuietTransitive(f, g, EvaluateRelease(g, false, delay, now));
    }
  }

  lemma HeartbeatQuiet(f: Fleet, slot: nat, leaseId: Option<nat>, reported: string, stats: Option<string>, delay: real, now: real)
    ensures Quiet(f, Heartbeat(f, slot, leaseId, reported, stats, delay, now).0)
  {
    hide EvaluateRelease, Started, LoadOf, Stopping, SaysStarted, Quiet;
    SameQuiet(f);
    var found := FindSlot(f.leases, slot);
    if found.Some? {
      var at := found.value;
      var beaten := WithLease(f, at, Beaten(f.leases[at], stats, now));
      WithLeaseQuiet(f, at, Beaten(f.leases[at], stats, now));
      var g := WithLease(beaten, at, Restored(beaten.leases[at], reported));
      WithLeaseQuiet(beaten, at, Restored(beaten.leases[at], reported));
      QuietTransitive(f, beaten, g);
      ReleaseQuiet(g, false, delay, now);
      QuietTransitive(f, g, EvaluateRelease(g, false, delay, now));
      StartedQuiet(g, at, reported);
      QuietTransitive(f, g, Started(g, at, reported));
    }
  }

  lemma SameQuiet(f: Fleet)
    ensures Quiet(f, f)
  {
  }

  lemma WithLeaseQuiet(f: Fleet, at: nat, lease: Lease)
    requires at < |f.leases| && LeaseQuiet(f.leases[at], lease)
    ensures Quiet(f, WithLease(f, at, lease))
  {
  }

  lemma StartedQuiet(f: Fleet, at: nat, reported: string)
    requires at < |f.leases|
    ensures Quiet(f, Started(f, at, reported))
  {
  }

  lemma TickQuiet(f: Fleet, w: Watch, delay: real, now: real)
    ensures Quiet(f, Tick(f, w, delay, now).0)
  {
    hide TimedOut, MayRelease, EvaluateRelease, Lapses;
    var a := Lapsing(f, w, now);
    ReleaseQuiet(a, true, delay, now);
    var b := Provisioned(a, w, delay, now);
    assert Quiet(f, a) && Quiet(a, b);
    QuietTransitive(f, a, b);
    var d := Drained(b);
    assert Quiet(b, d);
    QuietTransitive(f, b, d);
    var e := CutOff(d, TimedOut(d.run, w, now));
    assert Quiet(d, e);
    QuietTransitive(f, d, e);
  }

  lemma StepQuiet(c: Constants, f: Fleet, step: Step)
    requires !step.WriteClaim? && !step.FinalStep?
    ensures Quiet(f, Stepped(c, f, step))
  {
    hide MarkReady, Heartbeat, Tick, LoadRefusal, Objection;
    match step
    case ReadyStep(slot, leaseId, now) => ReadyQuiet(f, slot, leaseId, c.delay, now);
    case BeatStep(slot, leaseId, reported, stats, now) => HeartbeatQuiet(f, slot, leaseId, reported, stats, c.delay, now);
    case TickStep(now) => TickQuiet(f, c.watch, c.delay, now);
    case _ =>
  }

  // ---------------------------------------------------------------- the invariant

  /** A T0 that is known is the run's. */
  predicate Agrees(t0: Option<real>, run: Run) {
    t0.None? || t0 == run.t0
  }

  predicate IssuedTo(leaseId: Option<nat>, slot: nat, holder: string, grants: Grants) {
    leaseId.Some? && leaseId.value < |grants| && grants[leaseId.value] == Some((slot, holder))
  }

  predicate LeaseGranted(lease: Lease, grants: Grants) {
    lease.leaseId.Some? ==> lease.holder.Some? && IssuedTo(lease.leaseId, lease.slot.number, lease.holder.value, grants)
  }

  /** A done slot's report was sent by somebody, under the slot's own lease. */
  predicate DoneReported(lease: Lease, sent: set<Request>) {
    lease.state.Done? ==>
      exists r :: r in sent && r.FinalRequest? && r.slot == lease.slot.number && r.leaseId == lease.leaseId
  }

  predicate ClaimSound(open: OpenClaim, s: System) {
    open.OpenClaim? ==>
      && (open.worker < |s.workers| ==> open.holder == s.workers[open.worker].holder)
      && match open.look
         case Refuses => true
         case Resumes(at, leaseId, t0) =>
           at < |s.fleet.leases| && Agrees(t0, s.fleet.run) && IssuedTo(leaseId, s.fleet.leases[at].slot.number, open.holder, s.grants)
         case Contends(ticket) => Agrees(ticket.t0, s.fleet.run) && ticket.holder == open.holder
  }

  predicate AnswerSound(answer: Answer, s: System) {
    match answer
    case ClaimAnswer(w, NoLease) => true
    case ClaimAnswer(w, Granted(slot, leaseId, holder, t0)) =>
      && Agrees(t0, s.fleet.run) && IssuedTo(leaseId, slot, holder, s.grants)
      && (w < |s.workers| ==> holder == s.workers[w].holder)
    case ReadyAnswer(_, ReadyAt(t0)) => Agrees(t0, s.fleet.run)
    case ReadyAnswer(_, _) => true
    case BeatAnswer(_, BeatRefused) => true
    case BeatAnswer(_, Answered(reply)) =>
      && (reply.command.Release? ==> s.fleet.run.t0 == Some(reply.command.t0))
      && (reply.epoch.Some? ==> reply.epoch.value.0 <= |s.fleet.epochs|)
      && (reply.load.Some? ==> s.fleet.run.loadOverride.Some?)
  }

  predicate WorkerSound(w: Worker, s: System) {
    && Agrees(w.t0, s.fleet.run)
    && (w.released ==> w.stopped || w.t0.Some?)
    && (w.startAt.Some? ==> Agrees(w.startAt.value, s.fleet.run) && (w.startAt.value.None? ==> w.stopped))
    && (w.phase.Working? || w.phase.Finishing? ==> w.startAt.Some?)
    && (w.phase.Warm? || w.phase.Working? ==> !w.reported)
    && (w.phase.Joining? ==> !w.reported)
    && (!w.phase.Joining? && !w.phase.Gone? ==> IssuedTo(w.leaseId, w.slot, w.holder, s.grants))
    && w.epoch <= |s.fleet.epochs|
    && (w.load.Some? ==> s.fleet.run.loadOverride.Some?)
  }

  predicate RequestSound(r: Request, s: System) {
    match r
    case ClaimRequest(w, holder, _, _) => w < |s.workers| && holder == s.workers[w].holder
    case FinalRequest(w, slot, leaseId, _) =>
      && w < |s.workers| && !s.workers[w].phase.Joining? && s.workers[w].reported
      && s.workers[w].slot == slot && s.workers[w].leaseId == leaseId && leaseId.Some?
      && IssuedTo(leaseId, slot, s.workers[w].holder, s.grants)
    case _ => true
  }

  predicate Granting(s: System) {
    |s.grants| == s.fleet.issued
  }

  /** What holds in every state the protocol can reach. */
  predicate SystemSound(s: System) {
    && Sound(s.fleet) && Granting(s)
    && (forall i :: 0 <= i < |s.fleet.leases| ==> LeaseGranted(s.fleet.leases[i], s.grants))
    && (forall i :: 0 <= i < |s.fleet.leases| ==> DoneReported(s.fleet.leases[i], s.sent))
    && (forall k :: 0 <= k < |s.claims| ==> ClaimSound(s.claims[k], s))
    && (forall a :: a in s.replies ==> AnswerSound(a, s))
    && (forall w :: 0 <= w < |s.workers| ==> WorkerSound(s.workers[w], s))
    && (forall r :: r in s.sent ==> RequestSound(r, s))
  }

  predicate WorkerForward(a: Worker, b: Worker) {
    && b.holder == a.holder
    && (!a.phase.Joining? ==> !b.phase.Joining? && b.slot == a.slot && b.leaseId == a.leaseId)
    && (a.reported ==> b.reported)
    && a.epoch <= b.epoch
  }

  /** What one action does not take back. */
  predicate Grows(s: System, u: System) {
    && Forward(s.fleet, u.fleet)
    && s.grants <= u.grants && s.sent <= u.sent
    && |u.workers| == |s.workers|
    && forall w :: 0 <= w < |s.workers| ==> WorkerForward(s.workers[w], u.workers[w])
  }

  lemma ClaimKept(open: OpenClaim, s: System, u: System)
    requires Grows(s, u) && ClaimSound(open, s)
    ensures ClaimSound(open, u)
  {
    if open.OpenClaim? && open.look.Resumes? {
      assert LeaseForward(s.fleet.leases[open.look.at], u.fleet.leases[open.look.at], s.fleet.issued);
    }
  }

  lemma AnswerKept(answer: Answer, s: System, u: System)
    requires Grows(s, u) && AnswerSound(answer, s)
    ensures AnswerSound(answer, u)
  {
  }

  lemma WorkerKept(w: Worker, s: System, u: System)
    requires Grows(s, u) && WorkerSound(w, s)
    ensures WorkerSound(w, u)
  {
  }

  lemma RequestKept(r: Request, s: System, u: System)
    requires Grows(s, u) && RequestSound(r, s)
    ensures RequestSound(r, u)
  {
  }

  /** The rows moved by a step that issues nothing and takes no report. */
  lemma QuietKeeps(s: System, u: System)
    requires SystemSound(s) && Quiet(s.fleet, u.fleet) && u.grants == s.grants && s.sent <= u.sent
    ensures Granting(u)
    ensures forall i :: 0 <= i < |u.fleet.leases| ==> LeaseGranted(u.fleet.leases[i], u.grants)
    ensures forall i :: 0 <= i < |u.fleet.leases| ==> DoneReported(u.fleet.leases[i], u.sent)
  {
    forall i | 0 <= i < |u.fleet.leases|
      ensures LeaseGranted(u.fleet.leases[i], u.grants) && DoneReported(u.fleet.leases[i], u.sent)
    {
      assert LeaseQuiet(s.fleet.leases[i], u.fleet.leases[i]);
      assert LeaseGranted(s.fleet.leases[i], s.grants) && DoneReported(s.fleet.leases[i], s.sent);
    }
  }

  /** A successor whose rows are sound is sound when what it adds is. */
  lemma SuccessorSound(s: System, u: System)
    requires SystemSound(s) && Grows(s, u) && Sound(u.fleet) && Granting(u)
    requires forall i :: 0 <= i < |u.fleet.leases| ==> LeaseGranted(u.fleet.leases[i], u.grants)
    requires forall i :: 0 <= i < |u.fleet.leases| ==> DoneReported(u.fleet.leases[i], u.sent)
    requires forall k :: 0 <= k < |u.claims| ==> (k < |s.claims| && u.claims[k] == s.claims[k]) || ClaimSound(u.claims[k], u)
    requires forall a :: a in u.replies ==> a in s.replies || AnswerSound(a, u)
    requires forall w :: 0 <= w < |u.workers| ==> u.workers[w] == s.workers[w] || WorkerSound(u.workers[w], u)
    requires forall r :: r in u.sent ==> r in s.sent || RequestSound(r, u)
    ensures SystemSound(u)
  {
    hide Grows, Sound, LeaseGranted, DoneReported, ClaimSound, AnswerSound, WorkerSound, RequestSound, Granting;
    forall k | 0 <= k < |u.claims|
      ensures ClaimSound(u.claims[k], u)
    {
      if k < |s.claims| && u.claims[k] == s.claims[k] {
        ClaimKept(u.claims[k], s, u);
      }
    }
    forall a | a in u.replies
      ensures AnswerSound(a, u)
    {
      if a in s.replies {
        AnswerKept(a, s, u);
      }
    }
    assert |u.workers| == |s.workers| by { GrowsWorkers(s, u); }
    forall w | 0 <= w < |u.workers|
      ensures WorkerSound(u.workers[w], u)
    {
      if u.workers[w] == s.workers[w] {
        WorkerKept(u.workers[w], s, u);
      }
    }
    forall r | r in u.sent
      ensures RequestSound(r, u)
    {
      if r in s.sent {
        RequestKept(r, s, u);
      }
    }
  }

  lemma GrowsWorkers(s: System, u: System)
    requires Grows(s, u)
    ensures |u.workers| == |s.workers|
  {
  }

  // ------------------------------------------------------------ one worker's move

  /** A change of one worker alone. */
  lemma WorkerMoves(s: System, w: nat, after: Worker)
    requires SystemSound(s) && w < |s.workers|
    requires WorkerForward(s.workers[w], after) && WorkerSound(after, s)
    ensures SystemSound(s.(workers := s.workers[w := after]))
  {
    hide Sound, LeaseGranted, DoneReported;
    var u := s.(workers := s.workers[w := after]);
    SameForward(s.fleet);
    assert Grows(s, u);
    SuccessorSound(s, u);
  }

  lemma MoveSound(s: System, a: Action, w: nat)
    requires SystemSound(s) && Mover(a) == Some(w) && w < |s.workers|
    ensures SystemSound(s.(workers := s.workers[w := Moved(s.workers[w], a)]))
  {
    hide SystemSound;
    WorkerIsSound(s, w);
    WorkerMoves(s, w, Moved(s.workers[w], a));
  }

  lemma WorkerIsSound(s: System, w: nat)
    requires SystemSound(s) && w < |s.workers|
    ensures WorkerSound(s.workers[w], s)
  {
  }

  lemma AnswerIsSound(s: System, answer: Answer)
    requires SystemSound(s) && answer in s.replies
    ensures AnswerSound(answer, s)
  {
  }

  /** Whatever sound answer a worker hears, it stays sound: in particular it only learns T0 from
    * an answer that carries it, and is only released by T0 or by a stop. */
  lemma HearingSound(w: Worker, answer: Answer, s: System)
    requires WorkerSound(w, s) && AnswerSound(answer, s)
    requires answer.worker < |s.workers| && w.holder == s.workers[answer.worker].holder
    ensures WorkerSound(HeardBy(w, answer), s) && WorkerForward(w, HeardBy(w, answer))
  {
    if answer.BeatAnswer? {
      HearBeatSound(w, answer.beat, s);
    }
  }

  lemma FollowEpochSound(w: Worker, reply: Reply, s: System)
    requires WorkerSound(w, s) && AnswerSound(BeatAnswer(0, BeatReply.Answered(reply)), s)
    ensures WorkerSound(FollowEpoch(w, reply.epoch), s) && WorkerForward(w, FollowEpoch(w, reply.epoch))
  {
    hide IssuedTo;
  }

  lemma FollowCommandSound(w: Worker, command: Command, s: System)
    requires WorkerSound(w, s) && (command.Release? ==> s.fleet.run.t0 == Some(command.t0))
    ensures WorkerSound(FollowCommand(w, command), s) && WorkerForward(w, FollowCommand(w, command))
  {
    hide IssuedTo;
    match command
    case Release(t0) => assert Agrees(Some(t0), s.fleet.run);
    case Stop =>
    case _ =>
  }

  lemma FollowStateSound(w: Worker, reply: Reply, s: System)
    requires WorkerSound(w, s) && AnswerSound(BeatAnswer(0, BeatReply.Answered(reply)), s)
    ensures WorkerSound(FollowState(w, reply), s) && WorkerForward(w, FollowState(w, reply))
  {
    hide IssuedTo;
  }

  lemma HearBeatSound(w: Worker, reply: BeatReply, s: System)
    requires WorkerSound(w, s) && AnswerSound(BeatAnswer(0, reply), s)
    ensures WorkerSound(HearBeat(w, reply), s) && WorkerForward(w, HearBeat(w, reply))
  {
    hide IssuedTo, FollowEpoch, FollowCommand, FollowState;
    if Beating(w) && reply.Answered? && !reply.reply.command.Superseded? {
      FollowEpochSound(w, reply.reply, s);
      var a := FollowEpoch(w, reply.reply.epoch);
      FollowCommandSound(a, reply.reply.command, s);
      var b := FollowCommand(a, reply.reply.command);
      FollowStateSound(b, reply.reply, s);
    }
  }

  lemma HearSound(s: System, answer: Answer)
    requires SystemSound(s) && answer in s.replies && answer.worker < |s.workers|
    ensures SystemSound(s.(workers := s.workers[answer.worker := HeardBy(s.workers[answer.worker], answer)]))
  {
    hide SystemSound;
    WorkerIsSound(s, answer.worker);
    AnswerIsSound(s, answer);
    HearingSound(s.workers[answer.worker], answer, s);
    WorkerMoves(s, answer.worker, HeardBy(s.workers[answer.worker], answer));
  }

  // ------------------------------------------------------------ what workers send

  lemma AskSound(s: System, a: Action)
    requires SystemSound(s) && Mover(a).None?
    ensures SystemSound(Asked(s, a))
  {
    hide Sound, LeaseGranted, DoneReported, ClaimSound, AnswerSound;
    var u := Asked(s, a);
    if u != s {
      SameForward(s.fleet);
      SameQuiet(s.fleet);
      QuietKeeps(s, u);
      assert WorkerSound(s.workers[a.w], s);
      SuccessorSound(s, u);
    }
  }

  // ------------------------------------------------------- what is done with them

  /** A step of the rows that issues nothing and takes no report, with at most one new answer. */
  lemma RowsMove(s: System, u: System, answer: Option<Answer>)
    requires SystemSound(s)
    requires Forward(s.fleet, u.fleet) && Quiet(s.fleet, u.fleet) && Sound(u.fleet)
    requires u == s.(fleet := u.fleet, replies := if answer.Some? then s.replies + {answer.value} else s.replies)
    requires answer.Some? ==> AnswerSound(answer.value, u)
    ensures SystemSound(u)
  {
    hide Forward, Quiet, Sound, LeaseGranted, DoneReported, ClaimSound, AnswerSound, WorkerSound, RequestSound;
    QuietKeeps(s, u);
    SuccessorSound(s, u);
  }

  lemma BeatAnswerSound(f: Fleet, slot: nat, leaseId: Option<nat>, reported: string, stats: Option<string>, delay: real, now: real)
    ensures var (g, beat) := Heartbeat(f, slot, leaseId, reported, stats, delay, now);
      beat.Answered? ==>
        && (beat.reply.command.Release? ==> g.run.t0 == Some(beat.reply.command.t0))
        && (beat.reply.epoch.Some? ==> beat.reply.epoch.value.0 <= |g.epochs|)
        && (beat.reply.load.Some? ==> g.run.loadOverride.Some?)
  {
    hide MayRelease;
  }

  lemma DeliverReadySound(c: Constants, s: System, r: Request, now: real)
    requires SystemSound(s) && r.ReadyRequest?
    ensures SystemSound(Delivered(c, s, r, now))
  {
    hide MarkReady, SystemSound;
    assert Sound(s.fleet) by { FleetIsSound(s); }
    ReadySound(s.fleet, r.slot, r.leaseId, c.delay, now);
    ReadyForward(s.fleet, r.slot, r.leaseId, c.delay, now);
    ReadyQuiet(s.fleet, r.slot, r.leaseId, c.delay, now);
    ReadyAnswers(s.fleet, r.slot, r.leaseId, c.delay, now);
    RowsMove(s, Delivered(c, s, r, now), Some(ReadyAnswer(r.worker, MarkReady(s.fleet, r.slot, r.leaseId, c.delay, now).1)));
  }

  lemma ReadyAnswers(f: Fleet, slot: nat, leaseId: Option<nat>, delay: real, now: real)
    ensures var (g, ready) := MarkReady(f, slot, leaseId, delay, now);
      ready.ReadyAt? ==> ready.t0 == g.run.t0
  {
  }

  lemma FleetIsSound(s: System)
    requires SystemSound(s)
    ensures Sound(s.fleet)
  {
  }

  lemma DeliverBeatSound(c: Constants, s: System, r: Request, now: real)
    requires SystemSound(s) && r.BeatRequest?
    ensures SystemSound(Delivered(c, s, r, now))
  {
    hide Heartbeat, SystemSound;
    FleetIsSound(s);
    HeartbeatSound(s.fleet, r.slot, r.leaseId, r.reported, r.stats, c.delay, now);
    HeartbeatForward(s.fleet, r.slot, r.leaseId, r.reported, r.stats, c.delay, now);
    HeartbeatQuiet(s.fleet, r.slot, r.leaseId, r.reported, r.stats, c.delay, now);
    BeatAnswerSound(s.fleet, r.slot, r.leaseId, r.reported, r.stats, c.delay, now);
    RowsMove(s, Delivered(c, s, r, now),
             Some(BeatAnswer(r.worker, Heartbeat(s.fleet, r.slot, r.leaseId, r.reported, r.stats, c.delay, now).1)));
  }

  lemma DeliverFinalSound(c: Constants, s: System, r: Request, now: real)
    requires SystemSound(s) && r in s.sent && r.FinalRequest?
    ensures SystemSound(Delivered(c, s, r, now))
  {
    hide Sound, ClaimSound, AnswerSound, WorkerSound, IssuedTo;
    var u := Delivered(c, s, r, now);
    FinalSound(s.fleet, r.slot, r.leaseId, r.report, now);
    StepForward(c, s.fleet, FinalStep(r.slot, r.leaseId, r.report, now));
    assert RequestSound(r, s);
    forall i | 0 <= i < |u.fleet.leases|
      ensures LeaseGranted(u.fleet.leases[i], u.grants) && DoneReported(u.fleet.leases[i], u.sent)
    {
      assert LeaseGranted(s.fleet.leases[i], s.grants) && DoneReported(s.fleet.leases[i], s.sent);
    }
    SuccessorSound(s, u);
  }

  lemma DeliverClaimSound(c: Constants, s: System, r: Request, now: real)
    requires SystemSound(s) && r in s.sent && r.ClaimRequest?
    ensures SystemSound(Delivered(c, s, r, now))
  {
    hide LeaseSound, DistinctIds, DistinctSlots, RunSound, AnswerSound, WorkerSound, DoneReported, Candidates;
    var u := Delivered(c, s, r, now);
    SameForward(s.fleet);
    assert RequestSound(r, s);
    var look := ClaimRead(s.fleet, r.holder, r.hint, r.engine, now);
    if look.Resumes? {
      assert LeaseGranted(s.fleet.leases[look.at], s.grants);
      assert LeaseSound(s.fleet.leases[look.at], s.fleet.issued, s.fleet.run.t0.Some?);
      LiveHasId(s.fleet.leases[look.at], s.fleet.issued, s.fleet.run.t0.Some?);
    }
    assert ClaimSound(u.claims[|s.claims|], u);
    SuccessorSound(s, u);
  }

  lemma LiveHasId(lease: Lease, issued: nat, released: bool)
    requires LeaseSound(lease, issued, released) && Live(lease.state)
    ensures lease.leaseId.Some?
  {
  }

  // ---------------------------------------------------------------- open claims

  lemma AnswerNoLease(s: System, k: nat, worker: nat)
    requires SystemSound(s) && k < |s.claims|
    ensures SystemSound(s.(claims := s.claims[k := ClosedClaim]))
    ensures SystemSound(s.(claims := s.claims[k := ClosedClaim], replies := s.replies + {ClaimAnswer(worker, NoLease)}))
  {
    hide Sound, LeaseGranted, DoneReported, AnswerSound, WorkerSound, RequestSound;
    SameForward(s.fleet);
    SuccessorSound(s, s.(claims := s.claims[k := ClosedClaim]));
    var u := s.(claims := s.claims[k := ClosedClaim], replies := s.replies + {ClaimAnswer(worker, NoLease)});
    assert AnswerSound(ClaimAnswer(worker, NoLease), u) by { NoLeaseSound(worker, u); }
    SuccessorSound(s, u);
  }

  lemma NoLeaseSound(worker: nat, u: System)
    ensures AnswerSound(ClaimAnswer(worker, NoLease), u)
  {
  }

  lemma RenewalSound(s: System, k: nat, now: real)
    requires SystemSound(s) && k < |s.claims| && s.claims[k].OpenClaim? && s.claims[k].look.Resumes?
    ensures SystemSound(Proceeded(s, k, now))
  {
    hide Sound, LeaseGranted, DoneReported, WorkerSound, RequestSound;
    var open := s.claims[k];
    assert ClaimSound(open, s);
    var u := Proceeded(s, k, now);
    RenewSound(s.fleet, open.look.at, now);
    StepForward(Constants(0.0, Watch(0.0, 0.0, 0.0, 0.0, 0.0, 0.0), Sizing(1, 1)), s.fleet, RenewClaim(open.look.at, now));
    QuietKeeps(s, u);
    SuccessorSound(s, u);
  }

  lemma WriteForward(f: Fleet, ticket: Ticket)
    requires ticket.candidates != [] && ticket.candidates[0].at < |f.leases|
    ensures Forward(f, ClaimWrite(f, ticket).0)
  {
  }

  /** One conditional write: the id it makes is new, so it goes to nobody else. */
  lemma ContentionSound(s: System, k: nat, now: real)
    requires SystemSound(s) && k < |s.claims| && s.claims[k].OpenClaim? && s.claims[k].look.Contends?
    requires var t := s.claims[k].look.ticket; t.candidates != [] && t.candidates[0].at < |s.fleet.leases|
    ensures SystemSound(Proceeded(s, k, now))
  {
    hide Sound, WorkerSound, RequestSound;
    var open := s.claims[k];
    assert ClaimSound(open, s);
    var ticket := open.look.ticket;
    var u := Proceeded(s, k, now);
    WriteSound(s.fleet, ticket);
    WriteForward(s.fleet, ticket);
    assert Grows(s, u);
    forall i | 0 <= i < |u.fleet.leases|
      ensures LeaseGranted(u.fleet.leases[i], u.grants) && DoneReported(u.fleet.leases[i], u.sent)
    {
      assert LeaseGranted(s.fleet.leases[i], s.grants) && DoneReported(s.fleet.leases[i], s.sent);
    }
    SuccessorSound(s, u);
  }

  lemma ProceedSound(s: System, k: nat, now: real)
    requires SystemSound(s) && k < |s.claims|
    ensures SystemSound(Proceeded(s, k, now))
  {
    hide SystemSound, ClaimWrite;
    if s.claims[k].OpenClaim? {
      match s.claims[k].look
      case Refuses => AnswerNoLease(s, k, s.claims[k].worker);
      case Resumes(_, _, _) => RenewalSound(s, k, now);
      case Contends(ticket) =>
        if ticket.candidates == [] || ticket.candidates[0].at >= |s.fleet.leases| {
          AnswerNoLease(s, k, 0);
        } else {
          ContentionSound(s, k, now);
        }
    }
  }

  // -------------------------------------------------------------------- all runs

  lemma ActionSound(c: Constants, s: System, a: Action)
    requires SystemSound(s)
    ensures SystemSound(Acted(c, s, a))
  {
    hide SystemSound, Delivered, Proceeded, Moved, HeardBy, Asked, Stepped;
    if Mover(a).Some? {
      if Mover(a).value < |s.workers| {
        MoveSound(s, a, Mover(a).value);
      }
    } else {
      match a
      case Hear(answer) =>
        if answer in s.replies && answer.worker < |s.workers| {
          HearSound(s, answer);
        }
      case Deliver(request, now) =>
        if request in s.sent {
          DeliverSound(c, s, request, now);
        }
      case ProceedClaim(k, now) =>
        if k < |s.claims| {
          ProceedSound(s, k, now);
        }
      case Control(step) =>
        if ControlPlaneStep(step) {
          FleetIsSound(s);
          StepSound(c, s.fleet, step);
          StepForward(c, s.fleet, step);
          StepQuiet(c, s.fleet, step);
          RowsMove(s, s.(fleet := Stepped(c, s.fleet, step)), None);
        }
      case _ => AskSound(s, a);
    }
  }

  lemma DeliverSound(c: Constants, s: System, r: Request, now: real)
    requires SystemSound(s) && r in s.sent
    ensures SystemSound(Delivered(c, s, r, now))
  {
    hide SystemSound, Delivered;
    match r
    case ClaimRequest(_, _, _, _) => DeliverClaimSound(c, s, r, now);
    case ReadyRequest(_, _, _) => DeliverReadySound(c, s, r, now);
    case BeatRequest(_, _, _, _, _) => DeliverBeatSound(c, s, r, now);
    case FinalRequest(_, _, _, _) => DeliverFinalSound(c, s, r, now);
  }

  lemma InitialIsSound(s: System)
    requires Initial(s)
    ensures SystemSound(s)
  {
    LaunchedIsSound(s.fleet);
  }

  lemma {:induction false} EveryRunIsSound(c: Constants, s: System, actions: seq<Action>)
    requires Initial(s)
    ensures SystemSound(ActedBy(c, s, actions))
  {
    hide SystemSound, Acted, Initial;
    InitialIsSound(s);
    if actions != [] {
      EveryRunIsSound(c, s, actions[..|actions| - 1]);
      ActionSound(c, ActedBy(c, s, actions[..|actions| - 1]), actions[|actions| - 1]);
    }
  }
}
