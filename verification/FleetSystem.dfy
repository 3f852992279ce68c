/** The whole protocol: the control plane, any number of workers, and a network that may lose,
  * delay, reorder and repeat whatever is sent. */
module FleetSystem {
  import opened Wrappers
  import opened Planning
  import opened RunControl
  import opened Leases
  import opened Supervisor
  import opened Protocol
  import opened LeaseInvariants

  // ------------------------------------------------------------------- a worker

  datatype Phase = Joining | Starting | Warm | Working | Finishing | Gone

  /** The state a worker's heartbeats report. */
  function PhaseName(phase: Phase): string {
    match phase
    case Joining => ""
    case Starting => "starting"
    case Warm => "ready"
    case Working => "running"
    case Finishing => "finishing"
    case Gone => ""
  }

  datatype Worker = Worker(
    holder: string, hint: Option<nat>, engine: Option<string>,
    phase: Phase, slot: nat, leaseId: Option<nat>,
    t0: Option<real>, released: bool, stopped: bool, superseded: bool, readyAcked: bool, reported: bool,
    startAt: Option<Option<real>>, paused: bool, load: Option<real>, epoch: nat)

  /** A worker told to stop waits for no release. */
  function StopWorker(w: Worker): Worker {
    w.(stopped := true, released := true)
  }

  predicate Beating(w: Worker) {
    !w.phase.Joining? && !w.phase.Gone? && !w.superseded
  }

  predicate HasScheduler(w: Worker) {
    w.phase.Warm? || w.phase.Working? || w.phase.Finishing?
  }

  function HearClaim(w: Worker, reply: ClaimReply): Worker {
    if w.phase.Joining? && reply.Granted? then w.(phase := Phase.Starting, slot := reply.slot, leaseId := reply.leaseId) else w
  }

  function HearReady(w: Worker, reply: ReadyReply): Worker {
    if !w.phase.Warm? || w.readyAcked then w
    else match reply
      case ReadyRefused => w
      case ReadySuperseded => w.(phase := Gone)
      case ReadyAt(t0) =>
        var known := if t0.Some? then t0 else w.t0;
        w.(readyAcked := true, t0 := known, released := w.released || known.Some?)
  }

  /** A worker's epoch only moves on: a stale answer does not take it back. */
  function FollowEpoch(w: Worker, epoch: Option<(nat, real)>): Worker {
    if HasScheduler(w) && epoch.Some? && epoch.value.0 > w.epoch then w.(epoch := epoch.value.0) else w
  }

  function FollowCommand(w: Worker, command: Command): Worker {
    match command
    case Release(t0) => w.(t0 := Some(t0), released := w.released || w.phase.Warm?)
    case Stop => StopWorker(w)
    case _ => w
  }

  function FollowState(w: Worker, reply: Reply): Worker {
    if !HasScheduler(w) || reply.command.Stop? then w
    else w.(paused := reply.paused.GetOr(w.paused), load := if reply.load.Some? then reply.load else w.load)
  }

  function HearBeat(w: Worker, reply: BeatReply): Worker {
    if !Beating(w) || reply.BeatRefused? then w
    else if reply.reply.command.Superseded? then StopWorker(w).(superseded := true)
    else FollowState(FollowCommand(FollowEpoch(w, reply.reply.epoch), reply.reply.command), reply.reply)
  }

  predicate MayStart(w: Worker) {
    w.phase.Warm? && w.readyAcked && w.released && !w.superseded
  }

  // ----------------------------------------------------------------- the system

  datatype Request =
    | ClaimRequest(worker: nat, holder: string, hint: Option<nat>, engine: Option<string>)
    | ReadyRequest(worker: nat, slot: nat, leaseId: Option<nat>)
    | BeatRequest(worker: nat, slot: nat, leaseId: Option<nat>, reported: string, stats: Option<string>)
    | FinalRequest(worker: nat, slot: nat, leaseId: Option<nat>, report: Report)

  datatype Answer =
    | ClaimAnswer(worker: nat, claim: ClaimReply)
    | ReadyAnswer(worker: nat, ready: ReadyReply)
    | BeatAnswer(worker: nat, beat: BeatReply)

  /** A claim between its read and its answer. */
  datatype OpenClaim = OpenClaim(worker: nat, holder: string, look: ClaimLook) | ClosedClaim

  /** Whom each lease id was issued to: a slot and a holder, or nobody when the write missed. */
  type Grants = seq<Option<(nat, string)>>

  datatype System = System(
    fleet: Fleet, claims: seq<OpenClaim>, grants: Grants, sent: set<Request>, replies: set<Answer>, workers: seq<Worker>)

  datatype Action =
    | AskClaim(w: nat)
    | AskReady(w: nat)
    | AskBeat(w: nat, stats: Option<string>)
    | AskFinal(w: nat, report: Report)
    | StartRun(w: nat)
    | FinishRun(w: nat)
    | Signal(w: nat)
    | Exit(w: nat)
    | Hear(answer: Answer)
    | Deliver(request: Request, now: real)
    | ProceedClaim(k: nat, now: real)
    | Control(step: Step)

  function Asked(s: System, a: Action): System {
    match a
    case AskClaim(w) =>
      if w < |s.workers| && s.workers[w].phase.Joining? then
        s.(sent := s.sent + {ClaimRequest(w, s.workers[w].holder, s.workers[w].hint, s.workers[w].engine)})
      else s
    case AskReady(w) =>
      if w < |s.workers| && ((s.workers[w].phase.Starting? && !s.workers[w].reported) || s.workers[w].phase.Warm?) then
        s.(sent := s.sent + {ReadyRequest(w, s.workers[w].slot, s.workers[w].leaseId)},
           workers := s.workers[w := s.workers[w].(phase := Warm)])
      else s
    case AskBeat(w, stats) =>
      if w < |s.workers| && Beating(s.workers[w]) then
        s.(sent := s.sent + {BeatRequest(w, s.workers[w].slot, s.workers[w].leaseId, PhaseName(s.workers[w].phase), stats)})
      else s
    case AskFinal(w, report) =>
      if w < |s.workers| && (s.workers[w].phase.Starting? || s.workers[w].phase.Finishing?) then
        s.(sent := s.sent + {FinalRequest(w, s.workers[w].slot, s.workers[w].leaseId, report)},
           workers := s.workers[w := s.workers[w].(reported := true)])
      else s
    case _ => s
  }

  /** What a worker does by itself. */
  function Moved(w: Worker, a: Action): Worker {
    match a
    case StartRun(_) => if MayStart(w) then w.(phase := Working, startAt := Some(w.t0)) else w
    case FinishRun(_) => if w.phase.Working? then w.(phase := Finishing) else w
    case Signal(_) => StopWorker(w)
    case Exit(_) => w.(phase := Gone)
    case _ => w
  }

  function Mover(a: Action): Option<nat> {
    match a
    case StartRun(w) => Some(w)
    case FinishRun(w) => Some(w)
    case Signal(w) => Some(w)
    case Exit(w) => Some(w)
    case _ => None
  }

  function HeardBy(w: Worker, answer: Answer): Worker {
    match answer
    case ClaimAnswer(_, claim) => HearClaim(w, claim)
    case ReadyAnswer(_, ready) => HearReady(w, ready)
    case BeatAnswer(_, beat) => HearBeat(w, beat)
  }

  function Delivered(c: Constants, s: System, request: Request, now: real): System {
    match request
    case ClaimRequest(worker, holder, hint, engine) =>
      s.(claims := s.claims + [OpenClaim(worker, holder, ClaimRead(s.fleet, holder, hint, engine, now))])
    case ReadyRequest(worker, slot, leaseId) =>
      var (g, ready) := MarkReady(s.fleet, slot, leaseId, c.delay, now);
      s.(fleet := g, replies := s.replies + {ReadyAnswer(worker, ready)})
    case BeatRequest(worker, slot, leaseId, reported, stats) =>
      var (g, beat) := Heartbeat(s.fleet, slot, leaseId, reported, stats, c.delay, now);
      s.(fleet := g, replies := s.replies + {BeatAnswer(worker, beat)})
    case FinalRequest(worker, slot, leaseId, report) =>
      s.(fleet := Final(s.fleet, slot, leaseId, report, now))
  }

  /** The next step of an open claim: its refusal, its renewal, or one conditional write. */
  function Proceeded(s: System, k: nat, now: real): System
    requires k < |s.claims|
  {
    match s.claims[k]
    case ClosedClaim => s
    case OpenClaim(worker, holder, look) =>
      var done := s.(claims := s.claims[k := ClosedClaim]);
      match look
      case Refuses => done.(replies := s.replies + {ClaimAnswer(worker, NoLease)})
      case Resumes(at, leaseId, t0) =>
        if at < |s.fleet.leases| then
          done.(fleet := ClaimRenew(s.fleet, at, now),
                replies := s.replies + {ClaimAnswer(worker, Granted(s.fleet.leases[at].slot.number, leaseId, holder, t0))})
        else done
      case Contends(ticket) =>
        if ticket.candidates == [] || ticket.candidates[0].at >= |s.fleet.leases| then done
        else
          var (g, reply) := ClaimWrite(s.fleet, ticket);
          var granted := if reply.Some? && reply.value.Granted? then Some((reply.value.slot, holder)) else None;
          var tried := done.(fleet := g, grants := s.grants + [granted]);
          if reply.Some? then tried.(replies := s.replies + {ClaimAnswer(worker, reply.value)})
          else tried.(claims := s.claims[k := OpenClaim(worker, holder, Contends(ticket.(candidates := ticket.candidates[1..])))])
  }

  predicate ControlPlaneStep(step: Step) {
    || step.StopStep? || step.PauseStep? || step.ResumeStep? || step.LoadStep?
    || step.EpochStep? || step.TickStep? || step.FinishStep?
  }

  /** One action. An action that cannot happen leaves everything as it is. */
  function Acted(c: Constants, s: System, a: Action): System {
    if Mover(a).Some? then
      var w := Mover(a).value;
      if w < |s.workers| then s.(workers := s.workers[w := Moved(s.workers[w], a)]) else s
    else match a
      case Hear(answer) =>
        if answer in s.replies && answer.worker < |s.workers| then
          s.(workers := s.workers[answer.worker := HeardBy(s.workers[answer.worker], answer)])
        else s
      case Deliver(request, now) => if request in s.sent then Delivered(c, s, request, now) else s
      case ProceedClaim(k, now) => if k < |s.claims| then Proceeded(s, k, now) else s
      case Control(step) => if ControlPlaneStep(step) then s.(fleet := Stepped(c, s.fleet, step)) else s
      case _ => Asked(s, a)
  }

  function ActedBy(c: Constants, s: System, actions: seq<Action>): System {
    if actions == [] then s else Acted(c, ActedBy(c, s, actions[..|actions| - 1]), actions[|actions| - 1])
  }

  predicate FreshWorker(w: Worker) {
    && w.phase.Joining? && w.leaseId.None? && w.t0.None? && w.startAt.None? && w.load.None? && w.epoch == 0
    && !w.released && !w.stopped && !w.superseded && !w.readyAcked && !w.reported && !w.paused
  }

  /** A launched run, its containers not yet in touch. */
  predicate Initial(s: System) {
    && Launched(s.fleet) && s.fleet.issued == 0 && s.fleet.epochs == [] && s.fleet.run.loadOverride.None?
    && s.claims == [] && s.grants == [] && s.sent == {} && s.replies == {}
    && forall w :: 0 <= w < |s.workers| ==> FreshWorker(s.workers[w])
  }
}
