/** The search head double's scheduler: a limit on the jobs that run, a queue for the rest, and a
  * job clock that pauses. */
module AdmissionQueue {
  import opened Wrappers

  /** One dispatched search. Its state is a function of these instants. */
  datatype Job = Job(
    sid: string, durationS: real, parseS: real, willFail: bool, isInternal: bool,
    startedAt: Option<real>, finalized: bool, pausedAt: Option<real>, pausedTotal: real, retired: bool)

  /** A dispatch, with what the random numbers made of it. */
  datatype Arrival = Arrival(sid: string, jitterMs: real, accelerated: bool, willFail: bool, isInternal: bool)

  datatype Config = Config(limit: int, baseMs: real, penaltyMs: real)

  /** A job is known by its ticket, its place in the order of arrival. `admitted` and `counted`
    * list the tickets that were started and counted done, in order. */
  datatype Queue = Queue(
    config: Config, jobs: seq<Job>, bySid: map<string, nat>, active: seq<nat>, pending: seq<nat>,
    created: nat, done: nat, cancelled: nat, queuedTotal: nat, current: nat, peak: nat,
    admitted: seq<nat>, counted: seq<nat>)

  predicate InRange(q: Queue) {
    Below(q.active, |q.jobs|) && Below(q.pending, |q.jobs|)
  }

  predicate Below(tickets: seq<nat>, n: nat) {
    forall i :: 0 <= i < |tickets| ==> tickets[i] < n
  }

  // ------------------------------------------------------------- the job clock

  function MaxZero(x: real): real {
    if x > 0.0 then x else 0.0
  }

  function Elapsed(job: Job, now: real): real {
    if job.startedAt.None? then 0.0
    else MaxZero(now - job.startedAt.value - job.pausedTotal - if job.pausedAt.Some? then now - job.pausedAt.value else 0.0)
  }

  predicate IsComplete(job: Job, now: real) {
    job.startedAt.Some? && job.pausedAt.None? && (job.finalized || Elapsed(job, now) >= job.durationS)
  }

  datatype JobState = Queued | Parsing | Running | Paused | DoneState | Failed

  function StateOf(job: Job, now: real): JobState {
    if job.startedAt.None? then Queued
    else if job.finalized || Elapsed(job, now) >= job.durationS then
      if job.willFail && !job.finalized then Failed else DoneState
    else if job.pausedAt.Some? then Paused
    else if Elapsed(job, now) < job.parseS then Parsing
    else Running
  }

  predicate Finished(job: Job, now: real) {
    StateOf(job, now).DoneState? || StateOf(job, now).Failed?
  }

  /** A job gives up its slot exactly when it is finished and not paused: one that is paused after
    * it finished keeps it. */
  lemma CompleteExactly(job: Job, now: real)
    ensures IsComplete(job, now) <==> Finished(job, now) && job.pausedAt.None?
  {
  }

  // ------------------------------------------------------------------ the pump

  datatype Sweep = Sweep(jobs: seq<Job>, still: seq<nat>, counted: seq<nat>, done: nat)

  predicate Counts(job: Job) {
    !job.retired && !job.isInternal && !job.willFail
  }

  /** The first k active jobs looked at: the complete ones retired, the rest kept. */
  function SweepTo(q: Queue, k: nat, now: real): (w: Sweep)
    requires InRange(q) && k <= |q.active|
    ensures |w.jobs| == |q.jobs|
    ensures forall i :: 0 <= i < |w.still| ==> w.still[i] < |q.jobs|
  {
    if k == 0 then Sweep(q.jobs, [], q.counted, q.done)
    else
      var w := SweepTo(q, k - 1, now);
      var t := q.active[k - 1];
      if !IsComplete(w.jobs[t], now) then w.(still := w.still + [t])
      else if Counts(w.jobs[t]) then
        w.(jobs := w.jobs[t := w.jobs[t].(retired := true)], counted := w.counted + [t], done := w.done + 1)
      else w.(jobs := w.jobs[t := w.jobs[t].(retired := true)])
  }

  function Retire(q: Queue, now: real): (r: Queue)
    requires InRange(q)
    ensures InRange(r) && r.pending == q.pending && |r.jobs| == |q.jobs|
  {
    var w := SweepTo(q, |q.active|, now);
    q.(jobs := w.jobs, active := w.still, counted := w.counted, done := w.done)
  }

  predicate HasRoom(config: Config, running: nat) {
    config.limit <= 0 || running < config.limit
  }

  /** One job from the head of the queue. */
  function AdmitOne(q: Queue, now: real): (r: Queue)
    requires InRange(q) && q.pending != []
    ensures InRange(r) && |r.jobs| == |q.jobs|
  {
    var t := q.pending[0];
    q.(jobs := q.jobs[t := q.jobs[t].(startedAt := Some(now))],
       active := q.active + [t], pending := q.pending[1..], admitted := q.admitted + [t])
  }

  /** Jobs from the head of the queue, while there is room. */
  function Admit(q: Queue, now: real): (r: Queue)
    requires InRange(q)
    ensures InRange(r) && |r.jobs| == |q.jobs|
    decreases |q.pending|
  {
    if q.pending == [] || !HasRoom(q.config, |q.active|) then q else Admit(AdmitOne(q, now), now)
  }

  function Gauged(q: Queue): Queue {
    q.(current := |q.active|, peak := if |q.active| > q.peak then |q.active| else q.peak)
  }

  /** Retires finished jobs, admits queued ones, refreshes the gauges. */
  function Pumped(q: Queue, now: real): (r: Queue)
    requires InRange(q)
    ensures InRange(r) && |r.jobs| == |q.jobs|
  {
    Gauged(Admit(Retire(q, now), now))
  }

  // ------------------------------------------------------------ the operations

  /** A search takes longer the more are running when it is dispatched. */
  function DurationS(config: Config, a: Arrival, running: nat): real {
    MaxZero((config.baseMs + a.jitterMs + config.penaltyMs * running as real) / if a.accelerated then 10.0 else 1.0) / 1000.0
  }

  function NewJob(config: Config, a: Arrival, running: nat): Job {
    var durationS := DurationS(config, a, running);
    Job(a.sid, durationS, durationS * 0.1, a.willFail, a.isInternal, None, false, None, 0.0, false)
  }

  /** A job enters: straight in when there is room, else at the end of the queue. */
  function Entered(q: Queue, a: Arrival, now: real): (r: Queue)
    requires InRange(q)
    ensures InRange(r) && |r.jobs| == |q.jobs| + 1
  {
    var t := |q.jobs|;
    var job := NewJob(q.config, a, |q.active|);
    var listed := q.(bySid := q.bySid[a.sid := t], created := q.created + if a.isInternal then 0 else 1);
    if HasRoom(q.config, |q.active|) then
      listed.(jobs := q.jobs + [job.(startedAt := Some(now))], active := q.active + [t], admitted := q.admitted + [t])
    else
      listed.(jobs := q.jobs + [job], pending := q.pending + [t], queuedTotal := q.queuedTotal + 1)
  }

  function Created(q: Queue, a: Arrival, now: real): (r: Queue)
    requires InRange(q)
    ensures InRange(r)
  {
    Pumped(Entered(Pumped(q, now), a, now), now)
  }

  /** The tickets of a list whose jobs have another sid. */
  function Others(jobs: seq<Job>, tickets: seq<nat>, sid: string): (r: seq<nat>)
    requires forall i :: 0 <= i < |tickets| ==> tickets[i] < |jobs|
    ensures forall i :: 0 <= i < |r| ==> r[i] in tickets && r[i] < |jobs|
  {
    if tickets == [] then []
    else
      var k := |tickets| - 1;
      Others(jobs, tickets[..k], sid) + if jobs[tickets[k]].sid != sid then [tickets[k]] else []
  }

  function Removed(q: Queue, t: nat, now: real): (r: Queue)
    requires InRange(q) && t < |q.jobs|
    ensures InRange(r)
  {
    var sid := q.jobs[t].sid;
    Pumped(q.(bySid := q.bySid - {sid}, active := Others(q.jobs, q.active, sid), pending := Others(q.jobs, q.pending, sid)), now)
  }

  function WithJob(q: Queue, t: nat, job: Job): (r: Queue)
    requires t < |q.jobs|
    ensures |r.jobs| == |q.jobs| && (InRange(q) ==> InRange(r))
  {
    q.(jobs := q.jobs[t := job])
  }

  /** A finalised job is done where it stands. */
  function FinalizedJob(job: Job, now: real): Job {
    var begun := job.(finalized := true, startedAt := if job.startedAt.None? then Some(now) else job.startedAt, willFail := false);
    begun.(durationS := MaxZero(Elapsed(begun, now)))
  }

  function PausedJob(job: Job, now: real): Job {
    if job.startedAt.Some? && job.pausedAt.None? then job.(pausedAt := Some(now)) else job
  }

  function ResumedJob(job: Job, now: real): Job {
    if job.pausedAt.Some? then job.(pausedTotal := job.pausedTotal + (now - job.pausedAt.value), pausedAt := None) else job
  }

  datatype Op =
    | PumpOp(now: real)
    | CreateOp(arrival: Arrival, now: real)
    | RemoveOp(t: nat, now: real)
    | CancelOp(t: nat, now: real)
    | FinalizeOp(t: nat, now: real)
    | PauseOp(t: nat, now: real)
    | ResumeOp(t: nat, now: real)
    | ResetOp(now: real)

  function Cleared(q: Queue): Queue {
    Queue(q.config, q.jobs, map[], [], [], 0, 0, 0, 0, 0, 0, [], [])
  }

  function Done(q: Queue, op: Op): (r: Queue)
    requires InRange(q)
    ensures InRange(r)
  {
    match op
    case PumpOp(now) => Pumped(q, now)
    case CreateOp(arrival, now) => Created(q, arrival, now)
    case RemoveOp(t, now) => if t < |q.jobs| then Removed(q, t, now) else q
    case CancelOp(t, now) =>
      if t < |q.jobs| then
        var r := Removed(q, t, now);
        r.(cancelled := r.cancelled + 1)
      else q
    case FinalizeOp(t, now) => if t < |q.jobs| then Pumped(WithJob(q, t, FinalizedJob(q.jobs[t], now)), now) else q
    case PauseOp(t, now) => if t < |q.jobs| then WithJob(q, t, PausedJob(q.jobs[t], now)) else q
    case ResumeOp(t, now) => if t < |q.jobs| then WithJob(q, t, ResumedJob(q.jobs[t], now)) else q
    case ResetOp(_) => Cleared(q)
  }

  function DoneAll(q: Queue, ops: seq<Op>): (r: Queue)
    requires InRange(q)
    ensures InRange(r)
  {
    if ops == [] then q else Done(DoneAll(q, ops[..|ops| - 1]), ops[|ops| - 1])
  }

  function Empty(config: Config): Queue {
    Queue(config, [], map[], [], [], 0, 0, 0, 0, 0, 0, [], [])
  }
}
