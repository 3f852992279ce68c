/** The job clock of the search head double: it stands still while a job is paused. */
module JobClock {
  import opened Wrappers
  import opened AdmissionQueue

  /** A pause or a resume, and when. */
  datatype Move = PauseAt(at: real) | ResumeAt(at: real)

  function Moved(job: Job, move: Move): Job {
    match move
    case PauseAt(at) => PausedJob(job, at)
    case ResumeAt(at) => ResumedJob(job, at)
  }

  function Played(job: Job, moves: seq<Move>): Job
    decreases |moves|
  {
    if moves == [] then job else Played(Moved(job, moves[0]), moves[1..])
  }

  /** The moves come one after the other, none before `from`, none after `to`. */
  predicate InTime(from: real, moves: seq<Move>, to: real)
    decreases |moves|
  {
    if moves == [] then from <= to else from <= moves[0].at && InTime(moves[0].at, moves[1..], to)
  }

  /** The time from `from` to `to` that is not spent between a pause and the next resume. */
  function TimeRun(runs: bool, from: real, moves: seq<Move>, to: real): real
    decreases |moves|
  {
    var until := if moves == [] then to else moves[0].at;
    (if runs then until - from else 0.0) +
    if moves == [] then 0.0 else TimeRun(moves[0].ResumeAt?, until, moves[1..], to)
  }

  lemma {:induction false} TimeRunGrows(runs: bool, from: real, moves: seq<Move>, to: real)
    requires InTime(from, moves, to)
    ensures 0.0 <= TimeRun(runs, from, moves, to) <= to - from
    decreases |moves|
  {
    if moves != [] {
      TimeRunGrows(moves[0].ResumeAt?, moves[0].at, moves[1..], to);
    }
  }

  /** What has run of a job by an instant. */
  function Run(job: Job, now: real): real
    requires job.startedAt.Some?
  {
    now - job.startedAt.value - job.pausedTotal - if job.pausedAt.Some? then now - job.pausedAt.value else 0.0
  }

  lemma {:induction false} RunOn(job: Job, from: real, moves: seq<Move>, now: real)
    requires job.startedAt.Some? && InTime(from, moves, now)
    ensures Played(job, moves) == job.(pausedAt := Played(job, moves).pausedAt, pausedTotal := Played(job, moves).pausedTotal)
    ensures Run(Played(job, moves), now) == Run(job, from) + TimeRun(job.pausedAt.None?, from, moves, now)
    decreases |moves|
  {
    if moves != [] {
      RunOn(Moved(job, moves[0]), moves[0].at, moves[1..], now);
    }
  }

  /** Whatever the pauses and resumes since a job started, also repeated ones, its elapsed time is
    * the time that it was not paused; it is done, or failed, once that is its duration. */
  lemma ElapsedIsTimeRun(job: Job, moves: seq<Move>, now: real)
    requires job.startedAt.Some? && job.pausedAt.None? && job.pausedTotal == 0.0 && InTime(job.startedAt.value, moves, now)
    ensures var run := TimeRun(true, job.startedAt.value, moves, now);
      && Elapsed(Played(job, moves), now) == run
      && (!job.finalized ==> (Finished(Played(job, moves), now) <==> job.durationS <= run))
      && (StateOf(Played(job, moves), now).Failed? <==> job.durationS <= run && job.willFail && !job.finalized)
  {
    hide Played, TimeRun;
    RunOn(job, job.startedAt.value, moves, now);
    TimeRunGrows(true, job.startedAt.value, moves, now);
  }

  /** For instance: nothing runs while a job is paused, and what had run by the pause is what has
    * run at the resume. */
  lemma PauseStandsStill(job: Job, paused: real, resumed: real, now: real)
    requires job.startedAt.Some? && job.pausedAt.None? && job.pausedTotal == 0.0
    requires job.startedAt.value <= paused <= resumed <= now
    ensures Elapsed(PausedJob(job, paused), resumed) == paused - job.startedAt.value
    ensures Elapsed(ResumedJob(PausedJob(job, paused), resumed), now) == paused - job.startedAt.value + (now - resumed)
  {
  }

  /** An unpaused job parses for the first tenth of its duration and runs for the rest. */
  lemma ParsesThenRuns(config: Config, a: Arrival, running: nat, started: real, now: real)
    requires started <= now
    ensures var job := NewJob(config, a, running).(startedAt := Some(started));
      && (StateOf(job, now).Parsing? <==> 10.0 * (now - started) < job.durationS)
      && (StateOf(job, now).Running? <==> now - started < job.durationS <= 10.0 * (now - started))
  {
  }

  /** A finalised job is done at once, never failed, and its duration is what had run of it; one
    * that was still queued has run for nothing. */
  lemma FinalizedIsDone(job: Job, now: real, later: real)
    requires now <= later
    ensures var done := FinalizedJob(job, now);
      && StateOf(done, now).DoneState? && StateOf(done, later).DoneState?
      && done.durationS == Elapsed(job, now) == Elapsed(done, now)
      && (IsComplete(done, now) <==> job.pausedAt.None? || job.startedAt.None?)
    requires job.startedAt.None? ==> job.pausedAt.None? && job.pausedTotal == 0.0
  {
  }

  /** Each search that is running adds the same penalty to the next, a tenth of it where that one is
    * accelerated; what comes first is the base latency and the jitter. */
  lemma LoadSlowsSearches(config: Config, a: Arrival, running: nat)
    requires 0.0 <= config.baseMs + a.jitterMs && 0.0 <= config.penaltyMs
    ensures NewJob(config, a, 0).durationS * (if a.accelerated then 10000.0 else 1000.0) == config.baseMs + a.jitterMs
    ensures (NewJob(config, a, running + 1).durationS - NewJob(config, a, running).durationS) *
            (if a.accelerated then 10000.0 else 1000.0) == config.penaltyMs
  {
    assert config.penaltyMs * (running + 1) as real == config.penaltyMs * running as real + config.penaltyMs;
  }
}
