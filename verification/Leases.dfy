/** The control plane's half of the lease protocol: each request handler as one atomic step on the
  * run row and its leases, except a claim, which reads first and then writes conditionally. */
module Leases {
  import opened Wrappers
  import opened Planning
  import opened RunControl

  datatype LeaseState = Free | Claimed | Ready | Running | Done | Lost

  predicate Live(state: LeaseState) {
    state.Claimed? || state.Ready? || state.Running?
  }

  predicate Unready(state: LeaseState) {
    state.Free? || state.Claimed?
  }

  predicate Claimable(state: LeaseState) {
    state.Free? || state.Lost?
  }

  /** A worker's final report, and whether this build can merge it. */
  datatype Report = Report(document: string, readable: bool)

  /** One slot and who holds it. Lease ids come from a source that never repeats one. */
  datatype Lease = Lease(
    slot: Slot,
    leaseId: Option<nat>,
    holder: Option<string>,
    state: LeaseState,
    beatAt: Option<real>,
    restarts: nat,
    stats: Option<string>,
    summary: Option<Report>)

  /** The rows of one run. `issued` counts the lease ids made so far; `epochs` holds the instant
    * each cache epoch was requested. */
  datatype Fleet = Fleet(run: Run, leases: seq<Lease>, issued: nat, epochs: seq<real>)

  function Seeded(roster: seq<Slot>): (leases: seq<Lease>)
    ensures |leases| == |roster|
  {
    seq(|roster|, i requires 0 <= i < |roster| => Lease(roster[i], None, None, Free, None, 0, None, None))
  }

  function FindSlot(leases: seq<Lease>, slot: nat): (at: Option<nat>)
    ensures at.Some? ==> at.value < |leases| && leases[at.value].slot.number == slot
    ensures at.None? <==> forall i :: 0 <= i < |leases| ==> leases[i].slot.number != slot
  {
    if leases == [] then None
    else if leases[0].slot.number == slot then Some(0)
    else match FindSlot(leases[1..], slot)
      case None => assert leases == [leases[0]] + leases[1..]; None
      case Some(i) => Some(i + 1)
  }

  /** A missing or empty id holds nothing. */
  predicate HolderOk(lease: Lease, leaseId: Option<nat>) {
    leaseId.Some? && lease.leaseId == leaseId
  }

  // -------------------------------------------------------------- the release

  const RELEASE_DELAY_S := 4.0

  /** How far ahead T0 is set: two and a half beats, so that every worker hears of it in time. */
  function ReleaseDelay(heartbeatS: real): (delay: real)
    ensures delay >= RELEASE_DELAY_S && delay >= 2.5 * heartbeatS
    ensures delay == RELEASE_DELAY_S || delay == 2.5 * heartbeatS
  {
    if 2.5 * heartbeatS > RELEASE_DELAY_S then 2.5 * heartbeatS else RELEASE_DELAY_S
  }

  /** The leases with every one still pending given up. */
  function WithoutUnready(leases: seq<Lease>): (r: seq<Lease>)
    ensures |r| == |leases|
    ensures forall i :: 0 <= i < |leases| ==>
      r[i] == if Unready(leases[i].state) then leases[i].(state := Lost) else leases[i]
  {
    seq(|leases|, i requires 0 <= i < |leases| =>
      if Unready(leases[i].state) then leases[i].(state := Lost) else leases[i])
  }

  predicate AnyReady(leases: seq<Lease>) {
    exists i :: 0 <= i < |leases| && leases[i].state.Ready?
  }

  predicate AnyUnready(leases: seq<Lease>) {
    exists i :: 0 <= i < |leases| && Unready(leases[i].state)
  }

  predicate MayRelease(f: Fleet, force: bool) {
    && f.run.t0.None? && f.run.fleetState.Provisioning?
    && AnyReady(f.leases) && (force || !AnyUnready(f.leases))
  }

  function EvaluateRelease(f: Fleet, force: bool, delay: real, now: real): Fleet {
    if !MayRelease(f, force) then f
    else f.(run := f.run.(t0 := Some(now + delay), fleetState := Releasing), leases := WithoutUnready(f.leases))
  }

  // ---------------------------------------------------------------- the claim

  datatype Candidate = Candidate(at: nat, restarts: nat, wasLost: bool)

  /** What a claim carries from its read to its writes. */
  datatype Ticket = Ticket(holder: string, candidates: seq<Candidate>, t0: Option<real>, readAt: real)

  datatype ClaimLook =
    | Refuses
    | Resumes(at: nat, leaseId: Option<nat>, t0: Option<real>)
    | Contends(ticket: Ticket)

  datatype ClaimReply =
    | NoLease
    | Granted(slot: nat, leaseId: Option<nat>, holder: string, t0: Option<real>)

  predicate AcceptsClaims(run: Run) {
    !run.fleetState.Draining? && !run.fleetState.Finished? && !Terminal(run.state)
  }

  /** The first live lease of a holder. */
  function HeldBy(leases: seq<Lease>, holder: string): (at: Option<nat>)
    ensures at.Some? ==> at.value < |leases| && leases[at.value].holder == Some(holder) && Live(leases[at.value].state)
    ensures forall i :: 0 <= i < (if at.Some? then at.value else |leases|) ==> leases[i].holder != Some(holder) || !Live(leases[i].state)
  {
    if leases == [] then None
    else if leases[0].holder == Some(holder) && Live(leases[0].state) then Some(0)
    else match HeldBy(leases[1..], holder)
      case None => assert leases == [leases[0]] + leases[1..]; None
      case Some(i) => Some(i + 1)
  }

  predicate Wanted(lease: Lease, engine: Option<string>) {
    Claimable(lease.state) && (engine.None? || lease.slot.share.engine.Name() == engine.value)
  }

  /** The claimable leases among the first n, in slot order: those at the hint, or those not. */
  function CandidatesAt(leases: seq<Lease>, n: nat, engine: Option<string>, hint: Option<nat>, hinted: bool): (cs: seq<Candidate>)
    requires n <= |leases|
    ensures forall c :: 0 <= c < |cs| ==> cs[c].at < n && Claimable(leases[cs[c].at].state)
  {
    if n == 0 then []
    else
      var lease := leases[n - 1];
      CandidatesAt(leases, n - 1, engine, hint, hinted) +
      if Wanted(lease, engine) && hinted == (hint == Some(lease.slot.number)) then
        [Candidate(n - 1, lease.restarts, lease.state.Lost?)]
      else []
  }

  function Candidates(leases: seq<Lease>, engine: Option<string>, hint: Option<nat>): seq<Candidate> {
    CandidatesAt(leases, |leases|, engine, hint, true) + CandidatesAt(leases, |leases|, engine, hint, false)
  }

  /** The claim's read: refused, answered with the lease the holder already has, or a list of
    * leases to try, as they stood. */
  function ClaimRead(f: Fleet, holder: string, hint: Option<nat>, engine: Option<string>, now: real): ClaimLook {
    if !AcceptsClaims(f.run) then Refuses
    else match HeldBy(f.leases, holder)
      case Some(i) => Resumes(i, f.leases[i].leaseId, f.run.t0)
      case None =>
        var candidates := Candidates(f.leases, engine, hint);
        if candidates == [] then Refuses else Contends(Ticket(holder, candidates, f.run.t0, now))
  }

  function ClaimRenew(f: Fleet, at: nat, now: real): Fleet
    requires at < |f.leases|
  {
    f.(leases := f.leases[at := f.leases[at].(beatAt := Some(now))])
  }

  /** The conditional update of one candidate: it takes effect only where the lease is still
    * free or lost, and only then is the claim granted. */
  function ClaimWrite(f: Fleet, ticket: Ticket): (Fleet, Option<ClaimReply>)
    requires ticket.candidates != [] && ticket.candidates[0].at < |f.leases|
  {
    var c := ticket.candidates[0];
    var lease := f.leases[c.at];
    if Claimable(lease.state) then
      (f.(leases := f.leases[c.at := lease.(
            leaseId := Some(f.issued), holder := Some(ticket.holder), state := Claimed,
            beatAt := Some(ticket.readAt), restarts := c.restarts + if c.wasLost then 1 else 0)],
          issued := f.issued + 1),
       Some(Granted(lease.slot.number, Some(f.issued), ticket.holder, ticket.t0)))
    else
      (f.(issued := f.issued + 1), if |ticket.candidates| == 1 then Some(NoLease) else None)
  }

  // --------------------------------------------------- ready, heartbeat, final

  predicate Over(run: Run, finishingOk: bool) {
    (run.fleetState.Finished? || Terminal(run.state)) && !(finishingOk && !run.fleetState.Finished?)
  }

  datatype ReadyReply = ReadyRefused | ReadySuperseded | ReadyAt(t0: Option<real>)

  function WithLease(f: Fleet, at: nat, lease: Lease): (g: Fleet)
    requires at < |f.leases|
    ensures |g.leases| == |f.leases| && g.leases[at] == lease
    ensures forall i :: 0 <= i < |f.leases| && i != at ==> g.leases[i] == f.leases[i]
  {
    f.(leases := f.leases[at := lease])
  }

  function Warmed(lease: Lease, now: real): Lease {
    lease.(beatAt := Some(now),
           state := if lease.state.Claimed? || lease.state.Ready? || lease.state.Lost? then Ready else lease.state)
  }

  function MarkReady(f: Fleet, slot: nat, leaseId: Option<nat>, delay: real, now: real): (Fleet, ReadyReply) {
    if Over(f.run, false) then (f, ReadyRefused)
    else match FindSlot(f.leases, slot)
      case None => (f, ReadySuperseded)
      case Some(at) =>
        if !HolderOk(f.leases[at], leaseId) then (f, ReadySuperseded)
        else
          var g := EvaluateRelease(WithLease(f, at, Warmed(f.leases[at], now)), false, delay, now);
          (g, ReadyAt(g.run.t0))
  }

  datatype Command = Superseded | Stop | Continue | Release(t0: real)

  /** A heartbeat's reply: a command, the run's state where the worker runs, the cache epoch. */
  datatype Reply = Reply(command: Command, paused: Option<bool>, load: Option<real>, epoch: Option<(nat, real)>)

  datatype BeatReply = BeatRefused | Answered(reply: Reply)

  function LastEpoch(epochs: seq<real>): Option<(nat, real)> {
    if epochs == [] then None else Some((|epochs|, epochs[|epochs| - 1]))
  }

  predicate SaysStarted(reported: string) {
    reported == "running" || reported == "finishing"
  }

  function Beaten(lease: Lease, stats: Option<string>, now: real): Lease {
    lease.(beatAt := Some(now), stats := if stats.Some? then stats else lease.stats)
  }

  /** A lease marked lost by mistake goes back where its worker's own report says it is. */
  function Restored(lease: Lease, reported: string): Lease {
    if !lease.state.Lost? then lease
    else lease.(state := if reported == "ready" || SaysStarted(reported) then Ready else Claimed)
  }

  predicate Stopping(run: Run) {
    run.fleetState.Draining? || Terminal(run.state)
  }

  function RosterOf(leases: seq<Lease>): (r: seq<Slot>)
    ensures |r| == |leases|
    ensures forall i :: 0 <= i < |leases| ==> r[i] == leases[i].slot
  {
    seq(|leases|, i requires 0 <= i < |leases| => leases[i].slot)
  }

  function LoadOf(f: Fleet, at: nat): Option<real>
    requires at < |f.leases|
  {
    SlotLoad(RosterOf(f.leases), f.run.loadOverride, f.leases[at].slot)
  }

  /** A released run's worker says it has started: the lease runs, and so does the run. */
  function Started(f: Fleet, at: nat, reported: string): Fleet
    requires at < |f.leases|
  {
    var lease := f.leases[at];
    var g := if lease.state.Claimed? || lease.state.Ready? then WithLease(f, at, lease.(state := Running)) else f;
    if f.run.fleetState.Releasing? && SaysStarted(reported) then
      g.(run := g.run.(fleetState := Underway, state := Active,
                       startedAt := if g.run.startedAt.Some? && g.run.startedAt.value != 0.0 then g.run.startedAt else g.run.t0))
    else g
  }

  function Beat(f: Fleet, at: nat, reported: string, stats: Option<string>, delay: real, now: real): (Fleet, Reply)
    requires at < |f.leases|
  {
    var epoch := LastEpoch(f.epochs);
    var beaten := WithLease(f, at, Beaten(f.leases[at], stats, now));
    if Stopping(f.run) then (beaten, Reply(Stop, None, None, epoch))
    else
      var g := WithLease(beaten, at, Restored(beaten.leases[at], reported));
      if g.run.t0.None? then
        var h := if g.leases[at].state.Ready? then EvaluateRelease(g, false, delay, now) else g;
        (h, Reply(if h.run.t0.None? then Continue else Release(h.run.t0.value), None, None, epoch))
      else if !SaysStarted(reported) && !g.leases[at].state.Done? then
        (g, Reply(Release(g.run.t0.value), None, None, epoch))
      else
        var h := Started(g, at, reported);
        (h, Reply(Continue, Some(h.run.pausedAt.Some?), LoadOf(h, at), epoch))
  }

  function Heartbeat(f: Fleet, slot: nat, leaseId: Option<nat>, reported: string, stats: Option<string>, delay: real, now: real): (Fleet, BeatReply) {
    if Over(f.run, true) then (f, BeatRefused)
    else match FindSlot(f.leases, slot)
      case None => (f, Answered(Reply(Superseded, None, None, LastEpoch(f.epochs))))
      case Some(at) =>
        if !HolderOk(f.leases[at], leaseId) then (f, Answered(Reply(Superseded, None, None, LastEpoch(f.epochs))))
        else
          var (g, reply) := Beat(f, at, reported, stats, delay, now);
          (g, Answered(reply))
  }

  /** The fence is for an id that was given: a report without one is taken for its slot. */
  function Final(f: Fleet, slot: nat, leaseId: Option<nat>, report: Report, now: real): Fleet {
    if Over(f.run, true) then f
    else match FindSlot(f.leases, slot)
      case None => f
      case Some(at) =>
        if (leaseId.Some? && f.leases[at].leaseId != leaseId) || f.leases[at].state.Done? then f
        else WithLease(f, at, f.leases[at].(summary := Some(report), state := Done, beatAt := Some(now)))
  }

  function StopRequested(f: Fleet): Fleet {
    if f.run.fleetState.Finished? then f else f.(run := f.run.(fleetState := Draining))
  }
}
