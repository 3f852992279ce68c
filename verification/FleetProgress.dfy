/** What no run of the whole protocol takes back. */
module FleetProgress {
  import opened Wrappers
  import opened Planning
  import opened RunControl
  import opened Leases
  import opened Supervisor
  import opened Protocol
  import opened LeaseInvariants
  import opened FleetSystem
  import opened FleetSafety

  lemma ActionForward(c: Constants, s: System, a: Action)
    ensures Forward(s.fleet, Acted(c, s, a).fleet)
    ensures s.replies <= Acted(c, s, a).replies
  {
    hide Forward, Moved, HeardBy, Stepped, MarkReady, Heartbeat, Final, ClaimRead, ClaimWrite;
    SameForward(s.fleet);
    if a.Control? {
      StepForward(c, s.fleet, a.step);
    } else if a.Deliver? {
      DeliveryForward(c, s, a.request, a.now);
    } else if a.ProceedClaim? && a.k < |s.claims| {
      ProceedForward(s, a.k, a.now);
    }
  }

  lemma DeliveryForward(c: Constants, s: System, r: FleetSystem.Request, now: real)
    ensures Forward(s.fleet, Delivered(c, s, r, now).fleet)
    ensures s.replies <= Delivered(c, s, r, now).replies
  {
    hide Forward, Stepped, MarkReady, Heartbeat, Final, ClaimRead;
    SameForward(s.fleet);
    match r
    case ReadyRequest(_, slot, leaseId) => ReadyForward(s.fleet, slot, leaseId, c.delay, now);
    case BeatRequest(_, slot, leaseId, reported, stats) =>
      HeartbeatForward(s.fleet, slot, leaseId, reported, stats, c.delay, now);
    case FinalRequest(_, slot, leaseId, report) => FinalForward(s.fleet, slot, leaseId, report, now);
    case _ =>
  }

  lemma FinalForward(f: Fleet, slot: nat, leaseId: Option<nat>, report: Report, now: real)
    ensures Forward(f, Final(f, slot, leaseId, report, now))
  {
  }

  lemma RenewForward(f: Fleet, at: nat, now: real)
    requires at < |f.leases|
    ensures Forward(f, ClaimRenew(f, at, now))
  {
  }

  lemma ProceedForward(s: System, k: nat, now: real)
    requires k < |s.claims|
    ensures Forward(s.fleet, Proceeded(s, k, now).fleet)
    ensures s.replies <= Proceeded(s, k, now).replies
  {
    hide Forward, ClaimWrite, ClaimRenew;
    SameForward(s.fleet);
    match s.claims[k]
    case ClosedClaim =>
    case OpenClaim(_, _, look) =>
      match look
      case Refuses =>
      case Resumes(at, _, _) =>
        if at < |s.fleet.leases| {
          RenewForward(s.fleet, at, now);
        }
      case Contends(ticket) =>
        if ticket.candidates != [] && ticket.candidates[0].at < |s.fleet.leases| {
          WriteForward(s.fleet, ticket);
        }
  }

  /** As the protocol goes on, nothing that a run moves forward through is taken back. */
  lemma {:induction false} EveryRunGoesForward(c: Constants, s: System, actions: seq<Action>)
    ensures Forward(s.fleet, ActedBy(c, s, actions).fleet)
    ensures s.replies <= ActedBy(c, s, actions).replies
  {
    hide Forward, Acted;
    SameForward(s.fleet);
    if actions != [] {
      var before := ActedBy(c, s, actions[..|actions| - 1]);
      EveryRunGoesForward(c, s, actions[..|actions| - 1]);
      ActionForward(c, before, actions[|actions| - 1]);
      ForwardTransitive(s.fleet, before.fleet, ActedBy(c, s, actions).fleet);
    }
  }
}
