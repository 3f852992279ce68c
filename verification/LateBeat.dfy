/** Two runs in which one holder ends with two live leases. */
module LateBeats {
  import opened Wrappers
  import opened Planning
  import opened RunControl
  import opened Leases
  import opened Supervisor
  import opened Protocol
  import opened LeaseInvariants
  import opened FleetSystem
  import opened OneHolder

  function TwoSlots(): Fleet {
    var share := Share(Planning.Model.Closed, Api, 0, 2, Some(1), None);
    Fleet(Run(false, RunState.Pending, Provisioning, None, None, None, 0.0, None, [], None),
          Seeded([Slot(0, share), Slot(1, share)]), 0, [])
  }

  function Container(hint: Option<nat>): Worker {
    Worker("w", hint, None, Joining, 0, None, None, false, false, false, false, false, None, false, None, 0)
  }

  /** A container, and another of its name that asks for slot 1. */
  function Start(): System {
    System(TwoSlots(), [], [], {}, {}, [Container(None), Container(Some(1))])
  }

  predicate HoldsBoth(leases: seq<Lease>) {
    && |leases| == 2 && Live(leases[0].state) && Live(leases[1].state)
    && leases[0].holder == leases[1].holder == Some("w") && leases[0].leaseId != leases[1].leaseId
  }

  lemma StartIsInitial()
    ensures Initial(Start())
  {
  }

  function Taken(lease: Lease, id: nat, at: real): Lease {
    lease.(leaseId := Some(id), holder := Some("w"), state := Claimed, beatAt := Some(at))
  }

  /** With both slots claimable and no hint, both are tried, in slot order. */
  lemma BothCandidates(leases: seq<Lease>)
    requires |leases| == 2 && Claimable(leases[0].state) && Claimable(leases[1].state)
    ensures Candidates(leases, None, None) ==
            [Candidate(0, leases[0].restarts, leases[0].state.Lost?), Candidate(1, leases[1].restarts, leases[1].state.Lost?)]
  {
    assert CandidatesAt(leases, 1, None, None, true) == [];
    assert CandidatesAt(leases, 1, None, None, false) == [Candidate(0, leases[0].restarts, leases[0].state.Lost?)];
  }

  // ---------------------------------------------------------- overlapping claims

  const CLAIM := FleetSystem.Request.ClaimRequest(0, "w", None, None)

  /** One claim, sent twice because its answer was slow: both read before either writes. */
  function Overlap(): seq<Action> {
    [AskClaim(0), Deliver(CLAIM, 1.0), Deliver(CLAIM, 1.0), ProceedClaim(0, 1.0), ProceedClaim(1, 1.0), ProceedClaim(1, 1.0)]
  }

  function FirstTicket(): Ticket {
    Ticket("w", [Candidate(0, 0, false), Candidate(1, 0, false)], None, 1.0)
  }

  function Contending(ticket: Ticket): OpenClaim {
    OpenClaim(0, "w", Contends(ticket))
  }

  lemma BothRead()
    ensures ClaimRead(TwoSlots(), "w", None, None, 1.0) == Contends(FirstTicket())
  {
    BothCandidates(TwoSlots().leases);
    assert HeldBy(TwoSlots().leases, "w").None?;
  }

  lemma ReadTwice(c: Constants, s: System)
    requires s == Start().(sent := {CLAIM})
    ensures Acted(c, Acted(c, s, Overlap()[1]), Overlap()[2]) == s.(claims := [Contending(FirstTicket()), Contending(FirstTicket())])
  {
    hide ClaimRead;
    BothRead();
  }

  lemma FirstWrites(c: Constants, s: System)
    requires s.fleet == TwoSlots() && |s.claims| == 2 && s.claims[0] == Contending(FirstTicket())
    ensures var u := Acted(c, s, ProceedClaim(0, 1.0));
      && u.claims[1..] == s.claims[1..] && |u.claims| == 2
      && u.fleet == TwoSlots().(leases := [Taken(TwoSlots().leases[0], 0, 1.0), TwoSlots().leases[1]], issued := 1)
  {
    assert ClaimWrite(s.fleet, FirstTicket()).0.leases == [Taken(TwoSlots().leases[0], 0, 1.0), TwoSlots().leases[1]];
  }

  lemma SecondMisses(c: Constants, s: System, first: Lease)
    requires s.fleet == TwoSlots().(leases := [first, TwoSlots().leases[1]], issued := 1) && first.state.Claimed?
    requires |s.claims| == 2 && s.claims[1] == Contending(FirstTicket())
    ensures var u := Acted(c, s, ProceedClaim(1, 1.0));
      && u.fleet == s.fleet.(issued := 2) && |u.claims| == 2
      && u.claims[1] == Contending(FirstTicket().(candidates := [Candidate(1, 0, false)]))
  {
    assert FirstTicket().candidates[1..] == [Candidate(1, 0, false)];
  }

  lemma SecondWrites(c: Constants, s: System, first: Lease)
    requires s.fleet == TwoSlots().(leases := [first, TwoSlots().leases[1]], issued := 2)
    requires |s.claims| == 2 && s.claims[1] == Contending(FirstTicket().(candidates := [Candidate(1, 0, false)]))
    ensures Acted(c, s, ProceedClaim(1, 1.0)).fleet.leases == [first, Taken(TwoSlots().leases[1], 2, 1.0)]
  {
  }

  /** Both requests of a retried claim read that their holder has no lease, and each writes one. */
  lemma OverlappingClaimsTakeTwo(c: Constants)
    ensures Initial(Start())
    ensures HoldsBoth(ActedBy(c, Start(), Overlap()).fleet.leases)
  {
    hide Acted, Start, TwoSlots, ActedBy;
    StartIsInitial();
    var runs := Overlap();
    forall n | 0 <= n < 6
      ensures ActedBy(c, Start(), runs[..n + 1]) == Acted(c, ActedBy(c, Start(), runs[..n]), runs[n])
    {
      NextState(c, Start(), runs, n);
    }
    assert ActedBy(c, Start(), runs[..0]) == Start() by { Nothing(c, Start(), runs); }
    Asks(c);
    ReadTwice(c, ActedBy(c, Start(), runs[..1]));
    FirstWrites(c, ActedBy(c, Start(), runs[..3]));
    var first := Taken(TwoSlots().leases[0], 0, 1.0);
    SecondMisses(c, ActedBy(c, Start(), runs[..4]), first);
    SecondWrites(c, ActedBy(c, Start(), runs[..5]), first);
    assert runs[..6] == runs;
  }

  lemma Nothing(c: Constants, s: System, actions: seq<Action>)
    ensures ActedBy(c, s, actions[..0]) == s
  {
  }

  lemma Asks(c: Constants)
    ensures Acted(c, Start(), AskClaim(0)) == Start().(sent := {CLAIM}) && |TwoSlots().leases| == 2
    ensures Start().fleet == TwoSlots()
  {
  }

  // ----------------------------------------------------------------- a late beat

  const GRANT := ClaimAnswer(0, ClaimReply.Granted(0, Some(0), "w", None))
  const WARM := FleetSystem.Request.ReadyRequest(0, 0, Some(0))
  const BEAT := FleetSystem.Request.BeatRequest(0, 0, Some(0), "ready", None)
  const AGAIN := FleetSystem.Request.ClaimRequest(1, "w", Some(1), None)

  /** A container claims a slot, is ready, sends a beat that is slow to arrive, and is lost;
    * another of its name claims slot 1; then the beat arrives. */
  function Late(): seq<Action> {
    [AskClaim(0), Deliver(CLAIM, 1.0), ProceedClaim(0, 1.0), Hear(GRANT), AskReady(0), Deliver(WARM, 2.0), AskBeat(0, None),
     Control(TickStep(30.0)), AskClaim(1), Deliver(AGAIN, 30.0), ProceedClaim(1, 30.0), Deliver(BEAT, 31.0)]
  }

  function Claimed0(): Lease {
    Taken(TwoSlots().leases[0], 0, 1.0)
  }

  function WarmLease(): Lease {
    Claimed0().(state := Ready, beatAt := Some(2.0))
  }

  function Rows(first: Lease, second: Lease, issued: nat): Fleet {
    TwoSlots().(leases := [first, second], issued := issued)
  }

  lemma Claims(c: Constants, s: System)
    requires s == Start().(sent := {CLAIM})
    ensures var u := Acted(c, Acted(c, s, Late()[1]), Late()[2]);
      && u.fleet == Rows(Claimed0(), TwoSlots().leases[1], 1) && GRANT in u.replies
      && u.workers == Start().workers && |u.claims| == 1
  {
    hide ClaimRead;
    BothRead();
    var t := Acted(c, s, Late()[1]);
    assert t == s.(claims := [Contending(FirstTicket())]);
    assert ClaimWrite(t.fleet, FirstTicket()).0.leases == [Claimed0(), TwoSlots().leases[1]];
  }

  lemma Warms(c: Constants, s: System)
    requires s.fleet == Rows(Claimed0(), TwoSlots().leases[1], 1) && GRANT in s.replies
    requires s.workers == Start().workers && |s.claims| == 1
    ensures var u := Acted(c, Acted(c, s, Late()[3]), Late()[4]);
      && u.fleet == s.fleet && WARM in u.sent && |u.claims| == 1 && |u.workers| == 2
      && u.workers[0].phase.Warm? && u.workers[0].slot == 0 && u.workers[0].leaseId == Some(0) && !u.workers[0].superseded
      && u.workers[1] == Container(Some(1))
  {
  }

  lemma Readies(c: Constants, s: System)
    requires s.fleet == Rows(Claimed0(), TwoSlots().leases[1], 1) && WARM in s.sent
    ensures var u := Acted(c, s, Late()[5]);
      u.fleet == Rows(WarmLease(), TwoSlots().leases[1], 1) && u.workers == s.workers && u.claims == s.claims
  {
    var warmed := WithLease(s.fleet, 0, Warmed(Claimed0(), 2.0));
    assert warmed.leases == [WarmLease(), TwoSlots().leases[1]];
    assert warmed.leases[1].state.Free?;
    assert EvaluateRelease(warmed, false, c.delay, 2.0) == warmed;
  }

  lemma Beats(c: Constants, s: System)
    requires |s.workers| == 2 && s.workers[0].phase.Warm? && s.workers[0].slot == 0 && s.workers[0].leaseId == Some(0)
    requires !s.workers[0].superseded
    ensures Acted(c, s, Late()[6]) == s.(sent := s.sent + {BEAT})
  {
  }

  lemma Lapsed(c: Constants, s: System)
    requires c.watch.leaseS == 20.0 && c.watch.provisionDeadline == 180.0 && c.watch.ceiling == 5000.0
    requires s.fleet == Rows(WarmLease(), TwoSlots().leases[1], 1)
    ensures Acted(c, s, Late()[7]) == s.(fleet := Rows(WarmLease().(state := Lost), TwoSlots().leases[1], 1))
  {
    var g := Lapsing(s.fleet, c.watch, 30.0);
    assert g.leases == [WarmLease().(state := Lost), TwoSlots().leases[1]];
    assert Provisioned(g, c.watch, c.delay, 30.0) == g;
    assert !Settled(g.leases) by { assert g.leases[1].state.Free?; }
  }

  lemma AsksAgain(c: Constants, s: System)
    requires s.fleet == Rows(WarmLease().(state := Lost), TwoSlots().leases[1], 1)
    requires |s.workers| == 2 && s.workers[1] == Container(Some(1)) && |s.claims| == 1
    ensures var u := Acted(c, Acted(c, s, Late()[8]), Late()[9]);
      && u.fleet == s.fleet && |u.claims| == 2 && s.sent <= u.sent
      && u.claims[1] == OpenClaim(1, "w", Contends(Ticket("w", [Candidate(1, 0, false), Candidate(0, 0, true)], None, 30.0)))
  {
    var leases := s.fleet.leases;
    assert HeldBy(leases, "w").None?;
    assert CandidatesAt(leases, 1, None, Some(1), true) == [] && CandidatesAt(leases, 1, None, Some(1), false) == [Candidate(0, 0, true)];
    assert Candidates(leases, None, Some(1)) == [Candidate(1, 0, false), Candidate(0, 0, true)];
  }

  lemma TakesTheOther(c: Constants, s: System)
    requires s.fleet == Rows(WarmLease().(state := Lost), TwoSlots().leases[1], 1) && |s.claims| == 2
    requires s.claims[1] == OpenClaim(1, "w", Contends(Ticket("w", [Candidate(1, 0, false), Candidate(0, 0, true)], None, 30.0)))
    ensures var u := Acted(c, s, Late()[10]);
      u.sent == s.sent && u.fleet == Rows(WarmLease().(state := Lost), Taken(TwoSlots().leases[1], 1, 30.0), 2)
  {
    var ticket := s.claims[1].look.ticket;
    assert ClaimWrite(s.fleet, ticket).0.leases == [WarmLease().(state := Lost), Taken(TwoSlots().leases[1], 1, 30.0)];
  }

  lemma Revived(c: Constants, s: System)
    requires s.fleet == Rows(WarmLease().(state := Lost), Taken(TwoSlots().leases[1], 1, 30.0), 2) && BEAT in s.sent
    ensures HoldsBoth(Acted(c, s, Late()[11]).fleet.leases)
  {
    var h := Acted(c, s, Late()[11]).fleet;
    assert h.leases[1].state.Claimed? && h.leases[0].state.Ready?;
  }

  /** A delayed beat brings back a lease that was lost after its holder's name had claimed another. */
  lemma OneHolderTwoLeases(c: Constants)
    requires c.watch.leaseS == 20.0 && c.watch.provisionDeadline == 180.0 && c.watch.ceiling == 5000.0
    ensures Initial(Start())
    ensures HoldsBoth(ActedBy(c, Start(), Late()).fleet.leases)
  {
    hide Acted, Start, TwoSlots, ActedBy, Late, Rows;
    StartIsInitial();
    var runs := Late();
    assert |runs| == 12 && runs[0] == AskClaim(0) by { LateLength(); }
    forall n | 0 <= n < 12
      ensures ActedBy(c, Start(), runs[..n + 1]) == Acted(c, ActedBy(c, Start(), runs[..n]), runs[n])
    {
      NextState(c, Start(), runs, n);
    }
    assert ActedBy(c, Start(), runs[..0]) == Start() by { Nothing(c, Start(), runs); }
    Asks(c);
    Claims(c, ActedBy(c, Start(), runs[..1]));
    Warms(c, ActedBy(c, Start(), runs[..3]));
    Readies(c, ActedBy(c, Start(), runs[..5]));
    Beats(c, ActedBy(c, Start(), runs[..6]));
    Lapsed(c, ActedBy(c, Start(), runs[..7]));
    AsksAgain(c, ActedBy(c, Start(), runs[..8]));
    TakesTheOther(c, ActedBy(c, Start(), runs[..10]));
    Revived(c, ActedBy(c, Start(), runs[..11]));
    assert runs[..12] == runs;
  }

  lemma LateLength()
    ensures |Late()| == 12 && Late()[0] == AskClaim(0)
  {
  }
}
