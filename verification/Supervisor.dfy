/** One pass of the supervisor's loop over a fleet run, and what it collects at the end. */
module Supervisor {
  import opened Wrappers
  import opened RunControl
  import opened Leases
  import opened Rounding

  /** The settings a run is watched under. */
  datatype Settings = Settings(
    heartbeatS: real, leaseS: real, provisionS: real, maxRunS: real, maxPauseS: real, drainBudgetS: real, harvestS: real)

  /** The clocks of one watch, all fixed when it starts. */
  datatype Watch = Watch(
    leaseS: real, provisionS: real, provisionDeadline: real, ceiling: real, duration: real, endAllowance: real)

  function EndAllowance(s: Settings): real {
    s.drainBudgetS + s.harvestS
  }

  /** A run without a declared duration is watched for the longest one allowed. */
  function WatchFrom(s: Settings, duration: real, started: real): Watch {
    var basis := if duration != 0.0 then duration else s.maxRunS;
    Watch(s.leaseS, s.provisionS, started + s.provisionS,
          started + s.provisionS + basis + 600.0 + s.maxPauseS + EndAllowance(s),
          basis, EndAllowance(s))
  }

  /** A lease lapses when its heartbeats stop; one still warming up is given longer. */
  predicate Lapses(lease: Lease, w: Watch, draining: bool, now: real) {
    && Live(lease.state)
    && lease.beatAt.Some? && lease.beatAt.value != 0.0
    && var warming := lease.state.Claimed? && now <= w.provisionDeadline && !draining;
       now - lease.beatAt.value > if warming then MaxReal(w.leaseS, w.provisionS) else w.leaseS
  }

  function LostIf(lease: Lease, lost: bool): Lease {
    if lost then lease.(state := Lost) else lease
  }

  function WithLapsed(leases: seq<Lease>, w: Watch, draining: bool, now: real): (r: seq<Lease>)
    ensures |r| == |leases|
    ensures forall i :: 0 <= i < |leases| ==> r[i] == LostIf(leases[i], Lapses(leases[i], w, draining, now))
  {
    seq(|leases|, i requires 0 <= i < |leases| => LostIf(leases[i], Lapses(leases[i], w, draining, now)))
  }

  function WithoutFree(leases: seq<Lease>): (r: seq<Lease>)
    ensures |r| == |leases|
    ensures forall i :: 0 <= i < |leases| ==> r[i] == LostIf(leases[i], leases[i].state.Free?)
  {
    seq(|leases|, i requires 0 <= i < |leases| => LostIf(leases[i], leases[i].state.Free?))
  }

  function WithoutUndone(leases: seq<Lease>): (r: seq<Lease>)
    ensures |r| == |leases|
    ensures forall i :: 0 <= i < |leases| ==> r[i] == LostIf(leases[i], !leases[i].state.Done?)
  {
    seq(|leases|, i requires 0 <= i < |leases| => LostIf(leases[i], !leases[i].state.Done?))
  }

  predicate Settled(leases: seq<Lease>) {
    forall i :: 0 <= i < |leases| ==> leases[i].state.Done? || leases[i].state.Lost?
  }

  const NOBODY_READY := "no worker became ready within the provisioning timeout"
  const OUTLIVED := "the run outlived its deadline; workers still running were declared lost"

  function Lapsing(f: Fleet, w: Watch, now: real): Fleet {
    f.(leases := WithLapsed(f.leases, w, f.run.fleetState.Draining?, now))
  }

  /** The provisioning deadline: release what is ready, or give the run up. */
  function Provisioned(f: Fleet, w: Watch, delay: real, now: real): Fleet {
    if f.run.t0.Some? || !f.run.fleetState.Provisioning? || now <= w.provisionDeadline then f
    else if MayRelease(f, true) then EvaluateRelease(f, true, delay, now)
    else f.(leases := WithoutUnready(f.leases), run := f.run.(error := Some(NOBODY_READY), fleetState := Draining))
  }

  function Drained(f: Fleet): Fleet {
    if f.run.fleetState.Draining? then f.(leases := WithoutFree(f.leases)) else f
  }

  /** When the workers must be done by, pauses allowed for. */
  function HardDeadline(run: Run, w: Watch, now: real): Option<real> {
    if run.t0.None? then None
    else Some(run.t0.value + w.duration + 300.0 + w.endAllowance + PausedSeconds(run, now))
  }

  predicate TimedOut(run: Run, w: Watch, now: real) {
    (HardDeadline(run, w, now).Some? && now > HardDeadline(run, w, now).value) || now > w.ceiling
  }

  function CutOff(f: Fleet, timedOut: bool): Fleet {
    if timedOut && !Settled(f.leases) then
      f.(leases := WithoutUndone(f.leases), run := f.run.(error := if f.run.error.Some? then f.run.error else Some(OUTLIVED)))
    else f
  }

  /** The rows before the deadlines are applied. */
  function Swept(f: Fleet, w: Watch, delay: real, now: real): Fleet {
    Drained(Provisioned(Lapsing(f, w, now), w, delay, now))
  }

  /** One pass: the new rows, and whether the watch is over. */
  function Tick(f: Fleet, w: Watch, delay: real, now: real): (Fleet, bool) {
    var g := Swept(f, w, delay, now);
    var timedOut := TimedOut(g.run, w, now);
    (CutOff(g, timedOut), Settled(g.leases) || timedOut)
  }

  lemma TickSettles(f: Fleet, w: Watch, delay: real, now: real)
    ensures Tick(f, w, delay, now).1 ==> Settled(Tick(f, w, delay, now).0.leases)
    ensures now > w.ceiling ==> Tick(f, w, delay, now).1
  {
  }

  // ------------------------------------------------------------- the collection

  datatype Collected = Collected(reports: seq<Report>, lost: seq<nat>, leases: seq<Lease>)

  predicate HasReport(lease: Lease) {
    lease.state.Done? && lease.summary.Some? && lease.summary.value.document != ""
  }

  /** One lease's part: its report, or its slot as lost. A report this build cannot read costs
    * its slot, and the lease is marked lost. */
  function Collect1(c: Collected, lease: Lease): Collected {
    if HasReport(lease) && lease.summary.value.readable then
      Collected(c.reports + [lease.summary.value], c.lost, c.leases + [lease])
    else
      var after := LostIf(lease, HasReport(lease));
      Collected(c.reports, if after.state.Lost? then c.lost + [lease.slot.number] else c.lost, c.leases + [after])
  }

  function CollectAll(leases: seq<Lease>): Collected {
    if leases == [] then Collected([], [], [])
    else Collect1(CollectAll(leases[..|leases| - 1]), leases[|leases| - 1])
  }

  /** The reports and the lost slots, one lease at a time. */
  method Collect(leases: seq<Lease>) returns (reports: seq<Report>, lost: seq<nat>, after: seq<Lease>)
    ensures Collected(reports, lost, after) == CollectAll(leases)
  {
    reports, lost, after := [], [], leases;
    for i := 0 to |leases|
      invariant |after| == |leases| && after[i..] == leases[i..]
      invariant Collected(reports, lost, after[..i]) == CollectAll(leases[..i])
    {
      assert leases[..i + 1][..i] == leases[..i];
      var lease := leases[i];
      ghost var before := CollectAll(leases[..i]);
      assert CollectAll(leases[..i + 1]) == Collect1(before, lease);
      if lease.state.Done? && lease.summary.Some? && lease.summary.value.document != "" {
        if lease.summary.value.readable {
          reports := reports + [lease.summary.value];
          assert after[..i + 1] == after[..i] + [lease];
          continue;
        }
        after := after[i := lease.(state := Lost)];
      }
      if after[i].state.Lost? {
        lost := lost + [lease.slot.number];
      }
      assert after[..i + 1] == after[..i] + [after[i]];
    }
    assert after[..|leases|] == after && leases[..|leases|] == leases;
  }

  predicate Contributes(lease: Lease)
    ensures Contributes(lease) ==> lease.summary.Some?
  {
    HasReport(lease) && lease.summary.value.readable
  }

  /** The leases that satisfy neither: done with an empty report, or alive again after the watch. */
  predicate Dropped(lease: Lease) {
    !HasReport(lease) && !lease.state.Lost?
  }

  function Contributing(leases: seq<Lease>): seq<Report> {
    if leases == [] then []
    else (if Contributes(leases[0]) then [leases[0].summary.value] else []) + Contributing(leases[1..])
  }

  lemma {:induction false} ContributingConcat(a: seq<Lease>, b: seq<Lease>)
    ensures Contributing(a + b) == Contributing(a) + Contributing(b)
  {
    hide Contributes;
    if a == [] {
      assert a + b == b;
    } else {
      var first := if Contributes(a[0]) then [a[0].summary.value] else [];
      calc {
        Contributing(a + b);
        { assert (a + b)[0] == a[0] && (a + b)[1..] == a[1..] + b; }
        first + Contributing(a[1..] + b);
        { ContributingConcat(a[1..], b); }
        first + (Contributing(a[1..]) + Contributing(b));
        Contributing(a) + Contributing(b);
      }
    }
  }

  /** Every slot's readable report is merged, once and in slot order; a slot is counted lost
    * exactly when its lease is lost or its report unreadable; and a slot is neither merged nor
    * lost exactly when it was dropped. */
  lemma {:induction false} CollectionAccounts(leases: seq<Lease>, i: nat)
    requires i < |leases|
    requires forall a, b :: 0 <= a < b < |leases| ==> leases[a].slot.number != leases[b].slot.number
    ensures CollectAll(leases).reports == Contributing(leases)
    ensures leases[i].slot.number in CollectAll(leases).lost <==> !Contributes(leases[i]) && !Dropped(leases[i])
    ensures forall s :: s in CollectAll(leases).lost ==> exists j :: 0 <= j < |leases| && leases[j].slot.number == s
  {
    var n := |leases| - 1;
    assert leases == leases[..n] + [leases[n]];
    ContributingConcat(leases[..n], [leases[n]]);
    var before := CollectAll(leases[..n]);
    if n > 0 {
      CollectionAccounts(leases[..n], if i < n then i else 0);
    }
    forall j | 0 <= j < n
      ensures leases[..n][j].slot.number != leases[n].slot.number
    {
    }
    forall s | s in CollectAll(leases).lost
      ensures exists j :: 0 <= j < |leases| && leases[j].slot.number == s
    {
      if s in before.lost {
        var j :| 0 <= j < |leases[..n]| && leases[..n][j].slot.number == s;
        assert leases[j].slot.number == s;
      } else {
        assert leases[n].slot.number == s;
      }
    }
  }
}
