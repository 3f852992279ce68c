/** Exactly what a request is answered, and what a claim is granted. */
module LeaseAnswers {
  import opened Wrappers
  import opened Planning
  import opened RunControl
  import opened Leases
  import opened Supervisor
  import opened Protocol
  import opened LeaseInvariants

  // ------------------------------------------------------------------- the stop

  /** Whoever bears a slot's own id in an unfinished run is told to stop exactly when the run is
    * draining or over, and is never called superseded. */
  lemma StopExactly(f: Fleet, i: nat, leaseId: nat, reported: string, stats: Option<string>, delay: real, now: real)
    requires i < |f.leases| && DistinctSlots(f.leases) && f.leases[i].leaseId == Some(leaseId)
    requires !f.run.fleetState.Finished?
    ensures var (g, answer) := Heartbeat(f, f.leases[i].slot.number, Some(leaseId), reported, stats, delay, now);
      && answer.Answered? && !answer.reply.command.Superseded?
      && (answer.reply.command.Stop? <==> f.run.fleetState.Draining? || Terminal(f.run.state))
  {
    hide LoadOf, EvaluateRelease;
    FindSlotAt(f.leases, i);
  }

  /** And whoever bears no id, or another one than the slot's, is always called superseded. */
  lemma SupersededExactly(f: Fleet, i: nat, leaseId: Option<nat>, reported: string, stats: Option<string>, delay: real, now: real)
    requires i < |f.leases| && DistinctSlots(f.leases) && !f.run.fleetState.Finished?
    ensures var (g, answer) := Heartbeat(f, f.leases[i].slot.number, leaseId, reported, stats, delay, now);
      && answer.Answered?
      && (answer.reply.command.Superseded? <==> leaseId.None? || f.leases[i].leaseId != leaseId)
      && (answer.reply.command.Superseded? ==> g == f)
  {
    hide LoadOf, EvaluateRelease, Stopping;
    FindSlotAt(f.leases, i);
  }

  // ------------------------------------------------------------------ coming back

  /** A ready call from a slot's holder is refused exactly when the run is over; else it is told the
    * run's T0, and a lease that is claimed, ready or lost is ready. */
  lemma ReadyExactly(f: Fleet, i: nat, leaseId: nat, delay: real, now: real)
    requires i < |f.leases| && DistinctSlots(f.leases) && f.leases[i].leaseId == Some(leaseId)
    ensures var (g, answer) := MarkReady(f, f.leases[i].slot.number, Some(leaseId), delay, now);
      && (answer.ReadyRefused? <==> f.run.fleetState.Finished? || Terminal(f.run.state))
      && (!answer.ReadyRefused? ==> answer == ReadyAt(g.run.t0) && |g.leases| == |f.leases| && g.leases[i].beatAt == Some(now))
      && (!answer.ReadyRefused? ==>
            g.leases[i].state == if f.leases[i].state.Claimed? || f.leases[i].state.Lost? then Ready else f.leases[i].state)
  {
    FindSlotAt(f.leases, i);
    var warmed := WithLease(f, i, Warmed(f.leases[i], now));
    if !Over(f.run, false) && MayRelease(warmed, false) {
      assert !Unready(warmed.leases[i].state);
    }
  }

  /** The last worker still out, lost on the way, comes back with a beat that says it is ready: the
    * fleet is released by it, and its answer says so. */
  lemma ReturningWorkerReleases(f: Fleet, i: nat, leaseId: nat, stats: Option<string>, delay: real, now: real)
    requires Heard(f, i, leaseId) && f.run.fleetState.Provisioning? && f.run.t0.None? && f.leases[i].state.Lost?
    requires forall j :: 0 <= j < |f.leases| && j != i ==> !Unready(f.leases[j].state)
    ensures var (g, answer) := Heartbeat(f, f.leases[i].slot.number, Some(leaseId), "ready", stats, delay, now);
      && answer.Answered? && answer.reply.command == Release(now + delay)
      && g.run.t0 == Some(now + delay) && |g.leases| == |f.leases| && g.leases[i].state.Ready?
  {
    hide LoadOf;
    FindSlotAt(f.leases, i);
    var beaten := WithLease(f, i, Beaten(f.leases[i], stats, now));
    var back := WithLease(beaten, i, Restored(beaten.leases[i], "ready"));
    assert back.leases[i].state.Ready?;
    assert MayRelease(back, false);
  }

  /** One that is still starting comes back as claimed, and holds the release up. */
  lemma ReturningStarterIsClaimed(f: Fleet, i: nat, leaseId: nat, stats: Option<string>, delay: real, now: real)
    requires Heard(f, i, leaseId) && f.run.t0.None? && f.leases[i].state.Lost?
    ensures var (g, answer) := Heartbeat(f, f.leases[i].slot.number, Some(leaseId), "starting", stats, delay, now);
      && answer.Answered? && answer.reply.command == Continue
      && g.run == f.run && |g.leases| == |f.leases| && g.leases[i].state.Claimed?
  {
    hide LoadOf, EvaluateRelease;
    FindSlotAt(f.leases, i);
  }

  /** Where a beat of a run with T0 leaves the lease: a lost one where its worker says it is, a live one
    * running once its worker says that it has started; and until then the worker is told T0. */
  lemma BeatPlaces(f: Fleet, i: nat, leaseId: nat, reported: string, stats: Option<string>, delay: real, now: real)
    requires Heard(f, i, leaseId) && f.run.t0.Some?
    ensures var (g, answer) := Heartbeat(f, f.leases[i].slot.number, Some(leaseId), reported, stats, delay, now);
      var started := reported == "running" || reported == "finishing";
      var back := if !f.leases[i].state.Lost? then f.leases[i].state else if started || reported == "ready" then Ready else Claimed;
      && answer.Answered? && |g.leases| == |f.leases|
      && g.leases[i].state == (if started && (back.Claimed? || back.Ready?) then Running else back)
      && answer.reply.command == (if started || back.Done? then Continue else Release(f.run.t0.value))
  {
    hide LoadOf, EvaluateRelease;
    FindSlotAt(f.leases, i);
  }

  /** The epoch asked for last, by its number, rides the next beat, whatever else that is answered. */
  lemma EpochIsTold(c: Constants, f: Fleet, requestedAt: real, slot: nat, leaseId: Option<nat>, reported: string,
      stats: Option<string>, now: real)
    requires !f.run.fleetState.Finished?
    ensures var (g, answer) := Heartbeat(Stepped(c, f, EpochStep(requestedAt)), slot, leaseId, reported, stats, c.delay, now);
      answer.Answered? && answer.reply.epoch == Some((|f.epochs| + 1, requestedAt))
  {
    hide LoadOf, EvaluateRelease, Started;
  }

  // -------------------------------------------------------------------- the claim

  /** The lease a candidate names is claimable, of the wanted engine, and as it then stood. */
  predicate IsOf(c: Candidate, leases: seq<Lease>, engine: Option<string>) {
    && c.at < |leases|
    && (leases[c.at].state.Free? || leases[c.at].state.Lost?)
    && (engine.None? || leases[c.at].slot.share.engine.Name() == engine.value)
    && c.restarts == leases[c.at].restarts && c.wasLost == leases[c.at].state.Lost?
  }

  predicate AtHint(leases: seq<Lease>, at: nat, hint: Option<nat>)
    requires at < |leases|
  {
    hint == Some(leases[at].slot.number)
  }

  lemma LastCandidate(leases: seq<Lease>, n: nat, engine: Option<string>, hint: Option<nat>, hinted: bool)
    requires 0 < n <= |leases|
    ensures var lease := leases[n - 1];
      var c := Candidate(n - 1, lease.restarts, lease.state.Lost?);
      && CandidatesAt(leases, n, engine, hint, hinted) == CandidatesAt(leases, n - 1, engine, hint, hinted) +
           (if Wanted(lease, engine) && hinted == AtHint(leases, n - 1, hint) then [c] else [])
      && (Wanted(lease, engine) ==> IsOf(c, leases, engine))
  {
  }

  lemma {:induction false} CandidatesFit(leases: seq<Lease>, n: nat, engine: Option<string>, hint: Option<nat>, hinted: bool)
    requires n <= |leases|
    ensures var cs := CandidatesAt(leases, n, engine, hint, hinted);
      && (forall k :: 0 <= k < |cs| ==> cs[k].at < n && IsOf(cs[k], leases, engine) && hinted == AtHint(leases, cs[k].at, hint))
      && (forall k, l :: 0 <= k < l < |cs| ==> cs[k].at < cs[l].at)
  {
    hide Wanted, IsOf, AtHint, CandidatesAt;
    if n > 0 {
      LastCandidate(leases, n, engine, hint, hinted);
      CandidatesFit(leases, n - 1, engine, hint, hinted);
    } else {
      NoneYet(leases, engine, hint, hinted);
    }
  }

  lemma NoneYet(leases: seq<Lease>, engine: Option<string>, hint: Option<nat>, hinted: bool)
    ensures CandidatesAt(leases, 0, engine, hint, hinted) == []
  {
  }

  lemma {:induction false} CandidateFound(leases: seq<Lease>, n: nat, engine: Option<string>, hint: Option<nat>, hinted: bool, at: nat)
      returns (k: nat)
    requires at < n <= |leases| && Wanted(leases[at], engine) && hinted == AtHint(leases, at, hint)
    ensures k < |CandidatesAt(leases, n, engine, hint, hinted)| && CandidatesAt(leases, n, engine, hint, hinted)[k].at == at
  {
    hide Wanted, IsOf, AtHint, CandidatesAt;
    LastCandidate(leases, n, engine, hint, hinted);
    if at == n - 1 {
      k := |CandidatesAt(leases, n, engine, hint, hinted)| - 1;
    } else {
      k := CandidateFound(leases, n - 1, engine, hint, hinted, at);
    }
  }

  /** Of the first n leases, those asked for and no others, in slot order. */
  lemma CandidatesAtExactly(leases: seq<Lease>, n: nat, engine: Option<string>, hint: Option<nat>, hinted: bool)
    requires n <= |leases|
    ensures var cs := CandidatesAt(leases, n, engine, hint, hinted);
      && (forall k :: 0 <= k < |cs| ==> cs[k].at < n && IsOf(cs[k], leases, engine) && hinted == AtHint(leases, cs[k].at, hint))
      && (forall k, l :: 0 <= k < l < |cs| ==> cs[k].at < cs[l].at)
      && (forall at :: 0 <= at < n && Wanted(leases[at], engine) && hinted == AtHint(leases, at, hint) ==>
            exists k :: 0 <= k < |cs| && cs[k].at == at)
  {
    hide Wanted, IsOf, AtHint, CandidatesAt;
    CandidatesFit(leases, n, engine, hint, hinted);
    var cs := CandidatesAt(leases, n, engine, hint, hinted);
    forall at | 0 <= at < n && Wanted(leases[at], engine) && hinted == AtHint(leases, at, hint)
      ensures exists k :: 0 <= k < |cs| && cs[k].at == at
    {
      var k := CandidateFound(leases, n, engine, hint, hinted, at);
    }
  }

  /** A claim that contends tries every claimable lease of the engine it names, and no other; each
    * once, the hinted slot before all others, and the others in slot order. */
  lemma ClaimTriesExactly(f: Fleet, holder: string, hint: Option<nat>, engine: Option<string>, now: real)
    requires ClaimRead(f, holder, hint, engine, now).Contends?
    ensures var cs := ClaimRead(f, holder, hint, engine, now).ticket.candidates;
      && (forall k :: 0 <= k < |cs| ==> IsOf(cs[k], f.leases, engine))
      && (forall k, l :: 0 <= k < l < |cs| ==>
            (AtHint(f.leases, cs[k].at, hint) && !AtHint(f.leases, cs[l].at, hint)) ||
            (AtHint(f.leases, cs[k].at, hint) == AtHint(f.leases, cs[l].at, hint) && cs[k].at < cs[l].at))
      && (forall at :: 0 <= at < |f.leases| && Wanted(f.leases[at], engine) ==> exists k :: 0 <= k < |cs| && cs[k].at == at)
  {
    hide Wanted, IsOf, AtHint, CandidatesAt, HeldBy;
    var leases := f.leases;
    CandidatesAtExactly(leases, |leases|, engine, hint, true);
    CandidatesAtExactly(leases, |leases|, engine, hint, false);
    var first, rest := CandidatesAt(leases, |leases|, engine, hint, true), CandidatesAt(leases, |leases|, engine, hint, false);
    var cs := ClaimRead(f, holder, hint, engine, now).ticket.candidates;
    assert cs == first + rest;
    forall at | 0 <= at < |leases| && Wanted(leases[at], engine)
      ensures exists k :: 0 <= k < |cs| && cs[k].at == at
    {
      if AtHint(leases, at, hint) {
        var k :| 0 <= k < |first| && first[k].at == at;
        assert cs[k].at == at;
      } else {
        var k :| 0 <= k < |rest| && rest[k].at == at;
        assert cs[|first| + k].at == at;
      }
    }
  }

  /** Whatever has changed between its read and its write, a claim that names an engine is granted only
    * a slot of it. */
  lemma GrantedEngine(f: Fleet, g: Fleet, holder: string, hint: Option<nat>, engine: string, now: real, k: nat)
    requires ClaimRead(f, holder, hint, Some(engine), now).Contends?
    requires var cs := ClaimRead(f, holder, hint, Some(engine), now).ticket.candidates; k < |cs|
    requires |g.leases| == |f.leases| && forall i :: 0 <= i < |f.leases| ==> g.leases[i].slot == f.leases[i].slot
    ensures var ticket := ClaimRead(f, holder, hint, Some(engine), now).ticket;
      var tried := ticket.(candidates := ticket.candidates[k..]);
      && tried.candidates != [] && tried.candidates[0].at < |g.leases|
      && var (h, answer) := ClaimWrite(g, tried);
         answer.Some? && answer.value.Granted? ==>
           exists i :: 0 <= i < |g.leases| && g.leases[i].slot.number == answer.value.slot &&
             g.leases[i].slot.share.engine.Name() == engine &&
             h.leases[i].holder == Some(holder) && h.leases[i].leaseId == answer.value.leaseId && h.leases[i].state.Claimed?
  {
    hide Wanted, CandidatesAt, Candidates, HeldBy;
    ClaimTriesExactly(f, holder, hint, Some(engine), now);
    var c := ClaimRead(f, holder, hint, Some(engine), now).ticket.candidates[k];
    assert IsOf(c, f.leases, Some(engine));
    assert g.leases[c.at].slot == f.leases[c.at].slot;
  }

  /** A live lease of a holder. */
  predicate Holds(lease: Lease, holder: string) {
    lease.holder == Some(holder) && (lease.state.Claimed? || lease.state.Ready? || lease.state.Running?)
  }

  predicate NoMoreClaims(run: Run) {
    run.fleetState.Draining? || run.fleetState.Finished? || (!run.state.Pending? && !run.state.Active?)
  }

  /** A claim is refused exactly when the run drains or is over, or the holder has no live lease and
    * none is left for it; a holder that has one keeps the first, is told its id and the run's T0,
    * and is heard of now. */
  lemma ClaimAnswersExactly(f: Fleet, holder: string, hint: Option<nat>, engine: Option<string>, now: real)
    ensures var look := ClaimRead(f, holder, hint, engine, now);
      var held := exists i :: 0 <= i < |f.leases| && Holds(f.leases[i], holder);
      && (look.Refuses? <==> NoMoreClaims(f.run) || (!held && forall i :: 0 <= i < |f.leases| ==> !Wanted(f.leases[i], engine)))
      && (look.Resumes? <==> !NoMoreClaims(f.run) && held)
      && (look.Resumes? ==>
            && look.at < |f.leases| && Holds(f.leases[look.at], holder)
            && (forall i :: 0 <= i < look.at ==> !Holds(f.leases[i], holder))
            && look.leaseId == f.leases[look.at].leaseId && look.t0 == f.run.t0
            && ClaimRenew(f, look.at, now) == f.(leases := f.leases[look.at := f.leases[look.at].(beatAt := Some(now))]))
  {
    hide Wanted, Candidates;
    assert forall i :: 0 <= i < |f.leases| ==> (Holds(f.leases[i], holder) <==> f.leases[i].holder == Some(holder) && Live(f.leases[i].state));
    var leases := f.leases;
    WantedFound(leases, engine, hint);
  }

  lemma {:induction false} NoneListed(leases: seq<Lease>, n: nat, engine: Option<string>, hint: Option<nat>, hinted: bool)
    requires n <= |leases|
    ensures CandidatesAt(leases, n, engine, hint, hinted) == [] <==>
            forall i :: 0 <= i < n && Wanted(leases[i], engine) ==> hinted != AtHint(leases, i, hint)
  {
    hide Wanted, AtHint;
    if n > 0 {
      NoneListed(leases, n - 1, engine, hint, hinted);
      LastCandidate(leases, n, engine, hint, hinted);
    }
  }

  lemma WantedFound(leases: seq<Lease>, engine: Option<string>, hint: Option<nat>)
    ensures Candidates(leases, engine, hint) == [] <==> forall i :: 0 <= i < |leases| ==> !Wanted(leases[i], engine)
  {
    hide CandidatesAt, Wanted, AtHint;
    NoneListed(leases, |leases|, engine, hint, true);
    NoneListed(leases, |leases|, engine, hint, false);
  }

  /** A claim written straight after its read takes the first lease on its list, is told the run's T0,
    * and counts a restart exactly where that lease was lost; nothing else changes. */
  lemma UnhurriedClaimTakes(f: Fleet, holder: string, hint: Option<nat>, engine: Option<string>, now: real)
    requires ClaimRead(f, holder, hint, engine, now).Contends?
    ensures var ticket := ClaimRead(f, holder, hint, engine, now).ticket;
      && ticket.candidates != [] && ticket.candidates[0].at < |f.leases|
      && var (at, (g, answer)) := (ticket.candidates[0].at, ClaimWrite(f, ticket));
      var (before, after) := (f.leases[at], if at < |g.leases| then g.leases[at] else f.leases[at]);
      && answer == Some(Granted(before.slot.number, Some(f.issued), holder, f.run.t0))
      && g == f.(leases := f.leases[at := after], issued := f.issued + 1)
      && after.state.Claimed? && after.holder == Some(holder) && after.leaseId == Some(f.issued) && after.beatAt == Some(now)
      && after.restarts == (if before.state.Lost? then before.restarts + 1 else before.restarts)
      && after.slot == before.slot && after.stats == before.stats && after.summary == before.summary
  {
    hide Wanted, HeldBy, Candidates;
    ClaimTriesExactly(f, holder, hint, engine, now);
  }
}
