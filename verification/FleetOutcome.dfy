/** What a valid merged report says about the slots of a run that has been watched to its end. */
module FleetOutcome {
  import opened Wrappers
  import opened Planning
  import opened Leases
  import opened Supervisor
  import opened LeaseInvariants
  import opened MergeSummaries

  /** Done, with a report that says nothing: neither merged nor lost. */
  predicate SaysNothing(lease: Lease) {
    lease.state.Done? && !HasReport(lease)
  }

  lemma {:induction false} AllOrFewer(leases: seq<Lease>)
    ensures |Contributing(leases)| <= |leases|
    ensures |Contributing(leases)| == |leases| <==> forall i :: 0 <= i < |leases| ==> Contributes(leases[i])
  {
    hide Contributes;
    if leases != [] {
      AllOrFewer(leases[1..]);
      assert forall i :: 0 < i < |leases| ==> leases[i] == leases[1..][i - 1];
    }
  }

  lemma SettledSlot(leases: seq<Lease>, i: nat)
    requires Settled(leases) && DistinctSlots(leases) && i < |leases| && CollectAll(leases).lost == []
    ensures Contributes(leases[i]) <==> !SaysNothing(leases[i])
  {
    hide CollectAll;
    CollectionAccounts(leases, i);
  }

  /** Once every lease is done or lost: a merged report that reads valid has merged a report of every
    * slot, except of those that are done with a report that says nothing; so it speaks for the
    * whole fleet exactly when there are none of those. */
  lemma ValidSpeaksForAll(leases: seq<Lease>, summaries: seq<Summary>)
    requires Settled(leases) && DistinctSlots(leases) && |summaries| == |CollectAll(leases).reports|
    requires ReadsValid(summaries, CollectAll(leases).lost)
    ensures forall i :: 0 <= i < |leases| ==> (Contributes(leases[i]) <==> !SaysNothing(leases[i]))
    ensures |summaries| == |leases| <==> forall i :: 0 <= i < |leases| ==> !SaysNothing(leases[i])
  {
    hide CollectAll, Contributes, Settled, AllValid, SaysNothing;
    forall i | 0 <= i < |leases|
      ensures Contributes(leases[i]) <==> !SaysNothing(leases[i])
    {
      SettledSlot(leases, i);
    }
    if leases == [] {
      assert CollectAll(leases).reports == [] by { NothingCollected(leases); }
    } else {
      CollectionAccounts(leases, 0);
    }
    AllOrFewer(leases);
  }

  lemma NothingCollected(leases: seq<Lease>)
    requires leases == []
    ensures CollectAll(leases).reports == []
  {
  }

  /** For instance: of two slots that are done, one reported nothing, and the run reads valid. */
  lemma OneSlotSaysNothing(a: Lease, b: Lease, summary: Summary, document: string)
    requires a.slot.number != b.slot.number && document != "" && summary.valid
    requires a.state.Done? && a.summary == Some(Report(document, true))
    requires b.state.Done? && b.summary == Some(Report("", true))
    ensures CollectAll([a, b]).reports == [Report(document, true)]
    ensures ReadsValid([summary], CollectAll([a, b]).lost)
  {
    assert [a, b][..1] == [a] && [a][..0] == [];
    assert CollectAll([a]) == Collect1(CollectAll([]), a);
  }

  // --------------------------------------------------------------- the outcome

  /** A failure is graver than an abort, an abort than a stop, and anything else counts for nothing. */
  function Gravity(outcome: string): nat {
    if outcome == "failed" then 3 else if outcome == "aborted" then 2 else if outcome == "stopped" then 1 else 0
  }

  /** The merged outcome is the gravest that a worker reports, "completed" when none is grave; a
    * report that states none is a failure. */
  lemma OutcomeIsGravest(summaries: seq<Summary>)
    ensures forall i :: 0 <= i < |summaries| ==> Gravity(OutcomeOf(summaries[i])) <= Gravity(WorstOutcome(summaries))
    ensures WorstOutcome(summaries) == "completed" ||
      (Gravity(WorstOutcome(summaries)) > 0 && exists i :: 0 <= i < |summaries| && OutcomeOf(summaries[i]) == WorstOutcome(summaries))
    ensures (exists i :: 0 <= i < |summaries| && summaries[i].outcome.GetOr("") == "") ==> WorstOutcome(summaries) == "failed"
  {
    forall i | 0 <= i < |summaries|
      ensures Gravity(OutcomeOf(summaries[i])) <= Gravity(WorstOutcome(summaries))
    {
      assert Reports(summaries, OutcomeOf(summaries[i]));
    }
    if i :| 0 <= i < |summaries| && summaries[i].outcome.GetOr("") == "" {
      assert OutcomeOf(summaries[i]) == "failed";
    }
  }
}
