/** The order in which the reports of a fleet come in decides the order of the steps, and which
  * report names a step's class, and nothing else. */
module MergeOrder {
  import opened Wrappers
  import opened Counts
  import opened Histogram
  import opened Results
  import opened FleetMerge
  import opened MergeSummaries
  import opened MergeTheorems

  // ------------------------------------------------------------- figures of a step

  /** What a step adds up to, its name and class aside. */
  datatype StepSum = StepSum(counts: StepCounts, sketches: StepSketches)

  const NO_STEP := StepSum(NO_COUNTS, NO_SKETCHES)

  function Plus(a: StepSum, b: StepSum): StepSum {
    StepSum(CombineCounts(a.counts, b.counts), CombineSketches(a.sketches, b.sketches))
  }

  lemma PlusCommutes(a: StepSum, b: StepSum)
    ensures Plus(a, b) == Plus(b, a)
  {
    hide Merged, Add;
    AddCommutes(a.counts.errorsByClass, b.counts.errorsByClass);
    var s, t := a.sketches, b.sketches;
    MergeCommutes(s.latency, t.latency);
    MergeCommutes(s.service, t.service);
    MergeCommutes(s.dispatch, t.dispatch);
    MergeCommutes(s.ttfr, t.ttfr);
    MergeCommutes(s.failure, t.failure);
    MergeCommutes(s.cold, t.cold);
    MergeCommutes(s.warm, t.warm);
  }

  lemma PlusAssociates(a: StepSum, b: StepSum, c: StepSum)
    ensures Plus(Plus(a, b), c) == Plus(a, Plus(b, c))
  {
    hide Merged, Add;
    AddAssociates(a.counts.errorsByClass, b.counts.errorsByClass, c.counts.errorsByClass);
    var s, t, u := a.sketches, b.sketches, c.sketches;
    MergeAssociates(s.latency, t.latency, u.latency);
    MergeAssociates(s.service, t.service, u.service);
    MergeAssociates(s.dispatch, t.dispatch, u.dispatch);
    MergeAssociates(s.ttfr, t.ttfr, u.ttfr);
    MergeAssociates(s.failure, t.failure, u.failure);
    MergeAssociates(s.cold, t.cold, u.cold);
    MergeAssociates(s.warm, t.warm, u.warm);
  }

  lemma PlusNothing(a: StepSum)
    ensures Plus(NO_STEP, a) == a && Plus(a, NO_STEP) == a
  {
    hide Merged, Add, CombineCounts, CombineSketches;
    FromNothing(a.counts, a.sketches);
    PlusCommutes(a, NO_STEP);
  }

  lemma PlusSwap(a: StepSum, b: StepSum, c: StepSum)
    ensures Plus(Plus(a, b), c) == Plus(Plus(a, c), b)
  {
    hide Plus;
    PlusAssociates(a, b, c);
    PlusCommutes(b, c);
    PlusAssociates(a, c, b);
  }

  function SumAt(s: Steps, id: string): StepSum {
    if id in s.table then StepSum(s.table[id].counts, s.table[id].sketches) else NO_STEP
  }

  // ------------------------------------------------------------ what a report adds

  /** What one report says of a step, in all the documents that name it. */
  function Reported(docs: seq<StepDoc>, sketches: map<string, StepSketches>, id: string): StepSum {
    if docs == [] then NO_STEP
    else
      var before, last := Reported(docs[..|docs| - 1], sketches, id), docs[|docs| - 1];
      if last.stepId == id then Plus(before, StepSum(last.counts, if id in sketches then sketches[id] else NO_SKETCHES)) else before
  }

  predicate Mentions(docs: seq<StepDoc>, id: string) {
    exists i :: 0 <= i < |docs| && docs[i].stepId == id
  }

  lemma {:induction false} AbsorbedAt(s: Steps, docs: seq<StepDoc>, sketches: map<string, StepSketches>, id: string)
    ensures SumAt(AbsorbSteps(s, docs, sketches), id) == Plus(SumAt(s, id), Reported(docs, sketches, id))
    ensures id in AbsorbSteps(s, docs, sketches).table <==> id in s.table || Mentions(docs, id)
  {
    hide CombineCounts, CombineSketches, Plus;
    if docs == [] {
      PlusNothing(SumAt(s, id));
    } else {
      var n := |docs| - 1;
      var before, part := AbsorbSteps(s, docs[..n], sketches), Reported(docs[..n], sketches, id);
      AbsorbedAt(s, docs[..n], sketches, id);
      assert Mentions(docs, id) <==> Mentions(docs[..n], id) || docs[n].stepId == id;
      OneAbsorbed(before, docs[n], sketches, id);
      if docs[n].stepId == id {
        PlusAssociates(SumAt(s, id), part, StepSum(docs[n].counts, if id in sketches then sketches[id] else NO_SKETCHES));
      }
    }
  }

  lemma OneAbsorbed(s: Steps, doc: StepDoc, sketches: map<string, StepSketches>, id: string)
    ensures SumAt(AbsorbStep(s, doc, sketches), id) ==
            if doc.stepId == id then Plus(SumAt(s, id), StepSum(doc.counts, if id in sketches then sketches[id] else NO_SKETCHES))
            else SumAt(s, id)
  {
    hide CombineCounts, CombineSketches;
  }

  /** What all the reports say of a step. */
  function Total(summaries: seq<Summary>, id: string): StepSum {
    if summaries == [] then NO_STEP
    else
      var last := summaries[|summaries| - 1];
      Plus(Total(summaries[..|summaries| - 1], id), Reported(last.steps, last.stepSketches, id))
  }

  ghost predicate AnyMentions(summaries: seq<Summary>, id: string) {
    exists i :: 0 <= i < |summaries| && Mentions(summaries[i].steps, id)
  }

  /** The merge has, for every step that any report names, what all the reports say of it. */
  lemma {:induction false} MergedAt(summaries: seq<Summary>, id: string)
    ensures SumAt(MergedSteps(summaries), id) == Total(summaries, id)
    ensures id in MergedSteps(summaries).table <==> AnyMentions(summaries, id)
  {
    hide AbsorbSteps, Plus, Reported, Mentions;
    if summaries != [] {
      var n := |summaries| - 1;
      MergedAt(summaries[..n], id);
      AbsorbedAt(MergedSteps(summaries[..n]), summaries[n].steps, summaries[n].stepSketches, id);
      assert AnyMentions(summaries, id) <==> AnyMentions(summaries[..n], id) || Mentions(summaries[n].steps, id);
    }
  }

  lemma {:induction false} TotalMovedLast(s: seq<Summary>, i: nat, id: string)
    requires i < |s|
    ensures Total(s, id) == Plus(Total(Without(s, i), id), Reported(s[i].steps, s[i].stepSketches, id))
    decreases |s|
  {
    hide Plus, Reported;
    var n := |s| - 1;
    var before, last := s[..n], s[n];
    if i == n {
      assert Without(s, i) == before;
    } else {
      TotalMovedLast(before, i, id);
      var rest, others := Without(before, i), Without(s, i);
      assert others[..|others| - 1] == rest && others[|others| - 1] == last;
      PlusSwap(Total(rest, id), Reported(s[i].steps, s[i].stepSketches, id), Reported(last.steps, last.stepSketches, id));
    }
  }

  lemma {:induction false} TotalIgnoresOrder(a: seq<Summary>, b: seq<Summary>, id: string)
    requires multiset(a) == multiset(b)
    ensures Total(a, id) == Total(b, id)
    decreases |a|
  {
    hide Plus, Reported, Without;
    if a == [] {
      assert |multiset(a)| == |multiset(b)|;
      assert b == [];
    } else {
      var i := RestOfReports(a, b);
      TotalIgnoresOrder(a[..|a| - 1], Without(b, i), id);
      TotalMovedLast(b, i, id);
    }
  }

  lemma SameMentions(a: seq<Summary>, b: seq<Summary>, id: string)
    requires multiset(a) == multiset(b) && AnyMentions(a, id)
    ensures AnyMentions(b, id)
  {
    hide Mentions;
    var i :| 0 <= i < |a| && Mentions(a[i].steps, id);
    assert a[i] in multiset(b);
  }

  /** Whatever order the reports come in: the figures, the epochs, the peak, the outcome and the
    * validity are the same, the same steps are listed, and each adds up to the same counts and
    * sketches. */
  lemma OrderDoesNotMatter(a: seq<Summary>, b: seq<Summary>)
    requires multiset(a) == multiset(b)
    ensures MergedFigures(a) == MergedFigures(b) && MergedEpochs(a) == MergedEpochs(b) && PeakSum(a) == PeakSum(b)
    ensures WorstOutcome(a) == WorstOutcome(b) && (AllValid(a) <==> AllValid(b))
    ensures MergedSteps(a).table.Keys == MergedSteps(b).table.Keys
    ensures forall id :: id in MergedSteps(a).table ==>
      && MergedSteps(a).table[id].counts == MergedSteps(b).table[id].counts
      && MergedSteps(a).table[id].sketches == MergedSteps(b).table[id].sketches
  {
    hide MergedFigures, MergedEpochs, PeakSum, Reports, AllValid, MergedSteps, Total, AnyMentions;
    FiguresIgnoreOrder(a, b);
    SameMembers(a, b, "failed");
    SameMembers(a, b, "aborted");
    SameMembers(a, b, "stopped");
    forall id
      ensures id in MergedSteps(a).table <==> id in MergedSteps(b).table
      ensures SumAt(MergedSteps(a), id) == SumAt(MergedSteps(b), id)
    {
      MergedAt(a, id);
      MergedAt(b, id);
      TotalIgnoresOrder(a, b, id);
      if AnyMentions(a, id) {
        SameMentions(a, b, id);
      } else if AnyMentions(b, id) {
        SameMentions(b, a, id);
      }
    }
  }
}
