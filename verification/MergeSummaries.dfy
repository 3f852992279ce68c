/** fleet.merge_summaries: one document from many final reports. */
module MergeSummaries {
  import opened Wrappers
  import opened Counts
  import opened Histogram
  import opened Results
  import opened FleetMerge

  // ---------------------------------------------------------------------
  // The documents
  // ---------------------------------------------------------------------

  datatype StepDoc = StepDoc(stepId: string, stepClass: string, counts: StepCounts)

  /** A final report: figures, steps in order, their raw sketches by id, and the epochs it lists. */
  datatype Summary = Summary(
    outcome: Option<string>,
    valid: bool,
    figures: Figures,
    steps: seq<StepDoc>,
    stepSketches: map<string, StepSketches>,
    epochs: map<nat, nat>,
    peakInFlight: nat)

  datatype Merge = Merge(
    outcome: string,
    valid: bool,
    figures: Figures,
    steps: seq<StepAgg>,
    epochs: map<nat, nat>,
    peakInFlight: nat)

  function StepDocs(s: Steps, order: seq<string>): seq<StepDoc>
    requires forall id :: id in order ==> id in s.table
  {
    if order == [] then []
    else
      var last := order[|order| - 1];
      StepDocs(s, order[..|order| - 1]) + [StepDoc(last, s.table[last].stepClass, s.table[last].counts)]
  }

  /** Only epochs with a success have a histogram, and only those are listed. */
  function ListedEpochs(f: Figures): map<nat, nat> {
    map e | e in f.epochLatency :: Get(f.epochExecutions, e)
  }

  /** RunStats.snapshot with its histograms, as a worker posts it. */
  function SummaryOf(t: Totals, peak: nat, outcome: Option<string>, valid: bool): Summary
    requires Ordered(t.steps)
  {
    Summary(outcome, valid, t.figures, StepDocs(t.steps, t.steps.order),
            map id | id in t.steps.table :: t.steps.table[id].sketches, ListedEpochs(t.figures), peak)
  }

  // ---------------------------------------------------------------------
  // Steps
  // ---------------------------------------------------------------------

  /** One step document folded into the steps merged so far; sketches are looked up by id. */
  function AbsorbStep(s: Steps, doc: StepDoc, sketches: map<string, StepSketches>): Steps {
    var part := if doc.stepId in sketches then sketches[doc.stepId] else NO_SKETCHES;
    var entry := if doc.stepId in s.table then s.table[doc.stepId] else NewStep(doc.stepId, doc.stepClass);
    var merged := StepAgg(entry.stepId, entry.stepClass,
                          CombineCounts(entry.counts, doc.counts), CombineSketches(entry.sketches, part));
    Steps(if doc.stepId in s.table then s.order else s.order + [doc.stepId], s.table[doc.stepId := merged])
  }

  function AbsorbSteps(s: Steps, docs: seq<StepDoc>, sketches: map<string, StepSketches>): Steps {
    if docs == [] then s
    else AbsorbStep(AbsorbSteps(s, docs[..|docs| - 1], sketches), docs[|docs| - 1], sketches)
  }

  function MergedSteps(summaries: seq<Summary>): Steps {
    if summaries == [] then NO_STEPS
    else
      var last := summaries[|summaries| - 1];
      AbsorbSteps(MergedSteps(summaries[..|summaries| - 1]), last.steps, last.stepSketches)
  }

  function MergedFigures(summaries: seq<Summary>): Figures {
    if summaries == [] then NO_FIGURES
    else CombineFigures(MergedFigures(summaries[..|summaries| - 1]), summaries[|summaries| - 1].figures)
  }

  function MergedEpochs(summaries: seq<Summary>): map<nat, nat> {
    if summaries == [] then map[]
    else Add(MergedEpochs(summaries[..|summaries| - 1]), summaries[|summaries| - 1].epochs)
  }

  function PeakSum(summaries: seq<Summary>): nat {
    if summaries == [] then 0 else PeakSum(summaries[..|summaries| - 1]) + summaries[|summaries| - 1].peakInFlight
  }

  function OutcomeOf(s: Summary): string {
    match s.outcome
    case None => "failed"
    case Some(o) => if o == "" then "failed" else o
  }

  ghost predicate Reports(summaries: seq<Summary>, outcome: string) {
    exists i :: 0 <= i < |summaries| && OutcomeOf(summaries[i]) == outcome
  }

  ghost predicate AllValid(summaries: seq<Summary>) {
    forall i :: 0 <= i < |summaries| ==> summaries[i].valid
  }

  /** A merged report is valid when there are reports, all of them valid, and no slot is lost. */
  ghost predicate ReadsValid(summaries: seq<Summary>, lostSlots: seq<nat>) {
    AllValid(summaries) && lostSlots == [] && summaries != []
  }

  ghost function WorstOutcome(summaries: seq<Summary>): string {
    if Reports(summaries, "failed") then "failed"
    else if Reports(summaries, "aborted") then "aborted"
    else if Reports(summaries, "stopped") then "stopped"
    else "completed"
  }

  function InOrder(s: Steps, order: seq<string>): seq<StepAgg>
    requires forall id :: id in order ==> id in s.table
  {
    if order == [] then []
    else InOrder(s, order[..|order| - 1]) + [s.table[order[|order| - 1]]]
  }

  // ---------------------------------------------------------------------
  // The merge itself
  // ---------------------------------------------------------------------

  method AnyOutcome(summaries: seq<Summary>, outcome: string) returns (found: bool)
    ensures found == Reports(summaries, outcome)
  {
    for i := 0 to |summaries|
      invariant !Reports(summaries[..i], outcome)
    {
      if OutcomeOf(summaries[i]) == outcome {
        return true;
      }
      assert forall j :: 0 <= j < i ==> summaries[..i][j] == summaries[j];
    }
    assert summaries[..|summaries|] == summaries;
    found := false;
  }

  method MergeSteps(summaries: seq<Summary>) returns (steps: Steps)
    ensures steps == MergedSteps(summaries)
  {
    hide AbsorbStep;
    steps := NO_STEPS;
    for i := 0 to |summaries|
      invariant steps == MergedSteps(summaries[..i])
    {
      var docs, sketches := summaries[i].steps, summaries[i].stepSketches;
      ghost var before := steps;
      for j := 0 to |docs|
        invariant steps == AbsorbSteps(before, docs[..j], sketches)
      {
        steps := AbsorbStep(steps, docs[j], sketches);
        assert docs[..j + 1][..j] == docs[..j];
      }
      assert docs[..|docs|] == docs;
      assert summaries[..i + 1][..i] == summaries[..i];
    }
    assert summaries[..|summaries|] == summaries;
  }

  method MergeReports(summaries: seq<Summary>, lostSlots: seq<nat>) returns (m: Merge)
    ensures MergedStepsOrdered(summaries)
    ensures m.steps == InOrder(MergedSteps(summaries), MergedSteps(summaries).order)
    ensures m.figures == MergedFigures(summaries)
    ensures m.epochs == MergedEpochs(summaries)
    ensures m.peakInFlight == PeakSum(summaries)
    ensures m.outcome == WorstOutcome(summaries)
    ensures m.valid <==> ReadsValid(summaries, lostSlots)
  {
    hide CombineFigures, Add, MergedSteps;
    var steps := MergeSteps(summaries);
    MergedOrdered(summaries);
    var figures, epochs, peak, valid := NO_FIGURES, map[], 0, true;
    for i := 0 to |summaries|
      invariant figures == MergedFigures(summaries[..i])
      invariant epochs == MergedEpochs(summaries[..i])
      invariant peak == PeakSum(summaries[..i])
      invariant valid == AllValid(summaries[..i])
    {
      assert summaries[..i + 1][..i] == summaries[..i];
      figures := CombineFigures(figures, summaries[i].figures);
      epochs := AddInto(epochs, summaries[i].epochs);
      peak := peak + summaries[i].peakInFlight;
      valid := valid && summaries[i].valid;
    }
    assert summaries[..|summaries|] == summaries;
    var failed := AnyOutcome(summaries, "failed");
    var aborted := AnyOutcome(summaries, "aborted");
    var stopped := AnyOutcome(summaries, "stopped");
    var outcome := if failed then "failed" else if aborted then "aborted" else if stopped then "stopped" else "completed";
    m := Merge(outcome, valid && lostSlots == [] && summaries != [], figures,
               InOrder(steps, steps.order), epochs, peak);
  }

  ghost predicate MergedStepsOrdered(summaries: seq<Summary>) {
    Ordered(MergedSteps(summaries))
  }

  lemma {:induction false} AbsorbOrdered(s: Steps, docs: seq<StepDoc>, sketches: map<string, StepSketches>)
    requires Ordered(s)
    ensures Ordered(AbsorbSteps(s, docs, sketches))
  {
    hide CombineCounts, CombineSketches, NewStep;
    if docs != [] {
      AbsorbOrdered(s, docs[..|docs| - 1], sketches);
    }
  }

  lemma {:induction false} MergedOrdered(summaries: seq<Summary>)
    ensures MergedStepsOrdered(summaries)
  {
    hide AbsorbSteps;
    if summaries != [] {
      MergedOrdered(summaries[..|summaries| - 1]);
      var last := summaries[|summaries| - 1];
      AbsorbOrdered(MergedSteps(summaries[..|summaries| - 1]), last.steps, last.stepSketches);
    }
  }
}
