/** Importing an export brings back what was exported. */
module ConfigRestore {
  import opened Wrappers
  import opened Dicts
  import opened Text
  import opened ConfigIo
  import opened ConfigTwice

  // -------------------------------------------------------- an export, restored

  /** A target as the table keeps it, under a name an import reads back, and with an address. */
  predicate TargetRestorable(name: string, fields: Fields) {
    Strip(name) == name && name != "" && Named(fields, "mgmt_url") != ""
  }

  predicate Complete(targets: Dict<Fields>) {
    forall i :: 0 <= i < |targets| ==> targets[i].1.Keys == Columns()
  }

  /** A target comes back as it was exactly when its name is usable as it stands and it has an
    * address. */
  lemma TargetComesBackExactly(targets: Dict<Fields>, name: string, fields: Fields)
    requires fields.Keys == Columns() && At(targets, name).None? && !Has(targets, Strip(name))
    ensures ImportTarget(targets, TargetRow(name, fields), false) == targets + [(name, fields)]
       <==> TargetRestorable(name, fields)
  {
    hide Strip, NameOf, Named, Find, NewTarget, Assigned;
    TargetRowReads(name, fields);
    if Strip(name) != "" && Named(fields, "mgmt_url") != "" {
      AllAssigned(name, fields, Named(fields, "mgmt_url"));
      assert (targets + [(Strip(name), fields)])[|targets|] == (Strip(name), fields);
      assert (targets + [(name, fields)])[|targets|] == (name, fields);
    }
  }

  lemma TargetRowReads(name: string, fields: Fields)
    ensures NameOf(Targets, TargetRow(name, fields)) == Strip(name)
    ensures Named(TargetRow(name, fields).entries, "mgmt_url") == Named(fields, "mgmt_url")
  {
    hide Strip;
  }

  lemma AllAssigned(name: string, fields: Fields, mgmtUrl: string)
    requires fields.Keys == Columns()
    ensures Assigned(NewTarget(mgmtUrl), TargetRow(name, fields).entries, false) == fields
  {
  }

  lemma {:induction false} TargetsRestored(targets: Dict<Fields>, n: nat)
    requires n <= |targets| && Distinct(targets) && Complete(targets)
    requires forall i :: 0 <= i < |targets| ==> TargetRestorable(targets[i].0, targets[i].1)
    ensures ImportTargets([], ExportTargets(targets)[..n], false) == targets[..n]
  {
    hide TargetRestorable, ImportTarget;
    if n > 0 {
      TargetsRestored(targets, n - 1);
      var rows := ExportTargets(targets)[..n];
      assert rows[..n - 1] == ExportTargets(targets)[..n - 1];
      var (name, fields) := targets[n - 1];
      NotBefore(targets, n - 1);
      assert Strip(name) == name by { RestorableName(name, fields); }
      TargetComesBackExactly(targets[..n - 1], name, fields);
      assert targets[..n] == targets[..n - 1] + [(name, fields)];
    }
  }

  lemma RestorableName(name: string, fields: Fields)
    requires TargetRestorable(name, fields)
    ensures Strip(name) == name
  {
  }

  lemma NotBefore<V>(d: Dict<V>, n: nat)
    requires n < |d| && Distinct(d)
    ensures At(d[..n], d[n].0).None? && !Has(d[..n], d[n].0)
  {
  }

  /** A baseline whose run is archived, under a label an import reads back, and whose target an
    * import names again. */
  predicate BaselineRestorable(name: string, b: Baseline, targets: Dict<Fields>, runs: map<string, RunRef>) {
    && Strip(name) == name && name != ""
    && b.run.Some? && b.run.value != "" && Strip(b.run.value) == b.run.value && b.run.value in runs
    && b.scenario != ""
    && match b.target
       case Some(t) => t != "" && Has(targets, t)
       case None => runs[b.run.value].target.None?
  }

  lemma BaselineRowReads(name: string, b: Baseline)
    requires b.run.Some?
    ensures NameOf(Baselines, BaselineRow(name, b)) == Strip(name)
    ensures Named(BaselineRow(name, b).entries, "run_uid") == Strip(b.run.value)
  {
    hide Strip;
  }

  lemma BaselineRowIsIt(inst: Instance, name: string, b: Baseline, now: real)
    requires BaselineRestorable(name, b, inst.targets, inst.runs)
    ensures BaselineFrom(inst, BaselineRow(name, b).entries, b.run.value, now) == b
  {
    hide Strip, Find;
  }

  lemma BaselineComesBack(inst: Instance, name: string, b: Baseline, now: real)
    requires BaselineRestorable(name, b, inst.targets, inst.runs) && At(inst.baselines, name).None? && !Has(inst.baselines, name)
    ensures ImportBaseline(inst, BaselineRow(name, b), now) == inst.baselines + [(name, b)]
  {
    hide NameOf, Named, BaselineFrom, Strip;
    BaselineRowReads(name, b);
    BaselineRowIsIt(inst, name, b, now);
  }

  lemma {:induction false} BaselinesRestored(inst: Instance, baselines: Dict<Baseline>, runs: map<string, RunRef>, n: nat, now: real)
    requires n <= |baselines| && Distinct(baselines) && inst.baselines == [] && inst.runs.Keys >= runs.Keys
    requires forall i :: 0 <= i < |baselines| ==>
      BaselineRestorable(baselines[i].0, baselines[i].1, inst.targets, inst.runs) && BaselineExports(baselines[i].1, runs)
    ensures ImportBaselines(inst, ExportBaselines(baselines[..n], runs), now) == inst.(baselines := baselines[..n])
  {
    hide BaselineRestorable, BaselineRow, ImportBaseline;
    if n > 0 {
      BaselinesRestored(inst, baselines, runs, n - 1, now);
      var (name, b) := baselines[n - 1];
      assert baselines[..n][..n - 1] == baselines[..n - 1];
      var rows := ExportBaselines(baselines[..n], runs);
      assert rows == ExportBaselines(baselines[..n - 1], runs) + [BaselineRow(name, b)];
      assert rows[..|rows| - 1] == ExportBaselines(baselines[..n - 1], runs);
      NotBefore(baselines, n - 1);
      var before := inst.(baselines := baselines[..n - 1]);
      BaselineComesBack(before, name, b, now);
      assert baselines[..n] == baselines[..n - 1] + [(name, b)];
    }
  }

  /** A scenario that a document brings elsewhere: its name is a plain one, and its scenario.yaml is
    * among the files small enough to travel. */
  predicate ScenarioTravels(name: string, files: Fields) {
    PlainName(name) && "scenario.yaml" in Travelling(files)
  }

  /** What is left of a scenario that is exported and imported. */
  function BroughtBack(name: string, files: Option<Fields>): Option<Fields> {
    if files.Some? && ScenarioTravels(name, files.value) then Some(Travelling(files.value)) else None
  }

  lemma ScenarioRowCounts(name: string, files: Fields, other: string)
    requires Strip(name) == name
    ensures CountsFor(ScenarioRow(name, files), other) <==> other == name && ScenarioTravels(name, files)
    ensures ScenarioTravels(name, files) ==> ScenarioExports(files)
    ensures Carriable(ScenarioRow(name, files).entries["files"].entries) == Travelling(files)
  {
    hide Strip, PlainName;
    assert NameOf(Scenarios, ScenarioRow(name, files)) == Strip(name);
  }

  lemma AtLast<V>(d: Dict<V>, key: string)
    requires d != [] && Distinct(d)
    ensures At(d, key) == if d[|d| - 1].0 == key then Some(d[|d| - 1].1) else At(d[..|d| - 1], key)
    ensures d[|d| - 1].0 == key ==> At(d[..|d| - 1], key).None?
  {
    hide Find;
    var n := |d| - 1;
    assert d == d[..n] + [(d[n].0, d[n].1)];
    if d[n].0 == key {
      NotBefore(d, n);
      PutAt(d[..n], key, d[n].1, key);
    } else {
      AtAppend(d[..n], d[n].0, d[n].1, key);
    }
  }

  lemma {:induction false} ScenariosBroughtBack(scenarios: Dict<Fields>, name: string)
    requires Distinct(scenarios) && forall i :: 0 <= i < |scenarios| ==> Strip(scenarios[i].0) == scenarios[i].0
    ensures At(ImportScenarios([], ExportScenarios(scenarios)), name) == BroughtBack(name, At(scenarios, name))
  {
    hide Strip, At, ImportScenario, ScenarioTravels, ScenarioExports, ScenarioRow, CountsFor, Carriable, Travelling;
    if scenarios == [] {
      assert At<Fields>([], name).None? by { NothingThere(name); }
    } else {
      var n := |scenarios| - 1;
      var (own, files) := scenarios[n];
      ScenariosBroughtBack(scenarios[..n], name);
      AtLast(scenarios, name);
      ScenarioRowCounts(own, files, name);
      var rows := ExportScenarios(scenarios[..n]);
      if ScenarioExports(files) {
        assert (rows + [ScenarioRow(own, files)])[..|rows|] == rows;
        OneScenario(ImportScenarios([], rows), ScenarioRow(own, files), name);
        assert map[] + Travelling(files) == Travelling(files);
      } else {
        assert rows + [] == rows;
      }
    }
  }

  lemma NothingThere(name: string)
    ensures At<Fields>([], name).None?
  {
  }

  /** What a rebuilt instance must hold: the same key, nothing yet, and the runs the baselines name. */
  predicate Rebuilt(inst: Instance, rebuilt: Instance) {
    && rebuilt.key == inst.key && rebuilt.targets == [] && rebuilt.scenarios == [] && rebuilt.baselines == []
    && rebuilt.runs.Keys >= inst.runs.Keys
  }

  ghost predicate Restorable(inst: Instance, rebuilt: Instance) {
    && Distinct(inst.targets) && Complete(inst.targets) && Distinct(inst.baselines)
    && (forall i :: 0 <= i < |inst.targets| ==> TargetRestorable(inst.targets[i].0, inst.targets[i].1))
    && (forall i :: 0 <= i < |inst.baselines| ==>
          BaselineRestorable(inst.baselines[i].0, inst.baselines[i].1, inst.targets, rebuilt.runs) &&
          BaselineExports(inst.baselines[i].1, inst.runs))
  }

  /** Importing an export under the same master key into an empty instance that holds the runs
    * brings back the same targets, credentials included, and the same baselines. */
  lemma RestoreBringsBack(inst: Instance, rebuilt: Instance, now: real)
    requires Rebuilt(inst, rebuilt) && Restorable(inst, rebuilt)
    ensures Imported(rebuilt, Exported(inst), now).targets == inst.targets
    ensures Imported(rebuilt, Exported(inst), now).baselines == inst.baselines
  {
    hide ImportTargets, ExportTargets, ImportScenarios, ExportScenarios, ImportBaselines, ExportBaselines;
    hide TargetRestorable, BaselineRestorable, BaselineExports;
    TargetsRestored(inst.targets, |inst.targets|);
    assert ExportTargets(inst.targets)[..|inst.targets|] == ExportTargets(inst.targets);
    assert inst.targets[..|inst.targets|] == inst.targets && inst.baselines[..|inst.baselines|] == inst.baselines;
    var middle := rebuilt.(targets := inst.targets, scenarios := ImportScenarios([], ExportScenarios(inst.scenarios)));
    BaselinesRestored(middle, inst.baselines, inst.runs, |inst.baselines|, now);
  }

  /** Of the scenarios, exactly those with a plain name and a scenario.yaml that can travel come
    * back, each with the files that can. */
  lemma RestoreBringsScenarios(inst: Instance, rebuilt: Instance, now: real, name: string)
    requires Rebuilt(inst, rebuilt) && Distinct(inst.scenarios)
    requires forall i :: 0 <= i < |inst.scenarios| ==> Strip(inst.scenarios[i].0) == inst.scenarios[i].0
    ensures At(Imported(rebuilt, Exported(inst), now).scenarios, name) == BroughtBack(name, At(inst.scenarios, name))
  {
    hide ImportTargets, ExportTargets, ImportScenarios, ExportScenarios, ImportBaselines, ExportBaselines, BroughtBack, At, Strip;
    ScenariosBroughtBack(inst.scenarios, name);
  }
}
