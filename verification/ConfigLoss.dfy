/** Exactly which rows a push loses. */
module ConfigLoss {
  import opened Wrappers
  import opened Dicts
  import opened Text
  import opened ConfigIo
  import opened ConfigTwice
  import opened ConfigRestore
  import opened ConfigSource
  import opened ConfigSafety

  // ------------------------------------------------------- rows an import can land

  /** Whether a row, imported on its own into an instance that has nothing but this one's runs,
    * would give it what the row names. */
  predicate Lands(inst: Instance, section: Section, row: Json) {
    var name := NameOf(section, row);
    match section
    case Targets => Has(ImportTarget([], row, false), name)
    case Scenarios => ScenarioLands(row)
    case Baselines => Has(ImportBaseline(inst.(baselines := []), row, 0.0), name)
  }

  predicate TargetTravels(fields: Fields) {
    Named(fields, "mgmt_url") != ""
  }

  predicate BaselineTravels(b: Baseline, runs: map<string, RunRef>) {
    BaselineExports(b, runs) && Strip(b.run.value) != "" && Strip(b.run.value) in runs
  }

  /** What the tables say is written when this instance exports. */
  predicate Exports(inst: Instance, id: Id) {
    match id.section
    case Targets => Has(inst.targets, id.name)
    case Scenarios => At(inst.scenarios, id.name).Some? && ScenarioExports(At(inst.scenarios, id.name).value)
    case Baselines => At(inst.baselines, id.name).Some? && BaselineExports(At(inst.baselines, id.name).value, inst.runs)
  }

  /** What the tables say is written in a form that lands elsewhere: a target with an address, a
    * scenario with a plain name whose scenario.yaml is text and not too large, a baseline whose run
    * is here. */
  predicate Travels(inst: Instance, id: Id) {
    match id.section
    case Targets => At(inst.targets, id.name).Some? && TargetTravels(At(inst.targets, id.name).value)
    case Scenarios => At(inst.scenarios, id.name).Some? && ScenarioTravels(id.name, At(inst.scenarios, id.name).value)
    case Baselines => At(inst.baselines, id.name).Some? && BaselineTravels(At(inst.baselines, id.name).value, inst.runs)
  }

  lemma TargetRowLands(name: string, fields: Fields)
    requires Strip(name) == name && name != ""
    ensures NameOf(Targets, TargetRow(name, fields)) == name
    ensures Has(ImportTarget([], TargetRow(name, fields), false), name) <==> TargetTravels(fields)
  {
    hide Strip, Find, Put, At, Named, Assigned, NewTarget, TargetRow, NameOf;
    var row := TargetRow(name, fields);
    TargetRowReads(name, fields);
    NamedObject(Targets, row);
    OneTarget([], row, false, name);
    NothingThere(name);
    HasAt(ImportTarget([], row, false), name);
  }

  lemma ScenarioRowLands(name: string, files: Fields)
    requires Strip(name) == name
    ensures NameOf(Scenarios, ScenarioRow(name, files)) == name
    ensures ScenarioLands(ScenarioRow(name, files)) <==> ScenarioTravels(name, files)
  {
    hide Strip, ScenarioLands, CountsFor, Carriable;
    assert NameOf(Scenarios, ScenarioRow(name, files)) == Strip(name);
    LandingCounts(ScenarioRow(name, files));
    ScenarioRowCounts(name, files, name);
  }

  lemma BaselineRowLands(inst: Instance, name: string, b: Baseline)
    requires Strip(name) == name && name != "" && BaselineExports(b, inst.runs)
    ensures NameOf(Baselines, BaselineRow(name, b)) == name
    ensures Has(ImportBaseline(inst.(baselines := []), BaselineRow(name, b), 0.0), name) <==> BaselineTravels(b, inst.runs)
  {
    hide Strip, Find, At, Named, NameOf, BaselineRow, Landed, Has;
    var row, alone := BaselineRow(name, b), inst.(baselines := []);
    BaselineRowReads(name, b);
    NamedObject(Baselines, row);
    OneBaseline(alone, row, 0.0, name);
    assert At<Baseline>([], name).None? by { NoBaseline(name); }
    HasAt(ImportBaseline(alone, row, 0.0), name);
  }

  lemma NoBaseline(name: string)
    ensures At<Baseline>([], name).None?
  {
  }

  // -------------------------------------------------- this instance's own rows

  /** The row that the tables give an id, when they export one. */
  function OwnOf(inst: Instance, id: Id): Json
    requires Exports(inst, id)
  {
    match id.section
    case Targets => TargetRow(id.name, At(inst.targets, id.name).value)
    case Scenarios => ScenarioRow(id.name, At(inst.scenarios, id.name).value)
    case Baselines => BaselineRow(id.name, At(inst.baselines, id.name).value)
  }

  lemma OwnLands(inst: Instance, id: Id)
    requires Exports(inst, id) && Strip(id.name) == id.name && id.name != ""
    ensures NameOf(id.section, OwnOf(inst, id)) == id.name
    ensures Lands(inst, id.section, OwnOf(inst, id)) <==> Travels(inst, id)
  {
    hide Strip, Find, ImportTarget, ScenarioLands, ImportBaseline, NameOf, ScenarioTravels, TargetTravels, BaselineTravels;
    hide TargetRow, ScenarioRow, BaselineRow, BaselineExports, ScenarioExports;
    match id.section
    case Targets => TargetRowLands(id.name, At(inst.targets, id.name).value);
    case Scenarios => ScenarioRowLands(id.name, At(inst.scenarios, id.name).value);
    case Baselines => BaselineRowLands(inst, id.name, At(inst.baselines, id.name).value);
  }

  lemma TravelsExports(inst: Instance, id: Id)
    requires Travels(inst, id)
    ensures Exports(inst, id)
  {
    hide PlainName, Strip;
    if id.section.Targets? {
      HasAt(inst.targets, id.name);
    }
  }

  lemma {:induction false} ScenarioIsExported(scenarios: Dict<Fields>, i: nat)
    requires i < |scenarios| && ScenarioExports(scenarios[i].1)
    ensures ScenarioRow(scenarios[i].0, scenarios[i].1) in ExportScenarios(scenarios)
  {
    hide ScenarioExports, ScenarioRow;
    if i < |scenarios| - 1 {
      ScenarioIsExported(scenarios[..|scenarios| - 1], i);
    }
  }

  lemma {:induction false} BaselineIsExported(baselines: Dict<Baseline>, runs: map<string, RunRef>, i: nat)
    requires i < |baselines| && BaselineExports(baselines[i].1, runs)
    ensures BaselineRow(baselines[i].0, baselines[i].1) in ExportBaselines(baselines, runs)
  {
    hide BaselineExports, BaselineRow;
    if i < |baselines| - 1 {
      BaselineIsExported(baselines[..|baselines| - 1], runs, i);
    }
  }

  lemma AtPlace<V>(d: Dict<V>, key: string) returns (i: nat)
    requires At(d, key).Some?
    ensures i < |d| && d[i] == (key, At(d, key).value)
  {
    i := Find(d, key).value;
  }

  /** What the tables export is a row of the export. */
  lemma OwnIsExported(inst: Instance, id: Id)
    requires Exports(inst, id)
    ensures OwnOf(inst, id) in Exported(inst).Rows(id.section)
  {
    hide Find, ExportScenarios, ExportBaselines, ScenarioRow, BaselineRow, TargetRow, ScenarioExports, BaselineExports, At;
    match id.section
    case Targets =>
      HasAt(inst.targets, id.name);
      var i := AtPlace(inst.targets, id.name);
      assert ExportTargets(inst.targets)[i] == OwnOf(inst, id);
    case Scenarios =>
      var i := AtPlace(inst.scenarios, id.name);
      ScenarioIsExported(inst.scenarios, i);
    case Baselines =>
      var i := AtPlace(inst.baselines, id.name);
      BaselineIsExported(inst.baselines, inst.runs, i);
  }

  lemma RawOf(inst: Instance, id: Id)
    requires Exports(inst, id)
    ensures RawName(id.section, OwnOf(inst, id)) == id.name
  {
    hide Find, Travelling;
  }

  /** And a row of the export is what the tables export under its own name. */
  lemma ExportedIsOwn(inst: Instance, section: Section, i: nat)
    requires Tables(inst) && i < |Exported(inst).Rows(section)|
    ensures var row := Exported(inst).Rows(section)[i];
      var id := Id(section, RawName(section, row));
      Exports(inst, id) && row == OwnOf(inst, id)
  {
    hide Find, ExportScenarios, ExportBaselines, ScenarioRow, BaselineRow, TargetRow, ScenarioExports, BaselineExports, At, RawName;
    var row := Exported(inst).Rows(section)[i];
    match section
    case Targets =>
      var (name, fields) := inst.targets[i];
      TargetRowName(name, fields);
      AtIndex(inst.targets, i);
      HasAt(inst.targets, name);
    case Scenarios =>
      ExportedScenario(inst.scenarios, row);
      var k :| 0 <= k < |inst.scenarios| && ScenarioExports(inst.scenarios[k].1) && row == ScenarioRow(inst.scenarios[k].0, inst.scenarios[k].1);
      ScenarioRowName(inst.scenarios[k].0, inst.scenarios[k].1);
      AtIndex(inst.scenarios, k);
    case Baselines =>
      ExportedBaseline(inst.baselines, inst.runs, row);
      var k :| 0 <= k < |inst.baselines| && BaselineExports(inst.baselines[k].1, inst.runs) && row == BaselineRow(inst.baselines[k].0, inst.baselines[k].1);
      BaselineRowName(inst.baselines[k].0, inst.baselines[k].1);
      AtIndex(inst.baselines, k);
  }

  lemma TargetRowName(name: string, fields: Fields)
    ensures RawName(Targets, TargetRow(name, fields)) == name
  {
  }

  /** The names of an export, read off the tables. */
  lemma OwnNamesExactly(inst: Instance, id: Id)
    requires Tables(inst)
    ensures id in OwnNames(inst) <==> Exports(inst, id)
  {
    hide Find, Exported, RawName, Exports, OwnOf, Tables, OwnNames;
    var rows := Exported(inst).Rows(id.section);
    if id in OwnNames(inst) {
      OwnRow(inst, id);
      var i :| 0 <= i < |rows| && RawName(id.section, rows[i]) == id.name;
      ExportedIsOwn(inst, id.section, i);
    } else if Exports(inst, id) {
      OwnIsExported(inst, id);
      RawOf(inst, id);
      var i :| 0 <= i < |rows| && rows[i] == OwnOf(inst, id);
      IsOwn(inst, id.section, i);
    }
  }

  // ---------------------------------------------------------------- what is lost

  /** A document has a row for an id that is worth having: one that lands, if this instance has
    * what the row names, and otherwise the very row that the last pull could not apply. */
  ghost predicate Keeps(t: State, doc: Document, id: Id) {
    exists i :: 0 <= i < |doc.Rows(id.section)| && IsKept(t, id, doc.Rows(id.section)[i])
  }

  predicate IsKept(t: State, id: Id, row: Json) {
    && NameOf(id.section, row) == id.name
    && if Present(t.inst, id) then Lands(t.inst, id.section, row) else id in t.carried && row == t.carried[id]
  }

  /** What is here and cannot be written in a form that lands: a target whose address is blank, a
    * scenario whose scenario.yaml cannot travel, a baseline whose run is not here. (A baseline that
    * is not written at all leaves the carried row, if there is one, to be written instead.) */
  predicate Lost(t: State, id: Id) {
    match id.section
    case Targets => At(t.inst.targets, id.name).Some? && !TargetTravels(At(t.inst.targets, id.name).value)
    case Scenarios => HasScenario(t.inst.scenarios, id.name) && !ScenarioTravels(id.name, At(t.inst.scenarios, id.name).value)
    case Baselines =>
      && At(t.inst.baselines, id.name).Some?
      && var b := At(t.inst.baselines, id.name).value;
         && !BaselineTravels(b, t.inst.runs)
         && (BaselineExports(b, t.inst.runs) || id !in t.carried || !Lands(t.inst, Baselines, t.carried[id]))
  }

  lemma LostIs(t: State, id: Id)
    ensures Lost(t, id) <==>
      && Present(t.inst, id) && !Travels(t.inst, id)
      && (id.section.Baselines? ==> Exports(t.inst, id) || id !in t.carried || !Lands(t.inst, Baselines, t.carried[id]))
  {
    hide Find, ScenarioTravels, TargetTravels, BaselineTravels, BaselineExports, Lands;
    HasAt(t.inst.targets, id.name);
    HasAt(t.inst.baselines, id.name);
  }

  lemma KeepsRow(t: State, doc: Document, id: Id, row: Json)
    requires row in doc.Rows(id.section) && IsKept(t, id, row)
    ensures Keeps(t, doc, id)
  {
    hide IsKept;
  }

  /** Whatever is not lost is kept. */
  lemma KeptUnlessLost(t: State, doc: Document, id: Id)
    requires Safe(t) && id in t.seen && Publishes(doc, t.inst, t.carried) && !Lost(t, id)
    ensures Keeps(t, doc, id)
  {
    hide Present, Lands, Exports, Travels, OwnOf, Strip, NameOf, Exported, OwnNames, Publishes, RowsAre, Lost, Keeps, ScenariosStuck, Tables;
    var rest := PublishedRows(doc, t.inst, t.carried, id.section);
    LostIs(t, id);
    OwnNamesExactly(t.inst, id);
    if Travels(t.inst, id) && Present(t.inst, id) {
      TravelsExports(t.inst, id);
      OwnLands(t.inst, id);
      OwnIsExported(t.inst, id);
      KeepsRow(t, doc, id, OwnOf(t.inst, id));
    } else {
      if id in OwnNames(t.inst) {
        OwnIsPresent(t.inst, id);
      }
      CarriedIsAmong(rest, Kept(t.carried, t.inst), id);
      assert t.carried[id] in doc.Rows(id.section);
      KeepsRow(t, doc, id, t.carried[id]);
    }
  }

  /** The names this instance exports are as an import would read them. */
  ghost predicate ReadBack(inst: Instance) {
    forall own :: own in OwnNames(inst) ==> Strip(own.name) == own.name
  }

  /** What is lost is not kept: no row of its name would land. */
  lemma LostIsNotKept(t: State, doc: Document, id: Id)
    requires Safe(t) && id in t.seen && Publishes(doc, t.inst, t.carried) && Lost(t, id) && ReadBack(t.inst)
    ensures !Keeps(t, doc, id)
  {
    hide Present, Lands, Exports, Travels, OwnOf, Strip, NameOf, Exported, OwnNames, Publishes, RowsAre, Lost, Tables, RawName;
    var rest := PublishedRows(doc, t.inst, t.carried, id.section);
    var own := Exported(t.inst).Rows(id.section);
    LostIs(t, id);
    OwnNamesExactly(t.inst, id);
    forall i | 0 <= i < |doc.Rows(id.section)|
      ensures !IsKept(t, id, doc.Rows(id.section)[i])
    {
      if NameOf(id.section, doc.Rows(id.section)[i]) == id.name {
        if i < |own| {
          IsOwn(t.inst, id.section, i);
          RawAndUsable(id.section, own[i]);
          ExportedIsOwn(t.inst, id.section, i);
          OwnLands(t.inst, id);
        } else {
          var other := AmongIsCarried(rest, Kept(t.carried, t.inst), id.section, i - |own|);
          CarriedDoesNotLand(t, id);
        }
      }
    }
  }

  lemma CarriedDoesNotLand(t: State, id: Id)
    requires Safe(t) && Lost(t, id) && id in t.carried && !Exports(t.inst, id)
    ensures !Lands(t.inst, id.section, t.carried[id])
  {
    hide Strip, NameOf, ScenarioLands, ImportBaseline, BaselineTravels, Labelled, Find, Tables;
    HasAt(t.inst.targets, id.name);
  }

  /** Over every sequence of pulls, edits and pushes by one writer: of what was seen at the last
    * pull and not deleted here since, a push keeps whatever is not lost; and where this instance's
    * names read back, it keeps exactly that. */
  lemma PushesLoseExactly(t: State, doc: Document, id: Id)
    requires Reached(t) && id in t.seen && Publishes(doc, t.inst, t.carried)
    ensures !Lost(t, id) ==> Keeps(t, doc, id)
    ensures ReadBack(t.inst) ==> (Keeps(t, doc, id) <==> !Lost(t, id))
  {
    hide Reached, Publishes, Lost, Keeps, Safe, ReadBack;
    ReachedIsSafe(t);
    if Lost(t, id) {
      if ReadBack(t.inst) {
        LostIsNotKept(t, doc, id);
      }
    } else {
      KeptUnlessLost(t, doc, id);
    }
  }

  // ------------------------------------------------------------- for instance

  /** A scenario.yaml one character too large to be exported. */
  function Oversized(): string {
    seq(MAX_SCENARIO_FILE + 1, i => 'x')
  }

  function BigFiles(): Fields {
    map["scenario.yaml" := Words(Oversized())]
  }

  function BigDocument(): Document {
    Document(None, [], [Object(map["name" := Words("a"), "files" := Object(BigFiles())])], [])
  }

  /** An instance with nothing, beside a shared copy with that scenario. */
  function Before(): State {
    State(Instance(None, [], [], [], map[]), Some(BigDocument()), map[], {})
  }

  lemma BigScenarioLands()
    ensures NameOf(Scenarios, BigDocument().scenarios[0]) == "a"
    ensures ImportScenarios([], BigDocument().scenarios) == [("a", BigFiles())]
  {
    StripOfTrimmed("a");
    var rows := BigDocument().scenarios;
    assert rows[..0] == [];
    assert Carriable(BigFiles()) == BigFiles();
    assert map[] + BigFiles() == BigFiles();
    assert ImportScenario([], rows[0]) == [("a", BigFiles())];
  }

  lemma AfterThePull()
    ensures var t := After(Before(), Pulled(map[], 0.0));
      && t.inst == Instance(None, [], [("a", BigFiles())], [], map[])
      && Id(Scenarios, "a") in t.seen
  {
    hide ImportScenarios, NameOf;
    BigScenarioLands();
    var runs: map<string, RunRef> := map[];
    assert runs + runs == runs;
    assert SectionNames(Scenarios, BigDocument().scenarios) >= {Id(Scenarios, "a")} by {
      assert NameOf(Scenarios, BigDocument().scenarios[0]) == "a";
    }
  }

  lemma TooLargeToTravel()
    ensures Travelling(BigFiles()) == map[]
    ensures Exported(Instance(None, [], [("a", BigFiles())], [], map[])) == Document(None, [], [], [])
  {
    assert |Oversized()| > MAX_SCENARIO_FILE;
    var scenarios := [("a", BigFiles())];
    assert scenarios[..0] == [];
    assert ExportScenarios(scenarios) == [];
  }

  /** An import takes a scenario of any size, an export does not: one pull later every push from
    * here loses it. */
  lemma OversizedScenarioIsLost()
    ensures var t := After(Before(), Pulled(map[], 0.0));
      && Reached(t) && Id(Scenarios, "a") in t.seen
      && Lost(t, Id(Scenarios, "a"))
      && forall doc :: Publishes(doc, t.inst, t.carried) ==> !Keeps(t, doc, Id(Scenarios, "a"))
  {
    hide Publishes, Keeps, Applied, NotApplied, Exported, Travelling;
    var t := After(Before(), Pulled(map[], 0.0));
    OnePullReaches(Before(), Pulled(map[], 0.0));
    AfterThePull();
    TooLargeToTravel();
    var id := Id(Scenarios, "a");
    assert At(t.inst.scenarios, "a") == Some(BigFiles());
    assert Lost(t, id);
    assert ReadBack(t.inst);
    forall doc | Publishes(doc, t.inst, t.carried)
      ensures !Keeps(t, doc, id)
    {
      PushesLoseExactly(t, doc, id);
    }
  }

  lemma OnePullReaches(s: State, e: Event)
    requires Tables(s.inst) && s.carried == map[] && s.seen == {} && Happens(s, e)
    ensures Reached(After(s, e))
  {
    hide After, Happens, Tables;
    assert [e][..0] == [];
    assert AfterAll(s, [e]) == After(s, e);
    assert AllHappen(s, [e]);
  }
}
