/** A push never loses a row the pull could not apply, and a pull never removes a local one. */
module ConfigSafety {
  import opened Wrappers
  import opened Dicts
  import opened Text
  import opened ConfigIo
  import opened ConfigTwice
  import opened ConfigSource

  // ------------------------------------------------- a pull never removes a row

  lemma PutKeeps<V>(d: Dict<V>, key: string, value: V, name: string)
    requires Has(d, name)
    ensures Has(Put(d, key, value), name)
  {
    PutAt(d, key, value, name);
  }

  lemma {:induction false} TargetsKept(targets: Dict<Fields>, rows: seq<Json>, foreign: bool, name: string)
    requires Has(targets, name)
    ensures Has(ImportTargets(targets, rows, foreign), name)
  {
    if rows != [] {
      TargetsKept(targets, rows[..|rows| - 1], foreign, name);
      TargetKept(ImportTargets(targets, rows[..|rows| - 1], foreign), rows[|rows| - 1], foreign, name);
    }
  }

  lemma TargetKept(targets: Dict<Fields>, row: Json, foreign: bool, name: string)
    requires Has(targets, name)
    ensures Has(ImportTarget(targets, row, foreign), name)
  {
    hide Find, Put, NameOf, Named, Assigned, NewTarget, Has;
    forall value: Fields
      ensures Has(Put(targets, NameOf(Targets, row), value), name)
    {
      PutKeeps(targets, NameOf(Targets, row), value, name);
    }
  }

  predicate HasScenario(scenarios: Dict<Fields>, name: string) {
    "scenario.yaml" in At(scenarios, name).GetOr(map[])
  }

  lemma ScenarioKept(scenarios: Dict<Fields>, row: Json, name: string)
    requires HasScenario(scenarios, name)
    ensures HasScenario(ImportScenario(scenarios, row), name)
  {
    hide Find, Put, NameOf, Carriable, PlainName;
    var own := NameOf(Scenarios, row);
    if ImportScenario(scenarios, row) != scenarios {
      PutAt(scenarios, own, At(scenarios, own).GetOr(map[]) + Carriable(row.entries["files"].entries), name);
    }
  }

  lemma {:induction false} ScenariosKept(scenarios: Dict<Fields>, rows: seq<Json>, name: string)
    requires HasScenario(scenarios, name)
    ensures HasScenario(ImportScenarios(scenarios, rows), name)
  {
    hide ImportScenario, HasScenario;
    if rows != [] {
      ScenariosKept(scenarios, rows[..|rows| - 1], name);
      ScenarioKept(ImportScenarios(scenarios, rows[..|rows| - 1]), rows[|rows| - 1], name);
    }
  }

  lemma BaselineKept(inst: Instance, row: Json, now: real, name: string)
    requires Has(inst.baselines, name)
    ensures Has(ImportBaseline(inst, row, now), name)
  {
    hide Find, Put, NameOf, Named, BaselineFrom, Has;
    forall value: Baseline
      ensures Has(Put(inst.baselines, NameOf(Baselines, row), value), name)
    {
      PutKeeps(inst.baselines, NameOf(Baselines, row), value, name);
    }
  }

  lemma {:induction false} BaselinesKept(inst: Instance, rows: seq<Json>, now: real, name: string)
    requires Has(inst.baselines, name)
    ensures Has(ImportBaselines(inst, rows, now).baselines, name)
  {
    hide ImportBaseline, Has;
    if rows != [] {
      BaselinesKept(inst, rows[..|rows| - 1], now, name);
      BaselineKept(ImportBaselines(inst, rows[..|rows| - 1], now), rows[|rows| - 1], now, name);
    }
  }

  /** Whatever the shared copy says, a row that is here stays here. */
  lemma PullNeverRemoves(inst: Instance, doc: Document, archived: map<string, RunRef>, now: real, id: Id)
    requires Present(inst, id)
    ensures Present(Applied(inst, doc, archived, now), id)
  {
    hide ImportTargets, ImportScenarios, ImportBaselines, Has;
    match id.section
    case Targets => TargetsKept(inst.targets, doc.targets, ForeignKey(inst, doc), id.name);
    case Scenarios => ScenariosKept(inst.scenarios, doc.scenarios, id.name);
    case Baselines =>
      var middle := inst.(targets := ImportTargets(inst.targets, doc.targets, ForeignKey(inst, doc)),
                          scenarios := ImportScenarios(inst.scenarios, doc.scenarios));
      BaselinesKept(middle, doc.baselines, now, id.name);
      BaselinesKept(WithRuns(Imported(inst, doc, now), archived), doc.baselines, now, id.name);
  }

  // ----------------------------------------------------------- what is exported

  lemma {:induction false} ExportedScenario(scenarios: Dict<Fields>, row: Json)
    requires row in ExportScenarios(scenarios)
    ensures exists i :: 0 <= i < |scenarios| && ScenarioExports(scenarios[i].1) && row == ScenarioRow(scenarios[i].0, scenarios[i].1)
  {
    hide ScenarioExports, ScenarioRow;
    var n := |scenarios| - 1;
    if row in ExportScenarios(scenarios[..n]) {
      ExportedScenario(scenarios[..n], row);
      var i :| 0 <= i < n && ScenarioExports(scenarios[..n][i].1) && row == ScenarioRow(scenarios[..n][i].0, scenarios[..n][i].1);
      assert scenarios[..n][i] == scenarios[i];
    }
  }

  lemma {:induction false} ExportedBaseline(baselines: Dict<Baseline>, runs: map<string, RunRef>, row: Json)
    requires row in ExportBaselines(baselines, runs)
    ensures exists i :: 0 <= i < |baselines| && BaselineExports(baselines[i].1, runs) && row == BaselineRow(baselines[i].0, baselines[i].1)
  {
    hide BaselineExports, BaselineRow;
    var n := |baselines| - 1;
    if row in ExportBaselines(baselines[..n], runs) {
      ExportedBaseline(baselines[..n], runs, row);
      var i :| 0 <= i < n && BaselineExports(baselines[..n][i].1, runs) && row == BaselineRow(baselines[..n][i].0, baselines[..n][i].1);
      assert baselines[..n][i] == baselines[i];
    }
  }

  lemma ScenarioRowName(name: string, files: Fields)
    ensures RawName(Scenarios, ScenarioRow(name, files)) == name
  {
  }

  lemma BaselineRowName(name: string, b: Baseline)
    ensures RawName(Baselines, BaselineRow(name, b)) == name
  {
  }

  /** The tables name each row once. */
  ghost predicate Tables(inst: Instance) {
    Distinct(inst.targets) && Distinct(inst.scenarios) && Distinct(inst.baselines)
  }

  lemma {:induction false} AtIndex<V>(d: Dict<V>, i: nat)
    requires i < |d| && Distinct(d)
    ensures At(d, d[i].0) == Some(d[i].1)
  {
    if i > 0 {
      assert d[1..][i - 1] == d[i];
      assert d[0].0 != d[i].0;
      AtIndex(d[1..], i - 1);
    }
  }

  /** What an instance exports, it has. */
  lemma OwnIsPresent(inst: Instance, id: Id)
    requires Tables(inst) && id in OwnNames(inst)
    ensures Present(inst, id)
  {
    hide ScenarioRow, BaselineRow, Travelling, RawName, ExportScenarios, ExportBaselines;
    OwnRow(inst, id);
    var rows := Exported(inst).Rows(id.section);
    var i :| 0 <= i < |rows| && RawName(id.section, rows[i]) == id.name;
    match id.section
    case Targets => TargetIsPresent(inst, i);
    case Scenarios => ScenarioIsPresent(inst, rows[i]);
    case Baselines => BaselineIsPresent(inst, rows[i]);
  }

  lemma TargetIsPresent(inst: Instance, i: nat)
    requires i < |inst.targets|
    ensures Has(inst.targets, RawName(Targets, ExportTargets(inst.targets)[i]))
  {
    assert RawName(Targets, ExportTargets(inst.targets)[i]) == inst.targets[i].0;
  }

  lemma ScenarioIsPresent(inst: Instance, row: Json)
    requires Distinct(inst.scenarios) && row in ExportScenarios(inst.scenarios)
    ensures HasScenario(inst.scenarios, RawName(Scenarios, row))
  {
    hide ScenarioRow, Travelling, RawName;
    ExportedScenario(inst.scenarios, row);
    var i :| 0 <= i < |inst.scenarios| && ScenarioExports(inst.scenarios[i].1) && row == ScenarioRow(inst.scenarios[i].0, inst.scenarios[i].1);
    ScenarioRowName(inst.scenarios[i].0, inst.scenarios[i].1);
    AtIndex(inst.scenarios, i);
  }

  lemma BaselineIsPresent(inst: Instance, row: Json)
    requires row in ExportBaselines(inst.baselines, inst.runs)
    ensures Has(inst.baselines, RawName(Baselines, row))
  {
    hide BaselineRow, RawName;
    ExportedBaseline(inst.baselines, inst.runs, row);
    var i :| 0 <= i < |inst.baselines| && BaselineExports(inst.baselines[i].1, inst.runs) && row == BaselineRow(inst.baselines[i].0, inst.baselines[i].1);
    BaselineRowName(inst.baselines[i].0, inst.baselines[i].1);
  }

  // --------------------------------------------------------------- what is carried

  lemma {:induction false} CarriedFromKeeps(carried: Carried, section: Section, rows: seq<Json>, inst: Instance)
    ensures forall id :: id in carried ==> id in CarriedFrom(carried, section, rows, inst)
    ensures forall i :: 0 <= i < |rows| && NameOf(section, rows[i]) != "" && !Present(inst, Id(section, NameOf(section, rows[i]))) ==>
      Id(section, NameOf(section, rows[i])) in CarriedFrom(carried, section, rows, inst)
  {
    hide Present, NameOf;
    if rows != [] {
      var n := |rows| - 1;
      CarriedFromKeeps(carried, section, rows[..n], inst);
      forall i | 0 <= i < n
        ensures rows[..n][i] == rows[i]
      {
      }
    }
  }

  /** A carried row answers to the name it is carried under. */
  ghost predicate Labelled(carried: Carried) {
    forall id :: id in carried ==> id.name != "" && NameOf(id.section, carried[id]) == id.name
  }

  lemma {:induction false} CarriedFromLabelled(carried: Carried, section: Section, rows: seq<Json>, inst: Instance)
    requires Labelled(carried)
    ensures Labelled(CarriedFrom(carried, section, rows, inst))
  {
    hide Present, NameOf;
    if rows != [] {
      CarriedFromLabelled(carried, section, rows[..|rows| - 1], inst);
    }
  }

  lemma NotAppliedLabelled(doc: Document, inst: Instance)
    ensures Labelled(NotApplied(doc, inst))
  {
    hide CarriedFrom, NameOf;
    CarriedFromLabelled(map[], Targets, doc.targets, inst);
    var a := CarriedFrom(map[], Targets, doc.targets, inst);
    CarriedFromLabelled(a, Scenarios, doc.scenarios, inst);
    CarriedFromLabelled(CarriedFrom(a, Scenarios, doc.scenarios, inst), Baselines, doc.baselines, inst);
  }

  /** Every usable name of a pulled document is here or carried. */
  lemma PulledIsHereOrCarried(doc: Document, inst: Instance, id: Id)
    requires id in Names(doc)
    ensures Present(inst, id) || id in NotApplied(doc, inst)
  {
    hide CarriedFrom, NameOf, Present;
    CarriedFromKeeps(map[], Targets, doc.targets, inst);
    var a := CarriedFrom(map[], Targets, doc.targets, inst);
    CarriedFromKeeps(a, Scenarios, doc.scenarios, inst);
    CarriedFromKeeps(CarriedFrom(a, Scenarios, doc.scenarios, inst), Baselines, doc.baselines, inst);
  }

  /** Whether a scenario's row would give even an empty instance the scenario it names. */
  predicate ScenarioLands(row: Json) {
    HasScenario(ImportScenario([], row), NameOf(Scenarios, row))
  }

  ghost predicate ScenariosStuck(carried: Carried) {
    forall id :: id in carried && id.section.Scenarios? ==> !ScenarioLands(carried[id])
  }

  lemma LandingCounts(row: Json)
    ensures ScenarioLands(row) <==>
            CountsFor(row, NameOf(Scenarios, row)) && "scenario.yaml" in Carriable(row.entries["files"].entries)
  {
    hide At, CountsFor, Carriable, NameOf;
    OneScenario([], row, NameOf(Scenarios, row));
    assert At<Fields>([], NameOf(Scenarios, row)).None? by { NothingAt(NameOf(Scenarios, row)); }
  }

  lemma NothingAt(name: string)
    ensures At<Fields>([], name).None?
  {
  }

  lemma {:induction false} OverlayHas(rows: seq<Json>, name: string, i: nat)
    requires i < |rows| && CountsFor(rows[i], name) && "scenario.yaml" in Carriable(rows[i].entries["files"].entries)
    ensures "scenario.yaml" in Overlay(rows, name)
  {
    hide CountsFor, Carriable;
    if i < |rows| - 1 {
      OverlayHas(rows[..|rows| - 1], name, i);
    }
  }

  /** A row that can land has landed. */
  lemma LandedIsHere(scenarios: Dict<Fields>, rows: seq<Json>, i: nat)
    requires i < |rows| && ScenarioLands(rows[i])
    ensures HasScenario(ImportScenarios(scenarios, rows), NameOf(Scenarios, rows[i]))
  {
    hide At, CountsFor, Carriable, NameOf, ScenarioLands, ImportScenarios;
    var name := NameOf(Scenarios, rows[i]);
    LandingCounts(rows[i]);
    ScenariosAt(scenarios, rows, name);
    OverlayHas(rows, name, i);
  }

  lemma {:induction false} CarriedFromStuck(carried: Carried, section: Section, rows: seq<Json>, inst: Instance)
    requires ScenariosStuck(carried)
    requires section.Scenarios? ==> forall i :: 0 <= i < |rows| && ScenarioLands(rows[i]) ==> HasScenario(inst.scenarios, NameOf(Scenarios, rows[i]))
    ensures ScenariosStuck(CarriedFrom(carried, section, rows, inst))
  {
    hide NameOf, ScenarioLands, At;
    if rows != [] {
      CarriedFromStuck(carried, section, rows[..|rows| - 1], inst);
    }
  }

  /** What a pull carries of scenarios is what no import could use. */
  lemma NotAppliedStuck(doc: Document, inst: Instance, scenarios: Dict<Fields>)
    requires inst.scenarios == ImportScenarios(scenarios, doc.scenarios)
    ensures ScenariosStuck(NotApplied(doc, inst))
  {
    hide NameOf, ScenarioLands, CarriedFrom, HasScenario, ImportScenarios;
    CarriedFromStuck(map[], Targets, doc.targets, inst);
    forall i | 0 <= i < |doc.scenarios| && ScenarioLands(doc.scenarios[i])
      ensures HasScenario(inst.scenarios, NameOf(Scenarios, doc.scenarios[i]))
    {
      LandedIsHere(scenarios, doc.scenarios, i);
    }
    var a := CarriedFrom(map[], Targets, doc.targets, inst);
    CarriedFromStuck(a, Scenarios, doc.scenarios, inst);
    CarriedFromStuck(CarriedFrom(a, Scenarios, doc.scenarios, inst), Baselines, doc.baselines, inst);
  }

  lemma AppliedScenarios(inst: Instance, doc: Document, archived: map<string, RunRef>, now: real)
    ensures Applied(inst, doc, archived, now).scenarios == ImportScenarios(inst.scenarios, doc.scenarios)
  {
    hide ImportTargets, ImportScenarios, ImportBaselines;
  }

  // ---------------------------------------------------------------- what is pushed

  lemma RawNamesHas(section: Section, rows: seq<Json>, id: Id)
    ensures id in RawNames(section, rows) ==>
      id.section == section && exists i :: 0 <= i < |rows| && RawName(section, rows[i]) == id.name
  {
    hide RawName;
  }

  lemma OwnRow(inst: Instance, id: Id)
    requires id in OwnNames(inst)
    ensures exists i :: 0 <= i < |Exported(inst).Rows(id.section)| && RawName(id.section, Exported(inst).Rows(id.section)[i]) == id.name
  {
    hide RawName, Exported, RawNames;
    var doc := Exported(inst);
    RawNamesHas(Targets, doc.targets, id);
    RawNamesHas(Scenarios, doc.scenarios, id);
    RawNamesHas(Baselines, doc.baselines, id);
    assert id in RawNames(id.section, doc.Rows(id.section));
    RawNamesHas(id.section, doc.Rows(id.section), id);
  }

  lemma RawAndUsable(section: Section, row: Json)
    ensures NameOf(section, row) == Strip(RawName(section, row))
  {
    if !row.Object? {
      assert Trimmed("");
      StripOfTrimmed("");
    }
  }

  lemma CarriedIsAmong(rows: seq<Json>, carried: Carried, id: Id)
    requires RowsAre(rows, carried, id.section) && id in carried
    ensures exists i :: 0 <= i < |rows| && rows[i] == carried[id]
  {
    var ids :| Lists(ids, rows, carried, id.section);
    var i :| 0 <= i < |ids| && ids[i] == id;
    assert rows[i] == carried[id];
  }

  lemma AmongIsCarried(rows: seq<Json>, carried: Carried, section: Section, i: nat) returns (id: Id)
    requires RowsAre(rows, carried, section) && i < |rows|
    ensures id in carried && id.section == section && rows[i] == carried[id]
  {
    var ids :| Lists(ids, rows, carried, section);
    id := ids[i];
  }

  lemma PublishedRows(doc: Document, inst: Instance, carried: Carried, section: Section) returns (rest: seq<Json>)
    requires Publishes(doc, inst, carried)
    ensures RowsAre(rest, Kept(carried, inst), section)
    ensures doc.Rows(section) == Exported(inst).Rows(section) + rest
  {
    hide RowsAre, Kept, Exported;
    var targets: seq<Json>, scenarios: seq<Json>, baselines: seq<Json> :|
      && RowsAre(targets, Kept(carried, inst), Targets)
      && RowsAre(scenarios, Kept(carried, inst), Scenarios)
      && RowsAre(baselines, Kept(carried, inst), Baselines)
      && doc == Extended(Exported(inst), targets, scenarios, baselines);
    match section
    case Targets => rest := targets;
    case Scenarios => rest := scenarios;
    case Baselines => rest := baselines;
  }

  /** Once this instance exports a row itself, its own version is the only one pushed. */
  lemma LocalVersionWins(doc: Document, inst: Instance, carried: Carried, id: Id, i: nat)
    requires Publishes(doc, inst, carried) && Labelled(carried)
    requires id in OwnNames(inst) && i < |doc.Rows(id.section)|
    requires NameOf(id.section, doc.Rows(id.section)[i]) == id.name
    ensures doc.Rows(id.section)[i] in Exported(inst).Rows(id.section)
  {
    hide NameOf, RawName, Exported, OwnNames, Publishes, RowsAre;
    var rest := PublishedRows(doc, inst, carried, id.section);
    var own := Exported(inst).Rows(id.section);
    if i >= |own| {
      var other := AmongIsCarried(rest, Kept(carried, inst), id.section, i - |own|);
    }
  }

  lemma IsOwn(inst: Instance, section: Section, i: nat)
    requires i < |Exported(inst).Rows(section)|
    ensures Id(section, RawName(section, Exported(inst).Rows(section)[i])) in OwnNames(inst)
  {
    hide RawName, Exported;
  }

  // -------------------------------------------------------------------- all runs

  /** An instance and the shared copy it alone writes. `seen` are the usable names of the last
    * document pulled, less those deleted here since. */
  datatype State = State(inst: Instance, shared: Option<Document>, carried: Carried, seen: set<Id>)

  datatype Event =
    | Pulled(archived: map<string, RunRef>, now: real)
    | Edited(inst: Instance)
    | Pushed(doc: Document, written: bool)

  /** A push writes what a push writes, and an edit leaves tables that name each row once;
    * anything may happen at any time. */
  ghost predicate Happens(s: State, e: Event) {
    && (e.Pushed? ==> Publishes(e.doc, s.inst, s.carried))
    && (e.Edited? ==> Tables(e.inst))
  }

  function After(s: State, e: Event): State {
    match e
    case Pulled(archived, now) =>
      if s.shared.None? then State(WithRuns(s.inst, archived), None, map[], {})
      else
        var inst := Applied(s.inst, s.shared.value, archived, now);
        State(inst, s.shared, NotApplied(s.shared.value, inst), Names(s.shared.value))
    case Edited(inst) =>
      s.(inst := inst, seen := set id | id in s.seen && !(Present(s.inst, id) && !Present(inst, id)))
    case Pushed(doc, written) =>
      s.(shared := if written then Some(doc) else s.shared, carried := Kept(s.carried, s.inst))
  }

  function AfterAll(s: State, events: seq<Event>): State {
    if events == [] then s else After(AfterAll(s, events[..|events| - 1]), events[|events| - 1])
  }

  ghost predicate AllHappen(s: State, events: seq<Event>) {
    forall i :: 0 <= i < |events| ==> Happens(AfterAll(s, events[..i]), events[i])
  }

  /** Whatever was seen is here or carried, under a name that reads back; and no carried scenario
    * could land. */
  ghost predicate Safe(s: State) {
    && Tables(s.inst) && Labelled(s.carried) && ScenariosStuck(s.carried)
    && (forall id :: id in s.seen ==> id.name != "" && Strip(id.name) == id.name && (Present(s.inst, id) || id in s.carried))
  }

  lemma NamesAreUsable(doc: Document, id: Id)
    requires id in Names(doc)
    ensures id.name != "" && Strip(id.name) == id.name
  {
    SectionNamesUsable(Targets, doc.targets, id);
    SectionNamesUsable(Scenarios, doc.scenarios, id);
    SectionNamesUsable(Baselines, doc.baselines, id);
  }

  lemma SectionNamesUsable(section: Section, rows: seq<Json>, id: Id)
    ensures id in SectionNames(section, rows) ==> id.name != "" && Strip(id.name) == id.name
  {
    hide NameOf;
    if id in SectionNames(section, rows) {
      var i :| 0 <= i < |rows| && NameOf(section, rows[i]) != "" && id == Id(section, NameOf(section, rows[i]));
      RawAndUsable(section, rows[i]);
      StripTrims(RawName(section, rows[i]));
      StripOfTrimmed(Strip(RawName(section, rows[i])));
    }
  }

  lemma EventSafe(s: State, e: Event)
    requires Safe(s) && Happens(s, e)
    ensures Safe(After(s, e))
  {
    hide Applied, NotApplied, Present, Names, OwnNames, Publishes, Strip, NameOf, Distinct, ScenarioLands;
    match e
    case Pulled(archived, now) =>
      if s.shared.Some? {
        var doc, inst := s.shared.value, Applied(s.inst, s.shared.value, archived, now);
        NotAppliedLabelled(doc, inst);
        AppliedScenarios(s.inst, doc, archived, now);
        NotAppliedStuck(doc, inst, s.inst.scenarios);
        AppliedTables(s.inst, doc, archived, now);
        forall id | id in Names(doc)
          ensures id.name != "" && Strip(id.name) == id.name && (Present(inst, id) || id in NotApplied(doc, inst))
        {
          NamesAreUsable(doc, id);
          PulledIsHereOrCarried(doc, inst, id);
        }
      }
    case Edited(_) =>
    case Pushed(_, _) =>
      forall id | id in s.seen && id in s.carried && id !in Kept(s.carried, s.inst)
        ensures Present(s.inst, id)
      {
        OwnIsPresent(s.inst, id);
      }
  }

  lemma {:induction false} ImportTargetsDistinct(targets: Dict<Fields>, rows: seq<Json>, foreign: bool)
    requires Distinct(targets)
    ensures Distinct(ImportTargets(targets, rows, foreign))
  {
    hide Put, Distinct, Assigned, NewTarget, NameOf, Named, At;
    if rows != [] {
      var before, row := ImportTargets(targets, rows[..|rows| - 1], foreign), rows[|rows| - 1];
      ImportTargetsDistinct(targets, rows[..|rows| - 1], foreign);
      forall value: Fields
        ensures Distinct(Put(before, NameOf(Targets, row), value))
      {
        PutDistinct(before, NameOf(Targets, row), value);
      }
    }
  }

  lemma {:induction false} ImportScenariosDistinct(scenarios: Dict<Fields>, rows: seq<Json>)
    requires Distinct(scenarios)
    ensures Distinct(ImportScenarios(scenarios, rows))
  {
    hide Put, Distinct, Carriable, NameOf, At, PlainName, Field;
    if rows != [] {
      var before, row := ImportScenarios(scenarios, rows[..|rows| - 1]), rows[|rows| - 1];
      ImportScenariosDistinct(scenarios, rows[..|rows| - 1]);
      forall value: Fields
        ensures Distinct(Put(before, NameOf(Scenarios, row), value))
      {
        PutDistinct(before, NameOf(Scenarios, row), value);
      }
    }
  }

  lemma {:induction false} ImportBaselinesDistinct(inst: Instance, rows: seq<Json>, now: real)
    requires Distinct(inst.baselines)
    ensures Distinct(ImportBaselines(inst, rows, now).baselines)
  {
    hide Put, Distinct, NameOf, Named, At, BaselineFrom;
    if rows != [] {
      var before, row := ImportBaselines(inst, rows[..|rows| - 1], now), rows[|rows| - 1];
      ImportBaselinesDistinct(inst, rows[..|rows| - 1], now);
      forall value: Baseline
        ensures Distinct(Put(before.baselines, NameOf(Baselines, row), value))
      {
        PutDistinct(before.baselines, NameOf(Baselines, row), value);
      }
    }
  }

  lemma AppliedTables(inst: Instance, doc: Document, archived: map<string, RunRef>, now: real)
    requires Tables(inst)
    ensures Tables(Applied(inst, doc, archived, now))
  {
    hide ImportTargets, ImportScenarios, ImportBaselines, Distinct;
    ImportTargetsDistinct(inst.targets, doc.targets, ForeignKey(inst, doc));
    ImportScenariosDistinct(inst.scenarios, doc.scenarios);
    var middle := inst.(targets := ImportTargets(inst.targets, doc.targets, ForeignKey(inst, doc)),
                        scenarios := ImportScenarios(inst.scenarios, doc.scenarios));
    ImportBaselinesDistinct(middle, doc.baselines, now);
    ImportBaselinesDistinct(WithRuns(Imported(inst, doc, now), archived), doc.baselines, now);
  }

  lemma {:induction false} EventsSafe(s: State, events: seq<Event>)
    requires Safe(s) && AllHappen(s, events)
    ensures Safe(AfterAll(s, events))
  {
    hide Safe, After, Happens;
    if events != [] {
      var n := |events| - 1;
      var before := events[..n];
      forall i | 0 <= i <= n
        ensures before[..i] == events[..i]
      {
      }
      forall i | 0 <= i < n
        ensures Happens(AfterAll(s, before[..i]), before[i])
      {
        assert Happens(AfterAll(s, events[..i]), events[i]);
      }
      EventsSafe(s, before);
      assert Happens(AfterAll(s, events[..n]), events[n]);
      EventSafe(AfterAll(s, before), events[n]);
    }
  }

  /** A state some sequence of pulls, edits and pushes reaches, from an instance nothing has been
    * pulled into yet. */
  ghost predicate Reached(t: State) {
    exists s: State, events: seq<Event> ::
      Tables(s.inst) && s.carried == map[] && s.seen == {} && AllHappen(s, events) && t == AfterAll(s, events)
  }

  lemma ReachedIsSafe(t: State)
    requires Reached(t)
    ensures Safe(t)
  {
    hide AllHappen, AfterAll, Tables;
    var s: State, events: seq<Event> :|
      Tables(s.inst) && s.carried == map[] && s.seen == {} && AllHappen(s, events) && t == AfterAll(s, events);
    EventsSafe(s, events);
  }
}
