/** What an export writes of each table, read off the tables themselves. */
module ConfigExports {
  import opened Wrappers
  import opened Dicts
  import opened ConfigIo
  import opened ConfigSource
  import opened ConfigSafety
  import opened ConfigLoss
  import opened ConfigRows

  /** One of the three files that may travel, as text and of a megabyte at most. */
  predicate SmallEnough(file: string, content: Json) {
    && (file == "scenario.yaml" || file == "savedsearches.conf" || file == "README.md")
    && content.Words? && |content.words| <= 1048576
  }

  /** What there is to write of a row. */
  predicate Writes(inst: Instance, id: Id) {
    match id.section
    case Targets => exists i :: 0 <= i < |inst.targets| && inst.targets[i].0 == id.name
    case Scenarios =>
      exists i :: 0 <= i < |inst.scenarios| && inst.scenarios[i].0 == id.name && "scenario.yaml" in inst.scenarios[i].1 &&
        exists f :: f in inst.scenarios[i].1 && SmallEnough(f, inst.scenarios[i].1[f])
    case Baselines =>
      exists i :: 0 <= i < |inst.baselines| && inst.baselines[i].0 == id.name && inst.baselines[i].1.run.Some? &&
        inst.baselines[i].1.run.value != "" && inst.baselines[i].1.run.value in inst.runs
  }

  lemma TravellingIs(files: Fields, file: string)
    ensures FileAt(Travelling(files), file) == if file in files && SmallEnough(file, files[file]) then Some(files[file]) else None
  {
  }

  lemma ScenarioExportsExactly(files: Fields)
    ensures ScenarioExports(files) <==> "scenario.yaml" in files && exists f :: f in files && SmallEnough(f, files[f])
  {
    if f :| f in files && SmallEnough(f, files[f]) {
      TravellingIs(files, f);
    }
    if Travelling(files) != map[] {
      var f :| f in Travelling(files);
      TravellingIs(files, f);
    }
  }

  lemma WritesIs(inst: Instance, id: Id)
    requires Tables(inst)
    ensures Writes(inst, id) <==> Exports(inst, id)
  {
    hide ScenarioExports, SmallEnough;
    match id.section
    case Targets =>
      if i :| 0 <= i < |inst.targets| && inst.targets[i].0 == id.name {
        AtIndex(inst.targets, i);
      }
    case Scenarios =>
      if At(inst.scenarios, id.name).Some? {
        var i := AtPlace(inst.scenarios, id.name);
        ScenarioExportsExactly(inst.scenarios[i].1);
      }
      if i :| 0 <= i < |inst.scenarios| && inst.scenarios[i].0 == id.name {
        AtIndex(inst.scenarios, i);
      }
    case Baselines =>
      if At(inst.baselines, id.name).Some? {
        var i := AtPlace(inst.baselines, id.name);
      }
      if i :| 0 <= i < |inst.baselines| && inst.baselines[i].0 == id.name {
        AtIndex(inst.baselines, i);
      }
  }

  /** An export names every target, each scenario with a scenario.yaml and a file that can travel, and
    * each baseline whose run is here; and nothing else. */
  lemma ExportNamesExactly(inst: Instance, id: Id)
    requires Tables(inst)
    ensures id in OwnNames(inst) <==> Writes(inst, id)
  {
    hide OwnNames, Exports, Writes, Tables;
    OwnNamesExactly(inst, id);
    WritesIs(inst, id);
  }

  /** A row of a scenario has a file as it is if it can travel, and not at all if it cannot. */
  predicate Carries(row: Json, name: string, files: Fields, file: string) {
    && row.Object? && Field(row.entries, "name") == Words(name) && Field(row.entries, "files").Object?
    && FileAt(row.entries["files"].entries, file) ==
         if file in files && SmallEnough(file, files[file]) then Some(files[file]) else None
  }

  /** And of such a scenario exactly the files that can travel, as they are. */
  lemma ExportedFilesExactly(inst: Instance, name: string, file: string)
    requires Tables(inst) && Id(Scenarios, name) in OwnNames(inst)
    ensures At(inst.scenarios, name).Some?
    ensures exists row :: row in Exported(inst).scenarios && Carries(row, name, At(inst.scenarios, name).value, file)
  {
    hide OwnNames, Travelling, SmallEnough, Exported, Tables, ScenarioExports, At;
    var id := Id(Scenarios, name);
    OwnNamesExactly(inst, id);
    OwnIsExported(inst, id);
    TravellingIs(At(inst.scenarios, name).value, file);
    assert OwnOf(inst, id) in Exported(inst).scenarios;
  }
}
