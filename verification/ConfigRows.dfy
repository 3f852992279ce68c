/** What an import leaves of a scenario's files and of a baseline, read off the document's rows. */
module ConfigRows {
  import opened Wrappers
  import opened Dicts
  import opened ConfigIo
  import opened ConfigSource
  import opened ConfigTwice

  // ------------------------------------------------------------------ scenarios

  /** A row brings a scenario its files if it names it, plainly, and has a scenario.yaml. */
  predicate Brings(row: Json, name: string) {
    && NameOf(Scenarios, row) == name && name != "" && name[0] != '.' && '/' !in name && '\\' !in name
    && row.Object? && "files" in row.entries && row.entries["files"].Object?
    && "scenario.yaml" in row.entries["files"].entries
  }

  /** What a row that brings a scenario says of one of its files. */
  function Brought(row: Json, name: string, file: string): Option<Json> {
    if Brings(row, name) && file in row.entries["files"].entries && row.entries["files"].entries[file].Words? &&
       (file == "scenario.yaml" || file == "savedsearches.conf" || file == "README.md") then
      Some(row.entries["files"].entries[file])
    else None
  }

  function LastBrought(rows: seq<Json>, name: string, file: string): Option<Json> {
    if rows == [] then None
    else
      var last := Brought(rows[|rows| - 1], name, file);
      if last.Some? then last else LastBrought(rows[..|rows| - 1], name, file)
  }

  function FileAt(files: Fields, file: string): Option<Json> {
    if file in files then Some(files[file]) else None
  }

  lemma BringsCounts(row: Json, name: string)
    ensures CountsFor(row, name) <==> Brings(row, name)
  {
    hide NameOf;
  }

  lemma OverlayIs(row: Json, name: string, file: string)
    requires Brings(row, name)
    ensures FileAt(Carriable(row.entries["files"].entries), file) == Brought(row, name, file)
  {
    hide NameOf;
  }

  lemma {:induction false} LastBroughtIs(rows: seq<Json>, name: string, file: string)
    ensures FileAt(Overlay(rows, name), file) == LastBrought(rows, name, file)
  {
    hide CountsFor, Brings, Carriable;
    if rows != [] {
      var row := rows[|rows| - 1];
      LastBroughtIs(rows[..|rows| - 1], name, file);
      BringsCounts(row, name);
      if Brings(row, name) {
        HasFiles(row, name);
        OverlayIs(row, name, file);
      }
    }
  }

  /** After an import each file of a scenario is what the document last brings of it, one of the three
    * that may travel; a file that none brings is as it was, and so is one that is not text. */
  lemma ScenarioFileExactly(inst: Instance, doc: Document, now: real, name: string, file: string)
    ensures var (before, after) := (At(inst.scenarios, name).GetOr(map[]), At(Imported(inst, doc, now).scenarios, name).GetOr(map[]));
      var brought := LastBrought(doc.scenarios, name, file);
      FileAt(after, file) == if brought.Some? then brought else FileAt(before, file)
  {
    hide At, ImportScenarios, ImportTargets, ImportBaselines, LastBrought, CountsFor;
    ScenariosAt(inst.scenarios, doc.scenarios, name);
    LastBroughtIs(doc.scenarios, name, file);
    if !AnyCountsFor(doc.scenarios, name) {
      EmptyOverlay(doc.scenarios, name);
    }
  }

  // ------------------------------------------------------------------ baselines

  /** After an import a label whose run is here is of the run that its last row names; its scenario and
    * its target are the row's own, where it gives text and the target is here, else the run's; and
    * it was created at the last instant that a row states, else when it was before, else now. */
  lemma BaselineExactly(inst: Instance, doc: Document, now: real, tag: string)
    requires LastRow(doc.baselines, inst.runs, tag).Some?
    ensures var (row, here) := (LastRow(doc.baselines, inst.runs, tag).value.entries, Imported(inst, doc, now));
      var uid := Named(row, "run_uid");
      && At(here.baselines, tag).Some? && uid in inst.runs
      && var b := At(here.baselines, tag).value;
         && b.run == Some(uid) && b.note == Field(row, "note")
         && (Field(row, "scenario").Words? && Field(row, "scenario").words != "" ==> b.scenario == Field(row, "scenario").words)
         && (Field(row, "scenario").Null? || Field(row, "scenario") == Words("") ==> b.scenario == inst.runs[uid].scenario)
         && (b.target == match Field(row, "target")
                         case Words(t) => if t != "" && Has(here.targets, t) then Some(t) else inst.runs[uid].target
                         case _ => inst.runs[uid].target)
         && (b.createdAt == match Stamp(doc.baselines, inst.runs, tag)
                            case Some(at) => at
                            case None => if Has(inst.baselines, tag) then At(inst.baselines, tag).value.createdAt else now)
  {
    hide ImportTargets, ImportScenarios, ImportBaselines, LastRow, Stamp, Find, Named;
    var ready := inst.(targets := ImportTargets(inst.targets, doc.targets, ForeignKey(inst, doc)),
                       scenarios := ImportScenarios(inst.scenarios, doc.scenarios));
    BaselinesAt(ready, doc.baselines, now, tag);
  }

  // ------------------------------------------------------------------------ runs

  /** A pull brings the archived runs that are not here yet, and leaves those that are as they are. */
  lemma RunsExactly(inst: Instance, doc: Document, archived: map<string, RunRef>, now: real, uid: string)
    ensures var runs := Applied(inst, doc, archived, now).runs;
      && (uid in runs <==> uid in inst.runs || uid in archived)
      && (uid in inst.runs ==> runs[uid] == inst.runs[uid])
      && (uid in archived && uid !in inst.runs ==> runs[uid] == archived[uid])
  {
    hide ImportTargets, ImportScenarios, ImportBaselines;
  }
}
