/** Importing a document again: what never changes, and exactly when nothing does. */
module ConfigTwice {
  import opened Wrappers
  import opened Dicts
  import opened Text
  import opened ConfigIo

  // ------------------------------------------------------------------ scenarios

  /** A row that lands, whatever is here already. */
  predicate ScenarioCounts(row: Json) {
    && row.Object? && Field(row.entries, "files").Object? && "scenario.yaml" in row.entries["files"].entries
    && PlainName(NameOf(Scenarios, row))
  }

  predicate CountsFor(row: Json, name: string) {
    ScenarioCounts(row) && NameOf(Scenarios, row) == name
  }

  predicate AnyCountsFor(rows: seq<Json>, name: string) {
    exists i :: 0 <= i < |rows| && CountsFor(rows[i], name)
  }

  /** The files that a document's rows of one name put over those already here. */
  function Overlay(rows: seq<Json>, name: string): Fields {
    if rows == [] then map[]
    else
      var row := rows[|rows| - 1];
      Overlay(rows[..|rows| - 1], name) + if CountsFor(row, name) then Carriable(row.entries["files"].entries) else map[]
  }

  lemma OneScenario(scenarios: Dict<Fields>, row: Json, name: string)
    ensures At(ImportScenario(scenarios, row), name) ==
            if CountsFor(row, name) then Some(At(scenarios, name).GetOr(map[]) + Carriable(row.entries["files"].entries))
            else At(scenarios, name)
  {
    hide Find, Put, At, PlainName, Carriable, NameOf;
    if ScenarioCounts(row) {
      var own := NameOf(Scenarios, row);
      PutAt(scenarios, own, At(scenarios, own).GetOr(map[]) + Carriable(row.entries["files"].entries), name);
    }
  }

  lemma {:induction false} ScenariosAt(scenarios: Dict<Fields>, rows: seq<Json>, name: string)
    ensures At(ImportScenarios(scenarios, rows), name) ==
            if AnyCountsFor(rows, name) then Some(At(scenarios, name).GetOr(map[]) + Overlay(rows, name)) else At(scenarios, name)
  {
    hide At, CountsFor, ImportScenario, Carriable;
    if rows != [] {
      var n := |rows| - 1;
      ScenariosAt(scenarios, rows[..n], name);
      OneScenario(ImportScenarios(scenarios, rows[..n]), rows[n], name);
      assert AnyCountsFor(rows, name) <==> AnyCountsFor(rows[..n], name) || CountsFor(rows[n], name);
      if !AnyCountsFor(rows[..n], name) {
        EmptyOverlay(rows[..n], name);
      }
      if CountsFor(rows[n], name) {
        HasFiles(rows[n], name);
        OverBoth(At(scenarios, name).GetOr(map[]), Overlay(rows[..n], name), Carriable(rows[n].entries["files"].entries));
      } else {
        OverNothing(Overlay(rows[..n], name));
      }
    }
  }

  lemma HasFiles(row: Json, name: string)
    requires CountsFor(row, name)
    ensures row.Object? && Field(row.entries, "files").Object? && "files" in row.entries
  {
  }

  lemma OverBoth(files: Fields, a: Fields, b: Fields)
    ensures (files + a) + b == files + (a + b)
    ensures files + map[] == files
  {
  }

  lemma OverNothing(files: Fields)
    ensures files + map[] == files
  {
  }

  lemma {:induction false} EmptyOverlay(rows: seq<Json>, name: string)
    requires !AnyCountsFor(rows, name)
    ensures Overlay(rows, name) == map[]
  {
    hide CountsFor;
    if rows != [] {
      assert !CountsFor(rows[|rows| - 1], name);
      EmptyOverlay(rows[..|rows| - 1], name);
    }
  }

  lemma {:induction false} ScenariosKeepShape(scenarios: Dict<Fields>, rows: seq<Json>)
    requires forall i :: 0 <= i < |rows| && ScenarioCounts(rows[i]) ==> Has(scenarios, NameOf(Scenarios, rows[i]))
    ensures SameShape(scenarios, ImportScenarios(scenarios, rows))
  {
    hide Put, Has, At, Find, NameOf, ScenarioCounts, Carriable;
    if rows != [] {
      var n := |rows| - 1;
      ScenariosKeepShape(scenarios, rows[..n]);
      var before, name := ImportScenarios(scenarios, rows[..n]), NameOf(Scenarios, rows[n]);
      if ScenarioCounts(rows[n]) {
        CountingPuts(before, rows[n]);
        var files := At(before, name).GetOr(map[]) + Carriable(rows[n].entries["files"].entries);
        ShapeHas(scenarios, before, name);
        PutKeepsShape(before, name, files);
        ShapeTransitive(scenarios, before, ImportScenarios(scenarios, rows));
      } else {
        NotCountingKeeps(before, rows[n]);
      }
    }
  }

  lemma CountingPuts(scenarios: Dict<Fields>, row: Json)
    requires ScenarioCounts(row)
    ensures row.Object? && Field(row.entries, "files").Object?
    ensures ImportScenario(scenarios, row) == Put(scenarios, NameOf(Scenarios, row),
              At(scenarios, NameOf(Scenarios, row)).GetOr(map[]) + Carriable(row.entries["files"].entries))
  {
    hide Put, At, Carriable, NameOf, PlainName;
  }

  lemma NotCountingKeeps(scenarios: Dict<Fields>, row: Json)
    requires !ScenarioCounts(row)
    ensures ImportScenario(scenarios, row) == scenarios
  {
    hide Put, At, Carriable, NameOf, PlainName;
  }

  /** Whatever a document's scenario rows are, and however often it names one. */
  lemma ScenariosTwice(scenarios: Dict<Fields>, rows: seq<Json>)
    ensures ImportScenarios(ImportScenarios(scenarios, rows), rows) == ImportScenarios(scenarios, rows)
  {
    hide At, Has, NameOf, ScenarioCounts, ImportScenarios;
    var once := ImportScenarios(scenarios, rows);
    forall i | 0 <= i < |rows| && ScenarioCounts(rows[i])
      ensures Has(once, NameOf(Scenarios, rows[i]))
    {
      assert CountsFor(rows[i], NameOf(Scenarios, rows[i]));
      ScenariosAt(scenarios, rows, NameOf(Scenarios, rows[i]));
      HasAt(once, NameOf(Scenarios, rows[i]));
    }
    ScenariosKeepShape(once, rows);
    forall name
      ensures At(ImportScenarios(once, rows), name) == At(once, name)
    {
      ScenariosAt(scenarios, rows, name);
      ScenariosAt(once, rows, name);
      OverTwice(At(scenarios, name).GetOr(map[]), Overlay(rows, name));
    }
    SameShapeSame(once, ImportScenarios(once, rows));
  }

  lemma OverTwice(files: Fields, over: Fields)
    ensures (files + over) + over == files + over
  {
  }

  // ------------------------------------------------------------------ baselines

  predicate BaselineCounts(row: Json, runs: map<string, RunRef>) {
    row.Object? && NameOf(Baselines, row) != "" && Named(row.entries, "run_uid") != "" && Named(row.entries, "run_uid") in runs
  }

  predicate LandsOn(row: Json, runs: map<string, RunRef>, tag: string) {
    BaselineCounts(row, runs) && NameOf(Baselines, row) == tag
  }

  /** The last row of a label that lands. */
  function LastRow(rows: seq<Json>, runs: map<string, RunRef>, tag: string): (row: Option<Json>)
    ensures row.Some? ==> LandsOn(row.value, runs, tag)
  {
    if rows == [] then None
    else if LandsOn(rows[|rows| - 1], runs, tag) then Some(rows[|rows| - 1])
    else LastRow(rows[..|rows| - 1], runs, tag)
  }

  lemma {:induction false} LastRowFound(rows: seq<Json>, runs: map<string, RunRef>, tag: string, i: nat)
    requires i < |rows| && LandsOn(rows[i], runs, tag)
    ensures LastRow(rows, runs, tag).Some?
  {
    hide LandsOn;
    if i < |rows| - 1 {
      LastRowFound(rows[..|rows| - 1], runs, tag, i);
    }
  }

  /** The last instant of creation that they state. */
  function Stamp(rows: seq<Json>, runs: map<string, RunRef>, tag: string): Option<real> {
    if rows == [] then None
    else
      var row := rows[|rows| - 1];
      if LandsOn(row, runs, tag) && Field(row.entries, "created_at").Number? then Some(row.entries["created_at"].number)
      else Stamp(rows[..|rows| - 1], runs, tag)
  }

  function Landed(inst: Instance, row: Json, createdAt: real): Baseline
    requires BaselineCounts(row, inst.runs)
  {
    BaselineFrom(inst, row.entries, Named(row.entries, "run_uid"), 0.0).(createdAt := createdAt)
  }

  function MadeAt(existing: Option<Baseline>, now: real): real {
    if existing.Some? then existing.value.createdAt else now
  }

  lemma OneBaseline(inst: Instance, row: Json, now: real, tag: string)
    ensures At(ImportBaseline(inst, row, now), tag) ==
            if !LandsOn(row, inst.runs, tag) then At(inst.baselines, tag)
            else Some(Landed(inst, row, if Field(row.entries, "created_at").Number? then row.entries["created_at"].number
                                        else MadeAt(At(inst.baselines, tag), now)))
  {
    hide Find, Put, At, Named;
    if BaselineCounts(row, inst.runs) {
      var own := NameOf(Baselines, row);
      var b := BaselineFrom(inst, row.entries, Named(row.entries, "run_uid"), MadeAt(At(inst.baselines, own), now));
      PutAt(inst.baselines, own, b, tag);
    }
  }

  lemma {:induction false} BaselinesAt(inst: Instance, rows: seq<Json>, now: real, tag: string)
    ensures At(ImportBaselines(inst, rows, now).baselines, tag) ==
            match LastRow(rows, inst.runs, tag)
            case None => At(inst.baselines, tag)
            case Some(row) => Some(Landed(inst, row, Stamp(rows, inst.runs, tag).GetOr(MadeAt(At(inst.baselines, tag), now))))
    ensures LastRow(rows, inst.runs, tag).None? ==> Stamp(rows, inst.runs, tag).None?
  {
    hide At, LandsOn, ImportBaseline, BaselineCounts, BaselineFrom;
    if rows != [] {
      var n := |rows| - 1;
      BaselinesAt(inst, rows[..n], now, tag);
      var before := ImportBaselines(inst, rows[..n], now);
      OneBaseline(before, rows[n], now, tag);
      if LandsOn(rows[n], inst.runs, tag) {
        LandsCounts(rows[n], inst.runs, tag);
        SameLanded(inst, before, rows[n], 0.0);
      }
    }
  }

  /** What lands depends on the targets' names alone. */
  lemma SameLanded(inst: Instance, other: Instance, row: Json, createdAt: real)
    requires other.runs == inst.runs && forall name :: Has(other.targets, name) == Has(inst.targets, name)
    ensures BaselineCounts(row, inst.runs) ==> forall at :: Landed(other, row, at) == Landed(inst, row, at)
  {
    hide Has, Named, NameOf;
  }

  lemma {:induction false} BaselinesKeepShape(inst: Instance, rows: seq<Json>, now: real)
    requires forall i :: 0 <= i < |rows| && BaselineCounts(rows[i], inst.runs) ==> Has(inst.baselines, NameOf(Baselines, rows[i]))
    ensures SameShape(inst.baselines, ImportBaselines(inst, rows, now).baselines)
  {
    hide Put, Has, At, Find, NameOf, Named, BaselineFrom;
    if rows != [] {
      var n := |rows| - 1;
      BaselinesKeepShape(inst, rows[..n], now);
      var before := ImportBaselines(inst, rows[..n], now);
      if BaselineCounts(rows[n], inst.runs) {
        var tag := NameOf(Baselines, rows[n]);
        var b := BaselineFrom(before, rows[n].entries, Named(rows[n].entries, "run_uid"), MadeAt(At(before.baselines, tag), now));
        ShapeHas(inst.baselines, before.baselines, tag);
        PutKeepsShape(before.baselines, tag, b);
        ShapeTransitive(inst.baselines, before.baselines, ImportBaselines(inst, rows, now).baselines);
      }
    }
  }

  /** However often a document names a baseline, and whatever the clock says the second time, as
    * long as the targets go by the same names. */
  lemma BaselinesTwice(inst: Instance, again: Instance, rows: seq<Json>, now: real, later: real)
    requires again.runs == inst.runs && again.baselines == ImportBaselines(inst, rows, now).baselines
    requires forall name :: Has(again.targets, name) == Has(inst.targets, name)
    ensures ImportBaselines(again, rows, later).baselines == again.baselines
  {
    hide At, Has, NameOf, BaselineCounts, ImportBaselines, LandsOn;
    forall i | 0 <= i < |rows| && BaselineCounts(rows[i], inst.runs)
      ensures Has(again.baselines, NameOf(Baselines, rows[i]))
    {
      var tag := NameOf(Baselines, rows[i]);
      assert LandsOn(rows[i], inst.runs, tag) by { CountsLands(rows[i], inst.runs); }
      BaselinesAt(inst, rows, now, tag);
      LastRowFound(rows, inst.runs, tag, i);
      HasAt(again.baselines, tag);
    }
    BaselinesKeepShape(again, rows, later);
    forall tag
      ensures At(ImportBaselines(again, rows, later).baselines, tag) == At(again.baselines, tag)
    {
      BaselinesAt(inst, rows, now, tag);
      BaselinesAt(again, rows, later, tag);
      if LastRow(rows, inst.runs, tag).Some? {
        LandsCounts(LastRow(rows, inst.runs, tag).value, inst.runs, tag);
        SameLanded(inst, again, LastRow(rows, inst.runs, tag).value, 0.0);
      }
    }
    SameShapeSame(again.baselines, ImportBaselines(again, rows, later).baselines);
  }

  lemma CountsLands(row: Json, runs: map<string, RunRef>)
    requires BaselineCounts(row, runs)
    ensures LandsOn(row, runs, NameOf(Baselines, row))
  {
  }

  lemma LandsCounts(row: Json, runs: map<string, RunRef>, tag: string)
    requires LandsOn(row, runs, tag)
    ensures BaselineCounts(row, runs)
  {
  }

  // -------------------------------------------------------------------- targets

  /** What a row of a name gives a column of a target that is here already. */
  function Sets(row: Json, name: string, foreign: bool, column: string): Option<Json> {
    if row.Object? && NameOf(Targets, row) == name && column in row.entries && !(foreign && column in TARGET_SECRETS) then
      Some(row.entries[column])
    else None
  }

  /** What the last of the rows to give it anything gives a column. */
  function Setting(rows: seq<Json>, name: string, foreign: bool, column: string): Option<Json> {
    if rows == [] then None
    else
      var last := Sets(rows[|rows| - 1], name, foreign, column);
      if last.Some? then last else Setting(rows[..|rows| - 1], name, foreign, column)
  }

  /** A row that can create the target it names: it has an address. */
  predicate Creates(row: Json, name: string) {
    row.Object? && NameOf(Targets, row) == name && Named(row.entries, "mgmt_url") != ""
  }

  /** The first such row. */
  function Creator(rows: seq<Json>, name: string): (at: Option<nat>)
    ensures at.Some? ==> at.value < |rows| && Creates(rows[at.value], name)
  {
    if rows == [] then None
    else match Creator(rows[..|rows| - 1], name)
      case Some(i) => Some(i)
      case None => if Creates(rows[|rows| - 1], name) then Some(|rows| - 1) else None
  }

  /** The default that a column of a new target keeps when its creator does not set it. */
  function Default(row: Json, column: string): Json
    requires row.Object? && column in Columns()
  {
    NewTarget(Named(row.entries, "mgmt_url"))[column]
  }

  /** A target that a document creates only after having named it in vain: a column that the rows
    * skipped until then give a value, and none from the creating one on does, and the value is not
    * the default that the column has therefore kept. */
  predicate Overlooked(targets: Dict<Fields>, rows: seq<Json>, foreign: bool, name: string) {
    && name != "" && At(targets, name).None? && Creator(rows, name).Some?
    && var j := Creator(rows, name).value;
       exists c :: c in Columns() && Overlooks(rows, j, foreign, name, c)
  }

  predicate Overlooks(rows: seq<Json>, j: nat, foreign: bool, name: string, column: string)
    requires j < |rows| && rows[j].Object? && column in Columns()
  {
    && Setting(rows[j..], name, foreign, column).None?
    && Setting(rows[..j], name, foreign, column).Some?
    && Setting(rows[..j], name, foreign, column).value != Default(rows[j], column)
  }

  /** A target with what some rows give it. */
  function Laid(target: Fields, rows: seq<Json>, name: string, foreign: bool): (t: Fields)
    ensures t.Keys == target.Keys
  {
    map c | c in target :: Setting(rows, name, foreign, c).GetOr(target[c])
  }

  function Made(row: Json): Fields
    requires row.Object?
  {
    Assigned(NewTarget(Named(row.entries, "mgmt_url")), row.entries, false)
  }

  lemma OneTarget(targets: Dict<Fields>, row: Json, foreign: bool, name: string)
    ensures name == "" || !row.Object? || NameOf(Targets, row) != name ==> At(ImportTarget(targets, row, foreign), name) == At(targets, name)
    ensures name != "" && row.Object? && NameOf(Targets, row) == name ==>
      At(ImportTarget(targets, row, foreign), name) ==
        if At(targets, name).Some? then Some(Assigned(At(targets, name).value, row.entries, foreign))
        else if Creates(row, name) then Some(Made(row)) else None
  {
    hide Find, Put, At, Named, Assigned, NewTarget;
    var own := NameOf(Targets, row);
    if own != "" {
      if At(targets, own).Some? {
        PutAt(targets, own, Assigned(At(targets, own).value, row.entries, foreign), name);
      } else {
        PutAt(targets, own, Made(row), name);
      }
    }
  }

  lemma LaidOn(target: Fields, rows: seq<Json>, name: string, foreign: bool)
    requires rows != []
    ensures var (init, row) := (rows[..|rows| - 1], rows[|rows| - 1]);
      Laid(target, rows, name, foreign) ==
        if row.Object? && NameOf(Targets, row) == name then Assigned(Laid(target, init, name, foreign), row.entries, foreign)
        else Laid(target, init, name, foreign)
  {
    hide NameOf;
  }

  /** A target that is here gets what the rows of its name give it. */
  lemma {:induction false} KnownTarget(targets: Dict<Fields>, rows: seq<Json>, foreign: bool, name: string)
    requires name != "" && At(targets, name).Some?
    ensures At(ImportTargets(targets, rows, foreign), name) == Some(Laid(At(targets, name).value, rows, name, foreign))
  {
    hide At, ImportTarget, NameOf, Assigned;
    if rows == [] {
      assert Laid(At(targets, name).value, rows, name, foreign) == At(targets, name).value;
    } else {
      var n := |rows| - 1;
      KnownTarget(targets, rows[..n], foreign, name);
      OneTarget(ImportTargets(targets, rows[..n], foreign), rows[n], foreign, name);
      LaidOn(At(targets, name).value, rows, name, foreign);
    }
  }

  lemma {:induction false} NeverCreated(targets: Dict<Fields>, rows: seq<Json>, foreign: bool, name: string)
    requires At(targets, name).None? && (name == "" || Creator(rows, name).None?)
    ensures At(ImportTargets(targets, rows, foreign), name).None?
  {
    hide At, ImportTarget, NameOf, Assigned, Creates, Made;
    if rows != [] {
      var n := |rows| - 1;
      NeverCreated(targets, rows[..n], foreign, name);
      OneTarget(ImportTargets(targets, rows[..n], foreign), rows[n], foreign, name);
    }
  }

  lemma {:induction false} ImportBoth(targets: Dict<Fields>, a: seq<Json>, b: seq<Json>, foreign: bool)
    ensures ImportTargets(targets, a + b, foreign) == ImportTargets(ImportTargets(targets, a, foreign), b, foreign)
    decreases |b|
  {
    hide ImportTarget;
    if b == [] {
      assert a + b == a;
    } else {
      assert (a + b)[..|a + b| - 1] == a + b[..|b| - 1];
      ImportBoth(targets, a, b[..|b| - 1], foreign);
    }
  }

  lemma {:induction false} NoneBefore(rows: seq<Json>, name: string)
    requires Creator(rows, name).Some?
    ensures Creator(rows[..Creator(rows, name).value], name).None?
  {
    hide Creates;
    var n, j := |rows| - 1, Creator(rows, name).value;
    if Creator(rows[..n], name).Some? {
      NoneBefore(rows[..n], name);
      assert rows[..n][..j] == rows[..j];
    }
  }

  /** A new target is what its first row with an address makes, and then what the rows after that
    * give it; those before it count for nothing. */
  lemma CreatedTarget(targets: Dict<Fields>, rows: seq<Json>, foreign: bool, name: string)
    requires name != "" && At(targets, name).None? && Creator(rows, name).Some?
    ensures var j := Creator(rows, name).value;
      At(ImportTargets(targets, rows, foreign), name) == Some(Laid(Made(rows[j]), rows[j + 1..], name, foreign))
  {
    hide At, ImportTarget, NameOf, Laid, Made, Named;
    var j := Creator(rows, name).value;
    NoneBefore(rows, name);
    NeverCreated(targets, rows[..j], foreign, name);
    var before := ImportTargets(targets, rows[..j], foreign);
    OneTarget(before, rows[j], foreign, name);
    assert rows[..j + 1][..j] == rows[..j];
    var after := ImportTargets(targets, rows[..j + 1], foreign);
    assert after == ImportTarget(before, rows[j], foreign);
    KnownTarget(after, rows[j + 1..], foreign, name);
    assert rows == rows[..j + 1] + rows[j + 1..];
    ImportBoth(targets, rows[..j + 1], rows[j + 1..], foreign);
  }

  lemma {:induction false} SettingBoth(a: seq<Json>, b: seq<Json>, name: string, foreign: bool, column: string)
    ensures Setting(a + b, name, foreign, column) ==
            if Setting(b, name, foreign, column).Some? then Setting(b, name, foreign, column) else Setting(a, name, foreign, column)
    decreases |b|
  {
    hide Sets;
    if b == [] {
      assert a + b == a;
    } else {
      assert (a + b)[..|a + b| - 1] == a + b[..|b| - 1];
      SettingBoth(a, b[..|b| - 1], name, foreign, column);
    }
  }

  lemma SettingFrom(rows: seq<Json>, j: nat, name: string, foreign: bool, column: string)
    requires j < |rows|
    ensures Setting(rows[j..], name, foreign, column) ==
            if Setting(rows[j + 1..], name, foreign, column).Some? then Setting(rows[j + 1..], name, foreign, column)
            else Sets(rows[j], name, foreign, column)
    ensures Setting(rows, name, foreign, column) ==
            if Setting(rows[j..], name, foreign, column).Some? then Setting(rows[j..], name, foreign, column)
            else Setting(rows[..j], name, foreign, column)
  {
    hide Sets;
    assert rows[j..] == [rows[j]] + rows[j + 1..];
    SettingBoth([rows[j]], rows[j + 1..], name, foreign, column);
    assert [rows[j]][..0] == [];
    assert Setting([rows[j]], name, foreign, column) == Sets(rows[j], name, foreign, column);
    assert rows == rows[..j] + rows[j..];
    SettingBoth(rows[..j], rows[j..], name, foreign, column);
  }

  /** One column of a created target, the second time. */
  lemma ColumnAgain(rows: seq<Json>, j: nat, name: string, foreign: bool, column: string)
    requires j < |rows| && Creates(rows[j], name) && column in Columns()
    ensures var once := Setting(rows[j + 1..], name, foreign, column).GetOr(Made(rows[j])[column]);
      Setting(rows, name, foreign, column).GetOr(once) == once <==> !Overlooks(rows, j, foreign, name, column)
  {
    hide Setting, NameOf, Named, NewTarget;
    SettingFrom(rows, j, name, foreign, column);
    SettingAllowed(rows[..j], name, foreign, column);
  }

  lemma {:induction false} SettingAllowed(rows: seq<Json>, name: string, foreign: bool, column: string)
    ensures Setting(rows, name, foreign, column).Some? ==> !(foreign && column in TARGET_SECRETS)
  {
    hide NameOf;
    if rows != [] {
      SettingAllowed(rows[..|rows| - 1], name, foreign, column);
    }
  }

  lemma CreatedAgain(rows: seq<Json>, j: nat, name: string, foreign: bool)
    requires j < |rows| && Creates(rows[j], name)
    ensures var once := Laid(Made(rows[j]), rows[j + 1..], name, foreign);
      Laid(once, rows, name, foreign) == once <==> !exists c :: c in Columns() && Overlooks(rows, j, foreign, name, c)
  {
    hide Setting, Named, NameOf, Overlooks, Creates;
    assert rows[j].Object? by { CreatesObject(rows[j], name); }
    var once := Laid(Made(rows[j]), rows[j + 1..], name, foreign);
    assert once.Keys == Columns();
    forall c | c in Columns()
      ensures Laid(once, rows, name, foreign)[c] == once[c] <==> !Overlooks(rows, j, foreign, name, c)
    {
      ColumnAgain(rows, j, name, foreign, c);
    }
  }

  lemma CreatesObject(row: Json, name: string)
    requires Creates(row, name)
    ensures row.Object?
  {
  }

  lemma {:induction false} LaidAgain(target: Fields, rows: seq<Json>, name: string, foreign: bool)
    ensures Laid(Laid(target, rows, name, foreign), rows, name, foreign) == Laid(target, rows, name, foreign)
  {
    hide Setting;
  }

  /** One name's target, the second time. */
  lemma TargetAgain(targets: Dict<Fields>, rows: seq<Json>, foreign: bool, name: string)
    ensures var once := ImportTargets(targets, rows, foreign);
      At(ImportTargets(once, rows, foreign), name) == At(once, name) <==> !Overlooked(targets, rows, foreign, name)
    ensures At(targets, name).Some? || Creator(rows, name).Some? || At(ImportTargets(targets, rows, foreign), name).None?
  {
    hide At, ImportTargets, Laid, Creates, Overlooks, Made;
    var once := ImportTargets(targets, rows, foreign);
    if name == "" {
      BlankTarget(targets, rows, foreign);
      BlankTarget(once, rows, foreign);
    } else if At(targets, name).Some? {
      KnownTarget(targets, rows, foreign, name);
      KnownTarget(once, rows, foreign, name);
      LaidAgain(At(targets, name).value, rows, name, foreign);
    } else if Creator(rows, name).Some? {
      CreatedTarget(targets, rows, foreign, name);
      KnownTarget(once, rows, foreign, name);
      CreatedAgain(rows, Creator(rows, name).value, name, foreign);
    } else {
      NeverCreated(targets, rows, foreign, name);
      NeverCreated(once, rows, foreign, name);
    }
  }

  lemma {:induction false} BlankTarget(targets: Dict<Fields>, rows: seq<Json>, foreign: bool)
    ensures At(ImportTargets(targets, rows, foreign), "") == At(targets, "")
  {
    hide At, ImportTarget, NameOf, Made;
    if rows != [] {
      var n := |rows| - 1;
      BlankTarget(targets, rows[..n], foreign);
      OneTarget(ImportTargets(targets, rows[..n], foreign), rows[n], foreign, "");
    }
  }

  /** Every row that lands names a target that is here; the others change nothing. */
  lemma {:induction false} TargetsKeepShape(targets: Dict<Fields>, rows: seq<Json>, foreign: bool)
    requires forall i :: 0 <= i < |rows| && NameOf(Targets, rows[i]) != "" && !Has(targets, NameOf(Targets, rows[i])) ==>
      Named(rows[i].entries, "mgmt_url") == ""
    ensures SameShape(targets, ImportTargets(targets, rows, foreign))
  {
    hide Put, Find, NameOf, Named, Assigned, NewTarget, SameShape;
    if rows == [] {
      SelfShape(targets);
    } else {
      var n := |rows| - 1;
      TargetsKeepShape(targets, rows[..n], foreign);
      var before, name := ImportTargets(targets, rows[..n], foreign), NameOf(Targets, rows[n]);
      ShapeHas(targets, before, name);
      HasAt(before, name);
      if name != "" && At(before, name).Some? {
        assert rows[n].Object? by { NamedObject(Targets, rows[n]); }
        var value := Assigned(At(before, name).value, rows[n].entries, foreign);
        PutKeepsShape(before, name, value);
        ShapeTransitive(targets, before, Put(before, name, value));
      }
    }
  }

  lemma SelfShape<V>(d: Dict<V>)
    ensures SameShape(d, d)
  {
  }

  lemma NamedObject(section: Section, row: Json)
    requires NameOf(section, row) != ""
    ensures row.Object?
  {
  }

  lemma {:induction false} CreatorFound(rows: seq<Json>, name: string, i: nat)
    requires i < |rows| && Creates(rows[i], name)
    ensures Creator(rows, name).Some?
  {
    hide Creates;
    if i < |rows| - 1 {
      CreatorFound(rows[..|rows| - 1], name, i);
    }
  }

  /** The second import finds every target that the first one's rows can create. */
  lemma SecondShape(targets: Dict<Fields>, rows: seq<Json>, foreign: bool)
    ensures var once := ImportTargets(targets, rows, foreign); SameShape(once, ImportTargets(once, rows, foreign))
  {
    hide At, NameOf, Named, ImportTargets, Laid, Made, Has;
    var once := ImportTargets(targets, rows, foreign);
    forall i | 0 <= i < |rows| && NameOf(Targets, rows[i]) != "" && !Has(once, NameOf(Targets, rows[i]))
      ensures rows[i].Object? && Named(rows[i].entries, "mgmt_url") == ""
    {
      var name := NameOf(Targets, rows[i]);
      NamedObject(Targets, rows[i]);
      HasAt(once, name);
      if Creates(rows[i], name) {
        CreatorFound(rows, name, i);
        if At(targets, name).Some? {
          KnownTarget(targets, rows, foreign, name);
        } else {
          CreatedTarget(targets, rows, foreign, name);
        }
      }
    }
    TargetsKeepShape(once, rows, foreign);
  }

  /** Some row's target is overlooked. */
  predicate AnyOverlooked(inst: Instance, doc: Document) {
    exists i :: 0 <= i < |doc.targets| && Overlooked(inst.targets, doc.targets, ForeignKey(inst, doc), NameOf(Targets, doc.targets[i]))
  }

  lemma TargetsTwiceExactly(targets: Dict<Fields>, rows: seq<Json>, foreign: bool)
    ensures var once := ImportTargets(targets, rows, foreign);
      ImportTargets(once, rows, foreign) == once <==>
      forall i :: 0 <= i < |rows| ==> !Overlooked(targets, rows, foreign, NameOf(Targets, rows[i]))
  {
    hide At, NameOf, ImportTargets, Overlooked, SameShape, Creates;
    var once := ImportTargets(targets, rows, foreign);
    SecondShape(targets, rows, foreign);
    forall name
      ensures At(ImportTargets(once, rows, foreign), name) == At(once, name) <==> !Overlooked(targets, rows, foreign, name)
    {
      TargetAgain(targets, rows, foreign, name);
    }
    if forall i :: 0 <= i < |rows| ==> !Overlooked(targets, rows, foreign, NameOf(Targets, rows[i])) {
      forall name
        ensures At(ImportTargets(once, rows, foreign), name) == At(once, name)
      {
        if Overlooked(targets, rows, foreign, name) {
          OverlookedIsNamed(targets, rows, foreign, name);
        }
      }
      SameShapeSame(once, ImportTargets(once, rows, foreign));
    }
  }

  lemma OverlookedIsNamed(targets: Dict<Fields>, rows: seq<Json>, foreign: bool, name: string)
    requires Overlooked(targets, rows, foreign, name)
    ensures exists i :: 0 <= i < |rows| && NameOf(Targets, rows[i]) == name
  {
    hide NameOf, Overlooks;
    assert NameOf(Targets, rows[Creator(rows, name).value]) == name;
  }

  /** Importing a document twice, the second time at any later time: its scenarios and baselines are
    * as they were, whatever it names and however often; and nothing at all has changed exactly when
    * no target of it was overlooked. */
  lemma ImportIdempotentExactly(inst: Instance, doc: Document, now: real, later: real)
    ensures var once := Imported(inst, doc, now);
      var twice := Imported(once, doc, later);
      && twice.scenarios == once.scenarios && twice.baselines == once.baselines
      && (twice == once <==> !AnyOverlooked(inst, doc))
  {
    hide ImportTargets, ImportScenarios, ImportBaselines, Overlooked, SameShape, Has, NameOf;
    var foreign := ForeignKey(inst, doc);
    var targets := ImportTargets(inst.targets, doc.targets, foreign);
    TargetsTwiceExactly(inst.targets, doc.targets, foreign);
    ScenariosTwice(inst.scenarios, doc.scenarios);
    var middle := inst.(targets := targets, scenarios := ImportScenarios(inst.scenarios, doc.scenarios));
    var once := Imported(inst, doc, now);
    var again := once.(targets := ImportTargets(targets, doc.targets, foreign));
    SecondShape(inst.targets, doc.targets, foreign);
    forall name
      ensures Has(again.targets, name) == Has(middle.targets, name)
    {
      ShapeHas(targets, again.targets, name);
    }
    BaselinesTwice(middle, again, doc.baselines, now, later);
  }

  predicate DistinctTargets(rows: seq<Json>) {
    forall i, j :: 0 <= i < j < |rows| && NameOf(Targets, rows[i]) != "" ==> NameOf(Targets, rows[i]) != NameOf(Targets, rows[j])
  }

  lemma {:induction false} SettingIsNamed(rows: seq<Json>, name: string, foreign: bool, column: string)
    requires Setting(rows, name, foreign, column).Some?
    ensures exists i :: 0 <= i < |rows| && NameOf(Targets, rows[i]) == name
  {
    hide NameOf;
    var n := |rows| - 1;
    if Sets(rows[n], name, foreign, column).None? {
      SettingIsNamed(rows[..n], name, foreign, column);
      var i :| 0 <= i < |rows[..n]| && NameOf(Targets, rows[..n][i]) == name;
      assert NameOf(Targets, rows[i]) == name;
    }
  }

  /** A document that names no target twice overlooks none. */
  lemma DistinctTargetsSuffice(inst: Instance, doc: Document, now: real, later: real)
    requires DistinctTargets(doc.targets)
    ensures Imported(Imported(inst, doc, now), doc, later) == Imported(inst, doc, now)
  {
    hide NameOf, Imported, Setting, Default;
    ImportIdempotentExactly(inst, doc, now, later);
    var rows, foreign := doc.targets, ForeignKey(inst, doc);
    if AnyOverlooked(inst, doc) {
      var i :| 0 <= i < |rows| && Overlooked(inst.targets, rows, foreign, NameOf(Targets, rows[i]));
      var name := NameOf(Targets, rows[i]);
      var j := Creator(rows, name).value;
      var c :| c in Columns() && Overlooks(rows, j, foreign, name, c);
      SettingIsNamed(rows[..j], name, foreign, c);
      assert false;
    }
  }

  /** A target named first without the address to create it with, and then with it. */
  function NamedInVain(): seq<Json> {
    [Object(map["name" := Words("a"), "owner" := Words("x")]), Object(map["name" := Words("a"), "mgmt_url" := Words("u")])]
  }

  lemma NamedInVainNames()
    ensures var rows := NamedInVain();
      && NameOf(Targets, rows[0]) == NameOf(Targets, rows[1]) == "a"
      && Named(rows[0].entries, "mgmt_url") == "" && Named(rows[1].entries, "mgmt_url") == "u"
  {
    StripOfTrimmed("a");
    StripOfTrimmed("u");
    StripOfTrimmed("");
  }

  /** The owner that the skipped row gives it lands only the second time. */
  lemma NamedInVainIsOverlooked(key: Option<string>)
    ensures var empty := Instance(key, [], [], [], map[]);
      var doc := Document(None, NamedInVain(), [], []);
      AnyOverlooked(empty, doc) && Imported(Imported(empty, doc, 0.0), doc, 0.0) != Imported(empty, doc, 0.0)
  {
    hide NameOf, Named, Imported;
    var empty, doc, rows := Instance(key, [], [], [], map[]), Document(None, NamedInVain(), [], []), NamedInVain();
    NamedInVainNames();
    assert rows[..1][..0] == [] && rows[1..][..0] == [];
    assert Creator(rows[..1], "a").None? && Creator(rows, "a") == Some(1);
    assert Setting(rows[..1], "a", false, "owner") == Some(Words("x"));
    assert Setting(rows[1..], "a", false, "owner").None?;
    assert Default(rows[1], "owner") == Words("nobody");
    assert Overlooks(rows, 1, false, "a", "owner");
    assert Overlooked([], rows, false, "a");
    ImportIdempotentExactly(empty, doc, 0.0, 0.0);
  }
}
