/** Export and restore of an instance's configuration: targets, scenarios and baselines. */
module ConfigIo {
  import opened Wrappers
  import opened Dicts
  import opened Text

  datatype Json = Null | Flag(flag: bool) | Number(number: real) | Words(words: string) | Object(entries: map<string, Json>)

  datatype Section = Targets | Scenarios | Baselines {
    /** The field that names a row. */
    function Key(): string {
      if this.Baselines? then "label" else "name"
    }
  }

  datatype Document = Document(fingerprint: Option<string>, targets: seq<Json>, scenarios: seq<Json>, baselines: seq<Json>) {
    function Rows(section: Section): seq<Json> {
      match section
      case Targets => targets
      case Scenarios => scenarios
      case Baselines => baselines
    }
  }

  /** A column or file set, by name. */
  type Fields = map<string, Json>

  datatype Baseline = Baseline(run: Option<string>, scenario: string, target: Option<string>, note: Json, createdAt: real)

  datatype RunRef = RunRef(scenario: string, target: Option<string>)

  /** The tables a document describes, each keyed by the name a rebuild keeps: a target's name, a
    * scenario's directory, a baseline's label, a run's uid. */
  datatype Instance = Instance(
    key: Option<string>, targets: Dict<Fields>, scenarios: Dict<Fields>, baselines: Dict<Baseline>, runs: map<string, RunRef>)

  const TARGET_FIELDS := {
    "mgmt_url", "web_url", "username", "verify_tls", "app", "owner", "api_version", "indexer_urls", "indexer_username" }
  const TARGET_SECRETS := {
    "token_encrypted", "password_encrypted", "indexer_token_encrypted", "indexer_password_encrypted" }
  const SCENARIO_FILES := {"scenario.yaml", "savedsearches.conf", "README.md"}
  const MAX_SCENARIO_FILE := 1024 * 1024

  /** Python's str(value or ""), for the values that name things. */
  function Shown(value: Json): string {
    match value
    case Words(w) => w
    case Flag(b) => if b then "True" else ""
    case _ => ""
  }

  function Field(entries: Fields, name: string): Json {
    if name in entries then entries[name] else Null
  }

  function Named(entries: Fields, field: string): string {
    Strip(Shown(Field(entries, field)))
  }

  /** The usable name of a row, or nothing. */
  function NameOf(section: Section, row: Json): string {
    if row.Object? then Named(row.entries, section.Key()) else ""
  }

  // -------------------------------------------------------------------- targets

  function Columns(): set<string> {
    TARGET_FIELDS + TARGET_SECRETS
  }

  function NewTarget(mgmtUrl: string): Fields {
    (map c | c in Columns() :: Null)["mgmt_url" := Words(mgmtUrl)]["verify_tls" := Flag(true)]
      ["app" := Words("search")]["owner" := Words("nobody")]["api_version" := Words("v2")]
  }

  /** The row's fields over a target's; credentials that cannot be read here do not replace. */
  function Assigned(target: Fields, row: Fields, keepSecrets: bool): (t: Fields)
    ensures t.Keys == target.Keys
  {
    map c | c in target :: if c in row && !(keepSecrets && c in TARGET_SECRETS) then row[c] else target[c]
  }

  function ImportTarget(targets: Dict<Fields>, row: Json, foreignKey: bool): Dict<Fields> {
    var name := NameOf(Targets, row);
    if name == "" then targets
    else match At(targets, name)
      case Some(target) => Put(targets, name, Assigned(target, row.entries, foreignKey))
      case None =>
        var mgmtUrl := Named(row.entries, "mgmt_url");
        if mgmtUrl == "" then targets else Put(targets, name, Assigned(NewTarget(mgmtUrl), row.entries, false))
  }

  function ImportTargets(targets: Dict<Fields>, rows: seq<Json>, foreignKey: bool): Dict<Fields> {
    if rows == [] then targets
    else ImportTarget(ImportTargets(targets, rows[..|rows| - 1], foreignKey), rows[|rows| - 1], foreignKey)
  }

  // ------------------------------------------------------------------ scenarios

  predicate PlainName(name: string) {
    name != "" && name[0] != '.' && '/' !in name && '\\' !in name
  }

  /** The files of a row that a document may carry. */
  function Carriable(files: Fields): Fields {
    map f | f in files && f in SCENARIO_FILES && files[f].Words? :: files[f]
  }

  function ImportScenario(scenarios: Dict<Fields>, row: Json): Dict<Fields> {
    var name := NameOf(Scenarios, row);
    if !row.Object? || !Field(row.entries, "files").Object? || "scenario.yaml" !in row.entries["files"].entries then scenarios
    else if !PlainName(name) then scenarios
    else
      var before := At(scenarios, name).GetOr(map[]);
      Put(scenarios, name, before + Carriable(row.entries["files"].entries))
  }

  function ImportScenarios(scenarios: Dict<Fields>, rows: seq<Json>): Dict<Fields> {
    if rows == [] then scenarios
    else ImportScenario(ImportScenarios(scenarios, rows[..|rows| - 1]), rows[|rows| - 1])
  }

  // ------------------------------------------------------------------ baselines

  function BaselineFrom(inst: Instance, row: Fields, uid: string, createdAt: real): Baseline
    requires uid in inst.runs
  {
    var run := inst.runs[uid];
    var named := Field(row, "target");
    var scenario := Shown(Field(row, "scenario"));
    Baseline(
      Some(uid),
      if scenario != "" then scenario else run.scenario,
      if named.Words? && named.words != "" && Has(inst.targets, named.words) then Some(named.words) else run.target,
      Field(row, "note"),
      if Field(row, "created_at").Number? then row["created_at"].number else createdAt)
  }

  /** A baseline lands once its run is here. */
  function ImportBaseline(inst: Instance, row: Json, now: real): Dict<Baseline> {
    var tag := NameOf(Baselines, row);
    var uid := if row.Object? then Named(row.entries, "run_uid") else "";
    if tag == "" || uid == "" || uid !in inst.runs then inst.baselines
    else
      var existing := At(inst.baselines, tag);
      var createdAt := if existing.Some? then existing.value.createdAt else now;
      Put(inst.baselines, tag, BaselineFrom(inst, row.entries, uid, createdAt))
  }

  function ImportBaselines(inst: Instance, rows: seq<Json>, now: real): (r: Instance)
    ensures r == inst.(baselines := r.baselines)
  {
    if rows == [] then inst
    else
      var before := ImportBaselines(inst, rows[..|rows| - 1], now);
      before.(baselines := ImportBaseline(before, rows[|rows| - 1], now))
  }

  predicate ForeignKey(inst: Instance, doc: Document) {
    doc.fingerprint.GetOr("") != "" && inst.key.GetOr("") != "" && doc.fingerprint != inst.key
  }

  /** The document applied: an upsert by name. */
  function Imported(inst: Instance, doc: Document, now: real): Instance {
    ImportBaselines(
      inst.(targets := ImportTargets(inst.targets, doc.targets, ForeignKey(inst, doc)),
            scenarios := ImportScenarios(inst.scenarios, doc.scenarios)),
      doc.baselines, now)
  }

  // --------------------------------------------------------------------- export

  function TargetRow(name: string, fields: Fields): Json {
    Object(fields["name" := Words(name)])
  }

  function ExportTargets(targets: Dict<Fields>): (rows: seq<Json>)
    ensures |rows| == |targets|
    ensures forall i :: 0 <= i < |rows| ==> rows[i] == TargetRow(targets[i].0, targets[i].1)
  {
    seq(|targets|, i requires 0 <= i < |targets| => TargetRow(targets[i].0, targets[i].1))
  }

  /** The files small enough to travel. */
  function Travelling(files: Fields): Fields {
    map f | f in files && f in SCENARIO_FILES && files[f].Words? && |files[f].words| <= MAX_SCENARIO_FILE :: files[f]
  }

  predicate ScenarioExports(files: Fields) {
    "scenario.yaml" in files && Travelling(files) != map[]
  }

  function ScenarioRow(name: string, files: Fields): Json {
    Object(map["name" := Words(name), "files" := Object(Travelling(files))])
  }

  function ExportScenarios(scenarios: Dict<Fields>): seq<Json> {
    if scenarios == [] then []
    else
      var (name, files) := scenarios[|scenarios| - 1];
      ExportScenarios(scenarios[..|scenarios| - 1]) + if ScenarioExports(files) then [ScenarioRow(name, files)] else []
  }

  function WordsOrNull(w: Option<string>): Json {
    match w case Some(t) => Words(t) case None => Null
  }

  predicate BaselineExports(b: Baseline, runs: map<string, RunRef>) {
    b.run.Some? && b.run.value != "" && b.run.value in runs
  }

  function BaselineRow(tag: string, b: Baseline): Json {
    Object(map["label" := Words(tag), "run_uid" := WordsOrNull(b.run), "scenario" := Words(b.scenario),
               "target" := WordsOrNull(b.target), "note" := b.note, "created_at" := Number(b.createdAt)])
  }

  function ExportBaselines(baselines: Dict<Baseline>, runs: map<string, RunRef>): seq<Json> {
    if baselines == [] then []
    else
      var (tag, b) := baselines[|baselines| - 1];
      ExportBaselines(baselines[..|baselines| - 1], runs) + if BaselineExports(b, runs) then [BaselineRow(tag, b)] else []
  }

  function Exported(inst: Instance): Document {
    Document(inst.key, ExportTargets(inst.targets), ExportScenarios(inst.scenarios), ExportBaselines(inst.baselines, inst.runs))
  }

  // ----------------------------------------------------------------- the tables

  class ConfigStore {
    const key: Option<string>
    var targets: Dict<Fields>
    var scenarios: Dict<Fields>
    var baselines: Dict<Baseline>
    var runs: map<string, RunRef>

    ghost function View(): Instance
      reads this
    {
      Instance(key, targets, scenarios, baselines, runs)
    }

    constructor (key: Option<string>, runs: map<string, RunRef>)
      ensures View() == Instance(key, [], [], [], runs)
    {
      this.key, this.runs := key, runs;
      targets, scenarios, baselines := [], [], [];
    }

    method ImportConfig(doc: Document, now: real)
      modifies this
      ensures View() == Imported(old(View()), doc, now)
    {
      hide ImportTarget, ImportScenario, ImportBaseline;
      ghost var before := View();
      var foreignKey := doc.fingerprint.GetOr("") != "" && key.GetOr("") != "" && doc.fingerprint != key;
      for i := 0 to |doc.targets|
        invariant View() == before.(targets := ImportTargets(before.targets, doc.targets[..i], foreignKey))
      {
        assert doc.targets[..i + 1][..i] == doc.targets[..i];
        targets := ImportTarget(targets, doc.targets[i], foreignKey);
      }
      assert doc.targets[..|doc.targets|] == doc.targets;
      ghost var middle := View();
      for i := 0 to |doc.scenarios|
        invariant View() == middle.(scenarios := ImportScenarios(middle.scenarios, doc.scenarios[..i]))
      {
        assert doc.scenarios[..i + 1][..i] == doc.scenarios[..i];
        scenarios := ImportScenario(scenarios, doc.scenarios[i]);
      }
      assert doc.scenarios[..|doc.scenarios|] == doc.scenarios;
      ImportLabels(doc.baselines, now);
    }

    method ImportLabels(rows: seq<Json>, now: real)
      modifies this`baselines
      ensures View() == ImportBaselines(old(View()), rows, now)
    {
      ghost var before := View();
      for i := 0 to |rows|
        invariant View() == ImportBaselines(before, rows[..i], now)
      {
        assert rows[..i + 1][..i] == rows[..i];
        var row := rows[i];
        var tag := NameOf(Baselines, row);
        var uid := if row.Object? then Named(row.entries, "run_uid") else "";
        if tag != "" && uid != "" && uid in runs {
          var existing := At(baselines, tag);
          var createdAt := if existing.Some? then existing.value.createdAt else now;
          baselines := Put(baselines, tag,
                           BaselineFrom(Instance(key, targets, scenarios, baselines, runs), row.entries, uid, createdAt));
        }
      }
      assert rows[..|rows|] == rows;
    }

    method ExportConfig() returns (doc: Document)
      ensures doc == Exported(View())
    {
      var targetRows: seq<Json> := [];
      for i := 0 to |targets|
        invariant targetRows == ExportTargets(targets)[..i]
      {
        targetRows := targetRows + [TargetRow(targets[i].0, targets[i].1)];
      }
      var scenarioRows: seq<Json> := [];
      for i := 0 to |scenarios|
        invariant scenarioRows == ExportScenarios(scenarios[..i])
      {
        assert scenarios[..i + 1][..i] == scenarios[..i];
        var (name, files) := scenarios[i];
        if ScenarioExports(files) {
          scenarioRows := scenarioRows + [ScenarioRow(name, files)];
        }
      }
      assert scenarios[..|scenarios|] == scenarios;
      var baselineRows: seq<Json> := [];
      for i := 0 to |baselines|
        invariant baselineRows == ExportBaselines(baselines[..i], runs)
      {
        assert baselines[..i + 1][..i] == baselines[..i];
        var (tag, b) := baselines[i];
        if b.run.Some? && b.run.value != "" && b.run.value in runs {
          baselineRows := baselineRows + [BaselineRow(tag, b)];
        }
      }
      assert baselines[..|baselines|] == baselines;
      doc := Document(key, targetRows, scenarioRows, baselineRows);
    }
  }
}
