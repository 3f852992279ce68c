/** Credentials exported under another master key cannot be read here, and do not replace those that
  * can. */
module ConfigKeys {
  import opened Wrappers
  import opened Dicts
  import opened ConfigIo
  import opened ConfigTwice

  /** Both sides state a key, and not the same one. */
  predicate OtherKey(inst: Instance, doc: Document) {
    match (inst.key, doc.fingerprint)
    case (Some(have), Some(want)) => have != "" && want != "" && have != want
    case _ => false
  }

  /** What the last of the rows that name a target and state a column says of it. */
  function LastGiven(rows: seq<Json>, name: string, column: string): Option<Json> {
    if rows == [] then None
    else
      var row := rows[|rows| - 1];
      if NameOf(Targets, row) == name && row.Object? && column in row.entries then Some(row.entries[column])
      else LastGiven(rows[..|rows| - 1], name, column)
  }

  lemma {:induction false} SettingIs(rows: seq<Json>, name: string, foreign: bool, column: string)
    ensures Setting(rows, name, foreign, column) ==
            if foreign && column in TARGET_SECRETS then None else LastGiven(rows, name, column)
  {
    hide NameOf;
    if rows != [] {
      SettingIs(rows[..|rows| - 1], name, foreign, column);
    }
  }

  /** An import leaves every credential of a target that is here as it is when, and only when, it
    * comes from under another key; every other column is what the document last says of it. */
  lemma CredentialsStay(inst: Instance, doc: Document, now: real, name: string, column: string)
    requires name != "" && At(inst.targets, name).Some? && column in At(inst.targets, name).value
    ensures At(Imported(inst, doc, now).targets, name).Some?
    ensures var (before, after) := (At(inst.targets, name).value, At(Imported(inst, doc, now).targets, name).value);
      && after.Keys == before.Keys
      && after[column] == if OtherKey(inst, doc) && column in TARGET_SECRETS then before[column]
                          else LastGiven(doc.targets, name, column).GetOr(before[column])
  {
    hide At, ImportTargets, ImportScenarios, ImportBaselines, Setting, LastGiven;
    KnownTarget(inst.targets, doc.targets, ForeignKey(inst, doc), name);
    SettingIs(doc.targets, name, ForeignKey(inst, doc), column);
  }

  // ---------------------------------------------------------------- a new target

  /** What a column of a new target holds before any row gives it a value. */
  function Unstated(address: string, column: string): Json {
    if column == "mgmt_url" then Words(address)
    else if column == "verify_tls" then Flag(true)
    else if column == "app" then Words("search")
    else if column == "owner" then Words("nobody")
    else if column == "api_version" then Words("v2")
    else Null
  }

  /** A target that a document creates has of each column what the rows after its first one with an
    * address last say, credentials under another key apart; else what that row says; else the
    * default, and for its address the one it was created with. */
  lemma CreatedExactly(inst: Instance, doc: Document, now: real, name: string, column: string)
    requires name != "" && At(inst.targets, name).None? && Creator(doc.targets, name).Some? && column in Columns()
    ensures var j := Creator(doc.targets, name).value;
      var row := doc.targets[j].entries;
      var made := if column in row then row[column] else Unstated(Named(row, "mgmt_url"), column);
      && At(Imported(inst, doc, now).targets, name).Some?
      && var after := At(Imported(inst, doc, now).targets, name).value;
         column in after &&
         after[column] == if OtherKey(inst, doc) && column in TARGET_SECRETS then made
                          else LastGiven(doc.targets[j + 1..], name, column).GetOr(made)
  {
    hide At, ImportTargets, ImportScenarios, ImportBaselines, Setting, LastGiven, Named, Creator;
    var j := Creator(doc.targets, name).value;
    CreatedTarget(inst.targets, doc.targets, ForeignKey(inst, doc), name);
    SettingIs(doc.targets[j + 1..], name, ForeignKey(inst, doc), column);
  }
}
