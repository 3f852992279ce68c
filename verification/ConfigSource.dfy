/** The shared copy of the configuration: pulled, edited here, and pushed back whole. */
module ConfigSource {
  import opened Wrappers
  import opened Dicts
  import opened Text
  import opened ConfigIo

  /** A row by its section and its usable name. */
  datatype Id = Id(section: Section, name: string)

  type Carried = map<Id, Json>

  /** Whether this instance has a row. A scenario is there when its scenario.yaml is. */
  predicate Present(inst: Instance, id: Id) {
    match id.section
    case Targets => Has(inst.targets, id.name)
    case Scenarios => "scenario.yaml" in At(inst.scenarios, id.name).GetOr(map[])
    case Baselines => Has(inst.baselines, id.name)
  }

  // ----------------------------------------------------------------------- pull

  /** The runs of the shared copy this instance does not have yet. */
  function WithRuns(inst: Instance, archived: map<string, RunRef>): Instance {
    inst.(runs := archived + inst.runs)
  }

  /** The configuration, then the runs, then the baselines that wait for them. */
  function Applied(inst: Instance, doc: Document, archived: map<string, RunRef>, now: real): Instance {
    ImportBaselines(WithRuns(Imported(inst, doc, now), archived), doc.baselines, now)
  }

  /** The rows of one section that could not be applied, over those carried so far. */
  function CarriedFrom(carried: Carried, section: Section, rows: seq<Json>, inst: Instance): Carried {
    if rows == [] then carried
    else
      var before, row := CarriedFrom(carried, section, rows[..|rows| - 1], inst), rows[|rows| - 1];
      var id := Id(section, NameOf(section, row));
      if id.name != "" && !Present(inst, id) then before[id := row] else before
  }

  function NotApplied(doc: Document, inst: Instance): Carried {
    CarriedFrom(
      CarriedFrom(CarriedFrom(map[], Targets, doc.targets, inst), Scenarios, doc.scenarios, inst),
      Baselines, doc.baselines, inst)
  }

  /** The usable names of a document. */
  function Names(doc: Document): set<Id> {
    SectionNames(Targets, doc.targets) + SectionNames(Scenarios, doc.scenarios) + SectionNames(Baselines, doc.baselines)
  }

  function SectionNames(section: Section, rows: seq<Json>): set<Id> {
    set i | 0 <= i < |rows| && NameOf(section, rows[i]) != "" :: Id(section, NameOf(section, rows[i]))
  }

  // ------------------------------------------------------------- what is pushed

  /** A row's own name, as an export writes it. */
  function RawName(section: Section, row: Json): string {
    if row.Object? then Shown(Field(row.entries, section.Key())) else ""
  }

  function RawNames(section: Section, rows: seq<Json>): set<Id> {
    set i | 0 <= i < |rows| :: Id(section, RawName(section, rows[i]))
  }

  /** What this instance itself puts in a document. */
  function OwnNames(inst: Instance): set<Id> {
    var doc := Exported(inst);
    RawNames(Targets, doc.targets) + RawNames(Scenarios, doc.scenarios) + RawNames(Baselines, doc.baselines)
  }

  /** The carried rows that are still needed: those this instance has not got to export itself. */
  function Kept(carried: Carried, inst: Instance): Carried {
    map id | id in carried && id !in OwnNames(inst) :: carried[id]
  }

  function KeptOf(carried: Carried, section: Section, own: set<Id>): Carried {
    map id | id in carried && id.section == section && id !in own :: carried[id]
  }

  /** A document as what it says, section by section, without regard to order. */
  datatype Content = Content(fingerprint: Option<string>, targets: multiset<Json>, scenarios: multiset<Json>, baselines: multiset<Json>)

  function Digest(doc: Document): Content {
    Content(doc.fingerprint, multiset(doc.targets), multiset(doc.scenarios), multiset(doc.baselines))
  }

  /** The rows carried under some names, which are all those of the section, once each. */
  ghost predicate Lists(ids: seq<Id>, rows: seq<Json>, carried: Carried, section: Section) {
    && |ids| == |rows| && (forall i, j :: 0 <= i < j < |ids| ==> ids[i] != ids[j])
    && (forall i :: 0 <= i < |ids| ==> ids[i] in carried && ids[i].section == section && rows[i] == carried[ids[i]])
    && (forall id :: id in carried && id.section == section ==> id in ids)
  }

  /** The carried rows of a section, in some order. */
  ghost predicate RowsAre(rows: seq<Json>, carried: Carried, section: Section) {
    exists ids :: Lists(ids, rows, carried, section)
  }

  /** An export with rows added to each section. */
  function Extended(doc: Document, targets: seq<Json>, scenarios: seq<Json>, baselines: seq<Json>): Document {
    Document(doc.fingerprint, doc.targets + targets, doc.scenarios + scenarios, doc.baselines + baselines)
  }

  /** What a push writes: this instance's own rows, then the carried ones it has not got. */
  ghost predicate Publishes(doc: Document, inst: Instance, carried: Carried) {
    exists targets: seq<Json>, scenarios: seq<Json>, baselines: seq<Json> ::
      && RowsAre(targets, Kept(carried, inst), Targets)
      && RowsAre(scenarios, Kept(carried, inst), Scenarios)
      && RowsAre(baselines, Kept(carried, inst), Baselines)
      && doc == Extended(Exported(inst), targets, scenarios, baselines)
  }

  // ---------------------------------------------------------------- the instance

  class ConfigSync {
    const store: ConfigStore
    var shared: Option<Document>   // the object in the shared copy
    var carried: Carried
    var synced: Option<Content>

    constructor (store: ConfigStore, shared: Option<Document>)
      ensures this.store == store && this.shared == shared && carried == map[] && synced == None
    {
      this.store, this.shared := store, shared;
      carried, synced := map[], None;
    }

    /** Apply the shared copy and its runs to this instance; what could not be applied is carried. */
    method Pull(archived: map<string, RunRef>, now: real)
      modifies this`carried, this`synced, store
      ensures shared.Some? ==>
        && store.View() == Applied(old(store.View()), shared.value, archived, now)
        && carried == NotApplied(shared.value, store.View())
        && synced == Some(Digest(shared.value))
      ensures shared.None? ==>
        store.View() == WithRuns(old(store.View()), archived) && carried == map[] && synced == old(synced)
    {
      hide Imported, ImportBaselines, CarriedFrom;
      if shared.None? {
        store.runs := archived + store.runs;
        carried := map[];
        return;
      }
      store.ImportConfig(shared.value, now);
      store.runs := archived + store.runs;
      store.ImportLabels(shared.value.baselines, now);
      var rows := CollectCarried(map[], Targets, shared.value.targets);
      rows := CollectCarried(rows, Scenarios, shared.value.scenarios);
      carried := CollectCarried(rows, Baselines, shared.value.baselines);
      synced := Some(Digest(shared.value));
    }

    method CollectCarried(before: Carried, section: Section, rows: seq<Json>) returns (after: Carried)
      ensures after == CarriedFrom(before, section, rows, store.View())
    {
      hide NameOf, Present;
      after := before;
      for i := 0 to |rows|
        invariant after == CarriedFrom(before, section, rows[..i], store.View())
      {
        assert rows[..i + 1][..i] == rows[..i];
        var id := Id(section, NameOf(section, rows[i]));
        if id.name != "" && !Present(Instance(store.key, store.targets, store.scenarios, store.baselines, store.runs), id) {
          after := after[id := rows[i]];
        }
      }
      assert rows[..|rows|] == rows;
    }

    /** One section's carried rows: those exported here are let go, the others appended. */
    method Append(section: Section, own: set<Id>) returns (rows: seq<Json>, kept: Carried)
      ensures kept == KeptOf(carried, section, own)
      ensures RowsAre(rows, kept, section)
    {
      rows, kept := [], map[];
      ghost var ids: seq<Id> := [];
      var left := carried.Keys;
      while left != {}
        invariant left <= carried.Keys
        invariant kept == map id | id in carried && id !in left && id.section == section && id !in own :: carried[id]
        invariant |ids| == |rows| && (forall i, j :: 0 <= i < j < |ids| ==> ids[i] != ids[j])
        invariant forall i :: 0 <= i < |ids| ==>
          ids[i] in kept && ids[i] !in left && ids[i].section == section && rows[i] == kept[ids[i]]
        invariant forall id :: id in kept ==> id in ids
        decreases left
      {
        var id :| id in left;
        left := left - {id};
        if id.section == section && id !in own {
          rows, ids, kept := rows + [carried[id]], ids + [id], kept[id := carried[id]];
        }
      }
      assert Lists(ids, rows, kept, section);
    }

    /** One writer: what was last pulled or pushed is what the shared copy says. */
    ghost predicate InStep()
      reads this
    {
      synced.Some? ==> shared.Some? && synced.value == Digest(shared.value)
    }

    method Document() returns (doc: Document)
      modifies this`carried
      ensures Publishes(doc, store.View(), old(carried))
      ensures carried == Kept(old(carried), store.View())
    {
      hide Exported, RawNames, RowsAre, Publishes, Kept;
      var own := store.ExportConfig();
      var names := RawNames(Targets, own.targets) + RawNames(Scenarios, own.scenarios) + RawNames(Baselines, own.baselines);
      var targets, keptTargets := Append(Targets, names);
      var scenarios, keptScenarios := Append(Scenarios, names);
      var baselines, keptBaselines := Append(Baselines, names);
      doc := Extended(own, targets, scenarios, baselines);
      PublishesAll(store.View(), carried, targets, scenarios, baselines);
      carried := keptTargets + keptScenarios + keptBaselines;
    }

    /** Write the whole document, unless the write fails. */
    method PushConfig(written: bool) returns (doc: Document)
      modifies this
      ensures Publishes(doc, store.View(), old(carried)) && carried == Kept(old(carried), store.View())
      ensures written ==> shared == Some(doc) && synced == Some(Digest(doc))
      ensures !written ==> shared == old(shared) && synced == old(synced)
    {
      doc := Document();
      if written {
        shared := Some(doc);
        synced := Some(Digest(doc));
      }
    }

    /** Push when the configuration has changed. Afterwards the shared copy says what a push from
      * here would say, if writing is on and worked. */
    method MaybePush(enabled: bool, written: bool) returns (wrote: bool)
      requires InStep()
      modifies this
      ensures InStep()
      ensures !enabled ==> shared == old(shared) && carried == old(carried)
      ensures enabled ==> carried == Kept(old(carried), store.View())
      ensures enabled && (written || !wrote) ==>
        shared.Some? && exists doc :: Publishes(doc, store.View(), old(carried)) && Digest(shared.value) == Digest(doc)
    {
      hide Publishes, Kept;
      if !enabled {
        return false;
      }
      var doc := Document();
      wrote := synced != Some(Digest(doc));
      if wrote {
        KeptTwice(old(carried), store.View());
        var pushed := PushConfig(written);
      }
    }
  }

  lemma KeptTwice(carried: Carried, inst: Instance)
    ensures Kept(Kept(carried, inst), inst) == Kept(carried, inst)
    ensures forall doc :: Publishes(doc, inst, Kept(carried, inst)) <==> Publishes(doc, inst, carried)
  {
    hide Exported, RowsAre, OwnNames;
    assert Kept(Kept(carried, inst), inst) == Kept(carried, inst);
  }

  lemma PublishesAll(inst: Instance, carried: Carried, targets: seq<Json>, scenarios: seq<Json>, baselines: seq<Json>)
    requires RowsAre(targets, KeptOf(carried, Targets, OwnNames(inst)), Targets)
    requires RowsAre(scenarios, KeptOf(carried, Scenarios, OwnNames(inst)), Scenarios)
    requires RowsAre(baselines, KeptOf(carried, Baselines, OwnNames(inst)), Baselines)
    ensures Publishes(Extended(Exported(inst), targets, scenarios, baselines), inst, carried)
    ensures Kept(carried, inst) == KeptOf(carried, Targets, OwnNames(inst)) +
              KeptOf(carried, Scenarios, OwnNames(inst)) + KeptOf(carried, Baselines, OwnNames(inst))
  {
    hide RowsAre, OwnNames, Exported;
    var kept, own := Kept(carried, inst), OwnNames(inst);
    SameRows(targets, KeptOf(carried, Targets, own), kept, Targets);
    SameRows(scenarios, KeptOf(carried, Scenarios, own), kept, Scenarios);
    SameRows(baselines, KeptOf(carried, Baselines, own), kept, Baselines);
  }

  lemma SameRows(rows: seq<Json>, some: Carried, all: Carried, section: Section)
    requires RowsAre(rows, some, section)
    requires forall id :: id in some <==> id in all && id.section == section
    requires forall id :: id in some ==> some[id] == all[id]
    ensures RowsAre(rows, all, section)
  {
    var ids :| Lists(ids, rows, some, section);
    assert Lists(ids, rows, all, section);
  }
}
