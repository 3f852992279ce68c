/** Saved searches as stanzas: worker/regulator_agent/savedsearches.py, the SavedSearch record. */
module SavedSearches {
  import opened Wrappers
  import opened Text
  import opened Dicts
  import opened Conf
  import opened ConfRoundTrip

  const KEY_DESCRIPTION := "description"
  const KEY_SEARCH := "search"
  const KEY_EARLIEST := "dispatch.earliest_time"
  const KEY_LATEST := "dispatch.latest_time"
  const KEY_CRON := "cron_schedule"
  const KEY_ENABLE_SCHED := "enableSched"
  const KEY_DISABLED := "disabled"
  const KEY_APP := "request.ui_dispatch_app"
  const KEY_SCHEDULE_WINDOW := "schedule_window"
  const KEY_MAX_COUNT := "dispatch.max_count"

  const KNOWN: seq<string> := [
    KEY_DESCRIPTION, KEY_SEARCH, KEY_EARLIEST, KEY_LATEST, KEY_CRON,
    KEY_ENABLE_SCHED, KEY_DISABLED, KEY_APP, KEY_SCHEDULE_WINDOW, KEY_MAX_COUNT]

  const ANNOTATION := "regulator."

  datatype SavedSearch = SavedSearch(
    name: string,
    search: string,
    rawSearch: string,
    earliest: string,
    latest: string,
    cron: Option<string>,
    scheduled: bool,
    disabled: bool,
    app: Option<string>,
    description: string,
    scheduleWindow: string,
    maxCount: Option<int>,
    attributes: Attributes)

  predicate Truthy(value: string) {
    Lower(Strip(value)) in ["1", "true", "t", "yes", "y", "on"]
  }

  /** Starts with a generating command, or is nothing at all. */
  predicate Dispatchable(text: string) {
    || text == "" || text[0] == '|'
    || "search " <= Lower(text) || "search\n" <= Lower(text) || Lower(text) == "search"
  }

  function NormaliseSpl(search: string): string {
    var text := Strip(search);
    if Dispatchable(text) then text else "search " + text
  }

  lemma PrefixedIsDispatchable(text: string)
    requires text != "" && Trimmed(text)
    ensures Dispatchable("search " + text) && Trimmed("search " + text)
  {
    var once := "search " + text;
    assert forall i :: 0 <= i < 7 ==> Lower(once)[i] == once[i] == "search "[i];
    assert Lower(once)[..7] == "search ";
  }

  /** Whatever comes in, what goes out is trimmed and dispatchable, so normalising twice is normalising once. */
  lemma NormaliseTwice(search: string)
    ensures Dispatchable(NormaliseSpl(search))
    ensures NormaliseSpl(NormaliseSpl(search)) == NormaliseSpl(search)
  {
    StripTrims(search);
    var text := Strip(search);
    if !Dispatchable(text) {
      PrefixedIsDispatchable(text);
    }
    StripOfTrimmed(NormaliseSpl(search));
  }

  /** In any case, the word search, and then a blank, a newline or nothing. */
  predicate StartsWithSearch(text: string) {
    && |text| >= 6
    && (forall i :: 0 <= i < 6 ==> LowerChar(text[i]) == "search"[i])
    && (|text| > 6 ==> text[6] == ' ' || text[6] == '\n')
  }

  /** A search is trimmed, and the command that it leaves out is put in exactly when it starts neither
    * with a pipe nor with that command. */
  lemma NormaliseExactly(search: string)
    ensures var text := Strip(search);
      NormaliseSpl(search) ==
        if text != "" && text[0] != '|' && !StartsWithSearch(text) then "search " + text else text
  {
    var text := Strip(search);
    var lowered := Lower(text);
    if StartsWithSearch(text) {
      assert lowered[..6] == "search";
      if |text| == 6 {
        assert lowered == lowered[..6];
      } else {
        assert lowered[..7] == if text[6] == ' ' then "search " else "search\n";
      }
    } else if "search " <= lowered || "search\n" <= lowered || lowered == "search" {
      assert forall i :: 0 <= i < 6 ==> lowered[i] == "search"[i];
      assert false;
    }
  }

  function NonEmpty(s: string): Option<string> {
    if s == "" then None else Some(s)
  }

  /** The attributes a SavedSearch does not model, in their own order. */
  predicate IsKnown(key: string) {
    key in KNOWN
  }

  function Others(attributes: Attributes): Attributes {
    if attributes == [] then []
    else (if IsKnown(attributes[0].0) then [] else [attributes[0]]) + Others(attributes[1..])
  }

  function FromStanza(name: string, attributes: Attributes, appHint: Option<string>): SavedSearch {
    var raw := Lookup(attributes, KEY_SEARCH, "");
    var count := Strip(Lookup(attributes, KEY_MAX_COUNT, ""));
    var app := Strip(Lookup(attributes, KEY_APP, ""));
    SavedSearch(
      name,
      NormaliseSpl(raw),
      raw,
      Strip(Lookup(attributes, KEY_EARLIEST, "")),
      Strip(Lookup(attributes, KEY_LATEST, "")),
      NonEmpty(Strip(Lookup(attributes, KEY_CRON, ""))),
      Truthy(Lookup(attributes, KEY_ENABLE_SCHED, "0")),
      Truthy(Lookup(attributes, KEY_DISABLED, "0")),
      if app != "" then Some(app) else NonEmpty(appHint.GetOr("")),
      Strip(Lookup(attributes, KEY_DESCRIPTION, "")),
      Strip(Lookup(attributes, KEY_SCHEDULE_WINDOW, "")),
      if count == "" then None else ParseInt(count),
      Others(attributes))
  }

  /** The modelled attributes in printing order, absent ones as None. */
  function Entries(s: SavedSearch): (entries: seq<(string, Option<string>)>)
    ensures |entries| == |KNOWN| && forall i :: 0 <= i < |KNOWN| ==> entries[i].0 == KNOWN[i]
  {
    [ (KEY_DESCRIPTION, NonEmpty(s.description)),
      (KEY_SEARCH, Some(if s.rawSearch != "" then s.rawSearch else s.search)),
      (KEY_EARLIEST, NonEmpty(s.earliest)),
      (KEY_LATEST, NonEmpty(s.latest)),
      (KEY_CRON, NonEmpty(s.cron.GetOr(""))),
      (KEY_ENABLE_SCHED, Some(if s.scheduled then "1" else "0")),
      (KEY_DISABLED, if s.disabled then Some("1") else None),
      (KEY_APP, NonEmpty(s.app.GetOr(""))),
      (KEY_SCHEDULE_WINDOW, NonEmpty(s.scheduleWindow)),
      (KEY_MAX_COUNT, match s.maxCount case None => None case Some(n) => Some(DecimalInt(n))) ]
  }

  function Present(entries: seq<(string, Option<string>)>): Attributes {
    if entries == [] then []
    else (match entries[0].1 case None => [] case Some(v) => [(entries[0].0, v)]) + Present(entries[1..])
  }

  function WithoutAnnotations(attributes: Attributes): Attributes {
    if attributes == [] then []
    else (if ANNOTATION <= attributes[0].0 then [] else [attributes[0]]) + WithoutAnnotations(attributes[1..])
  }

  function AddMissing(stanza: Attributes, attributes: Attributes): Attributes
    decreases |attributes|
  {
    if attributes == [] then stanza
    else AddMissing(if Has(stanza, attributes[0].0) then stanza else stanza + [attributes[0]], attributes[1..])
  }

  function ToStanza(s: SavedSearch, includeAnnotations: bool): Attributes {
    AddMissing(Present(Entries(s)), if includeAnnotations then s.attributes else WithoutAnnotations(s.attributes))
  }

  method KeepPresent(entries: seq<(string, Option<string>)>) returns (stanza: Attributes)
    requires forall j, k :: 0 <= j < k < |entries| ==> entries[j].0 != entries[k].0
    ensures stanza == Present(entries)
  {
    stanza := [];
    for i := 0 to |entries|
      invariant stanza + Present(entries[i..]) == Present(entries)
      invariant forall j, k :: 0 <= j < |stanza| && i <= k < |entries| ==> stanza[j].0 != entries[k].0
    {
      assert entries[i..][1..] == entries[i + 1..];
      if entries[i].1.Some? {
        stanza := Put(stanza, entries[i].0, entries[i].1.value);
      }
    }
  }

  /** The stanza built one assignment at a time. */
  method BuildStanza(s: SavedSearch, includeAnnotations: bool) returns (stanza: Attributes)
    ensures stanza == ToStanza(s, includeAnnotations)
  {
    hide Entries, Present, WithoutAnnotations;
    KnownDistinct();
    stanza := KeepPresent(Entries(s));
    var more := if includeAnnotations then s.attributes else WithoutAnnotations(s.attributes);
    stanza := KeepMissing(stanza, more);
  }

  method KeepMissing(before: Attributes, more: Attributes) returns (stanza: Attributes)
    ensures stanza == AddMissing(before, more)
  {
    hide Find;
    stanza := before;
    for i := 0 to |more|
      invariant AddMissing(stanza, more[i..]) == AddMissing(before, more)
    {
      assert more[i..][0] == more[i] && more[i..][1..] == more[i + 1..];
      if !Has(stanza, more[i].0) {
        stanza := Put(stanza, more[i].0, more[i].1);
      }
    }
  }

  lemma KnownDistinct()
    ensures forall i, j :: 0 <= i < j < |KNOWN| ==> KNOWN[i] != KNOWN[j]
  {
    assert KEY_EARLIEST[9] != KEY_LATEST[9] && KEY_EARLIEST[9] != KEY_MAX_COUNT[9];
    assert |KEY_DISABLED| == 8 && |KEY_SEARCH| == 6 && |KEY_DESCRIPTION| == 11 && |KEY_ENABLE_SCHED| == 11;
    assert KEY_DESCRIPTION[0] != KEY_ENABLE_SCHED[0];
    assert |KEY_EARLIEST| == 22 && |KEY_LATEST| == 20 && |KEY_CRON| == 13 && |KEY_APP| == 23;
    assert |KEY_SCHEDULE_WINDOW| == 15 && |KEY_MAX_COUNT| == 18;
  }

  // ---------------------------------------------------------------------
  // What from_stanza can produce, and why to_stanza undoes it
  // ---------------------------------------------------------------------

  ghost predicate TrimmedSome(s: Option<string>) {
    s.Some? ==> s.value != "" && Trimmed(s.value)
  }

  ghost predicate Canonical(s: SavedSearch) {
    && s.search == NormaliseSpl(s.rawSearch)
    && Trimmed(s.earliest) && Trimmed(s.latest) && Trimmed(s.description) && Trimmed(s.scheduleWindow)
    && TrimmedSome(s.cron) && TrimmedSome(s.app)
    && Distinct(s.attributes) && forall i :: 0 <= i < |s.attributes| ==> s.attributes[i].0 !in KNOWN
  }

  lemma {:induction false} OthersShape(attributes: Attributes)
    requires Distinct(attributes)
    ensures Distinct(Others(attributes))
    ensures forall i :: 0 <= i < |Others(attributes)| ==>
              Others(attributes)[i] in attributes && Others(attributes)[i].0 !in KNOWN
  {
    if attributes != [] {
      OthersShape(attributes[1..]);
      forall i | 0 <= i < |Others(attributes[1..])|
        ensures Others(attributes[1..])[i].0 != attributes[0].0
      {
        assert Others(attributes[1..])[i] in attributes[1..];
      }
    }
  }

  /** Whatever is read is in canonical form, unless its app is taken from a hint with blanks around
    * it. */
  lemma FromStanzaCanonical(name: string, attributes: Attributes, appHint: Option<string>)
    requires Distinct(attributes)
    ensures Canonical(FromStanza(name, attributes, appHint)) <==>
            Strip(Lookup(attributes, KEY_APP, "")) != "" || Trimmed(appHint.GetOr(""))
  {
    OthersShape(attributes);
    forall s: string
      ensures Trimmed(Strip(s))
    {
      StripTrims(s);
    }
  }

  lemma {:induction false} OthersConcat(a: Attributes, b: Attributes)
    ensures Others(a + b) == Others(a) + Others(b)
  {
    hide IsKnown;
    if a == [] {
      assert a + b == b;
    } else {
      var first := if IsKnown(a[0].0) then [] else [a[0]];
      assert (a + b)[0] == a[0] && (a + b)[1..] == a[1..] + b;
      OthersConcat(a[1..], b);
      Associates(first, Others(a[1..]), Others(b));
    }
  }

  lemma {:induction false} OthersAll(attributes: Attributes)
    requires forall i :: 0 <= i < |attributes| ==> attributes[i].0 !in KNOWN
    ensures Others(attributes) == attributes
  {
    if attributes != [] {
      OthersAll(attributes[1..]);
    }
  }

  ghost predicate Stems(entries: seq<(string, Option<string>)>, pair: (string, string)) {
    exists i :: 0 <= i < |entries| && pair == (entries[i].0, entries[i].1.GetOr(""))
  }

  lemma StemsLater(entries: seq<(string, Option<string>)>, pair: (string, string))
    requires entries != [] && Stems(entries[1..], pair)
    ensures Stems(entries, pair)
    ensures (forall i, j :: 0 <= i < j < |entries| ==> entries[i].0 != entries[j].0) ==> pair.0 != entries[0].0
  {
    var tail := entries[1..];
    var i :| 0 <= i < |tail| && pair == (tail[i].0, tail[i].1.GetOr(""));
    assert tail[i] == entries[i + 1];
  }

  lemma {:induction false} PresentShape(entries: seq<(string, Option<string>)>)
    requires forall i, j :: 0 <= i < j < |entries| ==> entries[i].0 != entries[j].0
    ensures Distinct(Present(entries))
    ensures forall j :: 0 <= j < |Present(entries)| ==> Stems(entries, Present(entries)[j])
  {
    hide Stems;
    if entries != [] {
      var p, rest := Present(entries), Present(entries[1..]);
      PresentShape(entries[1..]);
      forall j | 0 <= j < |rest|
        ensures Stems(entries, rest[j]) && rest[j].0 != entries[0].0
      {
        StemsLater(entries, rest[j]);
      }
      match entries[0].1 {
        case None => assert p == rest;
        case Some(v) =>
          assert p == [(entries[0].0, v)] + rest;
          StemsFirst(entries, v);
      }
    }
  }

  lemma StemsFirst(entries: seq<(string, Option<string>)>, value: string)
    requires entries != [] && entries[0].1 == Some(value)
    ensures Stems(entries, (entries[0].0, value))
  {
    assert (entries[0].0, value) == (entries[0].0, entries[0].1.GetOr(""));
  }

  lemma {:induction false} LookupPresent(entries: seq<(string, Option<string>)>, rest: Attributes, i: nat, fallback: string)
    requires i < |entries| && !Has(rest, entries[i].0)
    requires forall a, b :: 0 <= a < b < |entries| ==> entries[a].0 != entries[b].0
    ensures Lookup(Present(entries) + rest, entries[i].0, fallback) == entries[i].1.GetOr(fallback)
    decreases |entries|
  {
    var tail := Present(entries[1..]) + rest;
    var all := Present(entries) + rest;
    match entries[0].1 {
      case None =>
        assert all == tail;
      case Some(v) =>
        assert all == [(entries[0].0, v)] + tail;
        assert all[1..] == tail;
    }
    if i == 0 {
      if entries[0].1.None? {
        NotPresent(entries[1..], rest, entries[0].0);
      }
    } else {
      LookupPresent(entries[1..], rest, i - 1, fallback);
    }
  }

  lemma {:induction false} NotPresent(entries: seq<(string, Option<string>)>, rest: Attributes, key: string)
    requires !Has(rest, key) && forall i :: 0 <= i < |entries| ==> entries[i].0 != key
    ensures !Has(Present(entries) + rest, key)
  {
    if entries == [] {
      assert Present(entries) + rest == rest;
    } else {
      NotPresent(entries[1..], rest, key);
      var tail := Present(entries[1..]) + rest;
      assert Present(entries) + rest ==
             (match entries[0].1 case None => [] case Some(v) => [(entries[0].0, v)]) + tail;
    }
  }

  lemma {:induction false} AddMissingAppends(stanza: Attributes, attributes: Attributes)
    requires Distinct(attributes)
    requires forall i, j :: 0 <= i < |stanza| && 0 <= j < |attributes| ==> stanza[i].0 != attributes[j].0
    ensures AddMissing(stanza, attributes) == stanza + attributes
    decreases |attributes|
  {
    if attributes != [] {
      assert !Has(stanza, attributes[0].0);
      AddMissingAppends(stanza + [attributes[0]], attributes[1..]);
      assert stanza + [attributes[0]] + attributes[1..] == stanza + attributes;
    } else {
      assert stanza + attributes == stanza;
    }
  }

  /** A canonical search prints as its modelled attributes, then its own others. */
  lemma StanzaIs(s: SavedSearch)
    requires Canonical(s)
    ensures ToStanza(s, true) == Present(Entries(s)) + s.attributes
    ensures Distinct(ToStanza(s, true))
    ensures Others(ToStanza(s, true)) == s.attributes
  {
    KnownDistinct();
    var p := Present(Entries(s));
    PresentShape(Entries(s));
    forall j | 0 <= j < |p|
      ensures p[j].0 in KNOWN
    {
      var i :| 0 <= i < |Entries(s)| && p[j] == (Entries(s)[i].0, Entries(s)[i].1.GetOr(""));
    }
    AddMissingAppends(p, s.attributes);
    OthersConcat(p, s.attributes);
    OthersAll(s.attributes);
    OthersNone(p);
  }

  lemma {:induction false} OthersNone(attributes: Attributes)
    requires forall i :: 0 <= i < |attributes| ==> attributes[i].0 in KNOWN
    ensures Others(attributes) == []
  {
    if attributes != [] {
      OthersNone(attributes[1..]);
    }
  }

  lemma EntryLookup(s: SavedSearch, i: nat, fallback: string)
    requires Canonical(s) && i < |KNOWN|
    ensures Lookup(ToStanza(s, true), KNOWN[i], fallback) == Entries(s)[i].1.GetOr(fallback)
  {
    StanzaIs(s);
    KnownDistinct();
    LookupPresent(Entries(s), s.attributes, i, fallback);
  }

  lemma TruthyFlag(on: bool)
    ensures Truthy(if on then "1" else "0") == on
  {
    assert Strip("1") == "1" && Strip("0") == "0";
    assert Lower("1") == "1" && Lower("0") == "0";
  }

  lemma TextsReadBack(s: SavedSearch, stanza: Attributes)
    requires Canonical(s) && stanza == ToStanza(s, true)
    ensures Strip(Lookup(stanza, KEY_DESCRIPTION, "")) == s.description
    ensures Strip(Lookup(stanza, KEY_EARLIEST, "")) == s.earliest
    ensures Strip(Lookup(stanza, KEY_LATEST, "")) == s.latest
    ensures Strip(Lookup(stanza, KEY_SCHEDULE_WINDOW, "")) == s.scheduleWindow
  {
    hide IsSpace, ToStanza;
    TextReadsBack(s, 0, s.description);
    TextReadsBack(s, 2, s.earliest);
    TextReadsBack(s, 3, s.latest);
    TextReadsBack(s, 8, s.scheduleWindow);
  }

  lemma TextReadsBack(s: SavedSearch, i: nat, text: string)
    requires Canonical(s) && i < |KNOWN| && Trimmed(text) && Entries(s)[i].1 == NonEmpty(text)
    ensures Strip(Lookup(ToStanza(s, true), KNOWN[i], "")) == text
  {
    hide IsSpace, ToStanza;
    EntryLookup(s, i, "");
    StripOfTrimmed(text);
  }

  lemma SearchReadsBack(s: SavedSearch, stanza: Attributes)
    requires Canonical(s) && stanza == ToStanza(s, true)
    ensures Lookup(stanza, KEY_SEARCH, "") == s.rawSearch
  {
    EntryLookup(s, 1, "");
    assert NormaliseSpl("") == "";
  }

  lemma OptionsReadBack(s: SavedSearch, stanza: Attributes)
    requires Canonical(s) && stanza == ToStanza(s, true)
    ensures NonEmpty(Strip(Lookup(stanza, KEY_CRON, ""))) == s.cron
    ensures NonEmpty(Strip(Lookup(stanza, KEY_APP, ""))) == s.app
  {
    hide ToStanza, Lookup;
    EntryLookup(s, 4, "");
    EntryLookup(s, 7, "");
  }

  lemma FlagsReadBack(s: SavedSearch, stanza: Attributes)
    requires Canonical(s) && stanza == ToStanza(s, true)
    ensures Truthy(Lookup(stanza, KEY_ENABLE_SCHED, "0")) == s.scheduled
    ensures Truthy(Lookup(stanza, KEY_DISABLED, "0")) == s.disabled
  {
    EntryLookup(s, 5, "0");
    EntryLookup(s, 6, "0");
    TruthyFlag(s.scheduled);
    TruthyFlag(s.disabled);
  }

  lemma CountReadsBack(s: SavedSearch, stanza: Attributes)
    requires Canonical(s) && stanza == ToStanza(s, true)
    ensures var count := Strip(Lookup(stanza, KEY_MAX_COUNT, ""));
            s.maxCount == if count == "" then None else ParseInt(count)
  {
    hide ToStanza, Lookup, ParseInt, DecimalInt;
    EntryLookup(s, 9, "");
    if s.maxCount.Some? {
      DecimalIntTrimmed(s.maxCount.value);
      StripOfTrimmed(DecimalInt(s.maxCount.value));
      ParseDecimal(s.maxCount.value);
    } else {
      StripOfTrimmed("");
    }
  }

  /** from_stanza(to_stanza(s)) == s for everything from_stanza can produce. */
  lemma StanzaRoundTrip(s: SavedSearch)
    requires Canonical(s)
    ensures FromStanza(s.name, ToStanza(s, true), None) == s
  {
    var stanza := ToStanza(s, true);
    assert Others(stanza) == s.attributes by { StanzaIs(s); }
    SearchReadsBack(s, stanza);
    TextsReadBack(s, stanza);
    OptionsReadBack(s, stanza);
    FlagsReadBack(s, stanza);
    CountReadsBack(s, stanza);
  }

  // ---------------------------------------------------------------------
  // Whole files
  // ---------------------------------------------------------------------

  function ParseAll(doc: Document, appHint: Option<string>): seq<SavedSearch> {
    if doc == [] then [] else [FromStanza(doc[0].0, doc[0].1, appHint)] + ParseAll(doc[1..], appHint)
  }

  function ParseSavedSearches(text: string, appHint: Option<string>): seq<SavedSearch> {
    ParseAll(ParseConf(text), appHint)
  }

  function Stanzas(searches: seq<SavedSearch>): Document {
    if searches == [] then [] else [(searches[0].name, ToStanza(searches[0], true))] + Stanzas(searches[1..])
  }

  /** The dictionary comprehension over the searches: a repeated name keeps the last stanza. */
  function RenderSavedSearches(searches: seq<SavedSearch>, header: string): string {
    RenderConf(AsPrinted(Update([], Stanzas(searches))), header)
  }

  ghost predicate Printable(s: SavedSearch) {
    && Canonical(s) && GoodName(s.name)
    && forall i :: 0 <= i < |ToStanza(s, true)| ==>
         var (key, value) := ToStanza(s, true)[i]; GoodKey(key) && GoodText(value) && Safe(value)
  }

  lemma {:induction false} StanzasAt(searches: seq<SavedSearch>)
    ensures |Stanzas(searches)| == |searches|
    ensures forall i :: 0 <= i < |searches| ==> Stanzas(searches)[i] == (searches[i].name, ToStanza(searches[i], true))
  {
    hide ToStanza;
    if searches != [] {
      StanzasAt(searches[1..]);
    }
  }

  lemma PrintableStanza(s: SavedSearch)
    requires Printable(s)
    ensures GoodAttributes(ToStanza(s, true))
    ensures forall j :: 0 <= j < |ToStanza(s, true)| ==> Safe(ToStanza(s, true)[j].1)
  {
    StanzaIs(s);
    var stanza := ToStanza(s, true);
    forall i | 0 <= i < |stanza|
      ensures GoodKey(stanza[i].0) && GoodText(stanza[i].1) && Safe(stanza[i].1)
    {
      var (key, value) := stanza[i];
    }
  }

  lemma StanzasGood(searches: seq<SavedSearch>)
    requires forall i :: 0 <= i < |searches| ==> Printable(searches[i])
    requires forall i, j :: 0 <= i < j < |searches| ==> searches[i].name != searches[j].name
    ensures GoodDocument(Stanzas(searches)) && AllSafe(Stanzas(searches))
  {
    hide ToStanza, GoodAttributes, GoodName, Safe, Canonical, Stanzas, Printable;
    var doc := Stanzas(searches);
    StanzasAt(searches);
    assert Distinct(doc);
    forall i | 0 <= i < |doc|
      ensures GoodName(doc[i].0) && GoodAttributes(doc[i].1)
      ensures forall j :: 0 <= j < |doc[i].1| ==> Safe(doc[i].1[j].1)
    {
      PrintableStanza(searches[i]);
      PrintableName(searches[i]);
    }
  }

  lemma PrintableName(s: SavedSearch)
    requires Printable(s)
    ensures GoodName(s.name)
  {
  }

  lemma {:induction false} ParseAllStanzas(searches: seq<SavedSearch>)
    requires forall i :: 0 <= i < |searches| ==> Canonical(searches[i])
    ensures ParseAll(Stanzas(searches), None) == searches
  {
    hide IsSpace, ToStanza, FromStanza, Canonical;
    if searches != [] {
      ParseAllStanzas(searches[1..]);
      StanzaRoundTrip(searches[0]);
      assert Stanzas(searches)[1..] == Stanzas(searches[1..]);
    }
  }

  /** parse_savedsearches(render_savedsearches(searches)) == searches, in file order. */
  lemma FileRoundTrip(searches: seq<SavedSearch>, header: string)
    requires forall i :: 0 <= i < |searches| ==> Printable(searches[i])
    requires forall i, j :: 0 <= i < j < |searches| ==> searches[i].name != searches[j].name
    ensures ParseSavedSearches(RenderSavedSearches(searches, header), None) == searches
  {
    var doc := Stanzas(searches);
    StanzasGood(searches);
    UpdateAppends([], doc);
    assert [] + doc == doc;
    RoundTrip(doc, header);
    ParseAllStanzas(searches);
  }

  // ---------------------------------------------------------------------
  // What is said of a switch, and what is left out
  // ---------------------------------------------------------------------

  predicate SameLetters(a: string, b: string) {
    |a| == |b| && forall i :: 0 <= i < |a| ==> LowerChar(a[i]) == b[i]
  }

  predicate SaysOn(text: string) {
    exists word :: word in ["1", "true", "t", "yes", "y", "on"] && SameLetters(Strip(text), word)
  }

  /** A switch is on where it says one of six words, in any case and with any blanks around it; a search
    * that says nothing of it is neither scheduled nor disabled. */
  lemma SwitchesRead(name: string, attributes: Attributes, appHint: Option<string>)
    ensures var s := FromStanza(name, attributes, appHint);
      && (s.scheduled <==> SaysOn(Lookup(attributes, "enableSched", "")))
      && (s.disabled <==> SaysOn(Lookup(attributes, "disabled", "")))
  {
    SwitchRead(attributes, "enableSched");
    SwitchRead(attributes, "disabled");
  }

  lemma SwitchRead(attributes: Attributes, key: string)
    ensures Truthy(Lookup(attributes, key, "0")) <==> SaysOn(Lookup(attributes, key, ""))
  {
    var given := Strip(Lookup(attributes, key, ""));
    if Has(attributes, key) {
      forall word: string
        ensures SameLetters(given, word) <==> Lower(given) == word
      {
      }
    } else {
      assert Strip("0") == "0" && Lower("0") == "0" && Strip("") == "";
    }
  }

  lemma {:induction false} WithoutThem(attributes: Attributes, pair: (string, string))
    ensures pair in WithoutAnnotations(attributes) <==> pair in attributes && !("regulator." <= pair.0)
  {
    if attributes != [] {
      WithoutThem(attributes[1..], pair);
    }
  }

  lemma {:induction false} WithoutDistinct(attributes: Attributes)
    requires Distinct(attributes)
    ensures Distinct(WithoutAnnotations(attributes))
  {
    if attributes != [] {
      WithoutDistinct(attributes[1..]);
      forall i | 0 <= i < |WithoutAnnotations(attributes[1..])|
        ensures WithoutAnnotations(attributes[1..])[i].0 != attributes[0].0
      {
        WithoutThem(attributes[1..], WithoutAnnotations(attributes[1..])[i]);
      }
    }
  }

  lemma KnownIsNoAnnotation(key: string)
    requires key in KNOWN
    ensures !(ANNOTATION <= key)
  {
    assert ANNOTATION[2] == 'g' && KEY_APP[2] == 'q';
    assert ANNOTATION[0] == 'r';
  }

  /** Printed without its annotations, a search has all that it has printed with them but those. */
  lemma BareStanza(s: SavedSearch, pair: (string, string))
    requires Canonical(s)
    ensures pair in ToStanza(s, false) <==> pair in ToStanza(s, true) && !("regulator." <= pair.0)
  {
    hide Entries, Present, WithoutAnnotations, AddMissing, Canonical;
    KnownDistinct();
    var p, bare := Present(Entries(s)), WithoutAnnotations(s.attributes);
    StanzaIs(s);
    BareAppends(s);
    WithoutThem(s.attributes, pair);
    if pair in p {
      PresentIsKnown(s, pair);
      KnownIsNoAnnotation(pair.0);
    }
  }

  lemma PresentIsKnown(s: SavedSearch, pair: (string, string))
    requires pair in Present(Entries(s))
    ensures pair.0 in KNOWN
  {
    KnownDistinct();
    PresentShape(Entries(s));
    var j :| 0 <= j < |Present(Entries(s))| && Present(Entries(s))[j] == pair;
    var i :| 0 <= i < |Entries(s)| && pair == (Entries(s)[i].0, Entries(s)[i].1.GetOr(""));
  }

  lemma BareAppends(s: SavedSearch)
    requires Canonical(s)
    ensures ToStanza(s, false) == Present(Entries(s)) + WithoutAnnotations(s.attributes)
  {
    hide Entries, Present;
    var p, bare := Present(Entries(s)), WithoutAnnotations(s.attributes);
    WithoutDistinct(s.attributes);
    forall i, j | 0 <= i < |p| && 0 <= j < |bare|
      ensures p[i].0 != bare[j].0
    {
      PresentIsKnown(s, p[i]);
      WithoutThem(s.attributes, bare[j]);
    }
    AddMissingAppends(p, bare);
  }
}
