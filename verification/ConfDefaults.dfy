/** What a .conf file gives a stanza: the last of its own settings of a key, else the default. */
module ConfDefaults {
  import opened Wrappers
  import opened Text
  import opened Dicts
  import opened Conf

  // ------------------------------------------------------------------ the lines

  /** Neither blank nor a comment. */
  predicate Says(line: string) {
    var text := Strip(line);
    text != "" && text[0] != '#' && text[0] != ';'
  }

  /** The stanza that a line opens. */
  function Opens(line: string): Option<string> {
    var text := Strip(line);
    if |text| >= 2 && text[0] == '[' && text[|text| - 1] == ']' && '\n' !in text then Some(Strip(text[1..|text| - 1]))
    else None
  }

  predicate Sets(line: string) {
    Says(line) && Opens(line).None? && '=' in line
  }

  /** The stanza that settings after some lines belong to. */
  function Section(lines: seq<string>): string {
    if lines == [] then "default"
    else
      var last := lines[|lines| - 1];
      Opens(last).GetOr(Section(lines[..|lines| - 1]))
  }

  predicate Opened(lines: seq<string>, name: string) {
    exists i :: 0 <= i < |lines| && Opens(lines[i]) == Some(name)
  }

  /** The value of the last of the lines of a stanza that set a key. */
  function Given(lines: seq<string>, name: string, key: string): Option<string> {
    if lines == [] then None
    else
      var before, last := lines[..|lines| - 1], lines[|lines| - 1];
      if Sets(last) && Section(before) == name && Strip(last[..FirstEquals(last)]) == key then
        Some(Strip(last[FirstEquals(last) + 1..]))
      else Given(before, name, key)
  }

  // ------------------------------------------------------------ what they leave

  function ValueAt(stanzas: Document, name: string, key: string): Option<string> {
    At(Lookup(stanzas, name, []), key)
  }

  ghost predicate AllDistinct(stanzas: Document) {
    Distinct(stanzas) && forall i :: 0 <= i < |stanzas| ==> Distinct(stanzas[i].1)
  }

  /** The state after some lines. */
  ghost predicate Tells(st: Parse, lines: seq<string>) {
    && st.current == Section(lines)
    && AllDistinct(st.stanzas)
    && (forall name :: Has(st.stanzas, name) <==> name == "default" || Opened(lines, name))
    && (forall name, key :: ValueAt(st.stanzas, name, key) == Given(lines, name, key))
  }

  lemma HeaderOpens(line: string)
    ensures Opens(line).Some? <==> IsHeader(Strip(line))
    ensures Opens(line).Some? ==> Says(line) && Opens(line).value == Strip(Strip(line)[1..|Strip(line)| - 1])
    ensures Says(line) <==> !IsComment(Strip(line))
  {
    hide Strip;
    var text := Strip(line);
    if |text| >= 2 && text[0] == '[' && text[|text| - 1] == ']' {
      assert text == ['['] + text[1..|text| - 1] + [']'];
    }
  }

  lemma OpenedMore(lines: seq<string>, line: string, name: string)
    ensures Opened(lines + [line], name) <==> Opened(lines, name) || Opens(line) == Some(name)
  {
    hide Opens;
    if Opens(line) == Some(name) {
      assert (lines + [line])[|lines|] == line;
    }
    if i :| 0 <= i < |lines| && Opens(lines[i]) == Some(name) {
      assert (lines + [line])[i] == lines[i];
    }
  }

  lemma PutHas<V>(d: Dict<V>, key: string, value: V, other: string)
    ensures Has(Put(d, key, value), other) <==> other == key || Has(d, other)
    ensures forall fallback :: Lookup(Put(d, key, value), other, fallback) == if other == key then value else Lookup(d, other, fallback)
  {
    PutAt(d, key, value, other);
  }

  lemma FoundIsDistinct(stanzas: Document, name: string)
    requires AllDistinct(stanzas)
    ensures Distinct(Lookup(stanzas, name, []))
  {
  }

  lemma PutAllDistinct(stanzas: Document, name: string, attributes: Attributes)
    requires AllDistinct(stanzas) && Distinct(attributes)
    ensures AllDistinct(Put(stanzas, name, attributes))
  {
    PutDistinct(stanzas, name, attributes);
  }

  lemma LineTells(st: Parse, lines: seq<string>, line: string)
    requires Tells(st, lines)
    ensures Tells(ParseLine(st, line), lines + [line])
  {
    hide Strip, Opens, IsHeader, IsComment, Says, Opened, Put, Find, Distinct, AllDistinct;
    var more, next := lines + [line], ParseLine(st, line);
    assert more[..|lines|] == lines && more[|lines|] == line;
    HeaderOpens(line);
    forall name
      ensures Opened(more, name) <==> Opened(lines, name) || Opens(line) == Some(name)
    {
      OpenedMore(lines, line, name);
    }
    if Opens(line).Some? {
      OpeningTells(st, lines, line);
    } else if Sets(line) {
      SettingTells(st, lines, line);
    }
  }

  lemma OpeningTells(st: Parse, lines: seq<string>, line: string)
    requires Tells(st, lines) && Opens(line).Some? && Says(line)
    requires var name := Opens(line).value;
      ParseLine(st, line) == Parse(name, if Has(st.stanzas, name) then st.stanzas else Put(st.stanzas, name, []))
    ensures Tells(ParseLine(st, line), lines + [line])
  {
    hide Strip, Opens, Says, Opened, Put, Find, Distinct, AllDistinct, ParseLine, At, FirstEquals;
    var more, next, own := lines + [line], ParseLine(st, line), Opens(line).value;
    assert more[..|lines|] == lines && more[|lines|] == line;
    PutAllDistinct(st.stanzas, own, []) by { EmptyDistinct(); }
    forall name
      ensures Has(next.stanzas, name) <==> name == "default" || Opened(more, name)
      ensures Lookup(next.stanzas, name, []) == Lookup(st.stanzas, name, [])
    {
      OpenedMore(lines, line, name);
      PutHas(st.stanzas, own, [], name);
      MissingLookup(st.stanzas, name);
    }
    forall name, key
      ensures ValueAt(next.stanzas, name, key) == Given(more, name, key)
    {
      assert ValueAt(st.stanzas, name, key) == Given(lines, name, key);
    }
  }

  lemma EmptyDistinct()
    ensures Distinct<string>([])
  {
  }

  lemma MissingLookup(stanzas: Document, name: string)
    ensures !Has(stanzas, name) ==> Lookup(stanzas, name, []) == []
  {
  }

  lemma SettingTells(st: Parse, lines: seq<string>, line: string)
    requires Tells(st, lines) && Sets(line) && Opens(line).None?
    requires var n := FirstEquals(line);
      ParseLine(st, line) == Parse(st.current, Put(st.stanzas, st.current,
        Put(Lookup(st.stanzas, st.current, []), Strip(line[..n]), Strip(line[n + 1..]))))
    ensures Tells(ParseLine(st, line), lines + [line])
  {
    hide Strip, Opens, Says, Opened, Put, Find, Distinct, AllDistinct, ParseLine, At, FirstEquals;
    var more, next := lines + [line], ParseLine(st, line);
    assert more[..|lines|] == lines && more[|lines|] == line;
    var n := FirstEquals(line);
    var before := Lookup(st.stanzas, st.current, []);
    var after := Put(before, Strip(line[..n]), Strip(line[n + 1..]));
    FoundIsDistinct(st.stanzas, st.current);
    PutDistinct(before, Strip(line[..n]), Strip(line[n + 1..]));
    PutAllDistinct(st.stanzas, st.current, after);
    assert Has(st.stanzas, st.current) by { SectionIsOpen(lines); }
    forall name
      ensures Has(next.stanzas, name) <==> name == "default" || Opened(more, name)
      ensures Lookup(next.stanzas, name, []) == if name == st.current then after else Lookup(st.stanzas, name, [])
    {
      OpenedMore(lines, line, name);
      PutHas(st.stanzas, st.current, after, name);
    }
    forall name, key
      ensures ValueAt(next.stanzas, name, key) == Given(more, name, key)
    {
      assert ValueAt(st.stanzas, name, key) == Given(lines, name, key);
      PutAt(before, Strip(line[..n]), Strip(line[n + 1..]), key);
    }
  }

  lemma {:induction false} SectionIsOpen(lines: seq<string>)
    ensures Section(lines) == "default" || Opened(lines, Section(lines))
  {
    hide Opens, Opened;
    if lines != [] {
      var before, last := lines[..|lines| - 1], lines[|lines| - 1];
      SectionIsOpen(before);
      OpenedMore(before, last, Section(lines));
      assert lines == before + [last];
    }
  }

  lemma {:induction false} LinesTell(st: Parse, before: seq<string>, lines: seq<string>)
    requires Tells(st, before)
    ensures Tells(ParseLines(st, lines), before + lines)
    decreases |lines|
  {
    hide Tells, ParseLine;
    if lines == [] {
      assert before + lines == before;
    } else {
      LineTells(st, before, lines[0]);
      LinesTell(ParseLine(st, lines[0]), before + [lines[0]], lines[1..]);
      assert before + [lines[0]] + lines[1..] == before + lines;
    }
  }

  lemma StartTells()
    ensures Tells(START, [])
  {
    forall name
      ensures Has(START.stanzas, name) <==> name == "default"
    {
      assert Find(START.stanzas[1..], name).None?;
    }
  }

  // -------------------------------------------------------------- the defaults

  lemma {:induction false} UpdateAt<V>(d: Dict<V>, e: Dict<V>, key: string)
    requires Distinct(e)
    ensures At(Update(d, e), key) == if At(e, key).Some? then At(e, key) else At(d, key)
    decreases |e|
  {
    hide Put;
    if e != [] {
      TailDistinct(e);
      UpdateAt(Put(d, e[0].0, e[0].1), e[1..], key);
      PutAt(d, e[0].0, e[0].1, key);
      if e[0].0 == key {
        assert At(e[1..], key).None?;
      }
    }
  }

  lemma TailDistinct<V>(d: Dict<V>)
    requires d != [] && Distinct(d)
    ensures Distinct(d[1..]) && !Has(d[1..], d[0].0)
  {
    forall i | 0 <= i < |d| - 1
      ensures d[1..][i] == d[i + 1] && d[i + 1].0 != d[0].0
    {
    }
  }

  lemma {:induction false} FoldAt(defaults: Attributes, stanzas: Document, name: string)
    ensures At(FoldDefaults(defaults, stanzas), name) ==
            match At(stanzas, name)
            case None => None
            case Some(own) => if name == "default" then None else Some(Update(defaults, own))
  {
    hide Update;
    if stanzas != [] {
      FoldAt(defaults, stanzas[1..], name);
    }
  }

  /** What a file's text gives: a stanza for every name that it opens but default's, however often;
    * and in each of them, for a key, the last value that it sets there, else the last one set for
    * all, before any stanza or under default. */
  lemma ParsedExactly(text: string, name: string, key: string)
    ensures var lines := Logical(SplitLines(DropBOM(text)), None);
      var stanza := At(ParseConf(text), name);
      && (stanza.Some? <==> name != "default" && Opened(lines, name))
      && (stanza.Some? ==>
            At(stanza.value, key) == if Given(lines, name, key).Some? then Given(lines, name, key) else Given(lines, "default", key))
  {
    hide Logical, SplitLines, DropBOM, Given, Opened, Distinct, ParseLines, Update;
    var lines := Logical(SplitLines(DropBOM(text)), None);
    var st := ParseLines(START, lines);
    StartTells();
    LinesTell(START, [], lines);
    assert [] + lines == lines;
    var defaults := Lookup(st.stanzas, "default", []);
    FoldAt(defaults, st.stanzas, name);
    if At(st.stanzas, name).Some? {
      var own := Lookup(st.stanzas, name, []);
      FoundIsDistinct(st.stanzas, name);
      UpdateAt(defaults, own, key);
      assert ValueAt(st.stanzas, name, key) == Given(lines, name, key);
      assert ValueAt(st.stanzas, "default", key) == Given(lines, "default", key);
    }
  }

  /** A byte order mark in front of a text changes nothing. */
  lemma MarkIsSkipped(text: string)
    ensures ParseConf("\U{feff}" + text) == ParseConf(text)
  {
    assert ("\U{feff}" + text)[1..] == text;
  }
}
