/** The safety condition on values is exact: a document with one unsafe value never survives a
  * print and a parse. */
module ConfLimits {
  import opened Wrappers
  import opened Text
  import opened Dicts
  import opened Conf
  import opened ConfRoundTrip
  import opened ConfGlue

  // ---------------------------------------------------------------------
  // A line that ends in a backslash before its newline is never stored
  // ---------------------------------------------------------------------

  /** No newline comes straight after a backslash. */
  ghost predicate Unbroken(s: string) {
    forall i :: 0 <= i < |s| - 1 && s[i] == '\\' ==> s[i + 1] != '\n'
  }

  ghost predicate AllUnbroken(lines: seq<string>) {
    forall i :: 0 <= i < |lines| ==> Unbroken(lines[i])
  }

  lemma JoinedUnbroken(pending: Option<string>, line: string)
    requires OneLine(line) && (pending.Some? ==> Unbroken(pending.value) && !EndsWith(pending.value, '\\'))
    ensures Unbroken(Joined(pending, line))
  {
    var whole := Joined(pending, line);
    assert IsBreak('\n');
    forall i | 0 <= i < |whole| - 1 && whole[i] == '\\'
      ensures whole[i + 1] != '\n'
    {
      if pending.None? || i > |pending.value| {
        assert whole[i + 1] in line;
      } else if i + 1 < |pending.value| {
        assert pending.value[i] == whole[i] && pending.value[i + 1] == whole[i + 1];
      }
    }
  }

  lemma ContinuedUnbroken(line: string)
    requires Unbroken(line) && Continues(line)
    ensures line != ""
    ensures Unbroken(line[..|line| - 1]) && !EndsWith(line[..|line| - 1], '\\')
  {
    var kept := line[..|line| - 1];
    forall i | 0 <= i < |kept| - 1 && kept[i] == '\\'
      ensures kept[i + 1] != '\n'
    {
      assert line[i] == kept[i] && line[i + 1] == kept[i + 1];
    }
  }

  /** Joining continuations drops the backslash that stood before the newline. */
  lemma {:induction false} LogicalUnbroken(lines: seq<string>, pending: Option<string>)
    requires AllOneLine(lines) && (pending.Some? ==> Unbroken(pending.value) && !EndsWith(pending.value, '\\'))
    ensures AllUnbroken(Logical(lines, pending))
    decreases |lines|
  {
    hide Unbroken, OneLine, Continues;
    if lines != [] {
      assert OneLine(lines[0]);
      NoCR(lines[0]);
      var line := Joined(pending, lines[0]);
      JoinedUnbroken(pending, lines[0]);
      if Continues(line) {
        ContinuedUnbroken(line);
        LogicalUnbroken(lines[1..], Some(line[..|line| - 1]));
      } else {
        LogicalUnbroken(lines[1..], None);
      }
    }
  }

  ghost predicate UnbrokenValues(attributes: Attributes) {
    forall j :: 0 <= j < |attributes| ==> Unbroken(attributes[j].1)
  }

  ghost predicate UnbrokenDocument(doc: Document) {
    forall i :: 0 <= i < |doc| ==> UnbrokenValues(doc[i].1)
  }

  lemma SliceUnbroken(s: string, from: nat, to: nat)
    requires Unbroken(s) && from <= to <= |s|
    ensures Unbroken(s[from..to])
  {
    var part := s[from..to];
    forall i | 0 <= i < |part| - 1 && part[i] == '\\'
      ensures part[i + 1] != '\n'
    {
      assert s[from + i] == part[i] && s[from + i + 1] == part[i + 1];
    }
  }

  lemma StripUnbroken(s: string)
    requires Unbroken(s)
    ensures Unbroken(Strip(s))
  {
    hide Unbroken;
    LeftStripShape(s);
    RightStripShape(LeftStrip(s));
    var left := LeftStrip(s);
    SliceUnbroken(s, |s| - |left|, |s|);
    assert s[|s| - |left|..|s|] == left;
    SliceUnbroken(left, 0, |Strip(s)|);
    assert left[0..|Strip(s)|] == left[..|Strip(s)|];
  }

  lemma UnbrokenPut(doc: Document, name: string, key: string, value: string)
    requires UnbrokenDocument(doc) && Unbroken(value)
    ensures UnbrokenDocument(Put(doc, name, Put(Lookup(doc, name, []), key, value)))
  {
    hide Unbroken;
  }

  lemma UnbrokenParseLine(st: Parse, line: string)
    requires UnbrokenDocument(st.stanzas) && Unbroken(line)
    ensures UnbrokenDocument(ParseLine(st, line).stanzas)
  {
    hide Unbroken, Strip, IsComment;
    if '=' in line {
      var eq := FirstEquals(line);
      SliceUnbroken(line, eq + 1, |line|);
      assert line[eq + 1..|line|] == line[eq + 1..];
      StripUnbroken(line[eq + 1..]);
      UnbrokenPut(st.stanzas, st.current, Strip(line[..eq]), Strip(line[eq + 1..]));
    }
  }

  lemma {:induction false} UnbrokenParseLines(st: Parse, lines: seq<string>)
    requires UnbrokenDocument(st.stanzas) && AllUnbroken(lines)
    ensures UnbrokenDocument(ParseLines(st, lines).stanzas)
    decreases |lines|
  {
    hide Unbroken, UnbrokenDocument;
    if lines != [] {
      assert Unbroken(lines[0]);
      UnbrokenParseLine(st, lines[0]);
      UnbrokenParseLines(ParseLine(st, lines[0]), lines[1..]);
    }
  }

  lemma {:induction false} UnbrokenUpdate(d: Attributes, e: Attributes)
    requires UnbrokenValues(d) && UnbrokenValues(e)
    ensures UnbrokenValues(Update(d, e))
    decreases |e|
  {
    hide Unbroken;
    if e != [] {
      UnbrokenUpdate(Put(d, e[0].0, e[0].1), e[1..]);
    }
  }

  lemma {:induction false} UnbrokenFold(defaults: Attributes, doc: Document)
    requires UnbrokenValues(defaults) && UnbrokenDocument(doc)
    ensures UnbrokenDocument(FoldDefaults(defaults, doc))
  {
    hide UnbrokenValues;
    if doc != [] {
      UnbrokenFold(defaults, doc[1..]);
      UnbrokenUpdate(defaults, doc[0].1);
    }
  }

  /** Whatever text is parsed, no value it gives has a newline straight after a backslash. */
  lemma ParsedIsUnbroken(text: string)
    ensures UnbrokenDocument(ParseConf(text))
  {
    hide Unbroken, UnbrokenValues, SplitLines, DropBOM, Logical, FoldDefaults, ParseLines;
    var lines := SplitLines(DropBOM(text));
    SplitLinesOneLine(DropBOM(text));
    LogicalUnbroken(lines, None);
    assert UnbrokenDocument(START.stanzas) by { StartUnbroken(); }
    UnbrokenParseLines(START, Logical(lines, None));
    var st := ParseLines(START, Logical(lines, None));
    assert UnbrokenValues([]) by { StartUnbroken(); }
    UnbrokenFold(Lookup(st.stanzas, "default", []), st.stanzas);
  }

  lemma StartUnbroken()
    ensures UnbrokenDocument(START.stanzas) && UnbrokenValues([])
  {
  }

  lemma {:induction false} EndsInside(parts: seq<string>, i: nat)
    requires i < |parts| - 1 && EndsWith(parts[i], '\\')
    ensures !Unbroken(Join(parts, '\n'))
    decreases i
  {
    var whole, rest := Join(parts, '\n'), Join(parts[1..], '\n');
    if i == 0 {
      assert whole[|parts[0]| - 1] == '\\' && whole[|parts[0]|] == '\n';
    } else {
      EndsInside(parts[1..], i - 1);
      var k :| 0 <= k < |rest| - 1 && rest[k] == '\\' && rest[k + 1] == '\n';
      assert whole[|parts[0]| + 1 + k] == rest[k] && whole[|parts[0]| + 1 + k + 1] == rest[k + 1];
    }
  }

  lemma UnbrokenIsClosed(value: string)
    requires Unbroken(value)
    ensures ClosedValue(value)
  {
    JoinSplit(value, '\n');
    var parts := SplitOn(value, '\n');
    if !Closed(parts) {
      var i :| 0 <= i < |parts| - 1 && EndsWith(parts[i], '\\');
      EndsInside(parts, i);
    }
  }

  // ---------------------------------------------------------------------
  // An open value, wherever it stands
  // ---------------------------------------------------------------------

  ghost predicate Closeables(doc: Document) {
    forall i :: 0 <= i < |doc| ==> GoodName(doc[i].0) && Distinct(doc[i].1) && Closeable(doc[i].1)
  }

  lemma HeaderOpens(st: Parse, name: string)
    requires GoodName(name)
    ensures ParseLine(st, "[" + name + "]").current == name
    ensures forall n, k :: Stored(ParseLine(st, "[" + name + "]").stanzas, n, k) == Stored(st.stanzas, n, k)
  {
    hide Strip, IsHeader, IsComment, GoodName, Find;
    var line := "[" + name + "]";
    HeaderReads(name);
    forall n, k
      ensures Stored(ParseLine(st, line).stanzas, n, k) == Stored(st.stanzas, n, k)
    {
      PutAt(st.stanzas, name, [], n);
      EmptyHasNothing(k);
      AtHas(st.stanzas, name);
    }
  }

  lemma EmptyHasNothing(key: string)
    ensures At<string>([], key).None?
  {
  }

  lemma AtHas(doc: Document, name: string)
    ensures At(doc, name).None? <==> !Has(doc, name)
  {
  }

  /** A stanza's lines, read: its header, its glued attributes, and then the rest. */
  lemma StanzaReads(st: Parse, name: string, attributes: Attributes, blank: bool, more: seq<string>)
    requires GoodName(name) && Closeable(attributes) && (blank || more == [])
    ensures ParseLines(st, Logical(StanzaBody(name, attributes) + ((if blank then [""] else []) + more), None))
         == ParseLines(ParseLines(ParseLine(st, "[" + name + "]"), Glued(attributes, None, blank)), Logical(more, None))
  {
    hide IsBreak, IsSpace, Logical, AttributesLines, Continues, Closeable, ParseLine, Glued;
    var header, tail := "[" + name + "]", (if blank then [""] else []) + more;
    BracketsOneLine(name);
    NotOpen(name);
    var lines := AttributesLines(AsValues(attributes)) + tail;
    Associates([header], AttributesLines(AsValues(attributes)), tail);
    LogicalStep(header, lines, None);
    ReadsGlued(attributes, None, blank, more);
    ParseFirst(st, header, Logical(lines, None));
    ParseBoth(ParseLine(st, header), Glued(attributes, None, blank), Logical(more, None));
  }

  lemma ParseFirst(st: Parse, line: string, lines: seq<string>)
    ensures ParseLines(st, [line] + lines) == ParseLines(ParseLine(st, line), lines)
  {
    assert ([line] + lines)[1..] == lines;
  }

  lemma {:induction false} ParseBoth(st: Parse, a: seq<string>, b: seq<string>)
    ensures ParseLines(st, a + b) == ParseLines(ParseLines(st, a), b)
    decreases |a|
  {
    hide ParseLine;
    if a == [] {
      assert a + b == b;
    } else {
      assert a + b == [a[0]] + (a[1..] + b);
      ParseFirst(st, a[0], a[1..] + b);
      ParseBoth(ParseLine(st, a[0]), a[1..], b);
    }
  }

  /** The stanzas of a document leave every other stanza as it is. */
  lemma {:induction false} BodyLeaves(st: Parse, doc: Document, name: string, key: string)
    requires doc != [] && Closeables(doc) && forall i :: 0 <= i < |doc| ==> doc[i].0 != name
    ensures Stored(ParseLines(st, Logical(Body(doc), None)).stanzas, name, key) == Stored(st.stanzas, name, key)
    decreases |doc|
  {
    hide Logical, Closeable, Stored, Glued, GoodName, ParseLine, StanzaBody;
    var own, attributes := doc[0].0, doc[0].1;
    BodyReads(st, doc);
    HeaderOpens(st, own);
    StanzaLeaves(ParseLine(st, "[" + own + "]"), attributes, |doc| > 1, name, key);
    if |doc| > 1 {
      BodyLeaves(AfterFirst(st, doc), doc[1..], name, key);
    }
  }

  lemma StanzaLeaves(st: Parse, attributes: Attributes, blank: bool, name: string, key: string)
    requires Closeable(attributes) && name != st.current
    ensures ParseLines(st, Glued(attributes, None, blank)).current == st.current
    ensures Stored(ParseLines(st, Glued(attributes, None, blank)).stanzas, name, key) == Stored(st.stanzas, name, key)
  {
    hide GoodKey, Stored, Glued, Keyed;
    GluedShape(attributes, None, blank);
    KeyedLeave(st, Glued(attributes, None, blank), KeysOf(attributes), name, key);
  }

  /** The state after the first stanza and the blank line that follows it. */
  function AfterFirst(st: Parse, doc: Document): Parse
    requires doc != []
  {
    ParseLines(ParseLine(st, "[" + doc[0].0 + "]"), Glued(doc[0].1, None, |doc| > 1))
  }

  lemma BodyReads(st: Parse, doc: Document)
    requires doc != [] && Closeables(doc)
    ensures ParseLines(st, Logical(Body(doc), None)) ==
            if |doc| == 1 then AfterFirst(st, doc) else ParseLines(AfterFirst(st, doc), Logical(Body(doc[1..]), None))
  {
    hide Closeable, Glued, GoodName, ParseLine, StanzaBody;
    var more := if |doc| == 1 then [] else Body(doc[1..]);
    StanzaReads(st, doc[0].0, doc[0].1, |doc| > 1, more);
    if |doc| == 1 {
      assert Body(doc) == StanzaBody(doc[0].0, doc[0].1) + ([] + more);
    }
  }

  /** Wherever its stanza stands, a stanza's first open value is not what is stored under its key. */
  lemma {:induction false} BodySpoils(st: Parse, doc: Document, a: nat, i: nat)
    requires doc != [] && Closeables(doc) && Distinct(doc) && a < |doc|
    requires i < |doc[a].1| && Open(doc[a].1[i].1) && forall j :: 0 <= j < i ==> !Open(doc[a].1[j].1)
    ensures Spoilt(Stored(ParseLines(st, Logical(Body(doc), None)).stanzas, doc[a].0, doc[a].1[i].0), doc[a].1[i].1)
    decreases |doc|
  {
    hide Logical, Closeable, Stored, Glued, GoodName, ParseLine, StanzaBody, Open;
    BodyReads(st, doc);
    if a > 0 {
      assert doc[1..][a - 1] == doc[a];
      BodySpoils(AfterFirst(st, doc), doc[1..], a - 1, i);
    } else {
      HeaderOpens(st, doc[0].0);
      StanzaSpoils(ParseLine(st, "[" + doc[0].0 + "]"), doc[0].1, i, |doc| > 1);
      if |doc| > 1 {
        BodyLeaves(AfterFirst(st, doc), doc[1..], doc[0].0, doc[0].1[i].0);
      }
    }
  }

  lemma FirstOpen(attributes: Attributes, j: nat) returns (i: nat)
    requires j < |attributes| && Open(attributes[j].1)
    ensures i < |attributes| && Open(attributes[i].1) && forall k :: 0 <= k < i ==> !Open(attributes[k].1)
  {
    hide Open;
    i := 0;
    while !Open(attributes[i].1)
      invariant i <= j && forall k :: 0 <= k < i ==> !Open(attributes[k].1)
      decreases j - i
    {
      i := i + 1;
    }
  }

  /** Folding the defaults in keeps what a stanza itself says. */
  lemma {:induction false} UpdateKeeps(d: Attributes, e: Attributes, key: string)
    requires Distinct(e)
    ensures At(Update(d, e), key) == if At(e, key).Some? then At(e, key) else At(d, key)
    decreases |e|
  {
    hide Put, Find, At;
    if e == [] {
      EmptyHasNothing(key);
    } else {
      UpdateKeeps(Put(d, e[0].0, e[0].1), e[1..], key);
      PutAt(d, e[0].0, e[0].1, key);
      AtFirst(e, key);
    }
  }

  lemma AtFirst<V>(e: Dict<V>, key: string)
    requires e != [] && Distinct(e)
    ensures At(e, key) == if e[0].0 == key then Some(e[0].1) else At(e[1..], key)
    ensures e[0].0 == key ==> At(e[1..], key).None?
    ensures Distinct(e[1..])
  {
  }

  // ---------------------------------------------------------------------
  // A parse names each attribute once
  // ---------------------------------------------------------------------

  ghost predicate EachOnce(doc: Document) {
    forall i :: 0 <= i < |doc| ==> Distinct(doc[i].1)
  }

  lemma OncePut(doc: Document, name: string, attributes: Attributes)
    requires EachOnce(doc) && Distinct(attributes)
    ensures EachOnce(Put(doc, name, attributes))
  {
    hide Distinct;
  }

  lemma LookupOnce(doc: Document, name: string)
    requires EachOnce(doc)
    ensures Distinct(Lookup(doc, name, []))
  {
  }

  lemma {:induction false} ParsedOnce(st: Parse, lines: seq<string>)
    requires EachOnce(st.stanzas)
    ensures EachOnce(ParseLines(st, lines).stanzas)
    decreases |lines|
  {
    hide EachOnce, Strip, IsComment, Distinct, Lookup;
    if lines != [] {
      var line := lines[0];
      var stripped := Strip(line);
      LookupOnce(st.stanzas, st.current);
      if IsHeader(stripped) {
        assert Distinct<string>([]) by { EmptyDistinct(); }
        OncePut(st.stanzas, Strip(stripped[1..|stripped| - 1]), []);
      }
      if '=' in line {
        var n := FirstEquals(line);
        var attributes := Lookup(st.stanzas, st.current, []);
        PutDistinct(attributes, Strip(line[..n]), Strip(line[n + 1..]));
        OncePut(st.stanzas, st.current, Put(attributes, Strip(line[..n]), Strip(line[n + 1..])));
      }
      ParsedOnce(ParseLine(st, line), lines[1..]);
    }
  }

  lemma EmptyDistinct()
    ensures Distinct<string>([])
  {
  }

  lemma {:induction false} FoldAt(defaults: Attributes, stanzas: Document, name: string)
    requires name != "default" && At(stanzas, name).Some?
    ensures At(FoldDefaults(defaults, stanzas), name) == Some(Update(defaults, At(stanzas, name).value))
  {
    hide Update;
    if stanzas[0].0 != name {
      assert At(stanzas[1..], name) == At(stanzas, name);
      FoldAt(defaults, stanzas[1..], name);
    }
  }

  lemma {:induction false} AtOnce<V>(d: Dict<V>, i: nat)
    requires i < |d| && Distinct(d)
    ensures At(d, d[i].0) == Some(d[i].1)
  {
    if i > 0 {
      assert d[1..][i - 1] == d[i];
      assert d[0].0 != d[i].0;
      AtOnce(d[1..], i - 1);
    }
  }

  /** What is spoilt before the defaults are folded in, is spoilt after. */
  lemma SpoiltIsLost(stanzas: Document, doc: Document, a: nat, i: nat)
    requires EachOnce(stanzas) && Distinct(doc) && a < |doc| && Distinct(doc[a].1) && i < |doc[a].1| && doc[a].0 != "default"
    requires Spoilt(Stored(stanzas, doc[a].0, doc[a].1[i].0), doc[a].1[i].1)
    ensures FoldDefaults(Lookup(stanzas, "default", []), stanzas) != doc
  {
    hide Find, FoldDefaults, Update;
    var name, key := doc[a].0, doc[a].1[i].0;
    var defaults, own := Lookup(stanzas, "default", []), At(stanzas, name).value;
    OnceAt(stanzas, name);
    FoldAt(defaults, stanzas, name);
    UpdateKeeps(defaults, own, key);
    AtOnce(doc, a);
    AtOnce(doc[a].1, i);
  }

  lemma OnceAt(doc: Document, name: string)
    requires EachOnce(doc) && At(doc, name).Some?
    ensures Distinct(At(doc, name).value)
  {
  }

  // ---------------------------------------------------------------------
  // The condition is exact
  // ---------------------------------------------------------------------

  lemma BrokenIsLost(doc: Document, text: string, a: nat, i: nat)
    requires a < |doc| && i < |doc[a].1| && !ClosedValue(doc[a].1[i].1)
    ensures ParseConf(text) != doc
  {
    hide ParseConf, Unbroken, ClosedValue;
    ParsedIsUnbroken(text);
    if Unbroken(doc[a].1[i].1) {
      UnbrokenIsClosed(doc[a].1[i].1);
    } else {
      assert !UnbrokenValues(doc[a].1);
    }
  }

  lemma PrintedReads(doc: Document, header: string)
    requires GoodDocument(doc) && doc != []
    ensures ParseLines(START, Logical(SplitLines(DropBOM(RenderConf(AsPrinted(doc), header))), None))
         == ParseLines(START, Logical(Body(doc), None))
  {
    hide RenderConf, SplitLines, Logical, ParseLines, Body, GoodDocument, Comments, IsCommentLine, OneLine;
    PrintedLines(doc, header);
    if header != "" {
      SplitLinesOneLine(header);
      CommentsShape(SplitLines(header));
      HeaderSkipped(START, Comments(SplitLines(header)), None, Body(doc));
    }
  }

  lemma OpenIsLost(doc: Document, header: string, a: nat, j: nat)
    requires GoodDocument(doc) && a < |doc| && j < |doc[a].1| && Open(doc[a].1[j].1)
    requires forall b, k :: 0 <= b < |doc| && 0 <= k < |doc[b].1| ==> ClosedValue(doc[b].1[k].1)
    ensures ParseConf(RenderConf(AsPrinted(doc), header)) != doc
  {
    hide Open, ClosedValue, GoodKey, GoodText, Body, Logical, ParseLines, RenderConf, SplitLines, Spoilt, Stored, FoldDefaults;
    PrintedReads(doc, header);
    var i := FirstOpen(doc[a].1, j);
    BodySpoils(START, doc, a, i);
    assert EachOnce(START.stanzas) by { EmptyDistinct(); }
    ParsedOnce(START, Logical(Body(doc), None));
    SpoiltIsLost(ParseLines(START, Logical(Body(doc), None)).stanzas, doc, a, i);
  }

  /** An unsafe value anywhere in a document keeps it from coming back. */
  lemma UnsafeIsLost(doc: Document, header: string, a: nat, i: nat)
    requires GoodDocument(doc) && a < |doc| && i < |doc[a].1| && !Safe(doc[a].1[i].1)
    ensures ParseConf(RenderConf(AsPrinted(doc), header)) != doc
  {
    hide ParseConf, RenderConf, GoodDocument, Safe, Open, ClosedValue;
    if b, k :| 0 <= b < |doc| && 0 <= k < |doc[b].1| && !ClosedValue(doc[b].1[k].1) {
      BrokenIsLost(doc, RenderConf(AsPrinted(doc), header), b, k);
    } else {
      SafeExactly(doc[a].1[i].1);
      OpenIsLost(doc, header, a, i);
    }
  }

  /** Under any header a document comes back, order included, exactly when all its values are safe. */
  lemma RoundTripExactlyWhenSafe(doc: Document, header: string)
    requires GoodDocument(doc)
    ensures ParseConf(RenderConf(AsPrinted(doc), header)) == doc <==> AllSafe(doc)
  {
    hide ParseConf, RenderConf, GoodDocument, Safe;
    if AllSafe(doc) {
      RoundTrip(doc, header);
    } else {
      var a, i :| 0 <= a < |doc| && 0 <= i < |doc[a].1| && !Safe(doc[a].1[i].1);
      UnsafeIsLost(doc, header, a, i);
    }
  }

  /** A value ending in a lone backslash, such as a Windows path, is one the grammar cannot carry. */
  lemma TrailingBackslashIsLost(doc: Document, header: string, a: nat, i: nat, path: string)
    requires GoodDocument(doc) && a < |doc| && i < |doc[a].1| && doc[a].1[i].1 == path + "\\"
    requires '\n' !in path && !EndsWith(path, '\\')
    ensures ParseConf(RenderConf(AsPrinted(doc), header)) != doc
  {
    hide GoodDocument, RenderConf, ParseConf;
    assert SplitOn(path + "\\", '\n') == [path + "\\"];
    UnsafeIsLost(doc, header, a, i);
  }
}
