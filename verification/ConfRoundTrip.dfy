/** Parsing what was printed gives back what was printed, exactly when values allow it. */
module ConfRoundTrip {
  import opened Wrappers
  import opened Text
  import opened Dicts
  import opened Conf

  // ---------------------------------------------------------------------
  // What may be printed
  // ---------------------------------------------------------------------

  predicate SafeParts(parts: seq<string>)
    requires |parts| > 0
  {
    if |parts| == 1 then !Continues(parts[0])
    else !EndsWith(parts[0], '\\') && SafeParts(parts[1..])
  }

  /** The grammar's blind spot: no line but the last may end in a backslash, and the last not in a lone one. */
  predicate Safe(value: string) {
    SafeParts(SplitOn(value, '\n'))
  }

  ghost predicate GoodName(name: string) {
    Trimmed(name) && OneLine(name) && name != "default"
  }

  ghost predicate GoodKey(key: string) {
    Trimmed(key) && OneLine(key) && '=' !in key && (key == "" || key[0] !in "#;[")
  }

  /** Trimmed, with a newline as its only kind of line break. */
  ghost predicate GoodText(value: string) {
    Trimmed(value) && forall c :: c in value ==> c == '\n' || !IsBreak(c)
  }

  ghost predicate GoodAttributes(attributes: Attributes) {
    Distinct(attributes)
    && forall i :: 0 <= i < |attributes| ==> GoodKey(attributes[i].0) && GoodText(attributes[i].1)
  }

  ghost predicate GoodDocument(doc: Document) {
    Distinct(doc)
    && forall i :: 0 <= i < |doc| ==> GoodName(doc[i].0) && GoodAttributes(doc[i].1)
  }

  ghost predicate AllSafe(doc: Document) {
    forall i, j :: 0 <= i < |doc| && 0 <= j < |doc[i].1| ==> Safe(doc[i].1[j].1)
  }

  function AsValues(attributes: Attributes): Dict<Value> {
    if attributes == [] then [] else [(attributes[0].0, Plain(attributes[0].1))] + AsValues(attributes[1..])
  }

  function AsPrinted(doc: Document): Dict<Dict<Value>> {
    if doc == [] then [] else [(doc[0].0, AsValues(doc[0].1))] + AsPrinted(doc[1..])
  }

  // ---------------------------------------------------------------------
  // Text to physical lines
  // ---------------------------------------------------------------------

  lemma {:induction false} LineEndOfLine(line: string, rest: string)
    requires OneLine(line)
    ensures LineEnd(line + "\n" + rest) == |line|
  {
    var s := line + "\n" + rest;
    if line != "" {
      assert s[1..] == line[1..] + "\n" + rest;
      LineEndOfLine(line[1..], rest);
    }
  }

  lemma SplitFirst(line: string, rest: string)
    requires OneLine(line)
    ensures SplitLines(line + "\n" + rest) == [line] + SplitLines(rest)
  {
    var s := line + "\n" + rest;
    LineEndOfLine(line, rest);
    assert s[|line|] == '\n' && s[..|line|] == line && s[|line| + 1..] == rest;
  }

  /** Lines joined with newlines split back into the same lines. */
  lemma {:induction false} SplitJoined(lines: seq<string>)
    requires |lines| > 0 && forall i :: 0 <= i < |lines| ==> OneLine(lines[i])
    ensures SplitLines(Join(lines, '\n') + "\n") == lines
  {
    var first := lines[0];
    if |lines| == 1 {
      SplitFirst(first, "");
      assert first + "\n" + "" == first + "\n";
    } else {
      var rest := Join(lines[1..], '\n') + "\n";
      assert Join(lines, '\n') + "\n" == first + "\n" + rest;
      SplitFirst(first, rest);
      SplitJoined(lines[1..]);
    }
  }

  lemma {:induction false} JoinAppend(lines: seq<string>, last: string)
    requires |lines| > 0
    ensures Join(lines + [last], '\n') == Join(lines, '\n') + "\n" + last
  {
    if |lines| > 1 {
      JoinAppend(lines[1..], last);
      assert (lines + [last])[1..] == lines[1..] + [last];
    } else {
      assert (lines + [last])[1..] == [last];
    }
  }

  lemma {:induction false} JoinEndsWithLast(lines: seq<string>)
    requires |lines| > 0 && lines[|lines| - 1] != ""
    ensures var s := Join(lines, '\n');
            s != "" && s[|s| - 1] == lines[|lines| - 1][|lines[|lines| - 1]| - 1]
  {
    if |lines| > 1 {
      JoinEndsWithLast(lines[1..]);
    }
  }

  /** What render_conf's tail does to a body followed by its closing blank line. */
  lemma RenderedSplits(body: seq<string>)
    requires |body| > 0 && body[|body| - 1] != ""
    requires forall i :: 0 <= i < |body| ==> OneLine(body[i])
    ensures var text := DropNewlines(JoinLines(body + [""])) + "\n";
            SplitLines(text) == body && (body[0] != "" && body[0][0] != '\U{feff}' ==> DropBOM(text) == text)
  {
    JoinAppend(body, "");
    JoinEndsWithLast(body);
    var joined := Join(body, '\n');
    assert joined + "\n" + "" == joined + "\n";
    assert (joined + "\n")[..|joined|] == joined;
    var last := body[|body| - 1];
    assert last[|last| - 1] in last;
    assert DropNewlines(joined) == joined;
    SplitJoined(body);
    if |body| > 1 {
      assert joined == body[0] + "\n" + Join(body[1..], '\n');
    }
  }

  // ---------------------------------------------------------------------
  // Physical lines to logical lines
  // ---------------------------------------------------------------------

  lemma NoCR(line: string)
    requires OneLine(line)
    ensures DropCR(line) == line
  {
    if line != "" {
      assert line[|line| - 1] in line;
    }
  }

  lemma Backslashed(line: string)
    requires OneLine(line)
    ensures OneLine(line + "\\") && (line + "\\")[..|line|] == line
  {
  }

  lemma LogicalStep(line: string, rest: seq<string>, pending: Option<string>)
    requires OneLine(line)
    ensures var joined := Joined(pending, line);
            Logical([line] + rest, pending) ==
              if Continues(joined) then Logical(rest, Some(joined[..|joined| - 1])) else [joined] + Logical(rest, None)
  {
    NoCR(line);
    assert ([line] + rest)[0] == line && ([line] + rest)[1..] == rest;
  }

  /** No part but the last ends in a backslash. */
  predicate Closed(parts: seq<string>) {
    forall i :: 0 <= i < |parts| - 1 ==> !EndsWith(parts[i], '\\')
  }

  lemma {:induction false} SafePartsExactly(parts: seq<string>)
    requires |parts| > 0
    ensures SafeParts(parts) <==> Closed(parts) && !Continues(parts[|parts| - 1])
  {
    if |parts| > 1 {
      SafePartsExactly(parts[1..]);
      assert Closed(parts) <==> !EndsWith(parts[0], '\\') && Closed(parts[1..]) by { ClosedTail(parts); }
    }
  }

  lemma ClosedTail(parts: seq<string>)
    requires |parts| > 1
    ensures Closed(parts) <==> !EndsWith(parts[0], '\\') && Closed(parts[1..])
  {
    assert forall i :: 0 < i < |parts| ==> parts[i] == parts[1..][i - 1];
  }

  /** A line that is complete, or open to the next one. */
  function Carry(line: string, open: bool, rest: seq<string>): seq<string>
    requires open ==> line != ""
  {
    if open then Logical(rest, Some(line[..|line| - 1])) else [line] + Logical(rest, None)
  }

  /** A line closed with a backslash waits for the next one. */
  lemma StaysOpen(pending: Option<string>, part: string, rest: seq<string>)
    requires OneLine(part) && !EndsWith(part, '\\')
    ensures Logical([part + "\\"] + rest, pending) == Logical(rest, Some(Joined(pending, part)))
  {
    hide IsBreak, Logical;
    Backslashed(part);
    LogicalStep(part + "\\", rest, pending);
    var line := Joined(pending, part);
    assert Joined(pending, part + "\\") == line + "\\";
    assert (line + "\\")[..|line|] == line;
  }

  lemma LastPartCarries(pending: Option<string>, part: string, rest: seq<string>)
    requires OneLine(part)
    ensures Continues(part) ==> Joined(pending, part) != ""
    ensures Logical([part] + rest, pending) == Carry(Joined(pending, part), Continues(part), rest)
  {
    hide IsBreak, Logical;
    LogicalStep(part, rest, pending);
    assert Continues(Joined(pending, part)) == Continues(part);
  }

  lemma ContinuationSplit(parts: seq<string>, rest: seq<string>)
    requires |parts| > 1
    ensures ContinuationLines(parts) + rest == [parts[0] + "\\"] + (ContinuationLines(parts[1..]) + rest)
  {
  }

  lemma JoinSplitsFirst(pending: Option<string>, parts: seq<string>)
    requires |parts| > 1
    ensures Joined(pending, Join(parts, '\n')) == Joined(Some(Joined(pending, parts[0])), Join(parts[1..], '\n'))
  {
    var rest := Join(parts[1..], '\n');
    assert Join(parts, '\n') == parts[0] + "\n" + rest;
    if pending.Some? {
      assert pending.value + "\n" + (parts[0] + "\n" + rest) == (pending.value + "\n" + parts[0]) + "\n" + rest;
    }
  }

  /** However its last part leaves it, a closed value's lines join to one line. */
  lemma {:induction false} ContinuationGlues(pending: Option<string>, parts: seq<string>, rest: seq<string>)
    requires |parts| > 0 && Closed(parts) && forall i :: 0 <= i < |parts| ==> OneLine(parts[i])
    ensures Continues(parts[|parts| - 1]) ==> Joined(pending, Join(parts, '\n')) != ""
    ensures Logical(ContinuationLines(parts) + rest, pending)
         == Carry(Joined(pending, Join(parts, '\n')), Continues(parts[|parts| - 1]), rest)
    decreases |parts|
  {
    hide IsBreak, Logical, Continues, Join, ContinuationLines, Carry;
    if |parts| == 1 {
      assert ContinuationLines(parts) + rest == [parts[0]] + rest && Join(parts, '\n') == parts[0] by { OnePart(parts); }
      LastPartCarries(pending, parts[0], rest);
    } else {
      ClosedTail(parts);
      ContinuationSplit(parts, rest);
      StaysOpen(pending, parts[0], ContinuationLines(parts[1..]) + rest);
      JoinSplitsFirst(pending, parts);
      ContinuationGlues(Some(Joined(pending, parts[0])), parts[1..], rest);
    }
  }

  lemma OnePart(parts: seq<string>)
    requires |parts| == 1
    ensures ContinuationLines(parts) == [parts[0]] && Join(parts, '\n') == parts[0]
  {
  }

  lemma SplitParts(value: string)
    requires GoodText(value)
    ensures var parts := SplitOn(value, '\n');
            Join(parts, '\n') == value && forall i :: 0 <= i < |parts| ==> OneLine(parts[i])
  {
    JoinSplit(value, '\n');
    var parts := SplitOn(value, '\n');
    forall i | 0 <= i < |parts|
      ensures OneLine(parts[i])
    {
      PartOfJoin(parts, i);
    }
  }

  lemma {:induction false} PartOfJoin(parts: seq<string>, i: nat)
    requires i < |parts|
    ensures forall c :: c in parts[i] ==> c in Join(parts, '\n')
  {
    if i > 0 {
      PartOfJoin(parts[1..], i - 1);
    }
  }

  /** The lines of an attribute as the grammar sees them: its key begins the first of its parts. */
  function HeadedParts(key: string, value: string): (parts: seq<string>)
    ensures |parts| > 0
  {
    [key + " = " + SplitOn(value, '\n')[0]] + SplitOn(value, '\n')[1..]
  }

  predicate ClosedValue(value: string) {
    Closed(SplitOn(value, '\n'))
  }

  /** A value that leaves its line open to the next: its last part ends in a lone backslash. */
  predicate Open(value: string) {
    Continues(SplitOn(value, '\n')[|SplitOn(value, '\n')| - 1])
  }

  lemma SafeExactly(value: string)
    ensures Safe(value) <==> ClosedValue(value) && !Open(value)
  {
    SafePartsExactly(SplitOn(value, '\n'));
  }

  lemma HeadedLines(key: string, value: string)
    requires GoodText(value)
    ensures AttributeLines(key, value) == ContinuationLines(HeadedParts(key, value))
    ensures Join(HeadedParts(key, value), '\n') == key + " = " + value
  {
    hide IsBreak, SplitOn;
    SplitParts(value);
    var parts := SplitOn(value, '\n');
    assert HeadedParts(key, value)[1..] == parts[1..];
  }

  lemma HeadedShape(key: string, value: string)
    requires GoodKey(key) && GoodText(value)
    ensures forall i :: 0 <= i < |HeadedParts(key, value)| ==> OneLine(HeadedParts(key, value)[i])
    ensures ClosedValue(value) ==> Closed(HeadedParts(key, value))
    ensures Open(value) <==> Continues(HeadedParts(key, value)[|HeadedParts(key, value)| - 1])
  {
    hide IsBreak, SplitOn;
    SplitParts(value);
    HeadShape(key);
    var parts, headed := SplitOn(value, '\n'), HeadedParts(key, value);
    forall i | 0 <= i < |headed|
      ensures OneLine(headed[i]) && EndsWith(headed[i], '\\') == EndsWith(parts[i], '\\') && Continues(headed[i]) == Continues(parts[i])
    {
      if i == 0 {
        HeadKeepsEnd(key + " = ", parts[0]);
      } else {
        assert headed[i] == parts[i];
      }
    }
  }

  lemma HeadKeepsEnd(head: string, part: string)
    requires OneLine(head) && OneLine(part) && head != "" && !EndsWith(head, '\\')
    ensures OneLine(head + part)
    ensures EndsWith(head + part, '\\') == EndsWith(part, '\\') && Continues(head + part) == Continues(part)
  {
    hide IsBreak;
  }

  /** A closed value comes back as one line, newlines and all, joined to what was open before it
    * and open to what follows when it ends in a lone backslash. */
  lemma AttributeGlues(key: string, value: string, pending: Option<string>, rest: seq<string>)
    requires GoodKey(key) && GoodText(value) && ClosedValue(value)
    ensures Joined(pending, key + " = " + value) != ""
    ensures Logical(AttributeLines(key, value) + rest, pending) == Carry(Joined(pending, key + " = " + value), Open(value), rest)
  {
    hide IsBreak, IsSpace, SplitOn, Logical, Join, Continues, ContinuationLines, AttributeLines, HeadedParts, ClosedValue, Open, Closed, Carry;
    HeadedLines(key, value);
    HeadedShape(key, value);
    ContinuationGlues(pending, HeadedParts(key, value), rest);
  }

  /** A safe value comes back as one logical line, newlines and all. */
  lemma AttributeJoins(key: string, value: string, rest: seq<string>)
    requires GoodKey(key) && GoodText(value) && Safe(value)
    ensures Logical(AttributeLines(key, value) + rest, None) == [key + " = " + value] + Logical(rest, None)
  {
    hide GoodKey, GoodText, Safe, ClosedValue, Open, Logical, AttributeLines;
    SafeExactly(value);
    AttributeGlues(key, value, None, rest);
  }

  lemma HeadShape(key: string)
    requires OneLine(key)
    ensures var head := key + " = "; OneLine(head) && head != "" && !EndsWith(head, '\\')
  {
    var head := key + " = ";
    assert head[|head| - 1] == ' ';
    assert OneLine(" = ") by {
      assert !IsBreak(' ') && !IsBreak('=');
    }
    forall c | c in head
      ensures !IsBreak(c)
    {
      assert c in key || c in " = ";
    }
  }

  // ---------------------------------------------------------------------
  // Logical lines to stanzas
  // ---------------------------------------------------------------------

  lemma {:induction false} FirstEqualsIs(line: string, m: nat)
    requires m < |line| && line[m] == '=' && '=' !in line[..m]
    ensures '=' in line && FirstEquals(line) == m
  {
    if m > 0 {
      assert line[0] == line[..m][0] && line[1..][..m - 1] == line[..m][1..];
      FirstEqualsIs(line[1..], m - 1);
    }
  }

  lemma FirstEqualsAt(key: string, rest: string)
    requires '=' !in key
    ensures FirstEquals(key + "=" + rest) == |key|
  {
    var line := key + "=" + rest;
    assert line[..|key|] == key;
    FirstEqualsIs(line, |key|);
  }

  lemma StripHead(s: string)
    requires s != "" && !IsSpace(s[0])
    ensures Strip(s) != "" && Strip(s)[0] == s[0]
  {
    RightStripKeepsHead(s);
  }

  /** The part of the line before the value neither hides it in a comment nor opens a stanza. */
  lemma AttributeIsNoHeader(key: string, value: string)
    requires GoodKey(key)
    ensures var stripped := Strip(key + " = " + value); !IsComment(stripped) && !IsHeader(stripped)
  {
    var line := key + " = " + value;
    if key == "" {
      assert line[0] == ' ' && line[1..] == "= " + value;
      assert !IsSpace('=');
      assert LeftStrip(line) == LeftStrip("= " + value) == "= " + value;
      RightStripKeepsHead("= " + value);
    } else {
      assert line[0] == key[0];
      StripHead(line);
    }
  }

  predicate KeyOf(line: string, key: string) {
    key + " = " <= line
  }

  /** A line that begins with a key stores under it, in the stanza at hand. */
  lemma KeyStores(st: Parse, line: string, key: string)
    requires GoodKey(key) && KeyOf(line, key)
    ensures ParseLine(st, line)
         == Parse(st.current, Put(st.stanzas, st.current, Put(Lookup(st.stanzas, st.current, []), key, Strip(line[|key| + 3..]))))
  {
    var value := line[|key| + 3..];
    assert line == key + " = " + value;
    AttributeIsNoHeader(key, value);
    StripBlanks(key);
    var spaced := key + " ";
    FirstEqualsAt(spaced, " " + value);
    BlankFirst(value);
    hide IsSpace, Strip, IsComment, IsHeader;
    assert line == spaced + "=" + (" " + value);
    assert line[..|spaced|] == spaced && line[|spaced| + 1..] == " " + value;
  }

  lemma BlankFirst(s: string)
    ensures Strip(" " + s) == Strip(s)
  {
    assert (" " + s)[1..] == s;
  }

  lemma ParseAttribute(st: Parse, key: string, value: string)
    requires GoodKey(key) && Trimmed(value)
    ensures ParseLine(st, key + " = " + value)
         == Parse(st.current, Put(st.stanzas, st.current, Put(Lookup(st.stanzas, st.current, []), key, value)))
  {
    hide IsSpace, Strip, ParseLine, GoodKey, Put, Lookup;
    var line := key + " = " + value;
    assert line[|key| + 3..] == value;
    KeyStores(st, line, key);
    StripOfTrimmed(value);
  }

  lemma HeaderReads(name: string)
    requires GoodName(name)
    ensures var line := "[" + name + "]";
      && Strip(line) == line && IsHeader(line) && !IsComment(line)
      && line[1..|line| - 1] == name && Strip(name) == name
  {
    var line := "[" + name + "]";
    assert line[1..|line| - 1] == name;
    assert '\n' !in name by {
      assert IsBreak('\n');
    }
    assert Trimmed(line) by {
      assert line[0] == '[' && line[|line| - 1] == ']' && !IsSpace('[') && !IsSpace(']');
    }
    hide IsSpace, IsBreak, Strip;
    StripOfTrimmed(line);
    StripOfTrimmed(name);
  }

  lemma ParseHeader(st: Parse, name: string)
    requires GoodName(name) && !Has(st.stanzas, name)
    ensures ParseLine(st, "[" + name + "]") == Parse(name, st.stanzas + [(name, [])])
  {
    hide Strip, IsHeader, IsComment, GoodName, Find;
    HeaderReads(name);
  }

  lemma ParseBlank(st: Parse)
    ensures ParseLine(st, "") == st
  {
  }

  lemma FindLast<V>(d: Dict<V>, key: string, value: V)
    requires !Has(d, key)
    ensures Find(d + [(key, value)], key) == Some(|d|)
  {
    var e := d + [(key, value)];
    assert e[|d|].0 == key;
    assert forall i :: 0 <= i < |d| ==> e[i].0 == d[i].0;
  }

  function AttributeLogical(attributes: Attributes): seq<string> {
    if attributes == [] then []
    else [attributes[0].0 + " = " + attributes[0].1] + AttributeLogical(attributes[1..])
  }

  lemma PutInLast(name: string, before: Document, done: Attributes, key: string, value: string)
    requires !Has(before, name) && !Has(done, key)
    ensures var doc := before + [(name, done)];
            Put(doc, name, Put(Lookup(doc, name, []), key, value)) == before + [(name, done + [(key, value)])]
  {
    FindLast(before, name, done);
  }

  lemma {:induction false} ParseAttributes(name: string, before: Document, done: Attributes, todo: Attributes, rest: seq<string>)
    requires !Has(before, name) && GoodAttributes(done + todo)
    ensures ParseLines(Parse(name, before + [(name, done)]), AttributeLogical(todo) + rest)
         == ParseLines(Parse(name, before + [(name, done + todo)]), rest)
    decreases |todo|
  {
    hide IsSpace, IsBreak, ParseLine;
    if todo == [] {
      assert done + todo == done;
      assert AttributeLogical(todo) + rest == rest;
    } else {
      var key, value := todo[0].0, todo[0].1;
      var line, more := key + " = " + value, AttributeLogical(todo[1..]) + rest;
      assert (done + todo)[|done|] == todo[0];
      assert !Has(done, key) by {
        assert forall i :: 0 <= i < |done| ==> (done + todo)[i] == done[i];
      }
      var next := done + [(key, value)];
      assert done + todo == next + todo[1..];
      calc {
        ParseLines(Parse(name, before + [(name, done)]), AttributeLogical(todo) + rest);
      == { assert AttributeLogical(todo) + rest == [line] + more; assert ([line] + more)[1..] == more; }
        ParseLines(ParseLine(Parse(name, before + [(name, done)]), line), more);
      == { ParseAttribute(Parse(name, before + [(name, done)]), key, value); PutInLast(name, before, done, key, value); }
        ParseLines(Parse(name, before + [(name, next)]), more);
      == { ParseAttributes(name, before, next, todo[1..], rest); }
        ParseLines(Parse(name, before + [(name, done + todo)]), rest);
      }
    }
  }

  // ---------------------------------------------------------------------
  // The body of a document: every line but the closing blank
  // ---------------------------------------------------------------------

  function StanzaBody(name: string, attributes: Attributes): seq<string> {
    ["[" + name + "]"] + AttributesLines(AsValues(attributes))
  }

  function Body(doc: Document): seq<string>
    requires doc != []
  {
    StanzaBody(doc[0].0, doc[0].1) + if |doc| == 1 then [] else [""] + Body(doc[1..])
  }

  lemma {:induction false} BodyThenBlank(doc: Document)
    requires doc != []
    ensures StanzasLines(AsPrinted(doc)) == Body(doc) + [""]
  {
    var printed := AsPrinted(doc);
    assert printed[0] == (doc[0].0, AsValues(doc[0].1)) && printed[1..] == AsPrinted(doc[1..]);
    if |doc| > 1 {
      BodyThenBlank(doc[1..]);
    } else {
      assert AsPrinted(doc[1..]) == [];
    }
  }

  lemma {:induction false} NoBreaksNormalised(value: string)
    requires forall c :: c in value ==> c == '\n' || !IsBreak(c)
    ensures NormaliseBreaks(value) == value
  {
    if value != "" {
      assert value[0] in value;
      NoBreaksNormalised(value[1..]);
    }
  }

  lemma {:induction false} ContinuationLinesOneLine(parts: seq<string>)
    requires |parts| > 0 && forall i :: 0 <= i < |parts| ==> OneLine(parts[i])
    ensures var lines := ContinuationLines(parts);
            && |lines| == |parts| && lines[|lines| - 1] == parts[|parts| - 1]
            && forall i :: 0 <= i < |lines| ==> OneLine(lines[i])
    decreases |parts|
  {
    if |parts| > 1 {
      ContinuationLinesOneLine(parts[1..]);
      assert forall i :: 0 < i < |parts| ==> ContinuationLines(parts)[i] == ContinuationLines(parts[1..])[i - 1];
    }
  }

  lemma LastPartNonEmpty(value: string)
    requires GoodText(value) && |SplitOn(value, '\n')| > 1
    ensures SplitOn(value, '\n')[|SplitOn(value, '\n')| - 1] != ""
  {
    var parts := SplitOn(value, '\n');
    JoinSplit(value, '\n');
    var init, last := parts[..|parts| - 1], parts[|parts| - 1];
    assert parts == init + [last];
    JoinAppend(init, last);
    assert last == "" ==> EndsWith(value, '\n');
  }

  /** The printed lines of one attribute are single lines, the last of them not blank. */
  lemma AttributeLinesShape(key: string, value: string)
    requires GoodKey(key) && GoodText(value)
    ensures var lines := AttributeLines(key, value);
            && lines != [] && lines[|lines| - 1] != ""
            && forall i :: 0 <= i < |lines| ==> OneLine(lines[i])
  {
    SplitParts(value);
    var parts := SplitOn(value, '\n');
    assert OneLine(key + " = ");
    if |parts| > 1 {
      ContinuationLinesOneLine(parts[1..]);
      LastPartNonEmpty(value);
    }
  }

  lemma {:induction false} StanzaBodyShape(name: string, attributes: Attributes)
    requires GoodName(name) && GoodAttributes(attributes)
    ensures var lines := AttributesLines(AsValues(attributes));
            && (lines != [] ==> lines[|lines| - 1] != "")
            && forall i :: 0 <= i < |lines| ==> OneLine(lines[i])
  {
    if attributes != [] {
      var key, value := attributes[0].0, attributes[0].1;
      StanzaBodyShape(name, attributes[1..]);
      AttributeLinesShape(key, value);
      NoBreaksNormalised(value);
      var first, more := AttributeLines(key, value), AttributesLines(AsValues(attributes[1..]));
      assert AttributesLines(AsValues(attributes)) == first + more;
    }
  }

  ghost predicate AllOneLine(lines: seq<string>) {
    forall i :: 0 <= i < |lines| ==> OneLine(lines[i])
  }

  lemma AllOneLineConcat(a: seq<string>, b: seq<string>)
    requires AllOneLine(a) && AllOneLine(b)
    ensures AllOneLine(a + b)
  {
  }

  lemma BracketsOneLine(name: string)
    requires OneLine(name)
    ensures OneLine("[" + name + "]")
  {
  }

  /** Lines as a document begins and ends with them. */
  ghost predicate Shaped(lines: seq<string>) {
    && AllOneLine(lines) && lines != [] && lines[|lines| - 1] != ""
    && lines[0] != "" && (lines[0][0] == '#' || lines[0][0] == '[')
  }

  lemma ShapedAround(a: seq<string>, b: seq<string>)
    requires Shaped(a) && Shaped(b)
    ensures Shaped(a + ([""] + b))
  {
    hide OneLine;
    assert OneLine("") by { BlankOneLine(); }
    AllOneLineConcat([""], b);
    AllOneLineConcat(a, [""] + b);
  }

  lemma BlankOneLine()
    ensures OneLine("")
  {
  }

  lemma StanzaShaped(name: string, attributes: Attributes)
    requires GoodName(name) && GoodAttributes(attributes)
    ensures Shaped(StanzaBody(name, attributes))
  {
    hide IsBreak, AttributesLines, GoodAttributes, OneLine;
    StanzaBodyShape(name, attributes);
    assert OneLine("[" + name + "]") by { GoodNameOneLine(name); }
    AllOneLineConcat(["[" + name + "]"], AttributesLines(AsValues(attributes)));
  }

  lemma GoodNameOneLine(name: string)
    requires GoodName(name)
    ensures OneLine("[" + name + "]")
  {
    BracketsOneLine(name);
  }

  lemma {:induction false} BodyShape(doc: Document)
    requires doc != [] && GoodDocument(doc)
    ensures Shaped(Body(doc))
  {
    hide Shaped, StanzaBody, GoodName, GoodAttributes;
    var first := StanzaBody(doc[0].0, doc[0].1);
    StanzaShaped(doc[0].0, doc[0].1);
    if |doc| > 1 {
      BodyShape(doc[1..]);
      ShapedAround(first, Body(doc[1..]));
    } else {
      assert first + [] == first;
    }
  }

  lemma FirstAttributeLines(attributes: Attributes)
    requires GoodAttributes(attributes) && attributes != []
    ensures AttributesLines(AsValues(attributes)) ==
            AttributeLines(attributes[0].0, attributes[0].1) + AttributesLines(AsValues(attributes[1..]))
  {
    hide AttributeLines, IsBreak, IsSpace;
    NoBreaksNormalised(attributes[0].1);
  }

  lemma AttributesSplit(attributes: Attributes, rest: seq<string>)
    requires GoodAttributes(attributes) && attributes != []
    ensures AttributesLines(AsValues(attributes)) + rest ==
            AttributeLines(attributes[0].0, attributes[0].1) + (AttributesLines(AsValues(attributes[1..])) + rest)
  {
    FirstAttributeLines(attributes);
    hide AttributeLines, AttributesLines, AsValues;
    Associates(AttributeLines(attributes[0].0, attributes[0].1), AttributesLines(AsValues(attributes[1..])), rest);
  }

  lemma Associates<T>(a: seq<T>, b: seq<T>, c: seq<T>)
    ensures (a + b) + c == a + (b + c)
  {
  }

  lemma TailIsGood(attributes: Attributes)
    requires GoodAttributes(attributes) && attributes != []
    requires forall j :: 0 <= j < |attributes| ==> Safe(attributes[j].1)
    ensures GoodAttributes(attributes[1..])
    ensures forall j :: 0 <= j < |attributes[1..]| ==> Safe(attributes[1..][j].1)
    ensures GoodKey(attributes[0].0) && GoodText(attributes[0].1) && Safe(attributes[0].1)
  {
    hide GoodKey, GoodText, Safe;
  }

  lemma {:induction false} AttributesLogical(attributes: Attributes, rest: seq<string>)
    requires GoodAttributes(attributes) && forall j :: 0 <= j < |attributes| ==> Safe(attributes[j].1)
    ensures Logical(AttributesLines(AsValues(attributes)) + rest, None) == AttributeLogical(attributes) + Logical(rest, None)
    decreases |attributes|
  {
    hide IsBreak, IsSpace, Logical, AttributeLines, Safe, NormaliseBreaks, GoodText, GoodKey, GoodAttributes;
    if attributes == [] {
      assert AttributesLines(AsValues(attributes)) + rest == rest;
    } else {
      var key, value := attributes[0].0, attributes[0].1;
      var more := AttributesLines(AsValues(attributes[1..])) + rest;
      AttributesSplit(attributes, rest);
      TailIsGood(attributes);
      AttributeJoins(key, value, more);
      AttributesLogical(attributes[1..], rest);
      Associates([key + " = " + value], AttributeLogical(attributes[1..]), Logical(rest, None));
    }
  }

  lemma NotOpen(name: string)
    ensures !Continues("[" + name + "]")
  {
  }

  lemma StanzaLogical(name: string, attributes: Attributes, rest: seq<string>)
    requires GoodName(name) && GoodAttributes(attributes)
    requires forall j :: 0 <= j < |attributes| ==> Safe(attributes[j].1)
    ensures Logical(StanzaBody(name, attributes) + rest, None)
         == ["[" + name + "]"] + (AttributeLogical(attributes) + Logical(rest, None))
  {
    hide IsBreak, IsSpace, AttributesLines, Continues;
    BracketsOneLine(name);
    assert !Continues("[" + name + "]") by { NotOpen(name); }
    var lines := StanzaBody(name, attributes) + rest;
    var header := "[" + name + "]";
    assert lines[0] == header && lines[1..] == AttributesLines(AsValues(attributes)) + rest;
    NoCR(header);
    AttributesLogical(attributes, rest);
  }

  lemma ParseStanza(current: string, before: Document, name: string, attributes: Attributes, rest: seq<string>)
    requires GoodName(name) && GoodAttributes(attributes) && !Has(before, name)
    requires forall j :: 0 <= j < |attributes| ==> Safe(attributes[j].1)
    ensures ParseLines(Parse(current, before), Logical(StanzaBody(name, attributes) + rest, None))
         == ParseLines(Parse(name, before + [(name, attributes)]), Logical(rest, None))
  {
    var header, tail := "[" + name + "]", AttributeLogical(attributes) + Logical(rest, None);
    calc {
      ParseLines(Parse(current, before), Logical(StanzaBody(name, attributes) + rest, None));
    == { StanzaLogical(name, attributes, rest); }
      ParseLines(Parse(current, before), [header] + tail);
    == { assert ([header] + tail)[1..] == tail; }
      ParseLines(ParseLine(Parse(current, before), header), tail);
    == { ParseHeader(Parse(current, before), name); }
      ParseLines(Parse(name, before + [(name, [])]), tail);
    == { assert [] + attributes == attributes; ParseAttributes(name, before, [], attributes, Logical(rest, None)); }
      ParseLines(Parse(name, before + [(name, attributes)]), Logical(rest, None));
    }
  }

  lemma ParseAfterBlank(st: Parse, rest: seq<string>)
    ensures ParseLines(st, Logical([""] + rest, None)) == ParseLines(st, Logical(rest, None))
  {
    LogicalStep("", rest, None);
    ParseBlank(st);
    assert ([""] + Logical(rest, None))[1..] == Logical(rest, None);
  }

  lemma {:induction false} ParseBody(current: string, before: Document, doc: Document)
    requires doc != [] && GoodDocument(doc) && AllSafe(doc) && Distinct(before + doc)
    ensures ParseLines(Parse(current, before), Logical(Body(doc), None)).stanzas == before + doc
    decreases |doc|
  {
    var name, attributes := doc[0].0, doc[0].1;
    var rest := if |doc| == 1 then [] else [""] + Body(doc[1..]);
    assert !Has(before, name) by {
      assert (before + doc)[|before|] == doc[0];
      assert forall i :: 0 <= i < |before| ==> (before + doc)[i] == before[i];
    }
    var after := before + [(name, attributes)];
    assert before + doc == after + doc[1..];
    if |doc| == 1 {
      calc {
        ParseLines(Parse(current, before), Logical(Body(doc), None));
      == { assert Body(doc) == StanzaBody(name, attributes) + rest; }
        ParseLines(Parse(current, before), Logical(StanzaBody(name, attributes) + rest, None));
      == { ParseStanza(current, before, name, attributes, rest); }
        ParseLines(Parse(name, after), Logical([], None));
      == Parse(name, after);
      }
    } else {
      var st := Parse(name, after);
      calc {
        ParseLines(Parse(current, before), Logical(StanzaBody(name, attributes) + rest, None));
      == { ParseStanza(current, before, name, attributes, rest); }
        ParseLines(st, Logical(rest, None));
      == { ParseAfterBlank(st, Body(doc[1..])); }
        ParseLines(st, Logical(Body(doc[1..]), None));
      }
      ParseBody(name, after, doc[1..]);
    }
  }

  lemma {:induction false} FoldNoDefaults(doc: Document)
    requires forall i :: 0 <= i < |doc| ==> doc[i].0 != "default" && Distinct(doc[i].1)
    ensures FoldDefaults([], doc) == doc
  {
    if doc != [] {
      FoldNoDefaults(doc[1..]);
      UpdateAppends([], doc[0].1);
      assert [] + doc[0].1 == doc[0].1;
    }
  }

  // ---------------------------------------------------------------------
  // The header comment
  // ---------------------------------------------------------------------

  ghost predicate IsCommentLine(line: string) {
    line != "" && line[0] == '#'
  }

  lemma SkipComment(st: Parse, line: string)
    requires IsCommentLine(line)
    ensures ParseLine(st, line) == st
  {
    StripHead(line);
  }

  lemma {:induction false} CommentsShape(lines: seq<string>)
    requires forall i :: 0 <= i < |lines| ==> OneLine(lines[i])
    ensures |Comments(lines)| == |lines|
    ensures forall i :: 0 <= i < |lines| ==> IsCommentLine(Comments(lines)[i]) && OneLine(Comments(lines)[i])
  {
    hide OneLine;
    if lines != [] {
      CommentsShape(lines[1..]);
      CommentOneLine(lines[0]);
    }
  }

  lemma CommentOneLine(line: string)
    requires OneLine(line)
    ensures OneLine("#") && OneLine("# " + line)
  {
    assert !IsBreak('#') && !IsBreak(' ');
    hide IsBreak;
  }

  lemma CommentsShaped(header: string)
    requires header != ""
    ensures Shaped(Comments(SplitLines(header)))
  {
    hide OneLine, SplitLines, Comments;
    SplitLinesOneLine(header);
    CommentsShape(SplitLines(header));
    var comments := Comments(SplitLines(header));
    assert IsCommentLine(comments[0]) && IsCommentLine(comments[|comments| - 1]);
  }

  lemma LineIsOne(s: string)
    ensures OneLine(s[..LineEnd(s)])
  {
    hide IsBreak;
    var n := LineEnd(s);
    forall c | c in s[..n]
      ensures !IsBreak(c)
    {
      var i :| 0 <= i < n && s[..n][i] == c;
    }
  }

  lemma {:induction false} SplitLinesOneLine(s: string)
    ensures AllOneLine(SplitLines(s))
    ensures s != "" ==> SplitLines(s) != []
    decreases |s|
  {
    hide IsBreak, OneLine, LineEnd;
    if s != "" {
      var n := LineEnd(s);
      LineIsOne(s);
      if n < |s| {
        var rest := s[n + if s[n] == '\r' && n + 1 < |s| && s[n + 1] == '\n' then 2 else 1..];
        SplitLinesOneLine(rest);
        assert SplitLines(s) == [s[..n]] + SplitLines(rest);
        AllOneLineConcat([s[..n]], SplitLines(rest));
      } else {
        assert s[..n] == s;
      }
    }
  }

  /** Whatever the header says, even trailing backslashes, it swallows no more than its own blank line. */
  lemma {:induction false} HeaderSkipped(st: Parse, comments: seq<string>, pending: Option<string>, rest: seq<string>)
    requires forall i :: 0 <= i < |comments| ==> IsCommentLine(comments[i]) && OneLine(comments[i])
    requires pending.Some? ==> IsCommentLine(pending.value)
    ensures ParseLines(st, Logical(comments + ([""] + rest), pending)) == ParseLines(st, Logical(rest, None))
    ensures ParseLines(st, Logical(comments, pending)) == st
    decreases |comments|
  {
    hide IsBreak, IsSpace, ParseLine, Strip;
    var lines := comments + ([""] + rest);
    if comments == [] {
      assert lines[0] == "" && lines[1..] == rest;
      NoCR("");
      var line := Joined(pending, "");
      assert !Continues(line);
      assert Logical(lines, pending) == [line] + Logical(rest, None);
      if pending.Some? {
        SkipComment(st, line);
        SkipComment(st, pending.value);
        assert [pending.value][1..] == [];
      } else {
        ParseBlank(st);
      }
      assert Logical(lines, pending)[1..] == Logical(rest, None);
    } else {
      NoCR(comments[0]);
      var line := Joined(pending, comments[0]);
      assert lines[0] == comments[0] && lines[1..] == comments[1..] + ([""] + rest);
      if Continues(line) {
        HeaderSkipped(st, comments[1..], Some(line[..|line| - 1]), rest);
      } else {
        SkipComment(st, line);
        assert Logical(lines, pending)[1..] == Logical(comments[1..] + ([""] + rest), None);
        assert Logical(comments, pending)[1..] == Logical(comments[1..], None);
        HeaderSkipped(st, comments[1..], None, rest);
      }
    }
  }

  function PrintedBody(doc: Document, header: string): seq<string> {
    if doc == [] then Comments(SplitLines(header))
    else if header == "" then Body(doc)
    else Comments(SplitLines(header)) + ([""] + Body(doc))
  }

  lemma PrintedBodyShape(doc: Document, header: string)
    requires GoodDocument(doc) && (doc != [] || header != "")
    ensures HeaderLines(header) + StanzasLines(AsPrinted(doc)) == PrintedBody(doc, header) + [""]
    ensures Shaped(PrintedBody(doc, header))
  {
    hide IsBreak, SplitLines, Comments, AttributesLines, GoodName, GoodAttributes, Shaped, Body, StanzasLines;
    var comments := Comments(SplitLines(header));
    if header != "" {
      CommentsShaped(header);
    }
    if doc != [] {
      BodyThenBlank(doc);
      BodyShape(doc);
      if header != "" {
        ShapedAround(comments, Body(doc));
        Associates(comments, [""], Body(doc) + [""]);
        Associates([""], Body(doc), [""]);
        Associates(comments, [""] + Body(doc), [""]);
      } else {
        assert [] + (Body(doc) + [""]) == Body(doc) + [""];
      }
    } else {
      assert StanzasLines(AsPrinted(doc)) == [] by { NoStanzas(doc); }
      assert comments + [""] + [] == comments + [""];
    }
  }

  lemma NoStanzas(doc: Document)
    requires doc == []
    ensures StanzasLines(AsPrinted(doc)) == []
  {
  }

  /** The printed text, split into physical lines again. */
  lemma PrintedLines(doc: Document, header: string)
    requires GoodDocument(doc) && (doc != [] || header != "")
    ensures SplitLines(DropBOM(RenderConf(AsPrinted(doc), header))) == PrintedBody(doc, header)
  {
    hide HeaderLines, StanzasLines, AsPrinted, DropNewlines, JoinLines, SplitLines, PrintedBody, IsBreak, GoodDocument;
    PrintedBodyShape(doc, header);
    RenderedSplits(PrintedBody(doc, header));
  }

  lemma ParseNothing()
    ensures ParseLines(START, Logical(SplitLines(DropBOM(RenderConf([], ""))), None)) == START
  {
    assert HeaderLines("") + StanzasLines([]) == [];
    SplitFirst("", "");
    assert "" + "\n" + "" == "\n" == RenderConf([], "");
    ParseAfterBlank(START, []);
    assert [""] + [] == [""];
  }

  lemma ParsePrinted(doc: Document, header: string)
    requires GoodDocument(doc) && AllSafe(doc)
    ensures ParseLines(START, Logical(SplitLines(DropBOM(RenderConf(AsPrinted(doc), header))), None)).stanzas
         == START.stanzas + doc
  {
    hide IsBreak, ParseLine, GoodName, GoodAttributes, RenderConf, Logical, SplitLines;
    if doc == [] && header == "" {
      ParseNothing();
    } else {
      PrintedLines(doc, header);
      if header != "" {
        SplitLinesOneLine(header);
        CommentsShape(SplitLines(header));
        HeaderSkipped(START, Comments(SplitLines(header)), None, if doc == [] then [] else Body(doc));
      }
      if doc != [] {
        assert Distinct(START.stanzas + doc) by {
          NamesApart(doc);
        }
        ParseBody("default", START.stanzas, doc);
      }
    }
  }

  lemma NamesApart(doc: Document)
    requires GoodDocument(doc)
    ensures Distinct(START.stanzas + doc)
  {
    hide IsBreak, IsSpace, GoodAttributes;
    assert forall j :: 0 < j < 1 + |doc| ==> (START.stanzas + doc)[j] == doc[j - 1];
  }

  /** parse_conf(render_conf(doc, header)) == doc, order included, under any header. */
  lemma RoundTrip(doc: Document, header: string)
    requires GoodDocument(doc) && AllSafe(doc)
    ensures ParseConf(RenderConf(AsPrinted(doc), header)) == doc
  {
    ParsePrinted(doc, header);
    var all := START.stanzas + doc;
    assert Lookup(all, "default", []) == [];
    assert all[1..] == doc;
    FoldNoDefaults(doc);
  }
}
