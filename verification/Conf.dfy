/** The .conf grammar of worker/regulator_agent/savedsearches.py: parser and printer. */
module Conf {
  import opened Wrappers
  import opened Text
  import opened Dicts

  type Attributes = Dict<string>
  type Document = Dict<Attributes>

  /** What a caller may hand the printer for one attribute. */
  datatype Value = Plain(text: string) | Flag(on: bool) | Absent

  // ---------------------------------------------------------------------
  // Lines
  // ---------------------------------------------------------------------

  function LineEnd(s: string): (n: nat)
    ensures n <= |s|
    ensures forall i :: 0 <= i < n ==> !IsBreak(s[i])
    ensures n < |s| ==> IsBreak(s[n])
  {
    if s == "" || IsBreak(s[0]) then 0 else 1 + LineEnd(s[1..])
  }

  /** str.splitlines. */
  function SplitLines(s: string): seq<string> {
    if s == "" then []
    else
      var n := LineEnd(s);
      if n == |s| then [s]
      else
        var skip := if s[n] == '\r' && n + 1 < |s| && s[n + 1] == '\n' then 2 else 1;
        [s[..n]] + SplitLines(s[n + skip..])
  }

  ghost predicate OneLine(s: string) {
    forall c :: c in s ==> !IsBreak(c)
  }

  /** Ends in a backslash that is not itself preceded by one. */
  predicate Continues(line: string) {
    EndsWith(line, '\\') && !(|line| > 1 && line[|line| - 2] == '\\')
  }

  function DropCR(s: string): string {
    if EndsWith(s, '\r') then DropCR(s[..|s| - 1]) else s
  }

  /** Physical lines with their backslash continuations joined by a newline. */
  function Logical(lines: seq<string>, pending: Option<string>): seq<string> {
    if lines == [] then
      match pending
      case None => []
      case Some(p) => [p]
    else
      var line := Joined(pending, DropCR(lines[0]));
      if Continues(line) then Logical(lines[1..], Some(line[..|line| - 1]))
      else [line] + Logical(lines[1..], None)
  }

  function Joined(pending: Option<string>, line: string): string {
    match pending
    case None => line
    case Some(p) => p + "\n" + line
  }

  // ---------------------------------------------------------------------
  // Parsing
  // ---------------------------------------------------------------------

  datatype Parse = Parse(current: string, stanzas: Document)

  const START := Parse("default", [("default", [])])

  /** The stanza pattern, on a stripped line: brackets around anything but a newline. */
  predicate IsHeader(stripped: string) {
    |stripped| >= 2 && stripped[0] == '[' && stripped[|stripped| - 1] == ']'
    && '\n' !in stripped[1..|stripped| - 1]
  }

  predicate IsComment(stripped: string) {
    stripped == "" || stripped[0] == '#' || stripped[0] == ';'
  }

  function FirstEquals(line: string): (n: nat)
    requires '=' in line
    ensures n < |line| && line[n] == '=' && '=' !in line[..n]
  {
    if line[0] == '=' then 0
    else
      var n := FirstEquals(line[1..]);
      assert line[..n + 1] == [line[0]] + line[1..][..n];
      n + 1
  }

  function ParseLine(st: Parse, line: string): Parse {
    var stripped := Strip(line);
    if IsComment(stripped) then st
    else if IsHeader(stripped) then
      var name := Strip(stripped[1..|stripped| - 1]);
      Parse(name, if Has(st.stanzas, name) then st.stanzas else Put(st.stanzas, name, []))
    else if '=' !in line then st
    else
      var n := FirstEquals(line);
      var attributes := Lookup(st.stanzas, st.current, []);
      Parse(st.current, Put(st.stanzas, st.current, Put(attributes, Strip(line[..n]), Strip(line[n + 1..]))))
  }

  function ParseLines(st: Parse, lines: seq<string>): Parse
    decreases |lines|
  {
    if lines == [] then st else ParseLines(ParseLine(st, lines[0]), lines[1..])
  }

  /** Fold the default stanza into the others and drop it. */
  function FoldDefaults(defaults: Attributes, stanzas: Document): Document {
    if stanzas == [] then []
    else if stanzas[0].0 == "default" then FoldDefaults(defaults, stanzas[1..])
    else [(stanzas[0].0, Update(defaults, stanzas[0].1))] + FoldDefaults(defaults, stanzas[1..])
  }

  function DropBOM(s: string): string {
    if s != "" && s[0] == '\U{feff}' then DropBOM(s[1..]) else s
  }

  function ParseConf(text: string): Document {
    var st := ParseLines(START, Logical(SplitLines(DropBOM(text)), None));
    FoldDefaults(Lookup(st.stanzas, "default", []), st.stanzas)
  }

  method JoinContinuations(lines: seq<string>) returns (logical: seq<string>)
    ensures logical == Logical(lines, None)
  {
    hide DropCR, Joined;
    logical := [];
    var pending: Option<string> := None;
    for i := 0 to |lines|
      invariant logical + Logical(lines[i..], pending) == Logical(lines, None)
    {
      var line := Joined(pending, DropCR(lines[i]));
      assert lines[i..][0] == lines[i] && lines[i..][1..] == lines[i + 1..];
      if Continues(line) {
        pending := Some(line[..|line| - 1]);
      } else {
        pending := None;
        logical := logical + [line];
      }
    }
    if pending.Some? {
      logical := logical + [pending.value];
    }
  }

  method ReadLine(current: string, stanzas: Document, line: string) returns (st: Parse)
    ensures st == ParseLine(Parse(current, stanzas), line)
  {
    st := Parse(current, stanzas);
    var stripped := Strip(line);
    if IsComment(stripped) {
      return;
    }
    if IsHeader(stripped) {
      var name := Strip(stripped[1..|stripped| - 1]);
      if Has(stanzas, name) {
        return Parse(name, stanzas);
      }
      return Parse(name, Put(stanzas, name, []));
    }
    if '=' in line {
      var n := FirstEquals(line);
      var attributes := Put(Lookup(stanzas, current, []), Strip(line[..n]), Strip(line[n + 1..]));
      return Parse(current, Put(stanzas, current, attributes));
    }
  }

  method ReadStanzas(logical: seq<string>) returns (st: Parse)
    ensures st == ParseLines(START, logical)
  {
    st := START;
    for i := 0 to |logical|
      invariant ParseLines(st, logical[i..]) == ParseLines(START, logical)
    {
      assert logical[i..][1..] == logical[i + 1..];
      st := ReadLine(st.current, st.stanzas, logical[i]);
    }
  }

  method ParseText(text: string) returns (result: Document)
    ensures result == ParseConf(text)
  {
    var logical := JoinContinuations(SplitLines(DropBOM(text)));
    var st := ReadStanzas(logical);
    var defaults := Lookup(st.stanzas, "default", []);
    result := [];
    for i := 0 to |st.stanzas|
      invariant result + FoldDefaults(defaults, st.stanzas[i..]) == FoldDefaults(defaults, st.stanzas)
    {
      assert st.stanzas[i..][1..] == st.stanzas[i + 1..];
      if st.stanzas[i].0 != "default" {
        result := result + [(st.stanzas[i].0, Update(defaults, st.stanzas[i].1))];
      }
    }
  }

  // ---------------------------------------------------------------------
  // Printing
  // ---------------------------------------------------------------------

  /** `\r\n` and then `\r` replaced by `\n`. */
  function NormaliseBreaks(s: string): string {
    if s == "" then ""
    else if s[0] == '\r' then
      "\n" + NormaliseBreaks(if |s| > 1 && s[1] == '\n' then s[2..] else s[1..])
    else [s[0]] + NormaliseBreaks(s[1..])
  }

  /** The continuation lines after the first: a backslash on all but the last. */
  function ContinuationLines(parts: seq<string>): seq<string>
    requires |parts| > 0
  {
    if |parts| == 1 then [parts[0]] else [parts[0] + "\\"] + ContinuationLines(parts[1..])
  }

  function AttributeLines(key: string, text: string): seq<string> {
    var parts := SplitOn(text, '\n');
    if |parts| == 1 then [key + " = " + text]
    else [key + " = " + parts[0] + "\\"] + ContinuationLines(parts[1..])
  }

  function ValueLines(key: string, value: Value): seq<string> {
    match value
    case Absent => []
    case Flag(on) => AttributeLines(key, if on then "1" else "0")
    case Plain(text) => AttributeLines(key, NormaliseBreaks(text))
  }

  function AttributesLines(attributes: Dict<Value>): seq<string> {
    if attributes == [] then []
    else ValueLines(attributes[0].0, attributes[0].1) + AttributesLines(attributes[1..])
  }

  function StanzaLines(name: string, attributes: Dict<Value>): seq<string> {
    ["[" + name + "]"] + AttributesLines(attributes) + [""]
  }

  function StanzasLines(stanzas: Dict<Dict<Value>>): seq<string> {
    if stanzas == [] then []
    else StanzaLines(stanzas[0].0, stanzas[0].1) + StanzasLines(stanzas[1..])
  }

  function Comments(lines: seq<string>): seq<string> {
    if lines == [] then []
    else [if lines[0] == "" then "#" else "# " + lines[0]] + Comments(lines[1..])
  }

  function HeaderLines(header: string): seq<string> {
    if header == "" then [] else Comments(SplitLines(header)) + [""]
  }

  function JoinLines(lines: seq<string>): string {
    if lines == [] then "" else Join(lines, '\n')
  }

  function DropNewlines(s: string): string {
    if EndsWith(s, '\n') then DropNewlines(s[..|s| - 1]) else s
  }

  function RenderConf(stanzas: Dict<Dict<Value>>, header: string): string {
    DropNewlines(JoinLines(HeaderLines(header) + StanzasLines(stanzas))) + "\n"
  }

  method RenderAttribute(key: string, value: Value) returns (lines: seq<string>)
    ensures lines == ValueLines(key, value)
  {
    if value.Absent? {
      return [];
    }
    var text := if value.Flag? then (if value.on then "1" else "0") else NormaliseBreaks(value.text);
    var parts := SplitOn(text, '\n');
    if |parts| == 1 {
      return [key + " = " + text];
    }
    lines := [key + " = " + parts[0] + "\\"];
    for k := 1 to |parts| - 1
      invariant lines + ContinuationLines(parts[k..]) == AttributeLines(key, text)
    {
      assert parts[k..][1..] == parts[k + 1..];
      lines := lines + [parts[k] + "\\"];
    }
    lines := lines + [parts[|parts| - 1]];
  }

  method RenderStanza(name: string, attributes: Dict<Value>) returns (lines: seq<string>)
    ensures lines == StanzaLines(name, attributes)
  {
    lines := ["[" + name + "]"];
    for j := 0 to |attributes|
      invariant lines + AttributesLines(attributes[j..]) == ["[" + name + "]"] + AttributesLines(attributes)
    {
      assert attributes[j..][1..] == attributes[j + 1..];
      var more := RenderAttribute(attributes[j].0, attributes[j].1);
      lines := lines + more;
    }
    lines := lines + [""];
  }

  method RenderText(stanzas: Dict<Dict<Value>>, header: string) returns (text: string)
    ensures text == RenderConf(stanzas, header)
  {
    var lines := HeaderLines(header);
    for i := 0 to |stanzas|
      invariant lines + StanzasLines(stanzas[i..]) == HeaderLines(header) + StanzasLines(stanzas)
    {
      assert stanzas[i..][1..] == stanzas[i + 1..];
      var more := RenderStanza(stanzas[i].0, stanzas[i].1);
      lines := lines + more;
    }
    assert lines == HeaderLines(header) + StanzasLines(stanzas);
    text := DropNewlines(JoinLines(lines)) + "\n";
  }
}
