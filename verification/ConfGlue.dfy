/** What a parse makes of values that leave their lines open: each swallows what follows it. */
module ConfGlue {
  import opened Wrappers
  import opened Text
  import opened Dicts
  import opened Conf
  import opened ConfRoundTrip

  // ---------------------------------------------------------------------
  // The lines of a stanza, with whatever is left open carried on
  // ---------------------------------------------------------------------

  ghost predicate Closeable(attributes: Attributes) {
    forall i :: 0 <= i < |attributes| ==>
      GoodKey(attributes[i].0) && GoodText(attributes[i].1) && ClosedValue(attributes[i].1)
  }

  function Item(attribute: (string, string)): string {
    attribute.0 + " = " + attribute.1
  }

  /** The lines a stanza's attributes are read as, and the blank line after them when there is one. */
  function Glued(attributes: Attributes, pending: Option<string>, blank: bool): seq<string> {
    if attributes == [] then
      (match pending
       case None => if blank then [""] else []
       case Some(p) => [if blank then p + "\n" else p])
    else
      var line := Joined(pending, Item(attributes[0]));
      if Open(attributes[0].1) && line != "" then Glued(attributes[1..], Some(line[..|line| - 1]), blank)
      else [line] + Glued(attributes[1..], None, blank)
  }

  lemma ReadsEnd(pending: Option<string>, blank: bool, more: seq<string>)
    requires blank || more == []
    ensures Logical((if blank then [""] else []) + more, pending) == Glued([], pending, blank) + Logical(more, None)
  {
    if blank {
      LogicalStep("", more, pending);
      if pending.Some? {
        assert pending.value + "\n" + "" == pending.value + "\n";
      }
      assert !Continues(Joined(pending, ""));
    } else {
      assert [] + more == more;
    }
  }

  /** A stanza's printed lines, up to and with its closing blank line, are read as the glued ones. */
  lemma {:induction false} ReadsGlued(attributes: Attributes, pending: Option<string>, blank: bool, more: seq<string>)
    requires Closeable(attributes) && (blank || more == [])
    ensures Logical(AttributesLines(AsValues(attributes)) + ((if blank then [""] else []) + more), pending)
         == Glued(attributes, pending, blank) + Logical(more, None)
    decreases |attributes|
  {
    hide IsBreak, IsSpace, Logical, AttributeLines, Open, ClosedValue, GoodText, GoodKey, NormaliseBreaks;
    var tail := (if blank then [""] else []) + more;
    if attributes == [] {
      assert AttributesLines(AsValues(attributes)) + tail == tail;
      ReadsEnd(pending, blank, more);
    } else {
      var (key, value) := attributes[0];
      var line, rest := Joined(pending, key + " = " + value), AttributesLines(AsValues(attributes[1..])) + tail;
      ClosedAttributesSplit(attributes, tail);
      AttributeGlues(key, value, pending, rest);
      if Open(value) {
        ReadsGlued(attributes[1..], Some(line[..|line| - 1]), blank, more);
      } else {
        ReadsGlued(attributes[1..], None, blank, more);
        Associates([line], Glued(attributes[1..], None, blank), Logical(more, None));
      }
    }
  }

  lemma ClosedAttributesSplit(attributes: Attributes, rest: seq<string>)
    requires Closeable(attributes) && attributes != []
    ensures AttributesLines(AsValues(attributes)) + rest ==
            AttributeLines(attributes[0].0, attributes[0].1) + (AttributesLines(AsValues(attributes[1..])) + rest)
  {
    hide AttributeLines, IsBreak, IsSpace, GoodKey, ClosedValue;
    NoBreaksNormalised(attributes[0].1);
    Associates(AttributeLines(attributes[0].0, attributes[0].1), AttributesLines(AsValues(attributes[1..])), rest);
  }

  // ---------------------------------------------------------------------
  // What such lines store
  // ---------------------------------------------------------------------

  function Stored(doc: Document, name: string, key: string): Option<string> {
    match At(doc, name)
    case None => None
    case Some(attributes) => At(attributes, key)
  }

  lemma PutStored(doc: Document, name: string, key: string, value: string, n: string, k: string)
    ensures Stored(Put(doc, name, Put(Lookup(doc, name, []), key, value)), n, k) ==
            if n == name && k == key then Some(value) else Stored(doc, n, k)
  {
    hide Put, Find;
    PutAt(doc, name, Put(Lookup(doc, name, []), key, value), n);
    PutAt(Lookup(doc, name, []), key, value, k);
    LookupAt(doc, name);
    assert Find<string>([], k).None?;
  }

  lemma LookupAt(doc: Document, name: string)
    ensures Lookup(doc, name, []) == At(doc, name).GetOr([])
  {
  }

  /** A line that begins with one of the keys, or is blank. */
  ghost predicate Keyed(line: string, keys: seq<string>) {
    line == "" || exists i :: 0 <= i < |keys| && KeyOf(line, keys[i])
  }

  ghost predicate GoodKeys(keys: seq<string>) {
    forall i :: 0 <= i < |keys| ==> GoodKey(keys[i])
  }

  ghost predicate AllKeyed(lines: seq<string>, keys: seq<string>) {
    forall i :: 0 <= i < |lines| ==> Keyed(lines[i], keys)
  }

  /** Lines that begin with such keys leave every other key and every other stanza as it is. */
  lemma {:induction false} KeyedLeave(st: Parse, lines: seq<string>, keys: seq<string>, name: string, key: string)
    requires GoodKeys(keys) && AllKeyed(lines, keys) && (name == st.current ==> key !in keys)
    ensures ParseLines(st, lines).current == st.current
    ensures Stored(ParseLines(st, lines).stanzas, name, key) == Stored(st.stanzas, name, key)
    decreases |lines|
  {
    hide GoodKey, KeyOf, ParseLine, Stored, Strip;
    if lines != [] {
      if lines[0] == "" {
        ParseBlank(st);
      } else {
        assert Keyed(lines[0], keys);
        var i :| 0 <= i < |keys| && KeyOf(lines[0], keys[i]);
        KeyStores(st, lines[0], keys[i]);
        PutStored(st.stanzas, st.current, keys[i], Strip(lines[0][KeyLength(lines[0], keys[i])..]), name, key);
      }
      KeyedLeave(ParseLine(st, lines[0]), lines[1..], keys, name, key);
    }
  }

  function KeyLength(line: string, key: string): (n: nat)
    requires KeyOf(line, key)
    ensures n == |key| + 3 <= |line|
  {
    |key| + 3
  }

  function KeysOf(attributes: Attributes): (keys: seq<string>)
    ensures |keys| == |attributes|
    ensures forall i :: 0 <= i < |keys| ==> keys[i] == attributes[i].0
  {
    seq(|attributes|, i requires 0 <= i < |attributes| => attributes[i].0)
  }

  /** Whatever is glued on, a line keeps its beginning. */
  ghost predicate Extends(line: string, open: string) {
    line == open || line == open + "\n" || (open + "\n" <= line && '=' in line[|open| + 1..])
  }

  lemma ExtendsOn(line: string, open: string, item: string, next: string)
    requires next == open + "\n" + item && '=' in item && Extends(line, next)
    ensures Extends(line, open)
  {
    assert line[|open| + 1..][..|item|] == item;
    assert forall c :: c in item ==> c in line[|open| + 1..];
  }

  lemma GluedIs(attributes: Attributes, pending: Option<string>, blank: bool)
    requires attributes != []
    ensures var (item, rest) := (Item(attributes[0]), attributes[1..]);
      Glued(attributes, pending, blank) ==
        if Open(attributes[0].1) then Glued(rest, Some(Joined(pending, item[..|item| - 1])), blank)
        else [Joined(pending, item)] + Glued(rest, None, blank)
  {
    hide Open;
    var item := Item(attributes[0]);
    var line := Joined(pending, item);
    assert line[..|line| - 1] == Joined(pending, item[..|item| - 1]);
  }

  /** The first line is what was open, extended; the others begin with keys of the stanza. */
  lemma {:induction false} GluedShape(attributes: Attributes, pending: Option<string>, blank: bool)
    requires Closeable(attributes)
    ensures pending.Some? ==> Glued(attributes, pending, blank) != [] && Extends(Glued(attributes, pending, blank)[0], pending.value)
    ensures AllKeyed(if pending.Some? then Glued(attributes, pending, blank)[1..] else Glued(attributes, pending, blank), KeysOf(attributes))
    decreases |attributes|
  {
    hide GoodKey, GoodText, ClosedValue, Extends, Keyed, AllKeyed, KeyOf, Glued, Item, Open;
    if attributes == [] {
      assert KeysOf(attributes) == [];
      EndShape(pending, blank);
    } else {
      var (key, value) := attributes[0];
      var item, rest := Item(attributes[0]), attributes[1..];
      assert KeysOf(attributes) == [key] + KeysOf(rest);
      GluedIs(attributes, pending, blank);
      if Open(value) {
        OpenEnds(value);
        ItemShape(key, value);
        var kept := item[..|item| - 1];
        GluedShape(rest, Some(Joined(pending, kept)), blank);
        OpenShape(Glued(rest, Some(Joined(pending, kept)), blank), pending, kept, key, KeysOf(rest));
      } else {
        GluedShape(rest, None, blank);
        ItemEquals(key, value);
        ClosedShape(Glued(rest, None, blank), pending, item, key, KeysOf(rest));
      }
    }
  }

  lemma OpenShape(lines: seq<string>, pending: Option<string>, kept: string, key: string, keys: seq<string>)
    requires lines != [] && Extends(lines[0], Joined(pending, kept)) && AllKeyed(lines[1..], keys)
    requires '=' in kept && KeyOf(kept, key)
    ensures pending.Some? ==> Extends(lines[0], pending.value)
    ensures AllKeyed(if pending.Some? then lines[1..] else lines, [key] + keys)
  {
    hide Extends, Keyed, KeyOf, AllKeyed;
    MoreKeys(lines[1..], key, keys);
    if pending.Some? {
      ExtendsOn(lines[0], pending.value, kept, Joined(pending, kept));
    } else {
      ExtendedKeyed(lines[0], kept, key, [key] + keys);
      KeyedFirst(lines, [key] + keys);
    }
  }

  lemma ClosedShape(lines: seq<string>, pending: Option<string>, item: string, key: string, keys: seq<string>)
    requires AllKeyed(lines, keys) && '=' in item && KeyOf(item, key)
    ensures pending.Some? ==> Extends(Joined(pending, item), pending.value)
    ensures AllKeyed(if pending.Some? then lines else [Joined(pending, item)] + lines, [key] + keys)
    ensures ([Joined(pending, item)] + lines)[1..] == lines
  {
    hide Extends, Keyed, KeyOf, AllKeyed;
    MoreKeys(lines, key, keys);
    ExtendsItself(Joined(pending, item));
    if pending.Some? {
      ExtendsOn(Joined(pending, item), pending.value, item, Joined(pending, item));
    } else {
      ExtendedKeyed(item, item, key, [key] + keys);
      assert ([item] + lines)[1..] == lines;
      KeyedFirst([item] + lines, [key] + keys);
    }
  }

  lemma KeyedFirst(lines: seq<string>, keys: seq<string>)
    requires lines != [] && Keyed(lines[0], keys) && AllKeyed(lines[1..], keys)
    ensures AllKeyed(lines, keys)
  {
    hide Keyed;
    assert forall i :: 0 < i < |lines| ==> lines[i] == lines[1..][i - 1];
  }

  lemma EndShape(pending: Option<string>, blank: bool)
    ensures pending.Some? ==> Glued([], pending, blank) != [] && Extends(Glued([], pending, blank)[0], pending.value)
    ensures AllKeyed(if pending.Some? then Glued([], pending, blank)[1..] else Glued([], pending, blank), [])
  {
  }

  lemma ExtendsItself(line: string)
    ensures Extends(line, line)
  {
  }

  lemma ItemEquals(key: string, value: string)
    ensures '=' in Item((key, value)) && KeyOf(Item((key, value)), key)
  {
    assert Item((key, value))[|key| + 1] == '=';
  }

  lemma ItemShape(key: string, value: string)
    requires value != ""
    ensures var item := Item((key, value));
      var kept := item[..|item| - 1]; '=' in kept && KeyOf(kept, key)
  {
    var item := Item((key, value));
    assert item[..|item| - 1][|key| + 1] == '=';
  }

  lemma ExtendedKeyed(line: string, open: string, key: string, keys: seq<string>)
    requires Extends(line, open) && KeyOf(open, key) && key in keys
    ensures Keyed(line, keys)
  {
    assert KeyOf(line, key);
  }

  lemma MoreKeys(lines: seq<string>, key: string, keys: seq<string>)
    requires AllKeyed(lines, keys)
    ensures AllKeyed(lines, [key] + keys)
  {
    forall i | 0 <= i < |lines|
      ensures Keyed(lines[i], [key] + keys)
    {
      assert Keyed(lines[i], keys);
      if lines[i] != "" {
        var j :| 0 <= j < |keys| && KeyOf(lines[i], keys[j]);
        assert ([key] + keys)[j + 1] == keys[j];
      }
    }
  }

  /** A value that leaves its line open ends in a backslash. */
  lemma OpenEnds(value: string)
    requires Open(value)
    ensures value != "" && value[|value| - 1] == '\\'
  {
    JoinSplit(value, '\n');
    JoinEndsWithLast(SplitOn(value, '\n'));
  }

  // ---------------------------------------------------------------------
  // An open value is not read back
  // ---------------------------------------------------------------------

  /** The value that a glued line gives its key. */
  lemma GluedValue(key: string, value: string, line: string)
    requires value != ""
    requires var item := Item((key, value)); Extends(line, item[..|item| - 1])
    ensures KeyOf(line, key)
    ensures var stored := line[|key| + 3..];
      && value[..|value| - 1] <= stored && (|stored| >= |value| ==> stored[|value| - 1] == '\n')
      && (|stored| > |value| ==> '=' in stored)
  {
    var item, m := Item((key, value)), |value| - 1;
    var open, stored := item[..|item| - 1], line[|key| + 3..];
    assert open == key + " = " + value[..m];
    assert open <= line;
    if |stored| > |value| {
      assert line[|open| + 1..] == stored[|value|..];
      assert forall c :: c in stored[|value|..] ==> c in stored;
    }
  }

  /** What is stored for an open value has lost its last backslash, whatever was glued on. */
  lemma OpenIsSpoilt(key: string, value: string, line: string)
    requires Trimmed(value) && Open(value)
    requires var item := Item((key, value)); Extends(line, item[..|item| - 1])
    ensures KeyOf(line, key) && Strip(line[|key| + 3..]) != value
  {
    hide Extends, Open, KeyOf, Item, IsSpace, Strip;
    OpenEnds(value);
    GluedValue(key, value, line);
    var stored := line[KeyLength(line, key)..];
    if |value| > 1 {
      LongIsSpoilt(value, stored);
    } else {
      ShortIsSpoilt(value, stored);
    }
  }

  lemma LongIsSpoilt(value: string, stored: string)
    requires |value| > 1 && Trimmed(value) && value[|value| - 1] == '\\'
    requires value[..|value| - 1] <= stored && (|stored| >= |value| ==> stored[|value| - 1] == '\n')
    ensures Strip(stored) != value
  {
    hide IsSpace;
    assert stored[0] == value[0];
    RightStripShape(stored);
    assert Strip(stored) == RightStrip(stored);
  }

  lemma ShortIsSpoilt(value: string, stored: string)
    requires value == "\\" && (|stored| >= 1 ==> stored[0] == '\n') && (|stored| > 1 ==> '=' in stored)
    ensures Strip(stored) != value
  {
    if |stored| > 1 {
      assert !IsSpace('=');
      StripKeeps(stored, '=');
    } else if |stored| == 1 {
      assert IsSpace('\n') && stored[1..] == "";
      assert LeftStrip(stored) == "";
    }
  }

  lemma StripKeeps(s: string, c: char)
    requires c in s && !IsSpace(c)
    ensures c in Strip(s)
  {
    LeftStripKeeps(s, c);
    RightStripKeeps(LeftStrip(s), c);
  }

  lemma {:induction false} LeftStripKeeps(s: string, c: char)
    requires c in s && !IsSpace(c)
    ensures c in LeftStrip(s)
  {
    if IsSpace(s[0]) {
      assert c in s[1..];
      LeftStripKeeps(s[1..], c);
    }
  }

  lemma {:induction false} RightStripKeeps(s: string, c: char)
    requires c in s && !IsSpace(c)
    ensures c in RightStrip(s)
  {
    if IsSpace(s[|s| - 1]) {
      assert s == s[..|s| - 1] + [s[|s| - 1]];
      assert c in s[..|s| - 1];
      RightStripKeeps(s[..|s| - 1], c);
    }
  }

  /** Something is stored, and it is not the value. */
  predicate Spoilt(stored: Option<string>, value: string) {
    stored.Some? && stored.value != value
  }

  /** The first open value of a stanza is not stored under its key. */
  lemma {:induction false} StanzaSpoils(st: Parse, attributes: Attributes, i: nat, blank: bool)
    requires Closeable(attributes) && Distinct(attributes) && i < |attributes| && Open(attributes[i].1)
    requires forall j :: 0 <= j < i ==> !Open(attributes[j].1)
    ensures ParseLines(st, Glued(attributes, None, blank)).current == st.current
    ensures Spoilt(Stored(ParseLines(st, Glued(attributes, None, blank)).stanzas, st.current, attributes[i].0), attributes[i].1)
    decreases |attributes|
  {
    hide GoodKey, ClosedValue, Open, ParseLine, Strip, Stored, Extends, Keyed, KeyOf;
    var (key, value) := attributes[0];
    var rest, lines := attributes[1..], Glued(attributes, None, blank);
    if i > 0 {
      ItemEquals(key, value);
      KeyStores(st, Item(attributes[0]), key);
      StanzaSpoils(ParseLine(st, Item(attributes[0])), rest, i - 1, blank);
      assert lines == [Item(attributes[0])] + Glued(rest, None, blank);
      assert lines[1..] == Glued(rest, None, blank);
    } else {
      var item := Item(attributes[0]);
      var open := item[..|item| - 1];
      assert lines == Glued(rest, Some(open), blank);
      GluedShape(rest, Some(open), blank);
      OpenIsSpoilt(key, value, lines[0]);
      KeyStores(st, lines[0], key);
      var spoilt := Strip(lines[0][KeyLength(lines[0], key)..]);
      PutStored(st.stanzas, st.current, key, spoilt, st.current, key);
      KeyedLeave(ParseLine(st, lines[0]), lines[1..], KeysOf(rest), st.current, key);
    }
  }
}
