/** The string operations the source leans on, as Python defines them. */
module Text {
  import opened Wrappers

  // ---------------------------------------------------------------------
  // Whitespace
  // ---------------------------------------------------------------------

  /** str.isspace for one character. */
  predicate IsSpace(c: char) {
    || c == ' ' || '\t' <= c <= '\r' || '\U{1c}' <= c <= '\U{1f}'
    || c in "\U{85}\U{a0}\U{1680}\U{2028}\U{2029}\U{202f}\U{205f}\U{3000}"
    || '\U{2000}' <= c <= '\U{200a}'
  }

  /** A line boundary of str.splitlines. */
  predicate IsBreak(c: char) {
    || '\n' <= c <= '\r' || '\U{1c}' <= c <= '\U{1e}'
    || c == '\U{85}' || c == '\U{2028}' || c == '\U{2029}'
  }

  function LeftStrip(s: string): string {
    if s != "" && IsSpace(s[0]) then LeftStrip(s[1..]) else s
  }

  function RightStrip(s: string): string {
    if s != "" && IsSpace(s[|s| - 1]) then RightStrip(s[..|s| - 1]) else s
  }

  function Strip(s: string): string {
    RightStrip(LeftStrip(s))
  }

  predicate Trimmed(s: string) {
    s == "" || (!IsSpace(s[0]) && !IsSpace(s[|s| - 1]))
  }

  lemma {:induction false} LeftStripShape(s: string)
    ensures LeftStrip(s) == "" || !IsSpace(LeftStrip(s)[0])
    ensures |LeftStrip(s)| <= |s| && s[|s| - |LeftStrip(s)|..] == LeftStrip(s)
  {
    if s != "" && IsSpace(s[0]) {
      LeftStripShape(s[1..]);
    }
  }

  lemma {:induction false} RightStripShape(s: string)
    ensures RightStrip(s) == "" || !IsSpace(RightStrip(s)[|RightStrip(s)| - 1])
    ensures |RightStrip(s)| <= |s| && RightStrip(s) == s[..|RightStrip(s)|]
  {
    if s != "" && IsSpace(s[|s| - 1]) {
      RightStripShape(s[..|s| - 1]);
    }
  }

  lemma StripTrims(s: string)
    ensures Trimmed(Strip(s))
    ensures |Strip(s)| <= |s|
  {
    LeftStripShape(s);
    RightStripShape(LeftStrip(s));
  }

  lemma StripOfTrimmed(s: string)
    requires Trimmed(s)
    ensures Strip(s) == s
  {
  }

  /** One blank either side is what `key = value` leaves for strip to remove. */
  lemma StripBlanks(s: string)
    requires Trimmed(s)
    ensures Strip(" " + s) == s
    ensures Strip(s + " ") == s
  {
    assert (" " + s)[1..] == s && LeftStrip(" " + s) == LeftStrip(s) == s;
    if s == "" {
      assert s + " " == " " + s;
    } else {
      assert (s + " ")[..|s|] == s && LeftStrip(s + " ") == s + " ";
    }
  }

  lemma {:induction false} RightStripKeepsHead(s: string)
    requires s != "" && !IsSpace(s[0])
    ensures RightStrip(s) != "" && RightStrip(s)[0] == s[0]
  {
    if IsSpace(s[|s| - 1]) {
      RightStripKeepsHead(s[..|s| - 1]);
    }
  }

  predicate EndsWith(s: string, c: char) {
    s != "" && s[|s| - 1] == c
  }

  // ---------------------------------------------------------------------
  // Case, for ASCII
  // ---------------------------------------------------------------------

  function LowerChar(c: char): char {
    if 'A' <= c <= 'Z' then (c as int + 32) as char else c
  }

  function Lower(s: string): (t: string)
    ensures |t| == |s|
    ensures forall i :: 0 <= i < |s| ==> t[i] == LowerChar(s[i])
  {
    if s == "" then "" else [LowerChar(s[0])] + Lower(s[1..])
  }

  // ---------------------------------------------------------------------
  // Splitting and joining on one character
  // ---------------------------------------------------------------------

  function SplitOn(s: string, c: char): (parts: seq<string>)
    ensures |parts| > 0
    ensures forall i :: 0 <= i < |parts| ==> c !in parts[i]
    ensures c !in s ==> parts == [s]
  {
    if s == "" then [""]
    else
      var rest := SplitOn(s[1..], c);
      assert c !in s ==> c !in s[1..] && [s[0]] + s[1..] == s;
      if s[0] == c then [""] + rest else [[s[0]] + rest[0]] + rest[1..]
  }

  function Join(parts: seq<string>, c: char): string
    requires |parts| > 0
  {
    if |parts| == 1 then parts[0] else parts[0] + [c] + Join(parts[1..], c)
  }

  lemma {:induction false} JoinSplit(s: string, c: char)
    ensures Join(SplitOn(s, c), c) == s
  {
    if s != "" {
      JoinSplit(s[1..], c);
      var rest := SplitOn(s[1..], c);
      if s[0] == c {
        assert ([""] + rest)[1..] == rest;
      } else if |rest| > 1 {
        assert ([[s[0]] + rest[0]] + rest[1..])[1..] == rest[1..];
      }
    }
  }

  // ---------------------------------------------------------------------
  // Decimal integers
  // ---------------------------------------------------------------------

  function DigitChar(d: nat): (c: char)
    requires d < 10
    ensures '0' <= c <= '9'
  {
    ('0' as int + d) as char
  }

  predicate IsDigit(c: char) {
    '0' <= c <= '9'
  }

  /** str of a natural number. */
  function Decimal(n: nat): (s: string)
    ensures |s| > 0 && forall i :: 0 <= i < |s| ==> IsDigit(s[i])
  {
    if n < 10 then [DigitChar(n)] else Decimal(n / 10) + [DigitChar(n % 10)]
  }

  function DecimalInt(n: int): string {
    if n < 0 then "-" + Decimal(-n) else Decimal(n)
  }

  /** Digits with single underscores between them, as Python's int reads them. */
  function DigitsValue(s: string): Option<nat> {
    if s == "" || !IsDigit(s[|s| - 1]) then None
    else
      var d := s[|s| - 1] as int - '0' as int;
      if |s| == 1 then Some(d)
      else
        var init := if s[|s| - 2] == '_' then s[..|s| - 2] else s[..|s| - 1];
        match DigitsValue(init)
        case None => None
        case Some(v) => Some(10 * v + d)
  }

  /** int(text). */
  function ParseInt(text: string): Option<int> {
    var s := Strip(text);
    if s != "" && s[0] == '-' then
      match DigitsAsInt(s[1..])
      case None => None
      case Some(v) => Some(-v)
    else if s != "" && s[0] == '+' then DigitsAsInt(s[1..])
    else DigitsAsInt(s)
  }

  function DigitsAsInt(s: string): Option<int> {
    match DigitsValue(s)
    case None => None
    case Some(v) => Some(v)
  }

  lemma {:induction false} DigitsOfDecimal(n: nat)
    ensures DigitsValue(Decimal(n)) == Some(n)
  {
    if n >= 10 {
      DigitsOfDecimal(n / 10);
      var s := Decimal(n);
      assert s[..|s| - 1] == Decimal(n / 10);
      assert IsDigit(s[|s| - 2]);
    }
  }

  lemma DecimalInjective(m: nat, n: nat)
    requires Decimal(m) == Decimal(n)
    ensures m == n
  {
    DigitsOfDecimal(m);
    DigitsOfDecimal(n);
  }

  lemma DecimalIntTrimmed(n: int)
    ensures DecimalInt(n) != "" && Trimmed(DecimalInt(n)) && '\n' !in DecimalInt(n)
  {
    var s := if n < 0 then Decimal(-n) else Decimal(n);
    assert forall c :: c in s ==> IsDigit(c);
  }

  /** int(str(n)) == n. */
  lemma ParseDecimal(n: int)
    ensures ParseInt(DecimalInt(n)) == Some(n)
  {
    DecimalIntTrimmed(n);
    StripOfTrimmed(DecimalInt(n));
    if n < 0 {
      DigitsOfDecimal(-n);
      assert DecimalInt(n)[1..] == Decimal(-n);
    } else {
      DigitsOfDecimal(n);
      assert IsDigit(Decimal(n)[0]);
    }
  }
}
