/** What a written schedule means: the parts of its fields, read back and put together. */
module CronText {
  import opened Wrappers
  import opened Text
  import opened Calendar
  import opened Cron
  import opened CronDays

  // -------------------------------------------------------------- one part

  /** `*`, `a` or `a-b`, with a step or without. */
  datatype Part =
    | Every(step: Option<nat>)
    | From(start: nat, step: Option<nat>)
    | Between(start: nat, end: nat, step: Option<nat>)
  {
    function Body(): (s: string)
      ensures s != "" && (s == "*" || IsDigit(s[0])) && (s == "*" || IsDigit(s[|s| - 1]))
      ensures forall c :: c in s ==> c == '*' || c == '-' || IsDigit(c)
    {
      match this
      case Every(_) => "*"
      case From(a, _) => Decimal(a)
      case Between(a, b, _) => Decimal(a) + "-" + Decimal(b)
    }

    function Written(): string {
      match step
      case None => Body()
      case Some(k) => Body() + "/" + Decimal(k)
    }

    function Stride(): nat {
      step.GetOr(1)
    }

    /** A lone value with a step goes on to the end of the field. */
    function Low(low: nat): nat {
      if this.Every? then low else start
    }

    function High(high: nat): nat {
      match this
      case Every(_) => high
      case From(a, _) => if Stride() > 1 then high else a
      case Between(_, b, _) => b
    }

    predicate Fits(low: nat, high: nat) {
      Stride() >= 1 && low <= Low(low) <= High(high) <= high
    }

    predicate Covers(low: nat, high: nat, v: int) {
      Stride() >= 1 && Low(low) <= v <= High(high) && (v - Low(low)) % Stride() == 0
    }

    predicate Star() {
      this.Every? && Stride() == 1
    }
  }

  lemma {:induction false} FirstAfter(s: string, c: char, rest: string)
    requires c !in s
    ensures c in s + [c] + rest && First(s + [c] + rest, c) == |s|
  {
    var whole := s + [c] + rest;
    assert whole[|s|] == c;
    if s != "" {
      FirstAfter(s[1..], c, rest);
      assert whole[1..] == s[1..] + [c] + rest;
    }
  }

  lemma WrittenShape(p: Part)
    ensures var s := p.Written(); s != "" && Trimmed(s) && forall c :: c in s ==> c in "*-/" || IsDigit(c)
  {
  }

  lemma StepRead(p: Part)
    ensures ParseStep(p.Written()) == if p.Stride() >= 1 then Ok((p.Body(), p.Stride())) else Err("step must be at least 1")
  {
    if p.step.Some? {
      var body, count := p.Body(), Decimal(p.step.value);
      FirstAfter(body, '/', count);
      ParseDecimal(p.step.value);
      assert (body + "/" + count)[|body| + 1..] == count && (body + "/" + count)[..|body|] == body;
    }
  }

  /** A part is taken exactly when it fits its field, and read as what it says. */
  lemma PartRead(p: Part, low: nat, high: nat)
    ensures ParseSpan(p.Written(), low, high).Ok? <==> p.Fits(low, high)
    ensures p.Fits(low, high) ==>
      ParseSpan(p.Written(), low, high) == Ok(Span(p.Low(low), p.High(high), p.Stride(), p.Star()))
  {
    hide ParseStep, ParseInt, Trimmed, Strip;
    WrittenShape(p);
    StripOfTrimmed(p.Written());
    StepRead(p);
    match p
    case Every(_) =>
    case From(a, _) =>
      ParseDecimal(a);
      assert '*' !in Decimal(a) && '-' !in Decimal(a);
    case Between(a, b, _) =>
      FirstAfter(Decimal(a), '-', Decimal(b));
      ParseDecimal(a);
      ParseDecimal(b);
      var body := p.Body();
      assert body[..|Decimal(a)|] == Decimal(a) && body[|Decimal(a)| + 1..] == Decimal(b);
      assert '-' in body && body != "*";
  }

  // ------------------------------------------------------------- one field

  function Texts(parts: seq<Part>): (texts: seq<string>)
    ensures |texts| == |parts| && forall i :: 0 <= i < |parts| ==> texts[i] == parts[i].Written()
  {
    seq(|parts|, i requires 0 <= i < |parts| => parts[i].Written())
  }

  function FieldText(parts: seq<Part>): string
    requires parts != []
  {
    Join(Texts(parts), ',')
  }

  predicate AllFit(parts: seq<Part>, low: nat, high: nat) {
    forall p :: p in parts ==> p.Fits(low, high)
  }

  predicate Covered(parts: seq<Part>, low: nat, high: nat, v: int) {
    exists p :: p in parts && p.Covers(low, high, v)
  }

  predicate Starred(parts: seq<Part>) {
    exists p :: p in parts && p.Star()
  }

  lemma SplitMore(first: char, rest: string, c: char)
    ensures SplitOn([first] + rest, c) ==
            if first == c then [""] + SplitOn(rest, c) else [[first] + SplitOn(rest, c)[0]] + SplitOn(rest, c)[1..]
  {
    assert ([first] + rest)[1..] == rest;
  }

  lemma {:induction false} SplitJoin(parts: seq<string>, c: char)
    requires parts != [] && forall i :: 0 <= i < |parts| ==> c !in parts[i]
    ensures SplitOn(Join(parts, c), c) == parts
    decreases |parts|, |parts[0]|
  {
    hide SplitOn;
    if parts[0] != "" {
      var first, shorter := parts[0][0], [parts[0][1..]] + parts[1..];
      assert shorter[1..] == parts[1..] && shorter[0] == parts[0][1..];
      SplitJoin(shorter, c);
      assert [first] + Join(shorter, c) == Join(parts, c);
      SplitMore(first, Join(shorter, c), c);
      assert [first] + parts[0][1..] == parts[0];
    } else if |parts| > 1 {
      SplitJoin(parts[1..], c);
      assert [c] + Join(parts[1..], c) == Join(parts, c);
      SplitMore(c, Join(parts[1..], c), c);
    } else {
      assert parts == [""];
      EmptySplit(c);
    }
  }

  lemma EmptySplit(c: char)
    ensures SplitOn("", c) == [""]
  {
  }

  lemma FirstPart(parts: seq<Part>, low: nat, high: nat)
    requires parts != []
    ensures AllFit(parts, low, high) <==> parts[0].Fits(low, high) && AllFit(parts[1..], low, high)
    ensures Starred(parts) <==> parts[0].Star() || Starred(parts[1..])
    ensures forall v :: Covered(parts, low, high, v) <==> parts[0].Covers(low, high, v) || Covered(parts[1..], low, high, v)
  {
    assert parts == [parts[0]] + parts[1..];
  }

  lemma CoversExactly(p: Part, low: nat, high: nat)
    requires p.Fits(low, high)
    ensures forall v :: v in Progression(p.Low(low), p.High(high), p.Stride()) <==> p.Covers(low, high, v)
    ensures forall v :: v in Progression(p.Low(low), p.High(high), p.Stride()) ==> low <= v <= high
  {
  }

  lemma {:induction false} UnionRead(parts: seq<Part>, low: nat, high: nat, done: Field)
    requires forall v :: v in done.values ==> low <= v <= high
    ensures var field := UnionSpans(Texts(parts), low, high, done);
      && (field.Ok? <==> AllFit(parts, low, high))
      && (field.Ok? ==> field.value.wildcard == (done.wildcard || Starred(parts)))
      && (field.Ok? ==> forall v :: v in field.value.values <==> v in done.values || Covered(parts, low, high, v))
    decreases |parts|
  {
    hide ParseSpan;
    if parts != [] {
      hide AllFit, Starred, Covered, Progression;
      FirstPart(parts, low, high);
      var p, rest := parts[0], parts[1..];
      assert Texts(parts)[1..] == Texts(rest);
      PartRead(p, low, high);
      if p.Fits(low, high) {
        var values := Progression(p.Low(low), p.High(high), p.Stride());
        CoversExactly(p, low, high);
        UnionRead(rest, low, high, Field(done.values + values, done.wildcard || p.Star()));
      }
    }
  }

  /** A field is taken exactly when all its parts fit, holds what one of them covers, and is free
    * when one of them is a bare star. */
  lemma FieldRead(parts: seq<Part>, low: nat, high: nat)
    requires parts != []
    ensures var field := ParseField(FieldText(parts), low, high, false);
      && (field.Ok? <==> AllFit(parts, low, high))
      && (field.Ok? ==> field.value.wildcard == Starred(parts))
      && (field.Ok? ==> forall v :: v in field.value.values <==> Covered(parts, low, high, v))
  {
    hide UnionSpans, AllFit, Starred, Covered;
    TextsApart(parts);
    SplitJoin(Texts(parts), ',');
    UnionRead(parts, low, high, Field({}, false));
  }

  lemma TextsApart(parts: seq<Part>)
    ensures forall i :: 0 <= i < |parts| ==> ',' !in Texts(parts)[i] && Texts(parts)[i] != "" && NoSpace(Texts(parts)[i])
  {
    forall i | 0 <= i < |parts|
      ensures ',' !in Texts(parts)[i] && Texts(parts)[i] != "" && NoSpace(Texts(parts)[i])
    {
      WrittenShape(parts[i]);
    }
  }

  /** A day of the week is named by its number, Sunday by 0 or 7. */
  predicate NamesDay(parts: seq<Part>, day: int) {
    && 0 <= day <= 6
    && (Covered(parts, 0, 7, day) || (day == 0 && Covered(parts, 0, 7, 7)))
  }

  lemma WeekdaysRead(parts: seq<Part>)
    requires parts != []
    ensures var field := ParseField(FieldText(parts), 0, 7, true);
      && (field.Ok? <==> AllFit(parts, 0, 7))
      && (field.Ok? ==> field.value.wildcard == Starred(parts))
      && (field.Ok? ==> forall v :: v in field.value.values <==> NamesDay(parts, v))
  {
    hide UnionSpans, AllFit, Starred, Covered;
    TextsApart(parts);
    SplitJoin(Texts(parts), ',');
    UnionRead(parts, 0, 7, Field({}, false));
  }

  // -------------------------------------------------------- the expression

  predicate NoSpace(s: string) {
    forall c :: c in s ==> !IsSpace(c)
  }

  lemma {:induction false} JoinedNoSpace(parts: seq<string>)
    requires parts != [] && forall i :: 0 <= i < |parts| ==> parts[i] != "" && NoSpace(parts[i])
    ensures Join(parts, ',') != "" && NoSpace(Join(parts, ','))
  {
    if |parts| > 1 {
      JoinedNoSpace(parts[1..]);
    }
  }

  lemma {:induction false} WordEnds(word: string, rest: string)
    requires NoSpace(word) && (rest == "" || IsSpace(rest[0]))
    ensures WordEnd(word + rest) == |word|
  {
    if word == "" {
      assert word + rest == rest;
    } else {
      WordEnds(word[1..], rest);
      assert (word + rest)[1..] == word[1..] + rest;
    }
  }

  lemma FirstWord(word: string, rest: string)
    requires word != "" && NoSpace(word)
    ensures SplitWords(word + " " + rest) == [word] + SplitWords(rest)
    ensures SplitWords(word) == [word]
  {
    var blank := " " + rest;
    assert word + " " + rest == word + blank;
    assert !IsSpace(word[0]) && LeftStrip(word + blank) == word + blank;
    WordEnds(word, blank);
    assert (word + blank)[..|word|] == word && (word + blank)[|word|..] == blank;
    assert blank[1..] == rest && LeftStrip(blank) == LeftStrip(rest);
    WordEnds(word, "");
    assert word + "" == word && word[..|word|] == word;
  }

  datatype Schedule = Schedule(
    minutes: seq<Part>, hours: seq<Part>, days: seq<Part>, months: seq<Part>, weekdays: seq<Part>)

  predicate Complete(s: Schedule) {
    s.minutes != [] && s.hours != [] && s.days != [] && s.months != [] && s.weekdays != []
  }

  function Expression(s: Schedule): string
    requires Complete(s)
  {
    FieldText(s.minutes) + " " + (FieldText(s.hours) + " " + (FieldText(s.days) + " " +
    (FieldText(s.months) + " " + FieldText(s.weekdays))))
  }

  lemma ExpressionWords(s: Schedule)
    requires Complete(s)
    ensures SplitWords(Expression(s)) == [FieldText(s.minutes), FieldText(s.hours), FieldText(s.days), FieldText(s.months),
                                          FieldText(s.weekdays)]
  {
    hide FieldText, NoSpace, SplitWords;
    FieldWord(s.minutes);
    FieldWord(s.hours);
    FieldWord(s.days);
    FieldWord(s.months);
    FieldWord(s.weekdays);
    var last := FieldText(s.weekdays);
    var fourth := FieldText(s.months) + " " + last;
    var third := FieldText(s.days) + " " + fourth;
    var second := FieldText(s.hours) + " " + third;
    FirstWord(FieldText(s.minutes), second);
    FirstWord(FieldText(s.hours), third);
    FirstWord(FieldText(s.days), fourth);
    FirstWord(FieldText(s.months), last);
    FirstWord(last, "");
  }

  lemma FieldWord(parts: seq<Part>)
    requires parts != []
    ensures FieldText(parts) != "" && NoSpace(FieldText(parts))
  {
    hide NoSpace;
    TextsApart(parts);
    JoinedNoSpace(Texts(parts));
  }

  /** Every part of every field fits. */
  predicate FitsAll(s: Schedule) {
    && AllFit(s.minutes, 0, 59) && AllFit(s.hours, 0, 23) && AllFit(s.days, 1, 31) && AllFit(s.months, 1, 12)
    && AllFit(s.weekdays, 0, 7)
  }

  /** When a schedule is due, read off its parts: at a time and in a month that they cover, and on
    * a day that the restricted one of its two day fields covers, or either where both are. */
  predicate Due(s: Schedule, m: Moment)
    requires Valid(m)
  {
    && Covered(s.minutes, 0, 59, m.minute) && Covered(s.hours, 0, 23, m.hour) && Covered(s.months, 1, 12, m.month)
    && (Starred(s.days) && !Starred(s.weekdays) ==> NamesDay(s.weekdays, DayOfWeek(m)))
    && (!Starred(s.days) && Starred(s.weekdays) ==> Covered(s.days, 1, 31, m.day))
    && (!Starred(s.days) && !Starred(s.weekdays) ==> Covered(s.days, 1, 31, m.day) || NamesDay(s.weekdays, DayOfWeek(m)))
  }

  /** The cron that a schedule is read as. */
  ghost predicate ReadsAs(s: Schedule, c: Cron) {
    && c.dayWild == Starred(s.days) && c.weekdayWild == Starred(s.weekdays)
    && (forall v :: v in c.minutes <==> Covered(s.minutes, 0, 59, v))
    && (forall v :: v in c.hours <==> Covered(s.hours, 0, 23, v))
    && (forall v :: v in c.days <==> Covered(s.days, 1, 31, v))
    && (forall v :: v in c.months <==> Covered(s.months, 1, 12, v))
    && (forall v :: v in c.weekdays <==> NamesDay(s.weekdays, v))
  }

  /** A written schedule is taken exactly when every part of it fits, and each field is read as what
    * its parts cover. */
  method ReadSchedule(s: Schedule) returns (cron: Result<Cron, string>)
    requires Complete(s)
    ensures cron.Ok? <==> FitsAll(s)
    ensures cron.Ok? ==> WellFormed(cron.value) && ReadsAs(s, cron.value)
  {
    hide FieldText, ParseField, AllFit, Covered, Starred, NamesDay, SplitWords, Expression;
    ExpressionWords(s);
    FieldRead(s.minutes, 0, 59);
    FieldRead(s.hours, 0, 23);
    FieldRead(s.days, 1, 31);
    FieldRead(s.months, 1, 12);
    WeekdaysRead(s.weekdays);
    cron := ParseCron(Expression(s));
  }

  lemma DueExactly(s: Schedule, c: Cron, m: Moment)
    requires Valid(m) && ReadsAs(s, c)
    ensures Matches(c, m) <==> Due(s, m)
  {
    hide DayMatches, DayOfWeek, Covered, Starred, NamesDay;
    FallsExactly(c, m);
  }

  /** From the text of a schedule to its next firing: the first moment at which it is due. */
  method NextDue(s: Schedule, moment: Moment, limit: nat) returns (next: Option<Moment>)
    requires Complete(s) && FitsAll(s) && Valid(moment)
    ensures next.Some? ==> Valid(next.value) && Due(s, next.value)
    ensures next.Some? ==> Minutes(moment) < Minutes(next.value) <= Minutes(moment) + limit
    ensures forall x :: Valid(x) && Minutes(moment) < Minutes(x) <= Minutes(moment) + limit ==>
      Due(s, x) ==> next.Some? && Minutes(next.value) <= Minutes(x)
  {
    hide FitsAll, ReadsAs, Matches, Due, WellFormed, Minutes;
    var cron := ReadSchedule(s);
    next := NextAfter(cron.value, moment, limit);
    forall x | Valid(x)
      ensures Matches(cron.value, x) <==> Due(s, x)
    {
      DueExactly(s, cron.value, x);
    }
  }
}
