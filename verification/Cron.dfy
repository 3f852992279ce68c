/** The five-field cron of worker/regulator_agent/savedsearches.py. */
module Cron {
  import opened Wrappers
  import opened Text
  import opened Calendar

  // ---------------------------------------------------------------------
  // Parsing
  // ---------------------------------------------------------------------

  datatype Field = Field(values: set<int>, wildcard: bool)
  datatype Span = Span(start: int, end: int, step: int, wildcard: bool)

  function First(s: string, c: char): (n: nat)
    requires c in s
    ensures n < |s| && s[n] == c
  {
    if s[0] == c then 0 else 1 + First(s[1..], c)
  }

  /** range(start, end + 1, step). */
  function Progression(start: int, end: int, step: int): (values: set<int>)
    requires step >= 1
    ensures start <= end ==> start in values
  {
    set v | start <= v <= end && OnStep(v, start, step)
  }

  predicate OnStep(v: int, start: int, step: int)
    requires step >= 1
  {
    (v - start) % step == 0
  }

  function ParseStep(part: string): Result<(string, int), string> {
    if '/' !in part then Ok((part, 1))
    else
      var n := First(part, '/');
      match ParseInt(part[n + 1..])
      case None => Err("bad step")
      case Some(step) => if step < 1 then Err("step must be at least 1") else Ok((part[..n], step))
  }

  function ParseSpan(part: string, low: int, high: int): (span: Result<Span, string>)
    ensures span.Ok? ==> low <= span.value.start <= span.value.end <= high && span.value.step >= 1
  {
    if Strip(part) == "" then Err("empty field")
    else match ParseStep(Strip(part))
      case Err(e) => Err(e)
      case Ok((body, step)) =>
        if body == "*" then InRange(low, high, low, high, step, step == 1)
        else if '-' in body then
          var n := First(body, '-');
          match (ParseInt(body[..n]), ParseInt(body[n + 1..]))
          case (Some(a), Some(b)) => InRange(low, high, a, b, step, false)
          case _ => Err("bad range")
        else match ParseInt(body)
          case None => Err("bad value")
          case Some(a) => InRange(low, high, a, if step > 1 then high else a, step, false)
  }

  function InRange(low: int, high: int, start: int, end: int, step: int, wildcard: bool): (span: Result<Span, string>)
    ensures span.Ok? <==> low <= start <= end <= high
  {
    if start < low || end > high || start > end then Err("value out of range")
    else Ok(Span(start, end, step, wildcard))
  }

  function UnionSpans(parts: seq<string>, low: int, high: int, done: Field): (field: Result<Field, string>)
    requires forall v :: v in done.values ==> low <= v <= high
    ensures field.Ok? ==> done.values <= field.value.values && forall v :: v in field.value.values ==> low <= v <= high
    ensures field.Ok? && parts != [] ==> field.value.values != {}
    decreases |parts|
  {
    if parts == [] then Ok(done)
    else match ParseSpan(parts[0], low, high)
      case Err(e) => Err(e)
      case Ok(span) =>
        UnionSpans(parts[1..], low, high,
                   Field(done.values + Progression(span.start, span.end, span.step), done.wildcard || span.wildcard))
  }

  function FoldSunday(values: set<int>): (folded: set<int>)
    requires forall v :: v in values ==> 0 <= v <= 7
    ensures values != {} ==> folded != {}
    ensures forall v :: v in folded ==> 0 <= v <= 6
  {
    if 7 in values then values - {7} + {0} else values
  }

  /** A parsed field is never empty, never out of bounds, and Sunday is always 0. */
  function ParseField(text: string, low: int, high: int, weekday: bool): (field: Result<Field, string>)
    requires weekday ==> low == 0 && high == 7
    ensures field.Ok? ==> field.value.values != {}
    ensures field.Ok? ==> forall v :: v in field.value.values ==> low <= v <= if weekday then 6 else high
  {
    match UnionSpans(SplitOn(text, ','), low, high, Field({}, false))
    case Err(e) => Err(e)
    case Ok(f) => Ok(if weekday then f.(values := FoldSunday(f.values)) else f)
  }

  method ParseCronField(text: string, low: int, high: int, weekday: bool) returns (field: Result<Field, string>)
    requires weekday ==> low == 0 && high == 7
    ensures field == ParseField(text, low, high, weekday)
  {
    var values: set<int>, wildcard := {}, false;
    var parts := SplitOn(text, ',');
    for i := 0 to |parts|
      invariant forall v :: v in values ==> low <= v <= high
      invariant UnionSpans(parts[i..], low, high, Field(values, wildcard))
             == UnionSpans(parts, low, high, Field({}, false))
    {
      assert parts[i..][1..] == parts[i + 1..];
      var span := ParseSpan(parts[i], low, high);
      if span.Err? {
        return Err(span.error);
      }
      values := values + Progression(span.value.start, span.value.end, span.value.step);
      wildcard := wildcard || span.value.wildcard;
    }
    if weekday && 7 in values {
      values := values - {7} + {0};
    }
    field := Ok(Field(values, wildcard));
  }

  /** The values of a field are exactly those named by one of its comma-separated parts. */
  lemma {:induction false} FieldIsUnion(parts: seq<string>, low: int, high: int, done: Field, v: int)
    requires forall w :: w in done.values ==> low <= w <= high
    requires UnionSpans(parts, low, high, done).Ok?
    ensures v in UnionSpans(parts, low, high, done).value.values <==> v in done.values || AnyNames(parts, low, high, v)
    decreases |parts|
  {
    if parts != [] {
      var span := ParseSpan(parts[0], low, high).value;
      var next := Field(done.values + Progression(span.start, span.end, span.step), done.wildcard || span.wildcard);
      FieldIsUnion(parts[1..], low, high, next, v);
    }
  }

  /** A field holds exactly the values its comma-separated parts name, with Sunday's 7 read as 0. */
  lemma FieldHolds(text: string, low: int, high: int, weekday: bool, v: int)
    requires weekday ==> low == 0 && high == 7
    requires ParseField(text, low, high, weekday).Ok?
    ensures var parts := SplitOn(text, ',');
      v in ParseField(text, low, high, weekday).value.values <==>
        if weekday then (v != 7 && AnyNames(parts, low, high, v)) || (v == 0 && AnyNames(parts, low, high, 7))
        else AnyNames(parts, low, high, v)
  {
    hide AnyNames, UnionSpans;
    FieldIsUnion(SplitOn(text, ','), low, high, Field({}, false), v);
    FieldIsUnion(SplitOn(text, ','), low, high, Field({}, false), 7);
  }

  predicate AnyNames(parts: seq<string>, low: int, high: int, v: int) {
    parts != [] && (Names(parts[0], low, high, v) || AnyNames(parts[1..], low, high, v))
  }

  predicate Names(part: string, low: int, high: int, v: int) {
    match ParseSpan(part, low, high)
    case Err(_) => false
    case Ok(span) => v in Progression(span.start, span.end, span.step)
  }

  datatype Cron = Cron(
    minutes: set<int>, hours: set<int>, days: set<int>, months: set<int>, weekdays: set<int>,
    dayWild: bool, weekdayWild: bool)

  function SplitWords(s: string): seq<string>
    decreases |s|
  {
    var t := LeftStrip(s);
    LeftStripShape(s);
    if t == "" then []
    else [t[..WordEnd(t)]] + SplitWords(t[WordEnd(t)..])
  }

  function WordEnd(s: string): (n: nat)
    ensures n <= |s|
    ensures s != "" && !IsSpace(s[0]) ==> n > 0
  {
    if s == "" || IsSpace(s[0]) then 0 else 1 + WordEnd(s[1..])
  }

  ghost predicate WellFormed(c: Cron) {
    && c.minutes != {} && (forall v :: v in c.minutes ==> 0 <= v <= 59)
    && c.hours != {} && (forall v :: v in c.hours ==> 0 <= v <= 23)
    && c.days != {} && (forall v :: v in c.days ==> 1 <= v <= 31)
    && c.months != {} && (forall v :: v in c.months ==> 1 <= v <= 12)
    && c.weekdays != {} && (forall v :: v in c.weekdays ==> 0 <= v <= 6)
  }

  /** Each set is the one its own field of the expression names. */
  ghost predicate FieldsOf(words: seq<string>, c: Cron) {
    && |words| == 5
    && ParseField(words[0], 0, 59, false).Ok? && ParseField(words[0], 0, 59, false).value.values == c.minutes
    && ParseField(words[1], 0, 23, false).Ok? && ParseField(words[1], 0, 23, false).value.values == c.hours
    && ParseField(words[2], 1, 31, false) == Ok(Field(c.days, c.dayWild))
    && ParseField(words[3], 1, 12, false).Ok? && ParseField(words[3], 1, 12, false).value.values == c.months
    && ParseField(words[4], 0, 7, true) == Ok(Field(c.weekdays, c.weekdayWild))
  }

  /** Five words, each of them a field. */
  predicate FiveFields(words: seq<string>) {
    && |words| == 5
    && ParseField(words[0], 0, 59, false).Ok? && ParseField(words[1], 0, 23, false).Ok?
    && ParseField(words[2], 1, 31, false).Ok? && ParseField(words[3], 1, 12, false).Ok?
    && ParseField(words[4], 0, 7, true).Ok?
  }

  method ParseCron(expression: string) returns (cron: Result<Cron, string>)
    ensures cron.Ok? <==> FiveFields(SplitWords(expression))
    ensures cron.Ok? ==> WellFormed(cron.value) && FieldsOf(SplitWords(expression), cron.value)
  {
    var fields := SplitWords(expression);
    if |fields| != 5 {
      return Err("a cron schedule needs five fields");
    }
    var minute := ParseCronField(fields[0], 0, 59, false);
    var hour := ParseCronField(fields[1], 0, 23, false);
    var day := ParseCronField(fields[2], 1, 31, false);
    var month := ParseCronField(fields[3], 1, 12, false);
    var weekday := ParseCronField(fields[4], 0, 7, true);
    if minute.Err? || hour.Err? || day.Err? || month.Err? || weekday.Err? {
      return Err("bad field");
    }
    cron := Ok(Cron(minute.value.values, hour.value.values, day.value.values, month.value.values,
                    weekday.value.values, day.value.wildcard, weekday.value.wildcard));
  }

  // ---------------------------------------------------------------------
  // Matching
  // ---------------------------------------------------------------------

  /** Month and day rule: with both days restricted either is enough, with one free the other decides. */
  predicate DayMatches(c: Cron, m: Moment)
    requires Valid(m)
  {
    var dayOk := m.day in c.days;
    var weekdayOk := (Weekday(m) + 1) % 7 in c.weekdays;
    m.month in c.months &&
    if c.dayWild && c.weekdayWild then true
    else if c.dayWild then weekdayOk
    else if c.weekdayWild then dayOk
    else dayOk || weekdayOk
  }

  predicate Matches(c: Cron, m: Moment)
    requires Valid(m)
  {
    m.minute in c.minutes && m.hour in c.hours && DayMatches(c, m)
  }

  /** next_after: the earliest matching moment strictly after the given one, if it is near enough. */
  method NextAfter(c: Cron, moment: Moment, limit: nat) returns (next: Option<Moment>)
    requires Valid(moment)
    ensures next.Some? ==> Valid(next.value) && Matches(c, next.value)
    ensures next.Some? ==> Minutes(moment) < Minutes(next.value) <= Minutes(moment) + limit
    ensures forall x :: Valid(x) && Minutes(moment) < Minutes(x) <= Minutes(moment) + limit ==>
              Matches(c, x) ==> next.Some? && Minutes(next.value) <= Minutes(x)
  {
    var candidate := Next(moment);
    NextIsOneMinute(moment);
    for i := 0 to limit
      invariant Valid(candidate) && Minutes(candidate) == Minutes(moment) + i + 1
      invariant forall x :: Valid(x) && Minutes(moment) < Minutes(x) < Minutes(candidate) ==> !Matches(c, x)
    {
      if Matches(c, candidate) {
        return Some(candidate);
      }
      forall x | Valid(x) && Minutes(x) == Minutes(candidate)
        ensures !Matches(c, x)
      {
        MinutesInjective(x, candidate);
      }
      NextIsOneMinute(candidate);
      candidate := Next(candidate);
    }
    next := None;
  }

  // ---------------------------------------------------------------------
  // Firings per day
  // ---------------------------------------------------------------------

  const FORTNIGHT_START := Moment(2026, 1, 5, 0, 0)

  function ValuesBelow(values: set<int>, bound: nat): set<int> {
    set v | v in values && v < bound
  }

  lemma BelowStep(values: set<int>, bound: nat)
    requires forall v :: v in values ==> v >= 0
    ensures |ValuesBelow(values, bound + 1)| == |ValuesBelow(values, bound)| + if bound in values then 1 else 0
  {
    if bound in values {
      assert ValuesBelow(values, bound + 1) == ValuesBelow(values, bound) + {bound};
    } else {
      assert ValuesBelow(values, bound + 1) == ValuesBelow(values, bound);
    }
  }

  lemma BelowEnds(values: set<int>, high: nat)
    requires forall v :: v in values ==> 0 <= v < high
    ensures |ValuesBelow(values, 0)| == 0 && |ValuesBelow(values, high)| == |values|
  {
    assert ValuesBelow(values, 0) == {};
    assert ValuesBelow(values, high) == values;
  }

  /** Day k of the fixed fortnight, at midnight. */
  function FortnightDay(k: nat): Moment {
    Moment(2026, 1, 5 + k, 0, 0)
  }

  function MatchingDays(c: Cron, days: nat): nat
    requires days <= 14
  {
    if days == 0 then 0 else MatchingDays(c, days - 1) + if DayMatches(c, FortnightDay(days - 1)) then 1 else 0
  }

  lemma SameDay(c: Cron, k: nat, hour: nat, minute: nat)
    requires k < 14 && hour < 24 && minute < 60
    ensures Valid(FortnightDay(k)) && Valid(Moment(2026, 1, 5 + k, hour, minute))
    ensures DayMatches(c, Moment(2026, 1, 5 + k, hour, minute)) == DayMatches(c, FortnightDay(k))
  {
  }

  function Times(a: nat, b: nat): nat {
    a * b
  }

  /** Firings on the first `days` whole days plus the part of the current one already walked. */
  function Walked(c: Cron, days: nat, hour: nat, minute: nat): nat
    requires days <= 14
  {
    Times(MatchingDays(c, days), Times(|c.hours|, |c.minutes|)) +
    if days < 14 && DayMatches(c, FortnightDay(days)) then
      Times(|ValuesBelow(c.hours, hour)|, |c.minutes|) + if hour in c.hours then |ValuesBelow(c.minutes, minute)| else 0
    else 0
  }

  lemma WalkedStep(c: Cron, days: nat, hour: nat, minute: nat)
    requires WellFormed(c) && days < 14 && hour < 24 && minute < 60
    ensures Valid(Moment(2026, 1, 5 + days, hour, minute))
    ensures var more := if Matches(c, Moment(2026, 1, 5 + days, hour, minute)) then 1 else 0;
            Walked(c, days, hour, minute) + more ==
              if minute < 59 then Walked(c, days, hour, minute + 1)
              else if hour < 23 then Walked(c, days, hour + 1, 0)
              else Walked(c, days + 1, 0, 0)
  {
    SameDay(c, days, hour, minute);
    BelowStep(c.minutes, minute);
    BelowStep(c.hours, hour);
    BelowEnds(c.minutes, 60);
    BelowEnds(c.hours, 24);
    var h, m := |c.hours|, |c.minutes|;
    assert (|ValuesBelow(c.hours, hour)| + 1) * m == |ValuesBelow(c.hours, hour)| * m + m;
    assert (MatchingDays(c, days) + 1) * (h * m) == MatchingDays(c, days) * (h * m) + h * m;
    assert 0 * m == 0;
  }

  /** The minute-by-minute walk counts exactly matching days times hours times minutes. */
  method FortnightFirings(c: Cron) returns (total: nat)
    requires WellFormed(c)
    ensures total == MatchingDays(c, 14) * (|c.hours| * |c.minutes|)
  {
    total := 0;
    var moment := FORTNIGHT_START;
    ghost var days, hour, minute := 0, 0, 0;
    BelowEnds(c.minutes, 60);
    BelowEnds(c.hours, 24);
    for i := 0 to 14 * 24 * 60
      invariant days <= 14 && hour < 24 && minute < 60 && i == days * 1440 + hour * 60 + minute
      invariant days < 14 ==> moment == Moment(2026, 1, 5 + days, hour, minute)
      invariant Valid(moment)
      invariant total == Walked(c, days, hour, minute)
    {
      WalkedStep(c, days, hour, minute);
      if Matches(c, moment) {
        total := total + 1;
      }
      moment := Next(moment);
      if minute < 59 {
        minute := minute + 1;
      } else if hour < 23 {
        hour, minute := hour + 1, 0;
      } else {
        days, hour, minute := days + 1, 0, 0;
      }
    }
    assert days == 14;
  }

  method FiringsPerDay(c: Cron) returns (perDay: real)
    requires WellFormed(c)
    ensures perDay * 14.0 == (MatchingDays(c, 14) * (|c.hours| * |c.minutes|)) as real
    ensures 0.0 <= perDay
  {
    var total := FortnightFirings(c);
    perDay := total as real / 14.0;
  }
}
