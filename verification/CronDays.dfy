/** What the day rule of a schedule gives, in days of the week and of the month. */
module CronDays {
  import opened Wrappers
  import opened Calendar
  import opened Cron

  // -------------------------------------------------------- the day of the week

  /** The day of the week, Sunday 0: a week since any other day of the same name. */
  function DayOfWeek(m: Moment): nat
    requires Valid(m)
  {
    Ordinal(m) % 7
  }

  /** The fortnight starts on a Monday. */
  lemma FortnightOrdinal(k: nat)
    requires k < 14
    ensures Valid(FortnightDay(k)) && Ordinal(FortnightDay(k)) == 7 * 105660 + 1 + k
  {
    assert DaysBeforeMonth(2026, 1) == 0;
  }

  lemma NextDay(m: Moment)
    requires Valid(m)
    ensures Ordinal(Next(m)) == Ordinal(m) + if m.hour == 23 && m.minute == 59 then 1 else 0
  {
    hide Ordinal;
    NextIsOneMinute(m);
  }

  /** Where it starts, and how it goes on: the fifth of January 2026 is a Monday, and each day after
    * is the next day of the week. */
  lemma DaysOfTheWeek(m: Moment)
    requires Valid(m)
    ensures DayOfWeek(Moment(2026, 1, 5, 0, 0)) == 1
    ensures (Weekday(m) + 1) % 7 == DayOfWeek(m)
    ensures DayOfWeek(Next(m)) == if m.hour == 23 && m.minute == 59 then (DayOfWeek(m) + 1) % 7 else DayOfWeek(m)
  {
    hide Ordinal, Next;
    FortnightOrdinal(0);
    NextDay(m);
  }

  // --------------------------------------------------------------- the day rule

  /** A schedule falls on a day of its months: on any, where neither its days nor its weekdays are
    * restricted; on its days, or on its weekdays, where one of them is; and on either, where both
    * are. */
  lemma FallsExactly(c: Cron, m: Moment)
    requires Valid(m)
    ensures DayMatches(c, m) <==>
      && m.month in c.months
      && (!c.dayWild && c.weekdayWild ==> m.day in c.days)
      && (c.dayWild && !c.weekdayWild ==> DayOfWeek(m) in c.weekdays)
      && (!c.dayWild && !c.weekdayWild ==> m.day in c.days || DayOfWeek(m) in c.weekdays)
  {
    DaysOfTheWeek(m);
  }

  /** One restricted both ways matches whenever either of the two does that are restricted one way. */
  lemma BothIsEither(c: Cron, m: Moment)
    requires Valid(m) && !c.dayWild && !c.weekdayWild
    ensures Matches(c, m) <==> Matches(c.(weekdayWild := true), m) || Matches(c.(dayWild := true), m)
  {
  }

  /** Every firing of a weekly schedule is on a weekday that it names; it fires on the first of those
    * days, at the first of its times, that its months allow. */
  method NextOnWeekday(c: Cron, moment: Moment, limit: nat) returns (next: Option<Moment>)
    requires Valid(moment) && c.dayWild && !c.weekdayWild
    ensures next.Some? ==>
      && Valid(next.value) && DayOfWeek(next.value) in c.weekdays && next.value.month in c.months
      && next.value.hour in c.hours && next.value.minute in c.minutes
      && Minutes(moment) < Minutes(next.value) <= Minutes(moment) + limit
    ensures forall x :: Valid(x) && Minutes(moment) < Minutes(x) <= Minutes(moment) + limit ==>
      DayOfWeek(x) in c.weekdays && x.month in c.months && x.hour in c.hours && x.minute in c.minutes ==>
      next.Some? && Minutes(next.value) <= Minutes(x)
  {
    hide DayMatches, DayOfWeek;
    next := NextAfter(c, moment, limit);
    forall x | Valid(x)
      ensures DayMatches(c, x) <==> x.month in c.months && DayOfWeek(x) in c.weekdays
    {
      FallsExactly(c, x);
    }
  }

  // --------------------------------------------------------------- the fortnight

  lemma FortnightWeekday(k: nat)
    requires k < 14
    ensures Valid(FortnightDay(k)) && DayOfWeek(FortnightDay(k)) == (k + 1) % 7
  {
    hide Ordinal;
    FortnightOrdinal(k);
  }

  function One(b: bool): nat {
    if b then 1 else 0
  }

  lemma CountOfWeek(values: set<int>)
    requires forall v :: v in values ==> 0 <= v <= 6
    ensures |values| == One(0 in values) + One(1 in values) + One(2 in values) + One(3 in values) +
                        One(4 in values) + One(5 in values) + One(6 in values)
  {
    hide ValuesBelow;
    BelowEnds(values, 7);
    BelowStep(values, 0);
    BelowStep(values, 1);
    BelowStep(values, 2);
    BelowStep(values, 3);
    BelowStep(values, 4);
    BelowStep(values, 5);
    BelowStep(values, 6);
  }

  /** The days of the first k of the fortnight on which a weekly schedule falls. */
  function WeekdaysIn(values: set<int>, k: nat): nat {
    if k == 0 then 0 else WeekdaysIn(values, k - 1) + One(k % 7 in values)
  }

  lemma {:induction false} WeeklyDays(c: Cron, k: nat)
    requires k <= 14 && c.dayWild && !c.weekdayWild && 1 in c.months
    ensures MatchingDays(c, k) == WeekdaysIn(c.weekdays, k)
  {
    hide DayMatches, DayOfWeek;
    if k > 0 {
      WeeklyDays(c, k - 1);
      FortnightWeekday(k - 1);
      FallsExactly(c, FortnightDay(k - 1));
    }
  }

  /** A week of a schedule's days, at whatever day it starts. */
  lemma WeekOf(values: set<int>, k: nat)
    ensures WeekdaysIn(values, k + 7) == WeekdaysIn(values, k) + One((k + 1) % 7 in values) + One((k + 2) % 7 in values) +
            One((k + 3) % 7 in values) + One((k + 4) % 7 in values) + One((k + 5) % 7 in values) +
            One((k + 6) % 7 in values) + One((k + 7) % 7 in values)
  {
    assert WeekdaysIn(values, k + 1) == WeekdaysIn(values, k) + One((k + 1) % 7 in values);
    assert WeekdaysIn(values, k + 2) == WeekdaysIn(values, k + 1) + One((k + 2) % 7 in values);
    assert WeekdaysIn(values, k + 3) == WeekdaysIn(values, k + 2) + One((k + 3) % 7 in values);
    assert WeekdaysIn(values, k + 4) == WeekdaysIn(values, k + 3) + One((k + 4) % 7 in values);
    assert WeekdaysIn(values, k + 5) == WeekdaysIn(values, k + 4) + One((k + 5) % 7 in values);
    assert WeekdaysIn(values, k + 6) == WeekdaysIn(values, k + 5) + One((k + 6) % 7 in values);
  }

  /** A schedule by weekdays falls on each of them twice in the fortnight. */
  lemma WeeklyIsTwice(c: Cron)
    requires WellFormed(c) && c.dayWild && !c.weekdayWild && 1 in c.months
    ensures MatchingDays(c, 14) == 2 * |c.weekdays|
  {
    hide MatchingDays, One;
    WeeklyDays(c, 14);
    WeekOf(c.weekdays, 0);
    WeekOf(c.weekdays, 7);
    CountOfWeek(c.weekdays);
  }

  lemma {:induction false} MonthlyDays(c: Cron, k: nat)
    requires WellFormed(c) && k <= 14 && !c.dayWild && c.weekdayWild && 1 in c.months
    ensures MatchingDays(c, k) == |ValuesBelow(c.days, 5 + k)| - |ValuesBelow(c.days, 5)|
  {
    hide DayMatches, ValuesBelow;
    if k > 0 {
      MonthlyDays(c, k - 1);
      FortnightWeekday(k - 1);
      FallsExactly(c, FortnightDay(k - 1));
      BelowStep(c.days, 4 + k);
    }
  }

  /** A schedule by days of the month falls on those of them that are in it, the fifth to the
    * eighteenth. */
  lemma MonthlyIsItsDays(c: Cron)
    requires WellFormed(c) && !c.dayWild && c.weekdayWild && 1 in c.months
    ensures MatchingDays(c, 14) == |set v | v in c.days && 5 <= v <= 18|
  {
    MonthlyDays(c, 14);
    var within := set v | v in c.days && 5 <= v <= 18;
    assert ValuesBelow(c.days, 19) == ValuesBelow(c.days, 5) + within;
    assert ValuesBelow(c.days, 5) * within == {};
  }

  lemma {:induction false} EveryDay(c: Cron, k: nat)
    requires k <= 14
    ensures c.dayWild && c.weekdayWild && 1 in c.months ==> MatchingDays(c, k) == k
    ensures 1 !in c.months ==> MatchingDays(c, k) == 0
  {
    if k > 0 {
      EveryDay(c, k - 1);
      FortnightWeekday(k - 1);
    }
  }

  lemma {:induction false} EitherDays(c: Cron, k: nat)
    requires k <= 14 && !c.dayWild && !c.weekdayWild
    ensures MatchingDays(c.(weekdayWild := true), k) <= MatchingDays(c, k)
    ensures MatchingDays(c.(dayWild := true), k) <= MatchingDays(c, k)
    ensures MatchingDays(c, k) <= MatchingDays(c.(weekdayWild := true), k) + MatchingDays(c.(dayWild := true), k)
  {
    if k > 0 {
      EitherDays(c, k - 1);
      FortnightWeekday(k - 1);
    }
  }

  /** Firings a day: a schedule on some weekdays, at some minutes of some hours, fires at each of
    * those times on each of those days of the week; one on every day, every day. */
  method WeeklyRate(c: Cron) returns (perDay: real)
    requires WellFormed(c) && c.dayWild && 1 in c.months
    ensures perDay * 7.0 == ((if c.weekdayWild then 7 else |c.weekdays|) * (|c.hours| * |c.minutes|)) as real
  {
    hide MatchingDays;
    perDay := FiringsPerDay(c);
    var times := |c.hours| * |c.minutes|;
    if c.weekdayWild {
      EveryDay(c, 14);
      assert 14 * times == 2 * (7 * times);
    } else {
      WeeklyIsTwice(c);
      assert 2 * |c.weekdays| * times == 2 * (|c.weekdays| * times);
    }
  }
}
