/** Naive date-times at minute resolution, as Python's datetime counts them. */
module Calendar {
  datatype Moment = Moment(year: nat, month: nat, day: nat, hour: nat, minute: nat)

  predicate IsLeap(year: nat) {
    year % 4 == 0 && (year % 100 != 0 || year % 400 == 0)
  }

  function DaysIn(year: nat, month: nat): (n: nat)
    ensures 28 <= n <= 31
  {
    if month == 2 then (if IsLeap(year) then 29 else 28)
    else if month == 4 || month == 6 || month == 9 || month == 11 then 30
    else 31
  }

  predicate Valid(m: Moment) {
    m.year >= 1 && 1 <= m.month <= 12 && 1 <= m.day <= DaysIn(m.year, m.month) && m.hour < 24 && m.minute < 60
  }

  /** Adding one minute, carrying through hour, day, month and year. */
  function Next(m: Moment): (n: Moment)
    requires Valid(m)
    ensures Valid(n)
  {
    if m.minute < 59 then m.(minute := m.minute + 1)
    else if m.hour < 23 then m.(minute := 0, hour := m.hour + 1)
    else if m.day < DaysIn(m.year, m.month) then m.(minute := 0, hour := 0, day := m.day + 1)
    else if m.month < 12 then m.(minute := 0, hour := 0, day := 1, month := m.month + 1)
    else Moment(m.year + 1, 1, 1, 0, 0)
  }

  function Later(m: Moment, minutes: nat): (n: Moment)
    requires Valid(m)
    ensures Valid(n)
  {
    if minutes == 0 then m else Next(Later(m, minutes - 1))
  }

  function DaysBeforeYear(year: nat): nat
    requires year >= 1
  {
    var y := year - 1;
    y * 365 + y / 4 - y / 100 + y / 400
  }

  function DaysBeforeMonth(year: nat, month: nat): nat
    requires month >= 1
  {
    if month == 1 then 0 else DaysBeforeMonth(year, month - 1) + DaysIn(year, month - 1)
  }

  /** date.toordinal. */
  function Ordinal(m: Moment): nat
    requires Valid(m)
  {
    DaysBeforeYear(m.year) + DaysBeforeMonth(m.year, m.month) + m.day
  }

  /** date.weekday, Monday is 0. */
  function Weekday(m: Moment): nat
    requires Valid(m)
  {
    (Ordinal(m) + 6) % 7
  }

  function Minutes(m: Moment): nat
    requires Valid(m)
  {
    Ordinal(m) * 1440 + m.hour * 60 + m.minute
  }

  lemma MonthTable(year: nat)
    ensures DaysBeforeMonth(year, 12) + 31 == 365 + if IsLeap(year) then 1 else 0
  {
    var leap := if IsLeap(year) then 1 else 0;
    assert DaysBeforeMonth(year, 2) == 31;
    assert DaysBeforeMonth(year, 3) == 59 + leap;
    assert DaysBeforeMonth(year, 4) == 90 + leap;
    assert DaysBeforeMonth(year, 5) == 120 + leap;
    assert DaysBeforeMonth(year, 6) == 151 + leap;
    assert DaysBeforeMonth(year, 7) == 181 + leap;
    assert DaysBeforeMonth(year, 8) == 212 + leap;
    assert DaysBeforeMonth(year, 9) == 243 + leap;
    assert DaysBeforeMonth(year, 10) == 273 + leap;
    assert DaysBeforeMonth(year, 11) == 304 + leap;
  }

  lemma YearLength(year: nat)
    requires year >= 1
    ensures DaysBeforeYear(year + 1) == DaysBeforeYear(year) + 365 + if IsLeap(year) then 1 else 0
  {
    Wrap(year, 4);
    Wrap(year, 100);
    Wrap(year, 400);
    LeapRule(year);
  }

  lemma LeapRule(year: nat)
    ensures year % 400 == 0 ==> year % 100 == 0
    ensures year % 100 == 0 ==> year % 4 == 0
  {
    if year % 400 == 0 {
      DivExact(4 * (year / 400), 0, 100, year);
    }
    if year % 100 == 0 {
      DivExact(25 * (year / 100), 0, 4, year);
    }
  }

  lemma Wrap(year: nat, n: nat)
    requires year >= 1 && n > 0
    ensures year / n == (year - 1) / n + if year % n == 0 then 1 else 0
  {
    var q, r := (year - 1) / n, (year - 1) % n;
    assert year == q * n + (r + 1);
    if r + 1 == n {
      assert year == (q + 1) * n;
      DivExact(q + 1, 0, n, year);
    } else {
      DivExact(q, r + 1, n, year);
    }
  }

  lemma DivExact(q: nat, r: nat, n: nat, x: nat)
    requires r < n && x == q * n + r
    ensures x / n == q && x % n == r
  {
    var d := x / n - q;
    assert d * n == r - x % n;
    if d >= 1 {
      ProductNonNegative(d - 1, n);
    } else if d <= -1 {
      ProductNonNegative(-d - 1, n);
    }
  }

  lemma ProductNonNegative(a: int, b: nat)
    requires a >= 0
    ensures a * b >= 0
  {
  }

  /** The successor really is one minute later on the ordinal clock. */
  lemma NextIsOneMinute(m: Moment)
    requires Valid(m)
    ensures Minutes(Next(m)) == Minutes(m) + 1
  {
    if m.minute == 59 && m.hour == 23 && m.day == DaysIn(m.year, m.month) && m.month == 12 {
      YearLength(m.year);
      MonthTable(m.year);
    }
  }

  lemma {:induction false} LaterMinutes(m: Moment, minutes: nat)
    requires Valid(m)
    ensures Minutes(Later(m, minutes)) == Minutes(m) + minutes
  {
    if minutes > 0 {
      LaterMinutes(m, minutes - 1);
      NextIsOneMinute(Later(m, minutes - 1));
    }
  }

  // ---------------------------------------------------------------------
  // The ordinal clock names every moment once
  // ---------------------------------------------------------------------

  lemma {:induction false} MonthsIncrease(year: nat, a: nat, b: nat)
    requires 1 <= a < b <= 12
    ensures DaysBeforeMonth(year, a) + DaysIn(year, a) <= DaysBeforeMonth(year, b)
  {
    if a + 1 < b {
      MonthsIncrease(year, a, b - 1);
    }
  }

  lemma {:induction false} YearsIncrease(a: nat, b: nat)
    requires 1 <= a < b
    ensures DaysBeforeYear(a) + 365 + (if IsLeap(a) then 1 else 0) <= DaysBeforeYear(b)
  {
    YearLength(b - 1);
    if a + 1 < b {
      YearsIncrease(a, b - 1);
    }
  }

  lemma DayInYear(m: Moment)
    requires Valid(m)
    ensures 1 <= DaysBeforeMonth(m.year, m.month) + m.day <= 365 + if IsLeap(m.year) then 1 else 0
  {
    MonthTable(m.year);
    if m.month < 12 {
      MonthsIncrease(m.year, m.month, 12);
    }
  }

  lemma MinutesInjective(a: Moment, b: Moment)
    requires Valid(a) && Valid(b) && Minutes(a) == Minutes(b)
    ensures a == b
  {
    assert Ordinal(a) == Ordinal(b) && a.hour == b.hour && a.minute == b.minute;
    DayInYear(a);
    DayInYear(b);
    if a.year < b.year {
      YearsIncrease(a.year, b.year);
    } else if b.year < a.year {
      YearsIncrease(b.year, a.year);
    } else if a.month < b.month {
      MonthsIncrease(a.year, a.month, b.month);
    } else if b.month < a.month {
      MonthsIncrease(a.year, b.month, a.month);
    }
  }

  /** Every moment from `m` on is reached by counting minutes. */
  lemma ReachedByCounting(m: Moment, x: Moment)
    requires Valid(m) && Valid(x) && Minutes(m) <= Minutes(x)
    ensures Later(m, Minutes(x) - Minutes(m)) == x
  {
    LaterMinutes(m, Minutes(x) - Minutes(m));
    MinutesInjective(Later(m, Minutes(x) - Minutes(m)), x);
  }
}
