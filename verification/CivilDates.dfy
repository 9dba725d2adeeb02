/** The calendar by closed formulas, the weekday of every date, and the printed specs of the scheduler. */
module CivilDates {
  import opened Wrappers
  import opened Numbers
  import opened Text
  import opened Calendar
  import opened Recurrence
  import Scheduler

  // ----- day numbers and weekdays -----

  /** January and February count as the months 13 and 14 of the year before. */
  function ShiftedYear(y: int, m: int): int { if m <= 2 then y - 1 else y }

  function ShiftedMonth(m: int): int { if m <= 2 then m + 12 else m }

  /** Leap days up to the end of a year, less those of year 0. */
  function LeapDays(y: int): int { y / 4 - y / 100 + y / 400 }

  lemma RoundUp(y: int, k: int)
    requires k > 0
    ensures (y + k - 1) / k == (y - 1) / k + 1
    ensures (y + k - 1) / k == y / k + if y % k == 0 then 0 else 1
  {
    var q, r := (y - 1) / k, (y - 1) % k;
    assert y - 1 == q * k + r;
    Quotient(y + k - 1, k, q + 1, r);
    if r == k - 1 { Quotient(y, k, q + 1, 0); } else { Quotient(y, k, q, r + 1); }
  }

  lemma YearStart(y: int)
    ensures DaysBeforeYear(y) == 365 * y + LeapDays(y - 1) + 1
    ensures DaysBeforeYear(y) == 365 * y + LeapDays(y) + if IsLeap(y) then 0 else 1
  {
    RoundUp(y, 4);
    RoundUp(y, 100);
    RoundUp(y, 400);
    Factor(y, 4, 100);
    Factor(y, 25, 4);
  }

  lemma MonthStarts(y: int, m: int)
    requires 3 <= m <= 12
    ensures DaysBeforeMonth(y, m) == (153 * (m - 3) + 2) / 5 + if IsLeap(y) then 60 else 59
    decreases m
  {
    if m == 3 {
      assert DaysBeforeMonth(y, 2) == 31;
    } else {
      MonthStarts(y, m - 1);
    }
  }

  /** The number of a date, without any table of months. */
  lemma DayNumberLaw(t: Instant)
    requires t.Valid()
    ensures var y, m := ShiftedYear(t.y, t.m), ShiftedMonth(t.m);
      t.DayNumber() == 365 * y + y / 4 - y / 100 + y / 400 + (153 * (m - 3) + 2) / 5 + 59 + t.d
  {
    YearStart(t.y);
    if t.m >= 3 { MonthStarts(t.y, t.m); }
    else { assert DaysBeforeMonth(t.y, 1) == 0 && DaysBeforeMonth(t.y, 2) == 31; }
  }

  lemma MonthsModulo7(m: int)
    requires 3 <= m <= 14
    ensures ((153 * (m - 3) + 2) / 5 + 59 + 6 - 13 * (m + 1) / 5 - 6) % 7 == 0
  {
    assert m in {3, 4, 5, 6, 7, 8, 9, 10, 11, 12, 13, 14};
  }

  /** Zeller's congruence: the weekday of every date from its year, month and day, Sunday being 0. */
  lemma Zeller(t: Instant)
    requires t.Valid()
    ensures var y, m := ShiftedYear(t.y, t.m), ShiftedMonth(t.m);
      t.Weekday() == (t.d + 13 * (m + 1) / 5 + y + y / 4 - y / 100 + y / 400 + 6) % 7
  {
    hide Instant.DayNumber;
    var y, m := ShiftedYear(t.y, t.m), ShiftedMonth(t.m);
    DayNumberLaw(t);
    MonthsModulo7(m);
    var a := (153 * (m - 3) + 2) / 5 + 59 + 6 - 13 * (m + 1) / 5 - 6;
    var b := t.d + 13 * (m + 1) / 5 + y + y / 4 - y / 100 + y / 400 + 6;
    assert t.DayNumber() + 6 == b + a + 364 * y;
    SevenFree(b, a / 7 + 52 * y);
  }

  lemma SevenFree(b: int, k: int)
    ensures (b + 7 * k) % 7 == b % 7
  {
    Quotient(b + 7 * k, 7, b / 7 + k, b % 7);
  }

  /** The first day of 1970 was a Thursday; the scheduler counts Unix seconds from its midnight. */
  lemma UnixEpoch()
    ensures Instant(1970, 1, 1, 0).Valid() && Instant(1970, 1, 1, 0).Weekday() == 4
    ensures Instant(1970, 1, 1, 0).DayNumber() == 719528 && Scheduler.Unix(Instant(1970, 1, 1, 0).Stamp(), 0) == 0
  {
    DayNumberLaw(Instant(1970, 1, 1, 0));
    hide Instant.DayNumber;
  }

  // ----- printed specs -----

  function Two(n: nat): string
    requires n < 100
  {
    [('0' as int + n / 10) as char, ('0' as int + n % 10) as char]
  }

  const DAY_NAMES := ["sun", "mon", "tue", "wed", "thu", "fri", "sat"]

  function Time(hh: nat, mm: nat): string
    requires hh < 24 && mm < 60
  {
    Two(hh) + ":" + Two(mm)
  }

  lemma AtoiOfTwo(n: nat)
    requires n < 100
    ensures Atoi(Two(n)) == Some(n) && ':' !in Two(n) && forall c | c in Two(n) :: IsDigit(c)
  {
    var s := Two(n);
    assert s[..1][..0] == "" && s[..1] == [s[0]] && s[..|s| - 1] == s[..1];
    assert NumberOf("") == 0;
    assert NumberOf(s[..1]) == n / 10;
  }

  lemma {:induction false} SplitFirst(a: string, rest: string)
    requires ':' !in a
    ensures Split(a + ":" + rest) == [a] + Split(rest)
  {
    var s := a + ":" + rest;
    if a == "" {
      assert s[1..] == rest;
    } else {
      assert s[1..] == a[1..] + ":" + rest && s[0] == a[0] && a == [a[0]] + a[1..];
      SplitFirst(a[1..], rest);
    }
  }

  lemma TimeText(hh: nat, mm: nat)
    requires hh < 24 && mm < 60
    ensures Split(Time(hh, mm)) == [Two(hh), Two(mm)] && Atoi(Two(hh)) == Some(hh) && Atoi(Two(mm)) == Some(mm)
    ensures forall c | c in Time(hh, mm) :: IsDigit(c) || c == ':'
  {
    hide Two, Atoi, Split, IsDigit;
    AtoiOfTwo(hh);
    AtoiOfTwo(mm);
    SplitOne(Two(hh), Two(mm));
  }

  lemma DailySpec(hh: nat, mm: nat)
    requires hh < 24 && mm < 60
    ensures RuleOf("daily:" + Time(hh, mm)) == Some(Daily(hh, mm))
  {
    hide Two, Atoi, Split, ToLower, TrimSpace, Time;
    var s := "daily:" + Time(hh, mm);
    TimeText(hh, mm);
    PlainText(s);
    assert s == "daily" + ":" + Time(hh, mm);
    SplitFirst("daily", Time(hh, mm));
  }

  lemma DayName(wd: nat)
    requires wd < 7
    ensures DAY_NAMES[wd] in WEEKDAYS && WEEKDAYS[DAY_NAMES[wd]] == wd
    ensures forall c | c in DAY_NAMES[wd] :: 'a' <= c <= 'z'
  {
    assert wd in {0, 1, 2, 3, 4, 5, 6};
  }

  lemma WeeklySpec(wd: nat, hh: nat, mm: nat)
    requires wd < 7 && hh < 24 && mm < 60
    ensures RuleOf("weekly:" + DAY_NAMES[wd] + ":" + Time(hh, mm)) == Some(Weekly(wd, hh, mm))
  {
    hide Two, Atoi, Split, ToLower, TrimSpace, Time;
    var day, time := DAY_NAMES[wd], Time(hh, mm);
    var s := "weekly:" + day + ":" + time;
    TimeText(hh, mm);
    DayName(wd);
    hide WEEKDAYS, DAY_NAMES;
    forall c | c in s ensures IsDigit(c) || 'a' <= c <= 'z' || c == ':' {
      assert c in "weekly:" || c in day || c in ":" || c in time;
    }
    PlainText(s);
    assert s == "weekly" + ":" + (day + ":" + time);
    SplitFirst("weekly", day + ":" + time);
    SplitFirst(day, time);
    assert Split(s) == ["weekly", day, Two(hh), Two(mm)];
  }

  lemma MonthlySpec(dom: nat, hh: nat, mm: nat)
    requires 1 <= dom <= 31 && hh < 24 && mm < 60
    ensures RuleOf("monthly:" + Digits(dom) + ":" + Time(hh, mm)) == Some(Monthly(dom, hh, mm))
  {
    hide Two, Atoi, Split, ToLower, TrimSpace, Time, Digits;
    var day, time := Digits(dom), Time(hh, mm);
    var s := "monthly:" + day + ":" + time;
    TimeText(hh, mm);
    DigitsOnly(dom);
    AtoiOfDigits(dom);
    forall c | c in s ensures IsDigit(c) || 'a' <= c <= 'z' || c == ':' {
      assert c in "monthly:" || c in day || c in ":" || c in time;
    }
    PlainText(s);
    assert s == "monthly" + ":" + (day + ":" + time);
    SplitFirst("monthly", day + ":" + time);
    SplitFirst(day, time);
    assert Split(s) == ["monthly", day, Two(hh), Two(mm)];
  }

  // ----- one run -----

  lemma SixDaysOn(after: Instant, next: Instant)
    requires after == Instant(2026, 9, 8, ClockNs(10, 0)) && next == Instant(2026, 9, 14, ClockNs(7, 0))
    ensures after.Valid() && next.Valid() && next.Weekday() == 1 && next.DayNumber() == after.DayNumber() + 6
    ensures next.Stamp() > after.Stamp()
  {
    DayNumberLaw(after);
    DayNumberLaw(next);
    Zeller(next);
    hide Instant.DayNumber, Instant.Weekday;
    DayOrder(after, next);
  }

  /** After Tuesday the 8th of September 2026, at ten, a job for Mondays at seven runs on the 14th. */
  lemma MondayMorning()
    ensures RuleOf("weekly:mon:07:00") == Some(Weekly(1, 7, 0))
    ensures IsNext(Weekly(1, 7, 0), Instant(2026, 9, 8, ClockNs(10, 0)), Instant(2026, 9, 14, ClockNs(7, 0)))
  {
    assert "weekly:mon:07:00" == "weekly:" + DAY_NAMES[1] + ":" + Time(7, 0);
    WeeklySpec(1, 7, 0);
    hide RuleOf, IsNext, Instant.DayNumber, Instant.Stamp;
    var after, next := Instant(2026, 9, 8, ClockNs(10, 0)), Instant(2026, 9, 14, ClockNs(7, 0));
    SixDaysOn(after, next);
    WeeklyIsLeast(1, 7, 0, after, next, 6);
  }
}
