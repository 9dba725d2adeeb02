/** The civil calendar behind Go's time.Date, AddDate and Weekday, on a fixed-offset clock. */
module Calendar {
  import opened Numbers

  predicate IsLeap(y: int) { y % 4 == 0 && (y % 100 != 0 || y % 400 == 0) }

  function DaysInMonth(y: int, m: int): (n: int)
    requires 1 <= m <= 12
    ensures 28 <= n <= 31
  {
    if m == 2 then if IsLeap(y) then 29 else 28
    else if m in {4, 6, 9, 11} then 30 else 31
  }

  /** Days from the first day of year 0 to the first day of year `y`. */
  function DaysBeforeYear(y: int): int {
    365 * y + (y + 3) / 4 - (y + 99) / 100 + (y + 399) / 400
  }

  function DaysBeforeMonth(y: int, m: int): int
    requires 1 <= m <= 12
    decreases m
  {
    if m == 1 then 0 else DaysBeforeMonth(y, m - 1) + DaysInMonth(y, m - 1)
  }

  function MonthStart(y: int, m: int): int
    requires 1 <= m <= 12
  {
    DaysBeforeYear(y) + DaysBeforeMonth(y, m)
  }

  const NS := 1_000_000_000
  const MINUTE := 60 * NS
  const DAY := 86400 * NS

  /** A local time: a date and the nanoseconds since midnight. */
  datatype Instant = Instant(y: int, m: int, d: int, ns: int) {
    predicate Valid() { 1 <= m <= 12 && 1 <= d <= DaysInMonth(y, m) && 0 <= ns < DAY }

    function DayNumber(): int
      requires Valid()
    {
      MonthStart(y, m) + d - 1
    }

    /** The whole time in nanoseconds, by which instants are ordered. */
    function Stamp(): int
      requires Valid()
    {
      DayNumber() * DAY + ns
    }

    /** Sunday is 0; the first day of year 0 was a Saturday. */
    function Weekday(): int
      requires Valid()
    {
      (DayNumber() + 6) % 7
    }
  }

  lemma {:induction false} YearLength(y: int)
    ensures DaysBeforeYear(y + 1) == DaysBeforeYear(y) + if IsLeap(y) then 366 else 365
  {
    Ceiling(y, 4);
    Ceiling(y, 100);
    Ceiling(y, 400);
    Factor(y, 4, 100);
    Factor(y, 25, 4);
  }

  lemma {:induction false} Factor(y: int, j: int, k: int)
    requires j > 0 && k > 0
    ensures y % (j * k) == 0 ==> y % k == 0
  {
    if y % (j * k) == 0 {
      var q := y / (j * k);
      assert y == q * (j * k) == (q * j) * k;
      Quotient(y, k, q * j, 0);
    }
  }

  lemma {:induction false} Ceiling(y: int, k: int)
    requires k > 0
    ensures (y + 1 + k - 1) / k == (y + k - 1) / k + if y % k == 0 then 1 else 0
  {
    var q, r := y / k, y % k;
    assert y == q * k + r;
    if r == 0 {
      Quotient(y + k - 1, k, q, k - 1);
      Quotient(y + k, k, q + 1, 0);
    } else {
      Quotient(y + k - 1, k, q + 1, r - 1);
      Quotient(y + k, k, q + 1, r);
    }
  }

  /** The month after (y, m). */
  function NextMonth(y: int, m: int): (int, int) { if m == 12 then (y + 1, 1) else (y, m + 1) }

  lemma YearOfMonths(y: int)
    ensures DaysBeforeMonth(y, 12) + 31 == if IsLeap(y) then 366 else 365
  {
    assert DaysBeforeMonth(y, 4) == 62 + DaysInMonth(y, 2);
    assert DaysBeforeMonth(y, 7) == DaysBeforeMonth(y, 4) + 91;
    assert DaysBeforeMonth(y, 10) == DaysBeforeMonth(y, 7) + 92;
    assert DaysBeforeMonth(y, 12) == DaysBeforeMonth(y, 10) + 61;
  }

  /** Months follow each other without a gap; so the day before the first of the next month is the
      last of this one, which is how daysInMonth finds it. */
  lemma {:induction false} MonthsAdjoin(y: int, m: int)
    requires 1 <= m <= 12
    ensures var n := NextMonth(y, m); MonthStart(n.0, n.1) == MonthStart(y, m) + DaysInMonth(y, m)
  {
    if m == 12 {
      YearLength(y);
      YearOfMonths(y);
    }
  }

  function MonthIndex(y: int, m: int): int { 12 * y + m - 1 }

  /** A later month starts after the end of an earlier one. */
  lemma {:induction false} LaterMonth(y: int, m: int, y1: int, m1: int)
    requires 1 <= m <= 12 && 1 <= m1 <= 12 && MonthIndex(y, m) < MonthIndex(y1, m1)
    ensures MonthStart(y, m) + DaysInMonth(y, m) <= MonthStart(y1, m1)
    decreases MonthIndex(y1, m1) - MonthIndex(y, m)
  {
    hide MonthStart;
    var n := NextMonth(y, m);
    MonthsAdjoin(y, m);
    if MonthIndex(n.0, n.1) < MonthIndex(y1, m1) {
      LaterMonth(n.0, n.1, y1, m1);
    } else {
      assert n == (y1, m1);
    }
  }

  /** AddDate(0, 0, 1). */
  function NextDay(t: Instant): Instant
    requires t.Valid()
  {
    if t.d < DaysInMonth(t.y, t.m) then t.(d := t.d + 1)
    else
      var n := NextMonth(t.y, t.m);
      Instant(n.0, n.1, 1, t.ns)
  }

  lemma {:induction false} NextDayNumber(t: Instant)
    requires t.Valid()
    ensures NextDay(t).Valid() && NextDay(t).DayNumber() == t.DayNumber() + 1 && NextDay(t).ns == t.ns
  {
    MonthsAdjoin(t.y, t.m);
  }

  /** Stamps order days first. */
  lemma DayOrder(a: Instant, b: Instant)
    requires a.Valid() && b.Valid()
    ensures a.DayNumber() < b.DayNumber() ==> a.Stamp() < b.Stamp()
    ensures a.DayNumber() == b.DayNumber() ==> (a.Stamp() < b.Stamp() <==> a.ns < b.ns)
  {
    var x, y := a.DayNumber(), b.DayNumber();
    if x < y { assert x * DAY + DAY <= y * DAY; }
  }

  lemma MonthOrder(a: Instant, b: Instant)
    requires a.Valid() && b.Valid() && MonthIndex(a.y, a.m) < MonthIndex(b.y, b.m)
    ensures a.DayNumber() < b.DayNumber()
  {
    LaterMonth(a.y, a.m, b.y, b.m);
  }
}
