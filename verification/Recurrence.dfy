/** Recurrence specs and the next run time: internal/scheduler/recurrence.go. */
module Recurrence {
  import opened Wrappers
  import opened Text
  import opened Calendar

  // ----- reading a spec -----

  /** strings.Split on the colon: at least one part, possibly empty. */
  function Split(s: string): (parts: seq<string>)
    ensures |parts| >= 1
  {
    if s == "" then [""]
    else
      var rest := Split(s[1..]);
      if s[0] == ':' then [""] + rest else [[s[0]] + rest[0]] + rest[1..]
  }

  function Join(parts: seq<string>): string
    requires |parts| >= 1
  {
    if |parts| == 1 then parts[0] else parts[0] + ":" + Join(parts[1..])
  }

  /** Splitting loses nothing and leaves no separator inside a part. */
  lemma {:induction false} SplitJoin(s: string)
    ensures Join(Split(s)) == s && forall p | p in Split(s) :: ':' !in p
  {
    if s != "" {
      var rest := Split(s[1..]);
      SplitJoin(s[1..]);
      assert s == [s[0]] + s[1..];
      assert rest == [rest[0]] + rest[1..];
      if s[0] == ':' {
        assert Split(s)[1..] == rest && Join(Split(s)) == "" + ":" + s[1..] == s;
      } else {
        assert Split(s)[1..] == rest[1..] && Split(s)[0] == [s[0]] + rest[0];
        if |rest| > 1 {
          assert ([s[0]] + rest[0]) + ":" + Join(rest[1..]) == [s[0]] + (rest[0] + ":" + Join(rest[1..]));
        }
      }
    }
  }

  predicate IsDigit(c: char) { '0' <= c <= '9' }

  function NumberOf(s: string): nat
    requires forall c | c in s :: IsDigit(c)
  {
    if s == "" then 0
    else
      assert IsDigit(s[|s| - 1]);
      NumberOf(s[..|s| - 1]) * 10 + (s[|s| - 1] as int - '0' as int)
  }

  const MIN64 := -0x8000_0000_0000_0000
  const MAX64 := 0x7FFF_FFFF_FFFF_FFFF

  /** strconv.Atoi: an optional sign, digits only, and the range of a 64-bit int. */
  function Atoi(s: string): Option<int> {
    var signed := s != "" && (s[0] == '-' || s[0] == '+');
    var digits := if signed then s[1..] else s;
    if digits == "" || exists c | c in digits :: !IsDigit(c) then None
    else
      var v: int := NumberOf(digits);
      var n := if signed && s[0] == '-' then -v else v;
      if MIN64 <= n <= MAX64 then Some(n) else None
  }

  datatype Rule =
    | Interval(minutes: int)
    | Daily(hh: int, mm: int)
    | Weekly(weekday: int, hh: int, mm: int)
    | Monthly(dom: int, hh: int, mm: int)

  function Hm(parts: seq<string>, i: nat): Option<(int, int)> {
    if |parts| < i + 2 then None
    else
      match (Atoi(parts[i]), Atoi(parts[i + 1]))
      case (Some(hh), Some(mm)) => if 0 <= hh <= 23 && 0 <= mm <= 59 then Some((hh, mm)) else None
      case _ => None
  }

  const WEEKDAYS: map<string, int> :=
    map["sun" := 0, "mon" := 1, "tue" := 2, "wed" := 3, "thu" := 4, "fri" := 5, "sat" := 6]

  /** What a spec means; None for every spec the parser rejects. A daily spec may carry further
      parts, which are ignored. */
  function RuleOf(spec: string): Option<Rule> {
    var parts := Split(ToLower(TrimSpace(spec)));
    if parts[0] == "interval" then
      if |parts| != 2 then None
      else
        match Atoi(parts[1])
        case None => None
        case Some(m) => if m <= 0 then None else Some(Interval(m))
    else if parts[0] == "daily" then
      match Hm(parts, 1) case None => None case Some(t) => Some(Daily(t.0, t.1))
    else if parts[0] == "weekly" then
      if |parts| != 4 || parts[1] !in WEEKDAYS then None
      else match Hm(parts, 2) case None => None case Some(t) => Some(Weekly(WEEKDAYS[parts[1]], t.0, t.1))
    else if parts[0] == "monthly" then
      if |parts| != 4 then None
      else
        match Atoi(parts[1])
        case None => None
        case Some(dom) =>
          if dom < 1 || dom > 31 then None
          else match Hm(parts, 2) case None => None case Some(t) => Some(Monthly(dom, t.0, t.1))
    else None
  }

  // ----- what the next run is -----

  function ClockNs(hh: int, mm: int): int { (hh * 60 + mm) * MINUTE }

  function Min(a: int, b: int): int { if a < b then a else b }

  /** The times a rule names; an interval names none of its own. */
  predicate Matches(r: Rule, t: Instant)
    requires t.Valid()
  {
    match r
    case Interval(_) => false
    case Daily(hh, mm) => t.ns == ClockNs(hh, mm)
    case Weekly(wd, hh, mm) => t.ns == ClockNs(hh, mm) && t.Weekday() == wd
    case Monthly(dom, hh, mm) => t.ns == ClockNs(hh, mm) && t.d == Min(dom, DaysInMonth(t.y, t.m))
  }

  /** `next` is the least matching time strictly after `after`. */
  ghost predicate IsNext(r: Rule, after: Instant, next: Instant) {
    after.Valid() && next.Valid() && Matches(r, next) && next.Stamp() > after.Stamp()
    && forall t: Instant | t.Valid() && Matches(r, t) && t.Stamp() > after.Stamp() :: next.Stamp() <= t.Stamp()
  }

  const TWO64 := 0x1_0000_0000_0000_0000

  /** A time.Duration is a 64-bit count of nanoseconds: the product wraps around. */
  function Wrap64(n: int): int {
    var r := n % TWO64;
    if r > MAX64 then r - TWO64 else r
  }

  lemma ClockRange(hh: int, mm: int)
    requires 0 <= hh <= 23 && 0 <= mm <= 59
    ensures 0 <= ClockNs(hh, mm) < DAY
  {}

  lemma HmRange(parts: seq<string>, i: nat)
    ensures Hm(parts, i).Some? ==> 0 <= Hm(parts, i).value.0 <= 23 && 0 <= Hm(parts, i).value.1 <= 59
  {}

  // ----- the four branches -----

  method NextDaily(hh: int, mm: int, after: Instant) returns (cand: Instant)
    requires after.Valid() && 0 <= hh <= 23 && 0 <= mm <= 59
    ensures IsNext(Daily(hh, mm), after, cand)
  {
    hide Instant.DayNumber;
    ClockRange(hh, mm);
    cand := Instant(after.y, after.m, after.d, ClockNs(hh, mm));
    ghost var first := cand;
    SameDay(after, cand);
    DayOrder(after, cand);
    if !(cand.Stamp() > after.Stamp()) {
      NextDayNumber(cand);
      cand := NextDay(cand);
      DayOrder(after, cand);
    }
    forall t: Instant | t.Valid() && Matches(Daily(hh, mm), t) && t.Stamp() > after.Stamp()
      ensures cand.Stamp() <= t.Stamp()
    {
      DayOrder(t, cand);
      DayOrder(t, after);
      DayOrder(cand, t);
      DayOrder(t, first);
    }
  }

  lemma SameDay(a: Instant, b: Instant)
    requires a.Valid() && b.Valid() && a.y == b.y && a.m == b.m && a.d == b.d
    ensures a.DayNumber() == b.DayNumber()
  {}

  function DayOfWeek(n: int): int { (n + 6) % 7 }

  lemma WeekdayOf(t: Instant)
    requires t.Valid()
    ensures t.Weekday() == DayOfWeek(t.DayNumber())
  {}

  method NextWeekly(wd: int, hh: int, mm: int, after: Instant) returns (cand: Instant)
    requires after.Valid() && 0 <= wd <= 6 && 0 <= hh <= 23 && 0 <= mm <= 59
    ensures IsNext(Weekly(wd, hh, mm), after, cand)
  {
    hide Instant.DayNumber, Instant.Weekday;
    ClockRange(hh, mm);
    cand := Instant(after.y, after.m, after.d, ClockNs(hh, mm));
    SameDay(after, cand);
    ghost var n0 := after.DayNumber();
    for i := 0 to 8
      invariant cand.Valid() && cand.DayNumber() == n0 + i && cand.ns == ClockNs(hh, mm)
      invariant forall n | n0 < n < n0 + i :: DayOfWeek(n) != wd
      invariant i > 0 ==> DayOfWeek(n0) != wd || ClockNs(hh, mm) <= after.ns
    {
      WeekdayOf(cand);
      DayOrder(after, cand);
      if cand.Weekday() == wd && cand.Stamp() > after.Stamp() {
        WeeklyIsLeast(wd, hh, mm, after, cand, i);
        return;
      }
      NextDayNumber(cand);
      cand := NextDay(cand);
    }
    SomeDayOfWeek(n0, wd);
    assert false;
  }

  /** Seven days in a row hold every weekday, so the loop never runs out. */
  lemma SomeDayOfWeek(n: int, wd: int)
    requires 0 <= wd <= 6
    ensures exists k | n < k < n + 8 :: DayOfWeek(k) == wd
  {
    var k := n + 1 + (wd - n) % 7;
    assert DayOfWeek(k) == wd;
  }

  lemma {:induction false} WeeklyIsLeast(wd: int, hh: int, mm: int, after: Instant, cand: Instant, i: nat)
    requires after.Valid() && cand.Valid() && Matches(Weekly(wd, hh, mm), cand) && cand.Stamp() > after.Stamp()
    requires cand.DayNumber() == after.DayNumber() + i
    requires forall n | after.DayNumber() < n < after.DayNumber() + i :: DayOfWeek(n) != wd
    requires i > 0 ==> DayOfWeek(after.DayNumber()) != wd || ClockNs(hh, mm) <= after.ns
    ensures IsNext(Weekly(wd, hh, mm), after, cand)
  {
    hide Instant.DayNumber;
    forall t: Instant | t.Valid() && Matches(Weekly(wd, hh, mm), t) && t.Stamp() > after.Stamp()
      ensures cand.Stamp() <= t.Stamp()
    {
      DayOrder(t, cand);
      DayOrder(cand, t);
      DayOrder(t, after);
      DayOrder(after, t);
      WeekdayOf(t);
      assert DayOfWeek(t.DayNumber()) == wd;
    }
  }

  method NextMonthly(dom: int, hh: int, mm: int, after: Instant) returns (cand: Instant)
    requires after.Valid() && 1 <= dom <= 31 && 0 <= hh <= 23 && 0 <= mm <= 59
    ensures IsNext(Monthly(dom, hh, mm), after, cand)
  {
    hide Instant.DayNumber;
    ClockRange(hh, mm);
    ghost var k := MonthIndex(after.y, after.m);
    cand := after;
    for i := 0 to 3
      invariant i <= 1
      invariant i == 1 ==>
        forall t: Instant | t.Valid() && Matches(Monthly(dom, hh, mm), t) && MonthIndex(t.y, t.m) == k ::
        t.Stamp() <= after.Stamp()
    {
      var y, mo := after.y, after.m + i;
      if mo > 12 { mo, y := mo - 12, y + 1; }
      var d := dom;
      var last := DaysInMonth(y, mo);
      if d > last { d := last; }
      cand := Instant(y, mo, d, ClockNs(hh, mm));
      if i == 1 {
        MonthOrder(after, cand);
        DayOrder(after, cand);
      }
      if cand.Stamp() > after.Stamp() {
        MonthlyIsLeast(dom, hh, mm, after, cand, i);
        return;
      }
      forall t: Instant | t.Valid() && Matches(Monthly(dom, hh, mm), t) && MonthIndex(t.y, t.m) == k
        ensures t.Stamp() <= after.Stamp()
      {
        assert t == cand;
      }
    }
    assert false;
  }

  lemma {:induction false} MonthlyIsLeast(dom: int, hh: int, mm: int, after: Instant, cand: Instant, i: nat)
    requires after.Valid() && cand.Valid() && Matches(Monthly(dom, hh, mm), cand) && cand.Stamp() > after.Stamp()
    requires i <= 1 && MonthIndex(cand.y, cand.m) == MonthIndex(after.y, after.m) + i
    requires i == 1 ==> forall t: Instant | t.Valid() && Matches(Monthly(dom, hh, mm), t)
                          && MonthIndex(t.y, t.m) == MonthIndex(after.y, after.m) :: t.Stamp() <= after.Stamp()
    ensures IsNext(Monthly(dom, hh, mm), after, cand)
  {
    hide Instant.DayNumber;
    forall t: Instant | t.Valid() && Matches(Monthly(dom, hh, mm), t) && t.Stamp() > after.Stamp()
      ensures cand.Stamp() <= t.Stamp()
    {
      var kt, kc, ka := MonthIndex(t.y, t.m), MonthIndex(cand.y, cand.m), MonthIndex(after.y, after.m);
      if kt < ka { MonthOrder(t, after); DayOrder(t, after); }
      else if kt == kc { assert t == cand; }
      else if kc < kt { MonthOrder(cand, t); DayOrder(cand, t); }
    }
  }

  // ----- NextRun -----

  /** A run time, in nanoseconds on the local clock; None is the error return. For the calendar rules
      it is the least matching time strictly after `after`, and there always is one: the two
      not-found exits are never taken. */
  method NextRun(spec: string, after: Instant) returns (next: Option<int>)
    requires after.Valid()
    ensures next.Some? <==> RuleOf(spec).Some?
    ensures next.Some? && RuleOf(spec).value.Interval? ==>
      next.value == after.Stamp() + Wrap64(RuleOf(spec).value.minutes * MINUTE)
    ensures next.Some? && !RuleOf(spec).value.Interval? ==>
      exists t: Instant :: IsNext(RuleOf(spec).value, after, t) && next.value == t.Stamp()
  {
    hide Atoi, Split, ToLower, TrimSpace, IsNext, Instant.Stamp, Instant.Valid, MINUTE, Wrap64;
    var parts := Split(ToLower(TrimSpace(spec)));
    HmRange(parts, 1);
    HmRange(parts, 2);
    hide Hm;
    next := None;
    if parts[0] == "interval" {
      if |parts| != 2 { return None; }
      var m := Atoi(parts[1]);
      if m == None || m.value <= 0 { return None; }
      return Some(after.Stamp() + Wrap64(m.value * MINUTE));
    } else if parts[0] == "daily" {
      var t := Hm(parts, 1);
      if t == None { return None; }
      var cand := NextDaily(t.value.0, t.value.1, after);
      ValidNext(Daily(t.value.0, t.value.1), after, cand);
      return Some(cand.Stamp());
    } else if parts[0] == "weekly" {
      if |parts| != 4 || parts[1] !in WEEKDAYS { return None; }
      var t := Hm(parts, 2);
      if t == None { return None; }
      var cand := NextWeekly(WEEKDAYS[parts[1]], t.value.0, t.value.1, after);
      ValidNext(Weekly(WEEKDAYS[parts[1]], t.value.0, t.value.1), after, cand);
      return Some(cand.Stamp());
    } else if parts[0] == "monthly" {
      if |parts| != 4 { return None; }
      var dom := Atoi(parts[1]);
      if dom == None || dom.value < 1 || dom.value > 31 { return None; }
      var t := Hm(parts, 2);
      if t == None { return None; }
      var cand := NextMonthly(dom.value, t.value.0, t.value.1, after);
      ValidNext(Monthly(dom.value, t.value.0, t.value.1), after, cand);
      return Some(cand.Stamp());
    }
  }

  lemma ValidNext(r: Rule, after: Instant, t: Instant)
    requires IsNext(r, after, t)
    ensures t.Valid()
  {}

  /** The next run is unique as a time. */
  lemma NextIsUnique(r: Rule, after: Instant, t: Instant, u: Instant)
    requires IsNext(r, after, t) && IsNext(r, after, u)
    ensures t.Stamp() == u.Stamp()
  {}

  /** An interval moves forward by exactly its minutes up to the largest one a Duration holds, and
      the first one beyond goes back in time. */
  lemma IntervalRange(m: int)
    requires m > 0
    ensures m <= 153_722_867 ==> Wrap64(m * MINUTE) == m * MINUTE
    ensures Wrap64(153_722_868 * MINUTE) < 0
  {}

  // ----- every interval has a spec -----

  lemma {:induction false} DigitsOnly(n: nat)
    ensures forall c | c in Digits(n) :: IsDigit(c)
  {
    if n >= 10 { DigitsOnly(n / 10); }
  }

  lemma {:induction false} NumberOfDigits(n: nat)
    ensures (forall c | c in Digits(n) :: IsDigit(c)) && NumberOf(Digits(n)) == n
  {
    DigitsOnly(n);
    if n >= 10 {
      NumberOfDigits(n / 10);
      var s := Digits(n);
      assert s[..|s| - 1] == Digits(n / 10);
    } else {
      assert Digits(n)[..0] == "";
    }
  }

  lemma {:induction false} SplitNone(s: string)
    requires ':' !in s
    ensures Split(s) == [s]
  {
    if s != "" {
      assert s == [s[0]] + s[1..];
      SplitNone(s[1..]);
    }
  }

  lemma {:induction false} SplitOne(a: string, b: string)
    requires ':' !in a && ':' !in b
    ensures Split(a + ":" + b) == [a, b]
  {
    var s := a + ":" + b;
    if a == "" {
      assert s[1..] == b;
      SplitNone(b);
    } else {
      assert s[1..] == a[1..] + ":" + b && s[0] == a[0] && a == [a[0]] + a[1..];
      SplitOne(a[1..], b);
    }
  }

  lemma PlainText(s: string)
    requires forall c | c in s :: IsDigit(c) || 'a' <= c <= 'z' || c == ':'
    ensures ToLower(TrimSpace(s)) == s
  {
    forall i | 0 <= i < |s| ensures Lower(s[i]) == s[i] && !IsSpace(s[i]) {
      assert s[i] in s;
      assert IsDigit(s[i]) || 'a' <= s[i] <= 'z' || s[i] == ':';
    }
    hide Lower, IsSpace;
    assert Trimmed(s);
  }

  lemma IntervalText(n: nat)
    ensures var s := "interval:" + Digits(n); ToLower(TrimSpace(s)) == s && Split(s) == ["interval", Digits(n)]
  {
    hide Digits, ToLower, TrimSpace, Split;
    var s := "interval:" + Digits(n);
    DigitsOnly(n);
    forall c | c in s ensures IsDigit(c) || 'a' <= c <= 'z' || c == ':' { assert c in "interval:" || c in Digits(n); }
    PlainText(s);
    assert s == "interval" + ":" + Digits(n);
    SplitOne("interval", Digits(n));
  }

  lemma AtoiOfDigits(n: nat)
    requires n <= MAX64
    ensures Atoi(Digits(n)) == Some(n)
  {
    NumberOfDigits(n);
    hide Digits, NumberOf;
    assert Digits(n)[0] in Digits(n);
  }

  /** Any positive number of minutes that an int holds can be asked for. */
  lemma IntervalSpec(n: nat)
    requires 0 < n <= MAX64
    ensures RuleOf("interval:" + Digits(n)) == Some(Interval(n))
  {
    hide Digits, ToLower, TrimSpace, Split, Atoi;
    IntervalText(n);
    AtoiOfDigits(n);
  }
}
