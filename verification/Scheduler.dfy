/** The scheduler's sweep over the job table: internal/scheduler/scheduler.go and
    internal/store/scheduled_jobs.go. */
module Scheduler {
  import opened Wrappers
  import opened Calendar
  import opened Numbers
  import opened Recurrence
  import opened Text

  datatype Status = NeverRun | RanOk | HandlerFailed | NoHandler | BadSpec

  datatype Job = Job(id: int, kind: string, spec: string, enabled: bool, lastRun: int, nextRun: int, status: Status)

  /** Seconds from the first day of year 0 to 1970. */
  const EPOCH := 719528 * 86400

  /** The Unix time, rounded down to seconds, of a local stamp in a zone `tz` seconds ahead. */
  function Unix(stamp: int, tz: int): int { stamp / NS - EPOCH - tz }

  predicate Due(j: Job, now: int) { j.enabled && 0 < j.nextRun <= now }

  function DueJobs(jobs: seq<Job>, now: int): (due: seq<Job>)
    ensures forall j :: j in due <==> j in jobs && Due(j, now)
  {
    if jobs == [] then []
    else
      var n := |jobs| - 1;
      assert jobs == jobs[..n] + [jobs[n]];
      DueJobs(jobs[..n], now) + if Due(jobs[n], now) then [jobs[n]] else []
  }

  /** The table in the order of its primary key. */
  predicate ById(jobs: seq<Job>) { forall i, j | 0 <= i < j < |jobs| :: jobs[i].id < jobs[j].id }

  /** What NextRun may return for a spec, from its contract. */
  ghost predicate Next(spec: string, after: Instant, next: Option<int>)
    requires after.Valid()
  {
    match RuleOf(spec)
    case None => next == None
    case Some(Interval(m)) => next == Some(after.Stamp() + Wrap64(m * MINUTE))
    case Some(r) => next.Some? && exists t: Instant :: IsNext(r, after, t) && next.value == t.Stamp()
  }

  /** What a sweep works with: the zone, the registered handlers, and whose handlers fail this time. */
  datatype Env = Env(tz: int, handlers: set<string>, fails: set<int>)

  function Outcome(j: Job, next: Option<int>, e: Env): Status {
    if next == None then BadSpec
    else if j.kind !in e.handlers then NoHandler
    else if j.id in e.fails then HandlerFailed
    else RanOk
  }

  /** The row of a job that was due, after the sweep at `now`: run at that time, and moved to its next
      run, or out of the schedule (next run zero) if its spec is bad. */
  ghost predicate Ran(before: Job, after: Job, now: Instant, e: Env)
    requires now.Valid()
  {
    exists next :: Next(before.spec, now, next)
      && after == before.(lastRun := Unix(now.Stamp(), e.tz),
                          nextRun := if next == None then 0 else Unix(next.value, e.tz),
                          status := Outcome(before, next, e))
  }

  /** The table after UPDATE ... WHERE id = ?. */
  ghost predicate Marked(a: seq<Job>, b: seq<Job>, id: int, ranAt: int, nextRun: int, status: Status) {
    |a| == |b|
    && (forall i | 0 <= i < |a| && a[i].id != id :: b[i] == a[i])
    && (forall i | 0 <= i < |a| && a[i].id == id ::
      b[i] == a[i].(lastRun := ranAt, nextRun := nextRun, status := status))
  }

  /** Rows listed in `done` have run, the others are as they were. */
  ghost predicate Swept(a: seq<Job>, b: seq<Job>, done: seq<Job>, now: Instant, e: Env)
    requires now.Valid()
  {
    |a| == |b| && forall i | 0 <= i < |a| :: RowSwept(a[i], b[i], a[i] in done, now, e)
  }

  ghost predicate RowSwept(a: Job, b: Job, ran: bool, now: Instant, e: Env)
    requires now.Valid()
  {
    if ran then Ran(a, b, now, e) else b == a
  }

  function Ids(jobs: seq<Job>): seq<int> { seq(|jobs|, i requires 0 <= i < |jobs| => jobs[i].id) }

  class JobStore {
    var jobs: seq<Job>

    constructor (jobs: seq<Job>)
      ensures this.jobs == jobs
    { this.jobs := jobs; }

    method MarkScheduledJobRun(id: int, ranAt: int, nextRun: int, status: Status)
      modifies this
      ensures Marked(old(jobs), jobs, id, ranAt, nextRun, status)
    {
      jobs := seq(|jobs|, i requires 0 <= i < |jobs| reads this =>
        if jobs[i].id == id then jobs[i].(lastRun := ranAt, nextRun := nextRun, status := status) else jobs[i]);
    }
  }

  class Scheduler {
    const st: JobStore
    const handlers: set<string>
    const tz: int

    constructor (st: JobStore, handlers: set<string>, tz: int)
      ensures this.st == st && this.handlers == handlers && this.tz == tz
    { this.st, this.handlers, this.tz := st, handlers, tz; }

    /** Run one job; `fails` says whose handlers fail. */
    method RunJob(j: Job, now: Instant, fails: set<int>)
      requires now.Valid() && ById(st.jobs) && j in st.jobs
      modifies st
      ensures Swept(old(st.jobs), st.jobs, [j], now, Env(tz, handlers, fails))
    {
      hide RuleOf, IsNext, Wrap64;
      ghost var before := st.jobs;
      var next := NextRun(j.spec, now);
      assert Next(j.spec, now, next);
      var status := RanOk;
      if j.kind !in handlers { status := NoHandler; }
      else if j.id in fails { status := HandlerFailed; }
      var nextTs := 0;
      if next.Some? { nextTs := Unix(next.value, tz); } else { status := BadSpec; }
      st.MarkScheduledJobRun(j.id, Unix(now.Stamp(), tz), nextTs, status);
      forall i | 0 <= i < |before|
        ensures RowSwept(before[i], st.jobs[i], before[i] in [j], now, Env(tz, handlers, fails))
      {
        if before[i] != j { OtherId(before, i, j); }
      }
    }

    /** One sweep. `ran` lists the jobs it ran: each due job exactly once, in id order. A replica that
        does not lead touches nothing. */
    method Sweep(now: Instant, leading: bool, fails: set<int>) returns (ran: seq<int>)
      requires now.Valid() && ById(st.jobs)
      modifies st
      ensures ById(st.jobs)
      ensures !leading ==> ran == [] && st.jobs == old(st.jobs)
      ensures leading ==> ran == Ids(DueJobs(old(st.jobs), Unix(now.Stamp(), tz)))
      ensures leading ==>
        Swept(old(st.jobs), st.jobs, DueJobs(old(st.jobs), Unix(now.Stamp(), tz)), now, Env(tz, handlers, fails))
    {
      hide Swept, Due, Instant.Stamp, Instant.Valid, ById;
      ran := [];
      if !leading { return; }
      var due := DueJobs(st.jobs, Unix(now.Stamp(), tz));
      ghost var before, e := st.jobs, Env(tz, handlers, fails);
      DueOnce(before, Unix(now.Stamp(), tz));
      SweptNone(before, now, e);
      for k := 0 to |due|
        invariant ById(st.jobs) && Swept(before, st.jobs, due[..k], now, e)
        invariant ran == Ids(due[..k])
      {
        NotYet(before, st.jobs, due, k, now, e);
        ghost var mid := st.jobs;
        RunJob(due[k], now, fails);
        ran := ran + [due[k].id];
        assert due[..k + 1] == due[..k] + [due[k]];
        SweptStep(before, mid, st.jobs, due[..k], due[k], now, e);
      }
      assert due[..|due|] == due;
    }
  }

  lemma SweptNone(a: seq<Job>, now: Instant, e: Env)
    requires now.Valid()
    ensures Swept(a, a, [], now, e)
  {}

  /** The k-th due job is still in the table as it was found. */
  lemma NotYet(before: seq<Job>, mid: seq<Job>, due: seq<Job>, k: nat, now: Instant, e: Env)
    requires now.Valid() && k < |due| && due[k] in before && Once(due) && Swept(before, mid, due[..k], now, e)
    ensures due[k] in mid
  {
    var i :| 0 <= i < |before| && before[i] == due[k];
    assert before[i] !in due[..k];
    assert RowSwept(before[i], mid[i], false, now, e);
  }

  lemma SweptStep(before: seq<Job>, mid: seq<Job>, after: seq<Job>, done: seq<Job>, j: Job, now: Instant, e: Env)
    requires now.Valid() && ById(before) && j in before && j !in done && j in mid
    requires Swept(before, mid, done, now, e) && Swept(mid, after, [j], now, e)
    ensures Swept(before, after, done + [j], now, e) && ById(after)
  {
    hide Next, Unix, Outcome;
    assert |before| == |mid| == |after|;
    forall i | 0 <= i < |before|
      ensures RowSwept(before[i], after[i], before[i] in done + [j], now, e) && after[i].id == before[i].id
    {
      assert RowSwept(before[i], mid[i], before[i] in done, now, e);
      assert RowSwept(mid[i], after[i], mid[i] in [j], now, e);
      if before[i] in done { OtherId(before, i, j); }
    }
  }

  lemma OtherId(jobs: seq<Job>, i: nat, j: Job)
    requires ById(jobs) && i < |jobs| && j in jobs && jobs[i] != j
    ensures jobs[i].id != j.id
  {}

  /** No job twice. */
  predicate Once(due: seq<Job>) { forall a, b | 0 <= a < b < |due| :: due[a] != due[b] }

  lemma {:induction false} DueOnce(jobs: seq<Job>, now: int)
    requires ById(jobs)
    ensures Once(DueJobs(jobs, now))
  {
    if jobs != [] {
      var n := |jobs| - 1;
      DueOnce(jobs[..n], now);
      assert jobs[n] !in DueJobs(jobs[..n], now);
    }
  }

  // ----- moved past the sweep -----

  /** Adding `w` nanoseconds to `a` reaches a later second exactly if they fill up the one that has begun. */
  lemma LaterSecond(a: int, w: int)
    ensures (a + w) / NS > a / NS <==> a % NS + w >= NS
  {
    var x := a % NS + w;
    Quotient(a + w, NS, a / NS + x / NS, x % NS);
  }

  lemma WholeSecondAfter(a: int, b: int)
    requires b > a && b % NS == 0
    ensures b / NS > a / NS
  {}

  lemma WholeSeconds(t: Instant, hh: int, mm: int)
    requires t.Valid() && t.ns == ClockNs(hh, mm)
    ensures t.Stamp() % NS == 0
  {
    hide Instant.DayNumber;
    var n := t.DayNumber();
    assert t.Stamp() == n * DAY + (hh * 60 + mm) * MINUTE;
    Quotient(t.Stamp(), NS, n * 86400 + (hh * 60 + mm) * 60, 0);
  }

  /** A calendar run lies in a later second than the sweep. */
  lemma {:induction false} CalendarIsLater(r: Rule, now: Instant, t: Instant, tz: int)
    requires IsNext(r, now, t)
    ensures Unix(t.Stamp(), tz) > Unix(now.Stamp(), tz)
  {
    hide Instant.Stamp;
    match r {
      case Daily(hh, mm) => WholeSeconds(t, hh, mm);
      case Weekly(_, hh, mm) => WholeSeconds(t, hh, mm);
      case Monthly(_, hh, mm) => WholeSeconds(t, hh, mm);
    }
    WholeSecondAfter(now.Stamp(), t.Stamp());
  }

  const HALF64 := 0x8000_0000_0000_0000

  /** The nanoseconds of an interval as they come out of a 64-bit product, still taken as unsigned. */
  function Product(minutes: int): int { minutes * MINUTE % TWO64 }

  /** Taken as signed, the product is negative from 2^63 on. */
  lemma WrapOf(minutes: int)
    ensures Wrap64(minutes * MINUTE)
         == if Product(minutes) >= HALF64 then Product(minutes) - TWO64 else Product(minutes)
    ensures Wrap64(minutes * MINUTE) < 0 <==> Product(minutes) >= HALF64
  {}

  /** An interval so long that its product is negative, or too small to fill up the second that has begun. */
  predicate WrapsBack(spec: string, now: Instant)
    requires now.Valid()
  {
    RuleOf(spec).Some? && RuleOf(spec).value.Interval?
    && (Product(RuleOf(spec).value.minutes) >= HALF64 || now.Stamp() % NS + Product(RuleOf(spec).value.minutes) < NS)
  }

  /** ... and does not reach back to 1970, so that the due query still takes it for a time. */
  predicate Overflows(spec: string, now: Instant, tz: int)
    requires now.Valid()
  {
    WrapsBack(spec, now)
    && var p := Product(RuleOf(spec).value.minutes);
       now.Stamp() + (if p >= HALF64 then p - TWO64 else p) >= (EPOCH + tz + 1) * NS
  }

  lemma After1970(stamp: int, tz: int)
    ensures Unix(stamp, tz) > 0 <==> stamp >= (EPOCH + tz + 1) * NS
  {
    LaterSecond((EPOCH + tz) * NS, stamp - (EPOCH + tz) * NS);
    Quotient((EPOCH + tz) * NS, NS, EPOCH + tz, 0);
  }

  lemma IntervalMoves(minutes: int, stamp: int, tz: int)
    ensures var p := Product(minutes);
      Unix(stamp + Wrap64(minutes * MINUTE), tz) <= Unix(stamp, tz) <==> p >= HALF64 || stamp % NS + p < NS
  {
    WrapOf(minutes);
    LaterSecond(stamp, Wrap64(minutes * MINUTE));
    hide Product, Wrap64;
  }

  /** A job with any number of missed runs is run once and moved strictly past the sweep, exactly when
      its spec is good and its interval does not wrap; it is due again at the very same time exactly
      when it wraps to a positive time, and otherwise never again. */
  lemma MovedPast(before: Job, after: Job, now: Instant, e: Env)
    requires now.Valid() && Due(before, Unix(now.Stamp(), e.tz)) && Ran(before, after, now, e)
    ensures after.nextRun > Unix(now.Stamp(), e.tz) <==> RuleOf(before.spec).Some? && !WrapsBack(before.spec, now)
    ensures Due(after, Unix(now.Stamp(), e.tz)) <==> Overflows(before.spec, now, e.tz)
  {
    hide RuleOf, Wrap64, Unix, Product, Instant.Stamp;
    var next :| Next(before.spec, now, next) && after.nextRun == if next == None then 0 else Unix(next.value, e.tz);
    match RuleOf(before.spec)
    case None =>
    case Some(Interval(m)) =>
      WrapOf(m);
      IntervalMoves(m, now.Stamp(), e.tz);
      After1970(next.value, e.tz);
    case Some(r) =>
      var t :| IsNext(r, now, t) && next.value == t.Stamp();
      CalendarIsLater(r, now, t, e.tz);
  }

  /** No interval of up to 153722867 minutes overflows. */
  lemma OrdinaryIntervals(spec: string, now: Instant)
    requires now.Valid() && RuleOf(spec).Some?
    requires RuleOf(spec).value.Interval? ==> 0 < RuleOf(spec).value.minutes <= 153_722_867
    ensures !WrapsBack(spec, now)
  {
    hide RuleOf, Instant.Stamp;
  }

  /** The next larger one always does, and there is a spec for it, as for every interval. */
  lemma FirstToWrap(now: Instant)
    requires now.Valid()
    ensures WrapsBack("interval:153722868", now)
  {
    hide RuleOf, Instant.Stamp, Instant.Valid, Digits;
    FirstSpec();
  }

  lemma FirstSpec()
    ensures RuleOf("interval:153722868") == Some(Interval(153_722_868))
  {
    DigitsOfFirst();
    hide RuleOf, Digits;
    IntervalSpec(153_722_868);
    assert "interval:" + "153722868" == "interval:153722868";
  }

  lemma DigitsOfFirst()
    ensures Digits(153_722_868) == "153722868"
  {
    assert Digits(15) == "15" && Digits(153) == "153" && Digits(1537) == "1537" && Digits(15372) == "15372";
    assert Digits(153_722) == "153722" && Digits(1_537_228) == "1537228" && Digits(15_372_286) == "15372286";
  }
}
