/** Runs that meet each way in which the bundle of a day is rejected. Times are seconds of a zone without
    offset: day 0 ends at 86400, its last hour begins at 82800. */
module DisorderedRuns {
  import opened Wrappers
  import opened Merkle
  import opened LogChain
  import opened Evidence
  import opened Sealer
  import opened SealChains
  import opened SealedDay
  import opened LateHours

  function At(rec: Log, ts: int): Event { Append(rec.(ts := ts)) }

  function HourTick(now: int): Event { Ticking(now, false, true, true) }

  /** The time stamps of the records, and the kinds and buckets of the checkpoints. */
  datatype View = View(times: seq<int>, buckets: seq<(string, int)>)

  function ViewOf(db: Db): View {
    View(seq(|db.logs|, i requires 0 <= i < |db.logs| => db.logs[i].ts),
         seq(|db.cps|, i requires 0 <= i < |db.cps| => (db.cps[i].kind, db.cps[i].bucketStart)))
  }

  lemma Grows(s: Setup, evs: seq<Event>, e: Event)
    ensures Run(s, evs + [e]) == Step(s, Run(s, evs), e)
  {
    hide Step;
    assert (evs + [e])[..|evs|] == evs;
  }

  lemma NoEvents(s: Setup)
    ensures ViewOf(Run(s, [])) == View([], [])
  {}

  lemma AddRecord(s: Setup, evs: seq<Event>, rec: Log, ts: int)
    ensures var v := ViewOf(Run(s, evs)); ViewOf(Run(s, evs + [At(rec, ts)])) == View(v.times + [ts], v.buckets)
  {
    hide Run, Step;
    Grows(s, evs, At(rec, ts));
    OneAppend(s, Run(s, evs), rec.(ts := ts));
    var db, db1 := Run(s, evs), Run(s, evs + [At(rec, ts)]);
    forall i | 0 <= i < |db.logs| ensures db1.logs[i] == db.logs[i] { assert db1.logs[i] == db1.logs[..|db.logs|][i]; }
  }

  lemma Viewed(db: Db, kind: string, start: int)
    ensures Exists(db.cps, kind, start) <==> (kind, start) in ViewOf(db).buckets
  {
    var bs := ViewOf(db).buckets;
    if Exists(db.cps, kind, start) {
      var i :| 0 <= i < |db.cps| && db.cps[i].kind == kind && db.cps[i].bucketStart == start;
      assert bs[i] == (kind, start);
    }
    if (kind, start) in bs {
      var i :| 0 <= i < |bs| && bs[i] == (kind, start);
      assert db.cps[i].kind == kind && db.cps[i].bucketStart == start;
    }
  }

  lemma ViewGrows(db: Db, cp: Checkpoint)
    ensures ViewOf(db.(cps := db.cps + [cp]))
         == View(ViewOf(db).times, ViewOf(db).buckets + [(cp.kind, cp.bucketStart)])
  {}

  lemma AddHour(s: Setup, evs: seq<Event>, now: int, i: nat)
    requires var v, start := ViewOf(Run(s, evs)), HourOf(now) - HOUR;
      (HOURLY, start) !in v.buckets && i < |v.times| && start <= v.times[i] < start + HOUR
    ensures var v := ViewOf(Run(s, evs));
      ViewOf(Run(s, evs + [HourTick(now)])) == View(v.times, v.buckets + [(HOURLY, HourOf(now) - HOUR)])
  {
    var db, start := Run(s, evs), HourOf(now) - HOUR;
    assert ViewOf(db).times[i] == db.logs[i].ts && db.logs[i] in db.logs;
    hide Run, Step, HourCheckpoint, Exists, HourOf, ViewOf;
    Grows(s, evs, HourTick(now));
    OneTick(s, db, now, true);
    Viewed(db, HOURLY, start);
    HourSaved(s.c, db, start, db.logs[i]);
    HourKind(s.c, db, start);
    ViewGrows(db, HourCheckpoint(s.c, db, start));
  }

  // ----- the late hour -----

  /** The tick at five past midnight that seals day 0. */
  function SealTick(fails: bool): Event { Ticking(86700, fails, false, true) }

  lemma {:induction false} NoneSince(logs: seq<Log>, from: int, to: int)
    requires forall l | l in logs :: l.ts < from
    ensures LogsIn(logs, from, to) == []
  {
    if logs != [] {
      assert logs[|logs| - 1] in logs;
      NoneSince(logs[..|logs| - 1], from, to);
    }
  }

  lemma NothingToSave(c: Crypto, db: Db, start: int)
    requires forall l | l in db.logs :: l.ts < start
    ensures Hourly(c, db, start) == db
  {
    hide HourCheckpoint, Exists;
    NoneSince(db.logs, start, start + HOUR);
  }

  lemma SealedNow(s: Setup, db: Db, fails: bool)
    requires s.tz == 0 && (fails || Hourly(s.c, db, 82800) == db)
    ensures Step(s, db, SealTick(fails)) == Daily(s, db, 0, 86700, true)
  {
    hide Hourly, Daily;
  }

  lemma DaySaved(s: Setup, db: Db, day: int, h: Checkpoint)
    requires !Exists(db.cps, DAILY, day) && h in OfKind(db.cps, HOURLY) && day <= h.bucketStart < day + DAY
    ensures Daily(s, db, day, 86700, true) == db.(cps := db.cps + [DayCheckpoint(s, db, day, 86700, true)])
  {
    hide Between, DayCheckpoint, Exists, OfKind;
    BetweenMembers(db.cps, day, day + DAY);
    assert h in Between(db.cps, day, day + DAY) && h in HoursOf(db.cps, day);
  }

  lemma AddSeal(s: Setup, evs: seq<Event>, fails: bool)
    requires s.tz == 0 && var v := ViewOf(Run(s, evs));
      v.buckets == [(HOURLY, 79200)] && (fails || forall i | 0 <= i < |v.times| :: v.times[i] < 82800)
    ensures var v := ViewOf(Run(s, evs));
      ViewOf(Run(s, evs + [SealTick(fails)])) == View(v.times, v.buckets + [(DAILY, 0)])
  {
    var db := Run(s, evs);
    assert |db.cps| == 1;
    var h := db.cps[0];
    assert ViewOf(db).buckets[0] == (h.kind, h.bucketStart) && h in db.cps;
    assert forall i | 0 <= i < |db.logs| :: ViewOf(db).times[i] == db.logs[i].ts;
    hide Run, Step, DayCheckpoint, Hourly, Daily, Exists, ViewOf, OfKind;
    Grows(s, evs, SealTick(fails));
    if !fails { NothingToSave(s.c, db, 82800); }
    SealedNow(s, db, fails);
    Viewed(db, DAILY, 0);
    DaySaved(s, db, 0, h);
    DayKind(s, db, 0, 86700, true);
    ViewGrows(db, DayCheckpoint(s, db, 0, 86700, true));
  }

  /** The hour step fails at the tick that seals the day, or a record of the last hour comes after that tick. */
  function LateEvents(rec: Log, fails: bool): seq<Event> {
    var evs := [At(rec, 79300)] + [HourTick(82810)];
    (if fails then evs + [At(rec, 82900)] + [SealTick(true)] else evs + [SealTick(false)] + [At(rec, 82900)])
    + [HourTick(86730)]
  }

  lemma LateView(s: Setup, rec: Log, fails: bool)
    requires s.tz == 0
    ensures ViewOf(Run(s, LateEvents(rec, fails)))
         == View([79300, 82900], [(HOURLY, 79200), (DAILY, 0), (HOURLY, 82800)])
  {
    hide Run, ViewOf;
    var evs := [At(rec, 79300)];
    NoEvents(s);
    AddRecord(s, [], rec, 79300);
    assert [] + evs == evs;
    AddHour(s, evs, 82810, 0);
    evs := evs + [HourTick(82810)];
    if fails {
      AddRecord(s, evs, rec, 82900);
      AddSeal(s, evs + [At(rec, 82900)], true);
      evs := evs + [At(rec, 82900)] + [SealTick(true)];
    } else {
      AddSeal(s, evs, false);
      AddRecord(s, evs + [SealTick(false)], rec, 82900);
      evs := evs + [SealTick(false)] + [At(rec, 82900)];
    }
    AddHour(s, evs, 86730, 1);
  }

  lemma LateInView(db: Db)
    requires ViewOf(db).buckets == [(HOURLY, 79200), (DAILY, 0), (HOURLY, 82800)]
    ensures Late(db.cps, 0)
  {
    var bs := ViewOf(db).buckets;
    assert bs[1] == (db.cps[1].kind, db.cps[1].bucketStart) && bs[2] == (db.cps[2].kind, db.cps[2].bucketStart);
    assert LateAt(db.cps, 0, 1, 2);
  }

  /** A failed hour step is enough for a late hour, and so is a slow record. */
  lemma LateRun(s: Setup, rec: Log, fails: bool)
    requires s.tz == 0
    ensures var evs := LateEvents(rec, fails);
      Clock(evs) && Aligned(s, 0) && Sorted(evs, 0) && Late(Run(s, evs).cps, 0)
      && if fails then Prompt(evs) else NoHourFails(evs)
  {
    LateView(s, rec, fails);
    LateInView(Run(s, LateEvents(rec, fails)));
    LateTimes(rec, fails);
    hide Run, Late, LateEvents, Clock, Sorted, Prompt, NoHourFails;
  }

  lemma LateTimes(rec: Log, fails: bool)
    ensures var evs := LateEvents(rec, fails);
      Clock(evs) && Sorted(evs, 0) && if fails then Prompt(evs) else NoHourFails(evs)
  {
    var evs := LateEvents(rec, fails);
    if fails {
      assert evs == [At(rec, 79300), HourTick(82810), At(rec, 82900), SealTick(true), HourTick(86730)];
    } else {
      assert evs == [At(rec, 79300), HourTick(82810), SealTick(false), At(rec, 82900), HourTick(86730)];
    }
  }

  // ----- the straggler -----

  /** A record stamped at 13:59:59 that is appended after the first tick past 14:00. */
  function SlowEvents(rec: Log): seq<Event> { [At(rec, 50390)] + [HourTick(50410)] + [At(rec, 50399)] }

  lemma StragglerRun(s: Setup, rec: Log)
    ensures var evs := SlowEvents(rec);
      Clock(evs) && Sorted(evs, 0) && NoHourFails(evs) && !Punctual(s, evs, 0)
  {
    hide Run, ViewOf, Exists;
    var evs, slow := [At(rec, 50390)], SlowEvents(rec);
    NoEvents(s);
    AddRecord(s, [], rec, 50390);
    assert [] + evs == evs;
    AddHour(s, evs, 50410, 0);
    Viewed(Run(s, evs + [HourTick(50410)]), HOURLY, 46800);
    assert slow[..2] == evs + [HourTick(50410)];
    assert Straggles(s, slow[..2], slow[2], 46800);
    hide Straggles;
    LastStep(s, slow, 46800);
    assert Stragglers(s, slow, 46800) > 0;
  }

  // ----- across midnight -----

  lemma FrontInView(db: Db, day: int)
    ensures Front(db.logs, day)
      <==> forall i, j | 0 <= i < j < |ViewOf(db).times| && day <= ViewOf(db).times[j] < day + DAY ::
      day <= ViewOf(db).times[i] < day + DAY
  {
    forall i | 0 <= i < |db.logs| ensures ViewOf(db).times[i] == db.logs[i].ts {}
    hide ViewOf;
  }

  /** A record stamped in the last second of the day, appended after one of the next day. */
  lemma EdgeRun(s: Setup, rec: Log)
    ensures var evs := [At(rec, 86400)] + [At(rec, 86399)];
      Clock(evs) && Prompt(evs) && NoHourFails(evs) && !Front(Run(s, evs).logs, 0)
  {
    hide Run, ViewOf, Front;
    var evs := [At(rec, 86400)];
    NoEvents(s);
    AddRecord(s, [], rec, 86400);
    assert [] + evs == evs;
    AddRecord(s, evs, rec, 86399);
    FrontInView(Run(s, evs + [At(rec, 86399)]), 0);
    var ts := ViewOf(Run(s, evs + [At(rec, 86399)])).times;
    assert ts[0] == 86400 && ts[1] == 86399;
  }

  /** A record stamped just before the day began, appended after the day's first. */
  function EarlierEvents(rec: Log): seq<Event> {
    [At(rec, 86500)] + [At(rec, 86300)] + [HourTick(86410)] + [HourTick(90010)]
  }

  lemma HoursInView(db: Db)
    requires ViewOf(db).buckets == [(HOURLY, 82800), (HOURLY, 86400)]
    ensures !FirstHours(db.cps, DAY)
  {
    var bs := ViewOf(db).buckets;
    assert bs[0] == (db.cps[0].kind, db.cps[0].bucketStart) && bs[1] == (db.cps[1].kind, db.cps[1].bucketStart);
    assert db.cps[0] in db.cps && db.cps[1] in db.cps;
    assert db.cps[0] in OfKind(db.cps, HOURLY) && db.cps[1] in OfKind(db.cps, HOURLY);
  }

  lemma EarlierHourRun(s: Setup, rec: Log)
    ensures var evs := EarlierEvents(rec);
      Clock(evs) && NoHourFails(evs) && Front(Run(s, evs).logs, DAY) && !FirstHours(Run(s, evs).cps, DAY)
  {
    hide Run, ViewOf, Front, FirstHours;
    var evs := [At(rec, 86500)];
    NoEvents(s);
    AddRecord(s, [], rec, 86500);
    assert [] + evs == evs;
    AddRecord(s, evs, rec, 86300);
    evs := evs + [At(rec, 86300)];
    AddHour(s, evs, 86410, 1);
    evs := evs + [HourTick(86410)];
    AddHour(s, evs, 90010, 0);
    var db := Run(s, evs + [HourTick(90010)]);
    FrontInView(db, DAY);
    HoursInView(db);
  }
}
