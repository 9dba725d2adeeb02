/** What every run of one sealer keeps: intact record chain, one checkpoint per bucket, one linear
    chain of roots per kind, and what each hour's checkpoint still says about its records. A step of the
    sealer is taken when it reads the records; a record that arrives between that and the saving comes after it. */
module SealChains {
  import opened Wrappers
  import opened Merkle
  import opened LogChain
  import opened Evidence
  import opened Sealer

  datatype Event =
    | Append(rec: Log)
    | Ticking(now: int, hourlyFails: bool, dailyFails: bool, tsaFails: bool)

  function Step(s: Setup, db: Db, e: Event): Db {
    match e
    case Append(rec) => Appended(s.c, db, rec)
    case Ticking(now, hourlyFails, dailyFails, tsaFails) => Ticked(s, db, now, hourlyFails, dailyFails, tsaFails)
  }

  function Run(s: Setup, evs: seq<Event>): Db {
    if evs == [] then Db([], []) else Step(s, Run(s, evs[..|evs| - 1]), evs[|evs| - 1])
  }

  /** The sealer's clock never goes back. Nothing is said about the time stamps of records, which are
      taken before the record waits for its turn to be appended. */
  ghost predicate Clock(evs: seq<Event>) {
    forall i, j | 0 <= i < j < |evs| && evs[i].Ticking? && evs[j].Ticking? :: evs[i].now <= evs[j].now
  }

  /** No tick after `t`. */
  ghost predicate Until(evs: seq<Event>, t: int) { forall e | e in evs && e.Ticking? :: e.now <= t }

  lemma ClockInit(evs: seq<Event>)
    requires Clock(evs) && evs != []
    ensures var n := |evs| - 1; Clock(evs[..n]) && (evs[n].Ticking? ==> Until(evs[..n], evs[n].now))
  {}

  lemma ClockEnds(evs: seq<Event>) returns (t: int)
    ensures Until(evs, t)
  {
    if evs == [] {
      t := 0;
    } else {
      var n := |evs| - 1;
      assert evs == evs[..n] + [evs[n]];
      t := ClockEnds(evs[..n]);
      if evs[n].Ticking? && evs[n].now > t { t := evs[n].now; }
    }
  }

  // ----- any clock: one checkpoint per kind and bucket -----

  ghost predicate OnePerBucket(cps: seq<Checkpoint>) {
    forall i, j | 0 <= i < j < |cps| :: cps[i].kind != cps[j].kind || cps[i].bucketStart != cps[j].bucketStart
  }

  /** Even with a clock that jumps, ticks of one sealer, repeated at will, save at most one checkpoint per
      kind and bucket. */
  lemma {:induction false} AtMostOne(s: Setup, evs: seq<Event>)
    ensures OnePerBucket(Run(s, evs).cps)
  {
    hide HourCheckpoint, DayCheckpoint, LogsIn, HoursOf, Midnight;
    if evs != [] {
      var db, e := Run(s, evs[..|evs| - 1]), evs[|evs| - 1];
      AtMostOne(s, evs[..|evs| - 1]);
      if e.Ticking? {
        HourKind(s.c, db, HourOf(e.now) - HOUR);
        var db1 := if e.hourlyFails then db else Hourly(s.c, db, HourOf(e.now) - HOUR);
        assert OnePerBucket(db1.cps);
        DayKind(s, db1, Midnight(s, e.now) - DAY, e.now, e.tsaFails);
      }
    }
  }

  lemma HourKind(c: Crypto, db: Db, start: int)
    ensures HourCheckpoint(c, db, start).kind == HOURLY && HourCheckpoint(c, db, start).bucketStart == start
  {}

  lemma DayKind(s: Setup, db: Db, day: int, now: int, tsaFails: bool)
    ensures DayCheckpoint(s, db, day, now, tsaFails).kind == DAILY
         && DayCheckpoint(s, db, day, now, tsaFails).bucketStart == day
  {}

  // ----- lists of one kind -----

  ghost predicate Ascending(cps: seq<Checkpoint>) {
    forall i, j | 0 <= i < j < |cps| :: cps[i].bucketStart < cps[j].bucketStart
  }

  lemma OfKindAppend(cps: seq<Checkpoint>, cp: Checkpoint, kind: string)
    ensures OfKind(cps + [cp], kind) == OfKind(cps, kind) + if cp.kind == kind then [cp] else []
  {
    assert (cps + [cp])[..|cps|] == cps;
  }

  lemma AscendingInit(hs: seq<Checkpoint>, cp: Checkpoint)
    requires Ascending(hs + [cp])
    ensures Ascending(hs) && forall i | 0 <= i < |hs| :: hs[i].bucketStart < cp.bucketStart
  {
    var gs := hs + [cp];
    assert gs[|hs|] == cp;
    forall i, j | 0 <= i < j < |hs| ensures hs[i].bucketStart < hs[j].bucketStart {
      assert gs[i] == hs[i] && gs[j] == hs[j];
    }
    forall i | 0 <= i < |hs| ensures hs[i].bucketStart < cp.bucketStart { assert gs[i] == hs[i]; }
  }

  lemma {:induction false} LatestIsLast(cps: seq<Checkpoint>, kind: string)
    requires Ascending(OfKind(cps, kind))
    ensures Latest(cps, kind) == LastOf(OfKind(cps, kind))
  {
    hide Ascending;
    if cps != [] {
      var n := |cps| - 1;
      var before := OfKind(cps[..n], kind);
      if cps[n].kind == kind { AscendingInit(before, cps[n]); }
      else { assert OfKind(cps, kind) == before; }
      LatestIsLast(cps[..n], kind);
    }
  }

  function LastOf(hs: seq<Checkpoint>): Option<Checkpoint> { if hs == [] then None else Some(hs[|hs| - 1]) }

  lemma AscendingGrows(hs: seq<Checkpoint>, cp: Checkpoint)
    requires Ascending(hs) && forall h | h in hs :: h.bucketStart < cp.bucketStart
    ensures Ascending(hs + [cp])
  {
    var gs := hs + [cp];
    forall i, j | 0 <= i < j < |gs| ensures gs[i].bucketStart < gs[j].bucketStart {
      assert gs[i] == hs[i] && hs[i] in hs;
      if j < |hs| { assert gs[j] == hs[j]; }
    }
  }

  /** Saving a later checkpoint that names the latest root extends the chain of its kind. */
  lemma {:induction false} ChainGrows(cps: seq<Checkpoint>, kind: string, cp: Checkpoint)
    requires Ascending(OfKind(cps, kind)) && Linked(OfKind(cps, kind))
    requires cp.kind == kind && cp.prevRoot == PrevRootOf(cps, kind)
    requires forall h | h in OfKind(cps, kind) :: h.bucketStart < cp.bucketStart
    ensures OfKind(cps + [cp], kind) == OfKind(cps, kind) + [cp]
    ensures Ascending(OfKind(cps + [cp], kind)) && Linked(OfKind(cps + [cp], kind))
  {
    LatestIsLast(cps, kind);
    OfKindAppend(cps, cp, kind);
    hide Ascending, Linked, OfKind, Latest;
    AscendingGrows(OfKind(cps, kind), cp);
    LinkedGrows(OfKind(cps, kind), cp);
  }

  lemma NotThere(cps: seq<Checkpoint>, kind: string, start: int)
    ensures Exists(cps, kind, start) <==> exists cp | cp in OfKind(cps, kind) :: cp.bucketStart == start
  {
    if Exists(cps, kind, start) {
      var i :| 0 <= i < |cps| && cps[i].kind == kind && cps[i].bucketStart == start;
      assert cps[i] in OfKind(cps, kind);
    }
  }

  // ----- records and hours -----

  lemma RecordsGrow(text: TextHash, a: seq<Log>, l: Log)
    requires ChainOk(text, a) && l.prevHash == PrevOf(a + [l], |a|) && l.hash == ComplianceHash(text, l.prevHash, l)
    ensures ChainOk(text, a + [l])
  {
    hide Canon, ToHex;
    var b := a + [l];
    forall i | 0 <= i < |b|
      ensures b[i].prevHash == PrevOf(b, i) && b[i].hash == ComplianceHash(text, PrevOf(b, i), b[i])
    {
      if i < |a| { assert b[i] == a[i] && PrevOf(b, i) == PrevOf(a, i); }
    }
  }

  lemma {:induction false} AppendKeepsChain(c: Crypto, db: Db, rec: Log)
    requires ChainOk(c.text, db.logs)
    ensures ChainOk(c.text, Appended(c, db, rec).logs)
  {
    hide Canon, ToHex, ChainOk;
    var a := db.logs;
    var b := Appended(c, db, rec).logs;
    var n := |a|;
    assert PrevOf(b, n) == if a == [] then "" else a[n - 1].hash;
    CanonOfNew(c, PrevOf(b, n), rec, n + 1);
    assert b == a + [b[n]];
    RecordsGrow(c.text, a, b[n]);
  }

  lemma CanonOfNew(c: Crypto, prev: string, rec: Log, seqNo: int)
    ensures var l := rec.(seqNo := seqNo, prevHash := prev);
      Canon(prev, l.(hash := ComplianceHash(c.text, prev, l))) == Canon(prev, l)
  {
    hide ToHex, Join;
  }

  /** The bucket of an hour that is over. */
  ghost predicate HourShape(h: Checkpoint, t: int) {
    h.bucketStart % HOUR == 0 && h.bucketStart + HOUR <= t && h.bucketEnd == h.bucketStart + HOUR && h.root != ""
  }

  ghost predicate HoursInv(cps: seq<Checkpoint>, t: int) {
    var hs := OfKind(cps, HOURLY);
    Ascending(hs) && Linked(hs) && forall h | h in hs :: HourShape(h, t)
  }

  lemma HashesAppend(logs: seq<Log>, l: Log)
    ensures Hashes(logs + [l]) == Hashes(logs) + [FromHex(l.hash)]
  {
    hide FromHex;
    assert (logs + [l])[..|logs|] == logs;
  }

  lemma {:induction false} HourIsRange(logs: seq<Log>, start: int)
    requires start % HOUR == 0
    ensures HourHashes(logs, start) == Hashes(LogsIn(logs, start, start + HOUR))
  {
    hide FromHex;
    if logs != [] {
      var n := |logs| - 1;
      HourIsRange(logs[..n], start);
      var before, all := LogsIn(logs[..n], start, start + HOUR), LogsIn(logs, start, start + HOUR);
      assert HourOf(logs[n].ts) == start <==> start <= logs[n].ts < start + HOUR;
      if start <= logs[n].ts < start + HOUR {
        assert all == before + [logs[n]];
        HashesAppend(before, logs[n]);
      } else {
        assert all == before;
      }
    }
  }

  lemma HourlyShape(c: Crypto, db: Db, start: int, t: int)
    requires start % HOUR == 0 && start + HOUR <= t && LogsIn(db.logs, start, start + HOUR) != []
    requires ChainOk(c.text, db.logs)
    ensures HourShape(HourCheckpoint(c, db, start), t)
  {
    hide ToHex, LogsIn, PrevRootOf, Root, HourHashes, Hashes, Leaves, ChainOk;
    var logs := LogsIn(db.logs, start, start + HOUR);
    HourIsRange(db.logs, start);
    HourLeaves(c.text, db.logs, start);
    RootSize(c.node, Hashes(logs));
    assert |ToHex(Root(c.node, Hashes(logs)))| == 64;
  }

  lemma RootSize(h: NodeHash, level: seq<Bytes>)
    requires level != [] && Leaves(level)
    ensures |Root(h, level)| == 32
    decreases |level|
  {
    if |level| == 1 {
      assert level[0] in level;
    } else {
      LayerLeaves(h, level);
      RootSize(h, Layer(h, level));
    }
  }

  lemma ChainFront(t: TextHash, logs: seq<Log>, n: nat)
    requires ChainOk(t, logs) && n <= |logs|
    ensures ChainOk(t, logs[..n])
  {
    hide ComplianceHash;
    assert forall i | 0 <= i < n :: PrevOf(logs[..n], i) == PrevOf(logs, i);
  }

  lemma {:induction false} HourLeaves(t: TextHash, logs: seq<Log>, hour: int)
    requires ChainOk(t, logs)
    ensures Leaves(HourHashes(logs, hour))
  {
    hide Canon, ToHex, FromHex;
    if logs != [] {
      var n := |logs| - 1;
      ChainFront(t, logs, n);
      LinkOf(t, logs, n);
      hide ChainOk, PrevOf;
      HourLeaves(t, logs[..n], hour);
      HexRoundTrip(t(Canon(PrevOf(logs, n), logs[n])));
    }
  }

  lemma {:induction false} HourlyKeepsHours(c: Crypto, db: Db, t: int, now: int)
    requires ChainOk(c.text, db.logs) && HoursInv(db.cps, t) && t <= now
    ensures HoursInv(Hourly(c, db, HourOf(now) - HOUR).cps, now)
  {
    hide ToHex, Root, FromHex, Latest, Linked, Ascending, ChainOk, LogsIn;
    var start := HourOf(now) - HOUR;
    var hs := OfKind(db.cps, HOURLY);
    forall h | h in hs ensures HourShape(h, now) && h.bucketStart <= start {
      assert HourShape(h, t);
    }
    if Hourly(c, db, start) != db {
      var cp := HourCheckpoint(c, db, start);
      HourlyShape(c, db, start, now);
      NotThere(db.cps, HOURLY, start);
      HourKind(c, db, start);
      ChainGrows(db.cps, HOURLY, cp);
    }
  }

  // ----- days -----

  ghost predicate DaysInv(s: Setup, cps: seq<Checkpoint>, t: int) {
    var ds := OfKind(cps, DAILY);
    Ascending(ds) && Linked(ds)
    && forall d | d in ds :: (d.bucketStart + s.tz) % DAY == 0 && d.bucketStart + DAY + 300 <= t
  }

  predicate SealTime(s: Setup, now: int) { 300 <= (now + s.tz) % DAY < HOUR }

  lemma {:induction false} DailyKeepsDays(s: Setup, db: Db, t: int, now: int, tsaFails: bool)
    requires DaysInv(s, db.cps, t) && t <= now && SealTime(s, now)
    ensures DaysInv(s, Daily(s, db, Midnight(s, now) - DAY, now, tsaFails).cps, now)
  {
    hide HoursOf, Latest, Linked, Ascending, Midnight;
    var day := Midnight(s, now) - DAY;
    SealDay(s, now);
    var ds := OfKind(db.cps, DAILY);
    forall d | d in ds ensures d.bucketStart <= day { MidnightsApart(s, d.bucketStart, now); }
    DayKind(s, db, day, now, tsaFails);
    DayPrev(s, db, day, now, tsaFails);
    hide DayCheckpoint, PrevRootOf, OfKind;
    var cp := DayCheckpoint(s, db, day, now, tsaFails);
    if !Exists(db.cps, DAILY, day) {
      NotThere(db.cps, DAILY, day);
      ChainGrows(db.cps, DAILY, cp);
    }
  }

  lemma SealDay(s: Setup, now: int)
    requires SealTime(s, now)
    ensures var day := Midnight(s, now) - DAY; (day + s.tz) % DAY == 0 && day + DAY + 300 <= now
  {}

  lemma DayPrev(s: Setup, db: Db, day: int, now: int, tsaFails: bool)
    ensures DayCheckpoint(s, db, day, now, tsaFails).prevRoot == PrevRootOf(db.cps, DAILY)
  {}

  lemma MidnightsApart(s: Setup, d: int, now: int)
    requires (d + s.tz) % DAY == 0 && d + DAY <= now
    ensures d <= Midnight(s, now) - DAY
  {
    var a, b := (d + s.tz) / DAY, (now + s.tz) / DAY;
    assert d + s.tz == a * DAY && now + s.tz == b * DAY + (now + s.tz) % DAY;
  }

  // ----- every run -----

  lemma OtherKind(s: Setup, db: Db, start: int, day: int, now: int, tsaFails: bool)
    ensures OfKind(Hourly(s.c, db, start).cps, DAILY) == OfKind(db.cps, DAILY)
    ensures OfKind(Daily(s, db, day, now, tsaFails).cps, HOURLY) == OfKind(db.cps, HOURLY)
  {
    OfKindAppend(db.cps, HourCheckpoint(s.c, db, start), DAILY);
    DayKind(s, db, day, now, tsaFails);
    OfKindAppend(db.cps, DayCheckpoint(s, db, day, now, tsaFails), HOURLY);
  }

  ghost predicate Inv(s: Setup, db: Db, t: int) {
    ChainOk(s.c.text, db.logs) && HoursInv(db.cps, t) && DaysInv(s, db.cps, t)
  }

  lemma {:induction false} HourStepKeeps(s: Setup, db: Db, t: int, now: int)
    requires Inv(s, db, t) && t <= now
    ensures Inv(s, Hourly(s.c, db, HourOf(now) - HOUR), now)
  {
    hide Linked, Ascending, HourCheckpoint, LogsIn, ChainOk, Exists, HourShape, HoursInv, OfKind;
    HourlyKeepsHours(s.c, db, t, now);
    OtherKind(s, db, HourOf(now) - HOUR, 0, 0, false);
    assert Hourly(s.c, db, HourOf(now) - HOUR).logs == db.logs;
  }

  lemma {:induction false} DayStepKeeps(s: Setup, db: Db, t: int, now: int, tsaFails: bool)
    requires Inv(s, db, t) && t <= now && SealTime(s, now)
    ensures Inv(s, Daily(s, db, Midnight(s, now) - DAY, now, tsaFails), now)
  {
    DailyKeepsDays(s, db, t, now, tsaFails);
    OtherKind(s, db, 0, Midnight(s, now) - DAY, now, tsaFails);
    LaterToo(s, db, t, now);
    hide Linked, Ascending, DayCheckpoint, HoursOf, Midnight, ChainOk, Exists, HourShape;
  }

  lemma {:induction false} TickKeeps(s: Setup, db: Db, t: int, now: int, hourlyFails: bool, dailyFails: bool,
                                     tsaFails: bool)
    requires Inv(s, db, t) && t <= now
    ensures Inv(s, Ticked(s, db, now, hourlyFails, dailyFails, tsaFails), now)
  {
    hide Inv, Hourly, Daily, Midnight;
    if hourlyFails { LaterToo(s, db, t, now); } else { HourStepKeeps(s, db, t, now); }
    var db1 := if hourlyFails then db else Hourly(s.c, db, HourOf(now) - HOUR);
    if SealTime(s, now) { DayStepKeeps(s, db1, now, now, tsaFails); }
  }

  lemma {:induction false} RunKeeps(s: Setup, evs: seq<Event>, t: int)
    requires Clock(evs) && Until(evs, t)
    ensures Inv(s, Run(s, evs), t)
  {
    if evs != [] {
      var n := |evs| - 1;
      var e, init := evs[n], evs[..n];
      assert e in evs && forall x | x in init :: x in evs;
      ClockInit(evs);
      hide ChainOk, HoursInv, DaysInv, Appended, Ticked, Clock;
      match e {
        case Append(rec) =>
          RunKeeps(s, init, t);
          AppendKeepsChain(s.c, Run(s, init), rec);
          AppendKeepsCps(s.c, Run(s, init), rec);
        case Ticking(now, hourlyFails, dailyFails, tsaFails) =>
          RunKeeps(s, init, now);
          TickKeeps(s, Run(s, init), now, now, hourlyFails, dailyFails, tsaFails);
          LaterToo(s, Run(s, evs), now, t);
      }
    }
  }

  lemma AppendKeepsCps(c: Crypto, db: Db, rec: Log)
    ensures Appended(c, db, rec).cps == db.cps
  {}

  lemma LaterToo(s: Setup, db: Db, t: int, t1: int)
    requires Inv(s, db, t) && t <= t1
    ensures Inv(s, db, t1)
  {
    assert forall h | h in OfKind(db.cps, HOURLY) :: HourShape(h, t) ==> HourShape(h, t1);
  }

  /** Under a clock that never goes back, both kinds of checkpoints form one linear chain: buckets
      strictly ascend in the order of saving, and each checkpoint names the root saved before it. */
  lemma {:induction false} LinearChains(s: Setup, evs: seq<Event>)
    requires Clock(evs)
    ensures var cps := Run(s, evs).cps;
      Ascending(OfKind(cps, HOURLY)) && Linked(OfKind(cps, HOURLY))
      && Ascending(OfKind(cps, DAILY)) && Linked(OfKind(cps, DAILY))
  {
    var t := ClockEnds(evs);
    RunKeeps(s, evs, t);
  }

  /** When the clock is set back, the chain forks: a checkpoint for an hour before the latest one
      does not become the latest, so the next one names the same predecessor again. */
  lemma SetBackForks(c: Crypto, db: Db, start: int, next: int)
    requires Latest(db.cps, HOURLY).Some? && start < Latest(db.cps, HOURLY).value.bucketStart < next
    requires Hourly(c, db, start) != db
    requires Hourly(c, Hourly(c, db, start), next) != Hourly(c, db, start)
    ensures var cps, n := Hourly(c, Hourly(c, db, start), next).cps, |db.cps|;
      |cps| == n + 2 && cps[n].prevRoot == cps[n + 1].prevRoot == Latest(db.cps, HOURLY).value.root
  {
    hide LogsIn, ToHex, Root, Hashes;
    var db1 := Hourly(c, db, start);
    assert db1.cps[..|db.cps|] == db.cps;
    assert Latest(db1.cps, HOURLY) == Latest(db.cps, HOURLY);
  }

  lemma {:induction false} LogsInMembers(logs: seq<Log>, from: int, to: int)
    ensures forall l :: l in LogsIn(logs, from, to) <==> l in logs && from <= l.ts < to
  {
    if logs != [] {
      var n := |logs| - 1;
      assert logs == logs[..n] + [logs[n]];
      LogsInMembers(logs[..n], from, to);
    }
  }

  /** A tick saves the previous hour if it has a record and no checkpoint yet. */
  lemma HourSaved(c: Crypto, db: Db, start: int, l: Log)
    requires !Exists(db.cps, HOURLY, start) && l in db.logs && start <= l.ts < start + HOUR
    ensures Hourly(c, db, start) == db.(cps := db.cps + [HourCheckpoint(c, db, start)])
  {
    hide HourCheckpoint, Exists;
    LogsInMembers(db.logs, start, start + HOUR);
  }

  /** Hour 2 is sealed, the clock falls back to hour 1 and hour 0 is sealed, and later hour 3. */
  function ForkEvents(rec: Log): seq<Event> {
    [Append(rec.(ts := 7200)), Append(rec.(ts := 0)), Append(rec.(ts := 10800)), Ticking(10810, false, true, true),
     Ticking(3610, false, true, true), Ticking(14410, false, true, true)]
  }

  lemma OneStep(s: Setup, evs: seq<Event>, i: nat)
    requires i < |evs|
    ensures Run(s, evs[..i + 1]) == Step(s, Run(s, evs[..i]), evs[i])
  {
    hide Step;
    assert evs[..i + 1][..i] == evs[..i];
  }

  lemma OneTick(s: Setup, db: Db, now: int, tsaFails: bool)
    ensures Step(s, db, Ticking(now, false, true, tsaFails)) == Hourly(s.c, db, HourOf(now) - HOUR)
  {
    hide Hourly;
  }

  lemma OneAppend(s: Setup, db: Db, rec: Log)
    ensures var db1 := Step(s, db, Append(rec));
      db1.cps == db.cps && |db1.logs| == |db.logs| + 1 && db1.logs[..|db.logs|] == db.logs
      && db1.logs[|db.logs|].ts == rec.ts
  {
    hide ComplianceHash;
  }

  lemma ForkRecords(s: Setup, rec: Log)
    ensures var db := Run(s, ForkEvents(rec)[..3]);
      db.cps == [] && |db.logs| == 3 && db.logs[0].ts == 7200 && db.logs[1].ts == 0 && db.logs[2].ts == 10800
  {
    var evs := ForkEvents(rec);
    assert Run(s, evs[..0]) == Db([], []);
    hide Run, Step;
    OneStep(s, evs, 0);
    OneStep(s, evs, 1);
    OneStep(s, evs, 2);
    OneAppend(s, Db([], []), rec.(ts := 7200));
    OneAppend(s, Run(s, evs[..1]), rec.(ts := 0));
    OneAppend(s, Run(s, evs[..2]), rec.(ts := 10800));
  }

  lemma ForkTicks(s: Setup, rec: Log)
    ensures var evs := ForkEvents(rec);
      Run(s, evs) == Hourly(s.c, Hourly(s.c, Hourly(s.c, Run(s, evs[..3]), 7200), 0), 10800)
  {
    hide Run, Step, Hourly;
    var evs := ForkEvents(rec);
    assert evs[..6] == evs;
    OneStep(s, evs, 3);
    OneStep(s, evs, 4);
    OneStep(s, evs, 5);
    OneTick(s, Run(s, evs[..3]), 10810, true);
    OneTick(s, Run(s, evs[..4]), 3610, true);
    OneTick(s, Run(s, evs[..5]), 14410, true);
  }

  lemma ForkAt(c: Crypto, db: Db)
    requires db.cps == [] && |db.logs| == 3 && db.logs[0].ts == 7200 && db.logs[1].ts == 0 && db.logs[2].ts == 10800
    ensures var cps := Hourly(c, Hourly(c, Hourly(c, db, 7200), 0), 10800).cps;
      |cps| == 3 && (forall cp | cp in cps :: cp.kind == HOURLY) && cps[1].prevRoot == cps[2].prevRoot == cps[0].root
  {
    HourKind(c, db, 7200);
    HourSaved(c, db, 7200, db.logs[0]);
    var db1 := db.(cps := [HourCheckpoint(c, db, 7200)]);
    HourKind(c, db1, 0);
    HourSaved(c, db1, 0, db1.logs[1]);
    var db2 := db1.(cps := db1.cps + [HourCheckpoint(c, db1, 0)]);
    HourKind(c, db2, 10800);
    HourSaved(c, db2, 10800, db2.logs[2]);
    hide HourCheckpoint, LogsIn, Hourly;
    assert db1.cps[..0] == [];
    assert Latest(db1.cps, HOURLY) == Some(db1.cps[0]);
    hide Latest;
    SetBackForks(c, db1, 0, 10800);
  }

  /** So a run whose clock falls back does fork: hour 3 names hour 2 as its predecessor, as hour 0 does. */
  lemma ForkedRun(s: Setup, rec: Log)
    ensures var evs := ForkEvents(rec); var cps := Run(s, evs).cps;
      !Clock(evs) && |cps| == 3 && (forall cp | cp in cps :: cp.kind == HOURLY)
      && cps[1].prevRoot == cps[2].prevRoot == cps[0].root
  {
    hide Run, Hourly;
    var evs := ForkEvents(rec);
    assert evs[3].now > evs[4].now;
    ForkRecords(s, rec);
    ForkTicks(s, rec);
    ForkAt(s.c, Run(s, evs[..3]));
  }

  // ----- what a checkpoint still says about its hour -----

  /** How many records of an hour were appended when the hour had its checkpoint already. */
  function Stragglers(s: Setup, evs: seq<Event>, hour: int): nat {
    if evs == [] then 0
    else
      var n := |evs| - 1;
      Stragglers(s, evs[..n], hour) + if Straggles(s, evs[..n], evs[n], hour) then 1 else 0
  }

  predicate Straggles(s: Setup, before: seq<Event>, e: Event, hour: int) {
    e.Append? && HourOf(e.rec.ts) == hour && Exists(Run(s, before).cps, HOURLY, hour)
  }

  /** A checkpoint covers the first records of its hour, all but the `late` last ones. */
  ghost predicate HourFact(c: Crypto, logs: seq<Log>, h: Checkpoint, late: nat) {
    var hashes := HourHashes(logs, h.bucketStart);
    0 < h.recordCount && h.recordCount + late == |hashes| && h.root == ToHex(Root(c.node, hashes[..h.recordCount]))
  }

  ghost predicate Counted(s: Setup, evs: seq<Event>) {
    forall h | h in OfKind(Run(s, evs).cps, HOURLY) ::
      HourFact(s.c, Run(s, evs).logs, h, Stragglers(s, evs, h.bucketStart))
  }

  lemma HourHashesAppend(logs: seq<Log>, l: Log, hour: int)
    ensures HourHashes(logs + [l], hour)
         == HourHashes(logs, hour) + if HourOf(l.ts) == hour then [FromHex(l.hash)] else []
  {
    hide FromHex;
    assert (logs + [l])[..|logs|] == logs;
  }

  lemma CpsGrow(s: Setup, db: Db, e: Event)
    ensures db.cps <= Step(s, db, e).cps
  {
    hide HourCheckpoint, DayCheckpoint, ComplianceHash, Exists, HoursOf, LogsIn, Midnight;
  }

  lemma ExistsStays(cps: seq<Checkpoint>, more: seq<Checkpoint>, kind: string, start: int)
    requires cps <= more && Exists(cps, kind, start)
    ensures Exists(more, kind, start)
  {
    var i :| 0 <= i < |cps| && cps[i].kind == kind && cps[i].bucketStart == start;
    assert more[i] == cps[i];
  }

  lemma {:induction false} NoneBefore(s: Setup, evs: seq<Event>, hour: int)
    requires !Exists(Run(s, evs).cps, HOURLY, hour)
    ensures Stragglers(s, evs, hour) == 0
  {
    hide Exists, Step;
    if evs != [] {
      var n := |evs| - 1;
      var before := Run(s, evs[..n]);
      CpsGrow(s, before, evs[n]);
      if Exists(before.cps, HOURLY, hour) { ExistsStays(before.cps, Run(s, evs).cps, HOURLY, hour); }
      NoneBefore(s, evs[..n], hour);
    }
  }

  lemma {:induction false} AppendKeepsCount(c: Crypto, db: Db, rec: Log, h: Checkpoint, late: nat)
    requires HourFact(c, db.logs, h, late)
    ensures HourFact(c, Appended(c, db, rec).logs, h, late + if HourOf(rec.ts) == h.bucketStart then 1 else 0)
  {
    hide Root, ToHex, FromHex, ComplianceHash, HourHashes;
    var after := Appended(c, db, rec).logs;
    var l := after[|db.logs|];
    assert after == db.logs + [l];
    HourHashesAppend(db.logs, l, h.bucketStart);
    var was, now := HourHashes(db.logs, h.bucketStart), HourHashes(after, h.bucketStart);
    assert now[..h.recordCount] == was[..h.recordCount];
  }

  lemma NewHourCounts(c: Crypto, db: Db, start: int)
    requires start % HOUR == 0 && LogsIn(db.logs, start, start + HOUR) != []
    ensures HourFact(c, db.logs, HourCheckpoint(c, db, start), 0)
  {
    hide Root, ToHex, FromHex, LogsIn, HourHashes, PrevRootOf;
    HourIsRange(db.logs, start);
    var hashes := HourHashes(db.logs, start);
    assert hashes[..|hashes|] == hashes;
  }

  lemma NewHour(c: Crypto, db: Db, start: int, h: Checkpoint)
    requires h in OfKind(Hourly(c, db, start).cps, HOURLY)
    ensures h in OfKind(db.cps, HOURLY)
      || (h == HourCheckpoint(c, db, start) && LogsIn(db.logs, start, start + HOUR) != []
          && !Exists(db.cps, HOURLY, start) && h.bucketStart == start)
  {
    HourKind(c, db, start);
    OfKindAppend(db.cps, HourCheckpoint(c, db, start), HOURLY);
    hide HourCheckpoint, Exists, LogsIn, OfKind;
  }

  lemma NewHours(s: Setup, db: Db, now: int, hourlyFails: bool, dailyFails: bool, tsaFails: bool, h: Checkpoint)
    requires h in OfKind(Ticked(s, db, now, hourlyFails, dailyFails, tsaFails).cps, HOURLY)
    ensures var start := HourOf(now) - HOUR;
      h in OfKind(db.cps, HOURLY)
      || (h == HourCheckpoint(s.c, db, start) && LogsIn(db.logs, start, start + HOUR) != []
          && !Exists(db.cps, HOURLY, start) && h.bucketStart == start)
  {
    hide HourCheckpoint, Exists, LogsIn, Midnight, SealTime, Hourly, Daily, OfKind, HourOf;
    var start, day := HourOf(now) - HOUR, Midnight(s, now) - DAY;
    var db1 := if hourlyFails then db else Hourly(s.c, db, start);
    OtherKind(s, db1, 0, day, now, tsaFails);
    if h !in OfKind(db.cps, HOURLY) { NewHour(s.c, db, start, h); }
  }

  lemma TickKeepsLogs(s: Setup, db: Db, e: Event)
    requires e.Ticking?
    ensures Step(s, db, e).logs == db.logs
  {
    hide HourCheckpoint, DayCheckpoint, Exists, HoursOf, LogsIn, Midnight;
  }

  lemma LastStep(s: Setup, evs: seq<Event>, hour: int)
    requires evs != []
    ensures var n := |evs| - 1;
      Run(s, evs) == Step(s, Run(s, evs[..n]), evs[n])
      && Stragglers(s, evs, hour)
           == Stragglers(s, evs[..n], hour) + if Straggles(s, evs[..n], evs[n], hour) then 1 else 0
  {
    hide Step, Straggles;
  }

  lemma AppendCounts(s: Setup, evs: seq<Event>, h: Checkpoint)
    requires evs != [] && evs[|evs| - 1].Append? && Counted(s, evs[..|evs| - 1]) && h in OfKind(Run(s, evs).cps, HOURLY)
    ensures HourFact(s.c, Run(s, evs).logs, h, Stragglers(s, evs, h.bucketStart))
  {
    var init, e := evs[..|evs| - 1], evs[|evs| - 1];
    var db := Run(s, init);
    LastStep(s, evs, h.bucketStart);
    hide Run, Appended, HourFact, Exists, Stragglers;
    AppendKeepsCps(s.c, db, e.rec);
    AppendKeepsCount(s.c, db, e.rec, h, Stragglers(s, init, h.bucketStart));
    NotThere(db.cps, HOURLY, h.bucketStart);
  }

  lemma TickCount(s: Setup, db: Db, e: Event, h: Checkpoint, late: nat)
    requires e.Ticking? && h in OfKind(Step(s, db, e).cps, HOURLY)
    requires h in OfKind(db.cps, HOURLY) ==> HourFact(s.c, db.logs, h, late)
    requires !Exists(db.cps, HOURLY, h.bucketStart) ==> late == 0
    ensures HourFact(s.c, Step(s, db, e).logs, h, late)
  {
    hide Ticked, HourFact, Exists, HourCheckpoint, OfKind, LogsIn;
    NewHours(s, db, e.now, e.hourlyFails, e.dailyFails, e.tsaFails, h);
    TickKeepsLogs(s, db, e);
    if h !in OfKind(db.cps, HOURLY) { NewHourCounts(s.c, db, HourOf(e.now) - HOUR); }
  }

  lemma TickCounts(s: Setup, evs: seq<Event>, h: Checkpoint)
    requires evs != [] && evs[|evs| - 1].Ticking? && Counted(s, evs[..|evs| - 1])
    requires h in OfKind(Run(s, evs).cps, HOURLY)
    ensures HourFact(s.c, Run(s, evs).logs, h, Stragglers(s, evs, h.bucketStart))
  {
    var init, e := evs[..|evs| - 1], evs[|evs| - 1];
    LastStep(s, evs, h.bucketStart);
    hide Run, Step, HourFact, Exists, Stragglers, OfKind;
    if !Exists(Run(s, init).cps, HOURLY, h.bucketStart) { NoneBefore(s, init, h.bucketStart); }
    TickCount(s, Run(s, init), e, h, Stragglers(s, init, h.bucketStart));
  }

  /** In every run, under any clock, a checkpoint covers exactly the records of its hour that came in time,
      and its count falls short of the hour's by the number of those that came after it. */
  lemma {:induction false} HoursCounted(s: Setup, evs: seq<Event>)
    ensures Counted(s, evs)
  {
    if evs != [] {
      HoursCounted(s, evs[..|evs| - 1]);
      forall h | h in OfKind(Run(s, evs).cps, HOURLY)
        ensures HourFact(s.c, Run(s, evs).logs, h, Stragglers(s, evs, h.bucketStart))
      {
        if evs[|evs| - 1].Append? { AppendCounts(s, evs, h); } else { TickCounts(s, evs, h); }
      }
    }
  }
}
