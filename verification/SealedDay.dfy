/** The verifier of Evidence against the sealer's own runs: when the bundle of a sealed day that
    starts at genesis is accepted, and when it is not. */
module SealedDay {
  import opened Wrappers
  import opened Merkle
  import opened LogChain
  import opened Evidence
  import opened Sealer
  import opened SealChains

  /** BuildEvidence for one whole day, unmasked. */
  function DayBundle(db: Db, day: int): Bundle {
    Bundle(false, LogsIn(db.logs, day, day + DAY), Between(db.cps, day, day + DAY))
  }

  // ----- selecting by bucket -----

  function Within(hs: seq<Checkpoint>, from: int, to: int): seq<Checkpoint> {
    if hs == [] then []
    else
      var n := |hs| - 1;
      Within(hs[..n], from, to) + if from <= hs[n].bucketStart < to then [hs[n]] else []
  }

  lemma WithinAppend(hs: seq<Checkpoint>, cp: Checkpoint, from: int, to: int)
    ensures Within(hs + [cp], from, to) == Within(hs, from, to) + if from <= cp.bucketStart < to then [cp] else []
  {
    assert (hs + [cp])[..|hs|] == hs;
  }

  lemma {:induction false} PlacedMembers(sorted: seq<Checkpoint>, cp: Checkpoint)
    ensures forall x :: x in Placed(sorted, cp) <==> x in sorted || x == cp
  {
    if sorted != [] {
      var n := |sorted| - 1;
      PlacedMembers(sorted[..n], cp);
      assert sorted == sorted[..n] + [sorted[n]];
    }
  }

  lemma {:induction false} BetweenMembers(cps: seq<Checkpoint>, from: int, to: int)
    ensures forall x :: x in Between(cps, from, to) <==> x in cps && from <= x.bucketStart < to
  {
    hide Placed;
    if cps != [] {
      var n := |cps| - 1;
      BetweenMembers(cps[..n], from, to);
      PlacedMembers(Between(cps[..n], from, to), cps[n]);
      assert cps == cps[..n] + [cps[n]];
    }
  }

  lemma PlacedStep(init: seq<Checkpoint>, last: Checkpoint, cp: Checkpoint)
    ensures Placed(init + [last], cp) == if Before(last, cp) then init + [last] + [cp] else Placed(init, cp) + [last]
  {
    assert (init + [last])[..|init|] == init;
  }

  /** Sorting a checkpoint of another kind into place leaves the hourly ones alone. */
  lemma {:induction false} PlacedOther(sorted: seq<Checkpoint>, cp: Checkpoint)
    requires cp.kind != HOURLY
    ensures OfKind(Placed(sorted, cp), HOURLY) == OfKind(sorted, HOURLY)
  {
    if sorted == [] {
      OfKindAppend([], cp, HOURLY);
    } else {
      hide Placed, OfKind, Before;
      var n := |sorted| - 1;
      var init, last := sorted[..n], sorted[n];
      assert sorted == init + [last];
      PlacedOther(init, cp);
      PlacedStep(init, last, cp);
      OfKindAppend(sorted, cp, HOURLY);
      OfKindAppend(init, last, HOURLY);
      OfKindAppend(Placed(init, cp), last, HOURLY);
    }
  }

  /** Sorting in an hour later than all hours there puts it behind them. */
  lemma {:induction false} PlacedHour(sorted: seq<Checkpoint>, cp: Checkpoint)
    requires cp.kind == HOURLY && forall h | h in sorted && h.kind == HOURLY :: h.bucketStart < cp.bucketStart
    ensures OfKind(Placed(sorted, cp), HOURLY) == OfKind(sorted, HOURLY) + [cp]
  {
    if sorted == [] {
      OfKindAppend([], cp, HOURLY);
    } else {
      var n := |sorted| - 1;
      var init, last := sorted[..n], sorted[n];
      assert sorted == init + [last];
      assert Before(last, cp) || last.kind != HOURLY by { assert last in sorted; }
      hide Placed, OfKind, Before;
      PlacedHour(init, cp);
      PlacedStep(init, last, cp);
      if Before(last, cp) {
        OfKindAppend(sorted, cp, HOURLY);
      } else {
        OfKindAppend(init, last, HOURLY);
        OfKindAppend(Placed(init, cp), last, HOURLY);
      }
    }
  }

  lemma BetweenAppend(cps: seq<Checkpoint>, cp: Checkpoint, from: int, to: int)
    ensures Between(cps + [cp], from, to)
         == if from <= cp.bucketStart < to then Placed(Between(cps, from, to), cp) else Between(cps, from, to)
  {
    hide Placed;
    assert (cps + [cp])[..|cps|] == cps;
  }

  /** The hours of a range, in bucket order, are those saved for it, in the order of saving. */
  lemma {:induction false} HoursBetween(cps: seq<Checkpoint>, from: int, to: int)
    requires Ascending(OfKind(cps, HOURLY))
    ensures OfKind(Between(cps, from, to), HOURLY) == Within(OfKind(cps, HOURLY), from, to)
  {
    if cps != [] {
      var n := |cps| - 1;
      var init, cp := cps[..n], cps[n];
      var hs := OfKind(init, HOURLY);
      assert cps == init + [cp];
      OfKindAppend(init, cp, HOURLY);
      BetweenAppend(init, cp, from, to);
      BetweenMembers(init, from, to);
      WithinAppend(hs, cp, from, to);
      hide Placed, Between, OfKind, Within;
      if cp.kind == HOURLY { AscendingInit(hs, cp); } else { assert OfKind(cps, HOURLY) == hs; }
      HoursBetween(init, from, to);
      if from <= cp.bucketStart < to {
        if cp.kind == HOURLY {
          HoursAreEarlier(init, cp, from, to);
          PlacedHour(Between(init, from, to), cp);
        } else {
          PlacedOther(Between(init, from, to), cp);
        }
      }
    }
  }

  lemma HoursAreEarlier(init: seq<Checkpoint>, cp: Checkpoint, from: int, to: int)
    requires forall i | 0 <= i < |OfKind(init, HOURLY)| :: OfKind(init, HOURLY)[i].bucketStart < cp.bucketStart
    ensures forall h | h in Between(init, from, to) && h.kind == HOURLY :: h.bucketStart < cp.bucketStart
  {
    hide Between;
    BetweenMembers(init, from, to);
    forall h | h in Between(init, from, to) && h.kind == HOURLY ensures h.bucketStart < cp.bucketStart {
      assert h in OfKind(init, HOURLY);
    }
  }

  lemma {:induction false} WithinAll(hs: seq<Checkpoint>, from: int, to: int)
    requires forall h | h in hs :: from <= h.bucketStart < to
    ensures Within(hs, from, to) == hs
  {
    if hs != [] {
      var k := |hs| - 1;
      assert hs == hs[..k] + [hs[k]];
      WithinAll(hs[..k], from, to);
    }
  }

  lemma AllBelow(hs: seq<Checkpoint>, last: Checkpoint, from: int, to: int)
    requires Ascending(hs + [last]) && last.bucketStart < to && forall h | h in hs + [last] :: from <= h.bucketStart
    ensures Within(hs + [last], from, to) == hs + [last]
  {
    hide Within;
    AscendingInit(hs, last);
    hide Ascending;
    forall h | h in hs + [last] ensures from <= h.bucketStart < to {
      if h != last { var i :| 0 <= i < |hs| && hs[i] == h; }
    }
    WithinAll(hs + [last], from, to);
  }

  /** From an ascending list that starts in the range, the range takes a front part. */
  lemma {:induction false} WithinIsFront(hs: seq<Checkpoint>, from: int, to: int) returns (n: nat)
    requires Ascending(hs) && forall h | h in hs :: from <= h.bucketStart
    ensures n <= |hs| && Within(hs, from, to) == hs[..n]
  {
    hide Ascending;
    if hs == [] {
      n := 0;
    } else {
      var k := |hs| - 1;
      var init, last := hs[..k], hs[k];
      assert hs == init + [last];
      WithinAppend(init, last, from, to);
      hide Within;
      if last.bucketStart < to {
        n := |hs|;
        AllBelow(init, last, from, to);
        assert hs[..n] == hs;
      } else {
        AscendingInit(init, last);
        n := WithinIsFront(init, from, to);
        assert init[..n] == hs[..n];
      }
    }
  }

  lemma LinkedFront(hs: seq<Checkpoint>, n: nat)
    requires Linked(hs) && n <= |hs|
    ensures Linked(hs[..n])
  {
    forall i | 0 <= i < n ensures LinkAt(hs[..n], i) { assert LinkAt(hs, i); }
  }

  // ----- records of the day -----

  lemma {:induction false} LogsInAll(logs: seq<Log>, from: int, to: int)
    requires forall l | l in logs :: from <= l.ts < to
    ensures LogsIn(logs, from, to) == logs
  {
    if logs != [] {
      var k := |logs| - 1;
      assert logs == logs[..k] + [logs[k]];
      LogsInAll(logs[..k], from, to);
    }
  }

  predicate InDay(l: Log, day: int) { day <= l.ts < day + DAY }

  /** The day's records come first: none of another day was appended before one of them. */
  ghost predicate Front(logs: seq<Log>, day: int) {
    forall i, j | 0 <= i < j < |logs| && InDay(logs[j], day) :: InDay(logs[i], day)
  }

  lemma FrontLast(logs: seq<Log>, day: int)
    requires logs != []
    ensures var n := |logs| - 1;
      Front(logs, day) <==> Front(logs[..n], day) && (InDay(logs[n], day) ==> forall l | l in logs :: InDay(l, day))
  {
    hide InDay;
    var n := |logs| - 1;
    var init := logs[..n];
    if Front(logs, day) {
      forall i, j | 0 <= i < j < n && InDay(init[j], day) ensures InDay(init[i], day) {
        assert init[i] == logs[i] && init[j] == logs[j];
      }
    }
    if Front(init, day) && (InDay(logs[n], day) ==> forall l | l in logs :: InDay(l, day)) {
      forall i, j | 0 <= i < j < |logs| && InDay(logs[j], day) ensures InDay(logs[i], day) {
        assert logs[i] == init[i] && logs[i] in logs;
        if j < n { assert logs[j] == init[j]; }
      }
    }
  }

  lemma {:induction false} FrontIsPrefix(logs: seq<Log>, day: int) returns (n: nat)
    requires Front(logs, day)
    ensures n <= |logs| && LogsIn(logs, day, day + DAY) == logs[..n]
  {
    if logs == [] {
      n := 0;
    } else {
      var k := |logs| - 1;
      FrontLast(logs, day);
      hide Front;
      if InDay(logs[k], day) {
        n := |logs|;
        LogsInAll(logs, day, day + DAY);
        assert logs[..n] == logs;
      } else {
        n := FrontIsPrefix(logs[..k], day);
        assert logs[..k][..n] == logs[..n];
      }
    }
  }

  lemma TextsOfFront(logs: seq<Log>, n: nat)
    requires n <= |logs|
    ensures HashedTexts(logs[..n]) <= HashedTexts(logs)
  {
    hide Canon;
    forall i | 0 <= i < n ensures TextAt(logs[..n], i) == TextAt(logs, i) {
      assert PrevOf(logs[..n], i) == PrevOf(logs, i);
    }
    hide TextAt;
    forall x | x in HashedTexts(logs[..n]) ensures x in HashedTexts(logs) {
      var i :| 0 <= i < n && x == TextAt(logs[..n], i);
      assert x == TextAt(logs, i);
    }
  }

  lemma FewerTexts(t: TextHash, texts: set<string>, some: set<string>)
    requires NoCollision(t, texts) && some <= texts
    ensures NoCollision(t, some)
  {}

  /** A record of the day that follows the day's other records in their own chain also follows one of the
      day's in the whole chain, or is the first of all. */
  lemma FollowsItsOwn(t: TextHash, logs: seq<Log>, rows: seq<Log>, day: int)
    requires logs != [] && ChainOk(t, logs) && NoCollision(t, HashedTexts(logs))
    requires rows == LogsIn(logs[..|logs| - 1], day, day + DAY) && ChainOk(t, rows + [logs[|logs| - 1]])
    ensures |logs| == 1 || InDay(logs[|logs| - 2], day)
  {
    hide ChainOk, NoCollision, HashedTexts, LogsIn;
    var n := |logs| - 1;
    var l := logs[n];
    LinkOf(t, logs, n);
    LinkOf(t, rows + [l], |rows|);
    PrevClean(t, logs, n);
    if n > 0 {
      assert rows != [];
      var m := rows[|rows| - 1];
      LogsInMembers(logs[..n], day, day + DAY);
      assert m in rows;
      var i :| 0 <= i < n && logs[i] == m;
      HashesDiffer(t, logs, i, n - 1);
    }
  }

  /** The rows of the day form a chain from the start only if they come first. */
  lemma {:induction false} OnlyFrontIsGood(t: TextHash, logs: seq<Log>, day: int)
    requires ChainOk(t, logs) && NoCollision(t, HashedTexts(logs)) && ChainOk(t, LogsIn(logs, day, day + DAY))
    ensures Front(logs, day)
  {
    hide ChainOk, NoCollision, HashedTexts, Front;
    NothingInFront(day);
    if logs != [] {
      var n := |logs| - 1;
      var init, rows := logs[..n], LogsIn(logs[..n], day, day + DAY);
      assert logs == init + [logs[n]];
      ChainFront(t, logs, n);
      TextsOfFront(logs, n);
      FewerTexts(t, HashedTexts(logs), HashedTexts(init));
      FrontLast(logs, day);
      if InDay(logs[n], day) {
        assert LogsIn(logs, day, day + DAY) == rows + [logs[n]];
        ChainFront(t, rows + [logs[n]], |rows|);
        assert (rows + [logs[n]])[..|rows|] == rows;
        OnlyFrontIsGood(t, init, day);
        FollowsItsOwn(t, logs, rows, day);
        if n > 0 { FrontLast(init, day); }
      } else {
        assert LogsIn(logs, day, day + DAY) == rows;
        OnlyFrontIsGood(t, init, day);
      }
    }
  }

  lemma NothingInFront(day: int)
    ensures Front([], day)
  {}

  lemma {:induction false} HourInDay(logs: seq<Log>, hour: int, from: int, to: int)
    requires hour % HOUR == 0 && from <= hour && hour + HOUR <= to
    ensures HourHashes(LogsIn(logs, from, to), hour) == HourHashes(logs, hour)
  {
    hide FromHex;
    if logs != [] {
      var n := |logs| - 1;
      HourInDay(logs[..n], hour, from, to);
      var before, all := LogsIn(logs[..n], from, to), LogsIn(logs, from, to);
      if from <= logs[n].ts < to {
        assert all == before + [logs[n]] && all[..|all| - 1] == before;
      } else {
        assert all == before;
      }
    }
  }

  // ----- what a seal was made from -----

  /** The seal at `k` was made from the hours saved before it. */
  ghost predicate MadeFrom(s: Setup, cps: seq<Checkpoint>, k: nat)
    requires k < |cps|
  {
    var d, hours := cps[k], HoursOf(cps[..k], cps[k].bucketStart);
    var root := Root(s.c.node, Roots(hours));
    d.bucketEnd == d.bucketStart + DAY && hours != [] && d.root == ToHex(root) && d.recordCount == Records(hours)
    && (d.tsaStatus == "ok" ==> s.tsa.Some? && d.tsaToken == s.tsa.value(s.c.node(root)))
    && d.signature
         == Signed(s, Manifest(s.c.dayName(d.bucketStart), d.root, d.recordCount, |hours|, d.prevRoot, d.signedAt))
  }

  /** Only the last hour of its day can still be checkpointed after a seal. */
  ghost predicate OnlyLastHourLeft(cps: seq<Checkpoint>, k: nat)
    requires k < |cps|
  {
    forall j | k < j < |cps| && cps[j].kind == HOURLY :: cps[j].bucketStart >= cps[k].bucketStart + DAY - HOUR
  }

  ghost predicate SealsInv(s: Setup, cps: seq<Checkpoint>) {
    forall k | 0 <= k < |cps| :: SealOk(s, cps, k)
  }

  ghost predicate SealOk(s: Setup, cps: seq<Checkpoint>, k: nat)
    requires k < |cps|
  {
    cps[k].kind == DAILY ==> MadeFrom(s, cps, k) && OnlyLastHourLeft(cps, k)
  }

  lemma MadeFromStays(s: Setup, cps: seq<Checkpoint>, cp: Checkpoint, k: nat)
    requires k < |cps|
    ensures MadeFrom(s, cps + [cp], k) == MadeFrom(s, cps, k)
  {
    assert (cps + [cp])[..k] == cps[..k];
  }

  lemma {:induction false} SealsGrow(s: Setup, cps: seq<Checkpoint>, cp: Checkpoint)
    requires SealsInv(s, cps)
    requires cp.kind == DAILY ==> MadeFrom(s, cps + [cp], |cps|)
    requires cp.kind == HOURLY ==> forall d | d in OfKind(cps, DAILY) :: cp.bucketStart >= d.bucketStart + DAY - HOUR
    ensures SealsInv(s, cps + [cp])
  {
    var after := cps + [cp];
    forall k | 0 <= k < |after| ensures SealOk(s, after, k) {
      if k < |cps| {
        assert SealOk(s, cps, k);
        SealStays(s, cps, cp, k);
      }
    }
  }

  lemma {:induction false} SealStays(s: Setup, cps: seq<Checkpoint>, cp: Checkpoint, k: nat)
    requires k < |cps| && SealOk(s, cps, k)
    requires cp.kind == HOURLY ==> forall d | d in OfKind(cps, DAILY) :: cp.bucketStart >= d.bucketStart + DAY - HOUR
    ensures SealOk(s, cps + [cp], k)
  {
    MadeFromStays(s, cps, cp, k);
    hide MadeFrom;
    var after := cps + [cp];
    assert after[k] == cps[k] && cps[k] in cps;
    if cps[k].kind == DAILY {
      assert cps[k] in OfKind(cps, DAILY);
      hide OfKind;
      forall j | k < j < |after| && after[j].kind == HOURLY
        ensures after[j].bucketStart >= cps[k].bucketStart + DAY - HOUR
      {
        if j < |cps| { assert after[j] == cps[j]; }
      }
    }
  }

  lemma DayIsMadeFrom(s: Setup, db: Db, day: int, now: int, tsaFails: bool)
    requires HoursOf(db.cps, day) != []
    ensures MadeFrom(s, db.cps + [DayCheckpoint(s, db, day, now, tsaFails)], |db.cps|)
  {
    hide HoursOf, Root, ToHex, Roots, Records, PrevRootOf, Signed;
    var after := db.cps + [DayCheckpoint(s, db, day, now, tsaFails)];
    assert after[..|db.cps|] == db.cps;
  }

  lemma HourKeepsSeals(s: Setup, db: Db, t: int, now: int)
    requires SealsInv(s, db.cps) && DaysInv(s, db.cps, t) && t <= now && s.tz % HOUR == 0
    ensures SealsInv(s, Hourly(s.c, db, HourOf(now) - HOUR).cps)
  {
    hide SealsInv, HourCheckpoint, LogsIn, Exists, Linked, Ascending;
    var start := HourOf(now) - HOUR;
    HourKind(s.c, db, start);
    forall d | d in OfKind(db.cps, DAILY) ensures start >= d.bucketStart + DAY - HOUR {
      assert (d.bucketStart + s.tz) % DAY == 0 && d.bucketStart + DAY + 300 <= t;
      AlignedDay(s, d.bucketStart);
      assert HourOf(now) >= d.bucketStart + DAY;
    }
    SealsGrow(s, db.cps, HourCheckpoint(s.c, db, start));
  }

  lemma AlignedDay(s: Setup, d: int)
    requires (d + s.tz) % DAY == 0 && s.tz % HOUR == 0
    ensures d % HOUR == 0
  {}

  lemma {:induction false} DayKeepsSeals(s: Setup, db: Db, day: int, now: int, tsaFails: bool)
    requires SealsInv(s, db.cps)
    ensures SealsInv(s, Daily(s, db, day, now, tsaFails).cps)
  {
    hide SealsInv, DayCheckpoint, HoursOf, Exists, MadeFrom;
    DayKind(s, db, day, now, tsaFails);
    if HoursOf(db.cps, day) != [] {
      DayIsMadeFrom(s, db, day, now, tsaFails);
      SealsGrow(s, db.cps, DayCheckpoint(s, db, day, now, tsaFails));
    }
  }

  lemma {:induction false} RunDays(s: Setup, evs: seq<Event>, t: int)
    requires Clock(evs) && Until(evs, t)
    ensures DaysInv(s, Run(s, evs).cps, t)
  {
    RunKeeps(s, evs, t);
  }

  lemma {:induction false} StepKeepsSeals(s: Setup, db: Db, e: Event)
    requires SealsInv(s, db.cps) && s.tz % HOUR == 0 && (e.Ticking? ==> DaysInv(s, db.cps, e.now))
    ensures SealsInv(s, Step(s, db, e).cps)
  {
    hide SealsInv, Hourly, Daily, DaysInv, Midnight, Appended;
    match e {
      case Append(rec) => AppendKeepsCps(s.c, db, rec);
      case Ticking(now, hourlyFails, dailyFails, tsaFails) =>
        HourKeepsSeals(s, db, now, now);
        var db1 := if hourlyFails then db else Hourly(s.c, db, HourOf(now) - HOUR);
        DayKeepsSeals(s, db1, Midnight(s, now) - DAY, now, tsaFails);
    }
  }

  lemma {:induction false} RunKeepsSeals(s: Setup, evs: seq<Event>)
    requires Clock(evs) && s.tz % HOUR == 0
    ensures SealsInv(s, Run(s, evs).cps)
  {
    if evs != [] {
      var n := |evs| - 1;
      hide SealsInv, DaysInv, Clock, Step, Until;
      ClockInit(evs);
      RunKeepsSeals(s, evs[..n]);
      if evs[n].Ticking? { RunDays(s, evs[..n], evs[n].now); }
      StepKeepsSeals(s, Run(s, evs[..n]), evs[n]);
    } else {
      NoSeals(s);
    }
  }

  lemma NoSeals(s: Setup)
    ensures SealsInv(s, [])
  {}

  // ----- acceptance -----

  /** An hour of the day was checkpointed only after the day had been sealed. */
  ghost predicate Late(cps: seq<Checkpoint>, day: int) {
    exists k: nat, j: nat :: LateAt(cps, day, k, j)
  }

  ghost predicate LateAt(cps: seq<Checkpoint>, day: int, k: nat, j: nat) {
    k < j < |cps| && cps[k].kind == DAILY && cps[k].bucketStart == day
    && cps[j].kind == HOURLY && day <= cps[j].bucketStart < day + DAY
  }

  ghost predicate NoHoursFrom(cps: seq<Checkpoint>, k: nat, day: int) {
    forall j | k <= j < |cps| && cps[j].kind == HOURLY :: !(day <= cps[j].bucketStart < day + DAY)
  }

  lemma {:induction false} HoursSince(cps: seq<Checkpoint>, k: nat, day: int)
    requires k <= |cps| && NoHoursFrom(cps, k, day)
    ensures Within(OfKind(cps, HOURLY), day, day + DAY) == Within(OfKind(cps[..k], HOURLY), day, day + DAY)
  {
    hide Within, OfKind;
    if k < |cps| {
      var n := |cps| - 1;
      var init := cps[..n];
      assert init[..k] == cps[..k] && cps == init + [cps[n]];
      HoursSince(init, k, day);
      OfKindAppend(init, cps[n], HOURLY);
      if cps[n].kind == HOURLY { WithinAppend(OfKind(init, HOURLY), cps[n], day, day + DAY); }
      else { assert OfKind(cps, HOURLY) == OfKind(init, HOURLY); }
    } else {
      assert cps[..k] == cps;
    }
  }

  lemma {:induction false} AllCounted(b: seq<Checkpoint>, day: int)
    requires forall x | x in b :: day <= x.bucketStart < day + DAY
    ensures HoursWithin(b, day, day + DAY) == |OfKind(b, HOURLY)|
  {
    if b != [] {
      var n := |b| - 1;
      assert b == b[..n] + [b[n]];
      AllCounted(b[..n], day);
    }
  }

  lemma {:induction false} FrontAscends(cps: seq<Checkpoint>, k: nat)
    requires k <= |cps| && Ascending(OfKind(cps, HOURLY))
    ensures Ascending(OfKind(cps[..k], HOURLY))
    decreases |cps|
  {
    if k == |cps| {
      assert cps[..k] == cps;
    } else {
      var n := |cps| - 1;
      if cps[n].kind == HOURLY { AscendingInit(OfKind(cps[..n], HOURLY), cps[n]); }
      else { assert OfKind(cps, HOURLY) == OfKind(cps[..n], HOURLY); }
      FrontAscends(cps[..n], k);
      assert cps[..n][..k] == cps[..k];
    }
  }

  /** The time-stamp authority stamps what it is asked to, and the public key belongs to the signing key. */
  ghost predicate Honest(s: Setup, pub: Option<PublicKey>) {
    (s.tsa.Some? ==> forall h: Bytes :: TokenContainsHash(s.tsa.value(h), h))
    && (pub.Some? && s.sign.Some? ==> forall m: Manifest :: pub.value(m, s.sign.value(m)))
  }

  /** `day` is a local midnight, in a zone whose offset is a whole number of hours. */
  predicate Aligned(s: Setup, day: int) { (day + s.tz) % DAY == 0 && s.tz % HOUR == 0 }

  /** No record of the day came after its hour had been checkpointed. */
  ghost predicate Punctual(s: Setup, evs: seq<Event>, day: int) {
    forall hour | day <= hour < day + DAY :: Stragglers(s, evs, hour) == 0
  }

  /** No hour before the day has a checkpoint, if one of the day has. */
  ghost predicate FirstHours(cps: seq<Checkpoint>, day: int) {
    forall g, h | g in OfKind(cps, HOURLY) && h in OfKind(cps, HOURLY) && day <= h.bucketStart < day + DAY ::
      day <= g.bucketStart
  }

  /** The day's hours form a chain from the empty root exactly if they are the first hours of all. */
  lemma HoursLinked(cps: seq<Checkpoint>, t: int, day: int)
    requires HoursInv(cps, t)
    ensures Linked(OfKind(Between(cps, day, day + DAY), HOURLY)) <==> FirstHours(cps, day)
  {
    hide Between, Within, OfKind, Ascending, Linked;
    var hs := OfKind(cps, HOURLY);
    HoursBetween(cps, day, day + DAY);
    WithinMembers(hs, day, day + DAY);
    if forall g | g in hs :: day <= g.bucketStart {
      var n := WithinIsFront(hs, day, day + DAY);
      LinkedFront(hs, n);
    } else if Within(hs, day, day + DAY) == [] {
      NothingLinked();
      assert forall h | h in hs :: h !in Within(hs, day, day + DAY);
    } else {
      var g :| g in hs && g.bucketStart < day;
      var h := Within(hs, day, day + DAY)[0];
      assert h in Within(hs, day, day + DAY);
      LaterIsLinked(hs, g, h, t);
      if Linked(Within(hs, day, day + DAY)) { FirstLink(Within(hs, day, day + DAY)); }
    }
  }

  lemma {:induction false} WithinMembers(hs: seq<Checkpoint>, from: int, to: int)
    ensures forall h :: h in Within(hs, from, to) <==> h in hs && from <= h.bucketStart < to
  {
    if hs != [] {
      var n := |hs| - 1;
      assert hs == hs[..n] + [hs[n]];
      WithinMembers(hs[..n], from, to);
    }
  }

  lemma FirstLink(hs: seq<Checkpoint>)
    requires Linked(hs) && hs != []
    ensures hs[0].prevRoot == ""
  {
    assert LinkAt(hs, 0);
  }

  lemma LaterIsLinked(hs: seq<Checkpoint>, g: Checkpoint, h: Checkpoint, t: int)
    requires Ascending(hs) && Linked(hs) && g in hs && h in hs && g.bucketStart < h.bucketStart
    requires forall x | x in hs :: HourShape(x, t)
    ensures h.prevRoot != ""
  {
    hide Linked;
    var i :| 0 <= i < |hs| && hs[i] == h;
    var k :| 0 <= k < |hs| && hs[k] == g;
    assert i > 0;
    hide Ascending;
    LinkBefore(hs, i);
    assert hs[i - 1] in hs;
  }

  lemma LinkBefore(hs: seq<Checkpoint>, i: nat)
    requires Linked(hs) && 0 < i < |hs|
    ensures hs[i].prevRoot == hs[i - 1].root
  {
    assert LinkAt(hs, i);
  }

  /** An hour passes the check exactly if no record of it came too late. */
  lemma HourOfDay(c: Crypto, logs: seq<Log>, day: int, cp: Checkpoint, late: nat)
    requires HourFact(c, logs, cp, late)
    requires day % HOUR == 0 && cp.bucketStart % HOUR == 0 && day <= cp.bucketStart < day + DAY
    ensures HourGood(c, LogsIn(logs, day, day + DAY), cp) <==> late == 0
  {
    hide LogsIn, HourHashes, Root, ToHex, FromHex;
    HourInDay(logs, cp.bucketStart, day, day + DAY);
    var hashes := HourHashes(logs, cp.bucketStart);
    HexRoundTrip(Root(c.node, hashes[..cp.recordCount]));
    if late == 0 { assert hashes[..cp.recordCount] == hashes; }
  }

  lemma HourInBundle(db: Db, t: int, day: int, cp: Checkpoint)
    requires HoursInv(db.cps, t)
    ensures cp in OfKind(DayBundle(db, day).checkpoints, HOURLY)
      <==> cp in OfKind(db.cps, HOURLY) && day <= cp.bucketStart < day + DAY
    ensures cp in OfKind(db.cps, HOURLY) ==> cp.bucketStart % HOUR == 0
  {
    hide Between, LogsIn, Linked, Ascending;
    BetweenMembers(db.cps, day, day + DAY);
    if cp in OfKind(db.cps, HOURLY) { assert HourShape(cp, t); }
  }

  /** The hours of the day pass exactly if nobody straggled. */
  lemma HoursGood(s: Setup, evs: seq<Event>, t: int, day: int)
    requires HoursInv(Run(s, evs).cps, t) && day % HOUR == 0
    ensures var b := DayBundle(Run(s, evs), day);
      (forall cp | cp in OfKind(b.checkpoints, HOURLY) :: HourGood(s.c, b.logs, cp)) <==> Punctual(s, evs, day)
  {
    hide Run, OfKind, DayBundle, HourGood, HourFact, HoursInv, Stragglers, Exists;
    HoursCounted(s, evs);
    var db := Run(s, evs);
    var b := DayBundle(db, day);
    forall cp | cp in OfKind(b.checkpoints, HOURLY)
      ensures HourGood(s.c, b.logs, cp) <==> Stragglers(s, evs, cp.bucketStart) == 0
      ensures day <= cp.bucketStart < day + DAY
    {
      HourInBundle(db, t, day, cp);
      HourOfBundle(s.c, db, day, cp, Stragglers(s, evs, cp.bucketStart));
    }
    forall hour | day <= hour < day + DAY && Stragglers(s, evs, hour) != 0
      ensures exists cp | cp in OfKind(b.checkpoints, HOURLY) :: cp.bucketStart == hour
    {
      if !Exists(db.cps, HOURLY, hour) { NoneBefore(s, evs, hour); }
      NotThere(db.cps, HOURLY, hour);
      var cp :| cp in OfKind(db.cps, HOURLY) && cp.bucketStart == hour;
      HourInBundle(db, t, day, cp);
    }
  }

  lemma HourOfBundle(c: Crypto, db: Db, day: int, cp: Checkpoint, late: nat)
    requires HourFact(c, db.logs, cp, late)
    requires day % HOUR == 0 && cp.bucketStart % HOUR == 0 && day <= cp.bucketStart < day + DAY
    ensures HourGood(c, DayBundle(db, day).logs, cp) <==> late == 0
  {
    hide HourFact, HourGood, LogsIn, Between;
    HourOfDay(c, db.logs, day, cp, late);
  }

  lemma SameMidnight(s: Setup, day: int, d: int)
    requires (day + s.tz) % DAY == 0 && (d + s.tz) % DAY == 0 && day <= d < day + DAY
    ensures d == day
  {}

  lemma OnlySealOfDay(s: Setup, db: Db, t: int, day: int, d: Checkpoint) returns (k: nat)
    requires DaysInv(s, db.cps, t) && SealsInv(s, db.cps) && (day + s.tz) % DAY == 0
    requires d in OfKind(DayBundle(db, day).checkpoints, DAILY)
    ensures k < |db.cps| && db.cps[k] == d && d.kind == DAILY && d.bucketStart == day && MadeFrom(s, db.cps, k)
  {
    BetweenMembers(db.cps, day, day + DAY);
    hide Between, MadeFrom, OnlyLastHourLeft, Linked, Ascending, LogsIn;
    assert d in DayBundle(db, day).checkpoints;
    assert d in db.cps && d in OfKind(db.cps, DAILY);
    SameMidnight(s, day, d.bucketStart);
    k :| 0 <= k < |db.cps| && db.cps[k] == d;
    assert SealOk(s, db.cps, k);
  }

  lemma NotLateAfter(cps: seq<Checkpoint>, day: int, k: nat)
    requires !Late(cps, day) && k < |cps| && cps[k].kind == DAILY && cps[k].bucketStart == day
    ensures NoHoursFrom(cps, k, day)
  {
    forall j | k <= j < |cps| && cps[j].kind == HOURLY ensures !(day <= cps[j].bucketStart < day + DAY) {
      assert !LateAt(cps, day, k, j);
    }
  }

  /** Without late hours, the day's hours are those the seal was made from, in the bundle and in the store. */
  lemma {:induction false} HoursUnchanged(cps: seq<Checkpoint>, day: int, k: nat)
    requires Ascending(OfKind(cps, HOURLY)) && !Late(cps, day)
    requires k < |cps| && cps[k].kind == DAILY && cps[k].bucketStart == day
    ensures OfKind(Between(cps, day, day + DAY), HOURLY) == HoursOf(cps[..k], day)
    ensures HoursWithin(Between(cps, day, day + DAY), day, day + DAY) == |HoursOf(cps[..k], day)|
  {
    hide OfKind, Within, Between, Late, Ascending, HoursWithin;
    NotLateAfter(cps, day, k);
    FrontAscends(cps, k);
    HoursBetween(cps, day, day + DAY);
    HoursBetween(cps[..k], day, day + DAY);
    HoursSince(cps, k, day);
    BetweenMembers(cps, day, day + DAY);
    AllCounted(Between(cps, day, day + DAY), day);
  }

  /** A seal that no hour followed passes every check made on it. */
  lemma {:induction false} SealGood(s: Setup, db: Db, t: int, day: int, k: nat, pub: Option<PublicKey>)
    requires HoursInv(db.cps, t) && Honest(s, pub) && !Late(db.cps, day)
    requires k < |db.cps| && db.cps[k].kind == DAILY && db.cps[k].bucketStart == day && MadeFrom(s, db.cps, k)
    ensures var b, d := DayBundle(db, day), db.cps[k];
      DayRootGood(s.c, b.checkpoints, d) && StampGood(s.c, d) && SignatureGood(s.c, b.checkpoints, d, pub)
  {
    hide LogsIn, Between, Root, ToHex, FromHex, Roots, TokenContainsHash, HourShape, Linked, Ascending, Within, OfKind,
         HoursOf, HoursWithin, Late;
    HoursUnchanged(db.cps, day, k);
    HexRoundTrip(Root(s.c.node, Roots(HoursOf(db.cps[..k], day))));
  }

  /** What is known of the store at any time. */
  ghost predicate SealerState(s: Setup, db: Db, t: int, day: int) {
    Inv(s, db, t) && SealsInv(s, db.cps) && (day + s.tz) % DAY == 0 && day % HOUR == 0
  }

  lemma {:induction false} Reached(s: Setup, evs: seq<Event>, day: int) returns (t: int)
    requires Clock(evs) && Aligned(s, day)
    ensures SealerState(s, Run(s, evs), t, day)
  {
    t := ClockEnds(evs);
    RunKeeps(s, evs, t);
    RunKeepsSeals(s, evs);
    AlignedDay(s, day);
  }

  lemma RecordsAreGood(s: Setup, db: Db, t: int, day: int)
    requires SealerState(s, db, t, day)
    ensures Front(db.logs, day) ==> RecordsGood(s.c, DayBundle(db, day))
    ensures RecordsGood(s.c, DayBundle(db, day)) && NoCollision(s.c.text, HashedTexts(db.logs)) ==> Front(db.logs, day)
  {
    hide ChainOk, LogsIn, Between, HoursInv, DaysInv, SealsInv, RecordsGood, Front, NoCollision, HashedTexts;
    UnmaskedIsChain(s.c, DayBundle(db, day));
    if Front(db.logs, day) {
      var n := FrontIsPrefix(db.logs, day);
      ChainFront(s.c.text, db.logs, n);
    }
    if RecordsGood(s.c, DayBundle(db, day)) && NoCollision(s.c.text, HashedTexts(db.logs)) {
      OnlyFrontIsGood(s.c.text, db.logs, day);
    }
  }

  /** The day's records come first and in time, its hours are the first, and none came after the seal. */
  ghost predicate InOrder(s: Setup, evs: seq<Event>, day: int) {
    && Front(Run(s, evs).logs, day)
    && FirstHours(Run(s, evs).cps, day)
    && Punctual(s, evs, day)
    && !Late(Run(s, evs).cps, day)
  }

  /** VerifyBundle accepts the unmasked bundle of a day in order: record chain, hourly roots, checkpoint
      chain, daily root, time stamp and rebuilt manifest, whatever failed or was repeated along the way. */
  lemma SealedDayAccepted(s: Setup, evs: seq<Event>, day: int, pub: Option<PublicKey>)
    requires Clock(evs) && Aligned(s, day) && Honest(s, pub) && InOrder(s, evs, day)
    ensures Good(s.c, DayBundle(Run(s, evs), day), pub)
  {
    hide Run, Clock, HourGood, Linked, DayRootGood, StampGood, SignatureGood, SealsInv, HoursInv, Aligned, Front,
         DaysInv, Late, Honest, MadeFrom, RecordsGood, OfKind, DayBundle, Punctual, FirstHours, ChainOk;
    var t := Reached(s, evs, day);
    var db := Run(s, evs);
    var b := DayBundle(db, day);
    RecordsAreGood(s, db, t, day);
    HoursGood(s, evs, t, day);
    HoursLinked(db.cps, t, day);
    BundleParts(db, day);
    forall d | d in OfKind(b.checkpoints, DAILY)
      ensures DayRootGood(s.c, b.checkpoints, d) && StampGood(s.c, d) && SignatureGood(s.c, b.checkpoints, d, pub)
    {
      var k := OnlySealOfDay(s, db, t, day, d);
      SealGood(s, db, t, day, k, pub);
    }
  }

  lemma BundleParts(db: Db, day: int)
    ensures DayBundle(db, day).checkpoints == Between(db.cps, day, day + DAY)
  {}

  /** A bundle is rejected, whatever the hashes, if a record of the day came after its hour's checkpoint or
      an hour before the day was checkpointed; and, unless texts collide, if the day's records do not come
      first: so only the first day of a log can be verified by itself. */
  lemma DisorderRejected(s: Setup, evs: seq<Event>, day: int, pub: Option<PublicKey>)
    requires Clock(evs) && Aligned(s, day)
    requires !Punctual(s, evs, day) || !FirstHours(Run(s, evs).cps, day)
      || (!Front(Run(s, evs).logs, day) && NoCollision(s.c.text, HashedTexts(Run(s, evs).logs)))
    ensures !Good(s.c, DayBundle(Run(s, evs), day), pub)
  {
    hide Run, Clock, HourGood, Linked, DayRootGood, StampGood, SignatureGood, SealsInv, HoursInv, Aligned, Front,
         DaysInv, RecordsGood, OfKind, DayBundle, Punctual, FirstHours, ChainOk, NoCollision, HashedTexts;
    var t := Reached(s, evs, day);
    var db := Run(s, evs);
    RecordsAreGood(s, db, t, day);
    HoursGood(s, evs, t, day);
    HoursLinked(db.cps, t, day);
    BundleParts(db, day);
  }
}
