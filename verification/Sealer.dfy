/** The sealer of internal/compliance/sealer.go over the store of internal/store/compliance.go:
    hourly checkpoints, daily seals and the tick that drives them. */
module Sealer {
  import opened Wrappers
  import opened Merkle
  import opened LogChain
  import opened Evidence

  // ----- the store -----

  datatype Db = Db(logs: seq<Log>, cps: seq<Checkpoint>)

  const DAY := 86400
  const HOUR := 3600

  /** Rows with from <= ts < to, in sequence order. */
  function LogsIn(logs: seq<Log>, from: int, to: int): seq<Log> {
    if logs == [] then []
    else
      var n := |logs| - 1;
      LogsIn(logs[..n], from, to) + if from <= logs[n].ts < to then [logs[n]] else []
  }

  function Hashes(logs: seq<Log>): (r: seq<Bytes>)
    ensures |r| == |logs|
  {
    if logs == [] then [] else Hashes(logs[..|logs| - 1]) + [FromHex(logs[|logs| - 1].hash)]
  }

  predicate Exists(cps: seq<Checkpoint>, kind: string, start: int) {
    exists i | 0 <= i < |cps| :: cps[i].kind == kind && cps[i].bucketStart == start
  }

  /** ORDER BY bucket_start DESC LIMIT 1: not the last one saved but the one with the latest bucket. */
  function Latest(cps: seq<Checkpoint>, kind: string): Option<Checkpoint> {
    if cps == [] then None
    else
      var n := |cps| - 1;
      var before := Latest(cps[..n], kind);
      if cps[n].kind == kind && (before == None || before.value.bucketStart < cps[n].bucketStart) then Some(cps[n])
      else before
  }

  predicate Before(x: Checkpoint, y: Checkpoint) {
    x.bucketStart < y.bucketStart || (x.bucketStart == y.bucketStart && (x.kind == DAILY || y.kind != DAILY))
  }

  function Placed(sorted: seq<Checkpoint>, cp: Checkpoint): seq<Checkpoint> {
    if sorted == [] then [cp]
    else
      var n := |sorted| - 1;
      if Before(sorted[n], cp) then sorted + [cp] else Placed(sorted[..n], cp) + [sorted[n]]
  }

  /** The checkpoints of a range of buckets, ordered by bucket, a daily one before an hourly one. */
  function Between(cps: seq<Checkpoint>, from: int, to: int): seq<Checkpoint> {
    if cps == [] then []
    else
      var n := |cps| - 1;
      if from <= cps[n].bucketStart < to then Placed(Between(cps[..n], from, to), cps[n])
      else Between(cps[..n], from, to)
  }

  /** A record joins the end of the chain under the time stamp its sender gave it. */
  function Appended(c: Crypto, db: Db, rec: Log): Db {
    var prev := if db.logs == [] then "" else db.logs[|db.logs| - 1].hash;
    var l := rec.(seqNo := |db.logs| + 1, prevHash := prev);
    db.(logs := db.logs + [l.(hash := ComplianceHash(c.text, prev, l))])
  }

  class Store {
    var logs: seq<Log>
    var cps: seq<Checkpoint>

    constructor ()
      ensures logs == [] && cps == []
    { logs, cps := [], []; }

    ghost function Value(): Db
      reads this
    { Db(logs, cps) }

    method AppendComplianceLog(c: Crypto, rec: Log)
      modifies this
      ensures Value() == Appended(c, old(Value()), rec)
    {
      var prev := if logs == [] then "" else logs[|logs| - 1].hash;
      var l := rec.(seqNo := |logs| + 1, prevHash := prev);
      logs := logs + [l.(hash := ComplianceHash(c.text, prev, l))];
    }

    method SaveLogCheckpoint(cp: Checkpoint)
      modifies this
      ensures Value() == old(Value()).(cps := old(cps) + [cp])
    { cps := cps + [cp]; }
  }

  // ----- the steps -----

  /** What is configured: crypto, the zone's offset, a time-stamp authority and a signing key, if any. */
  datatype Setup = Setup(c: Crypto, tz: int, tsa: Option<Bytes -> Bytes>, sign: Option<Manifest -> string>)

  function PrevRootOf(cps: seq<Checkpoint>, kind: string): string {
    match Latest(cps, kind) case None => "" case Some(cp) => cp.root
  }

  function HourCheckpoint(c: Crypto, db: Db, start: int): Checkpoint {
    var logs := LogsIn(db.logs, start, start + HOUR);
    Checkpoint(HOURLY, start, start + HOUR, |logs|, PrevRootOf(db.cps, HOURLY), ToHex(Root(c.node, Hashes(logs))),
               "", [], "", if logs == [] then 0 else logs[0].seqNo + logs[|logs| - 1].seqNo)
  }

  function Hourly(c: Crypto, db: Db, start: int): Db {
    if Exists(db.cps, HOURLY, start) || LogsIn(db.logs, start, start + HOUR) == [] then db
    else db.(cps := db.cps + [HourCheckpoint(c, db, start)])
  }

  function Records(cps: seq<Checkpoint>): int {
    if cps == [] then 0 else Records(cps[..|cps| - 1]) + cps[|cps| - 1].recordCount
  }

  /** The hourly checkpoints of a day, in bucket order. */
  function HoursOf(cps: seq<Checkpoint>, day: int): seq<Checkpoint> { OfKind(Between(cps, day, day + DAY), HOURLY) }

  function Signed(s: Setup, m: Manifest): string { match s.sign case None => "" case Some(f) => f(m) }

  function DayCheckpoint(s: Setup, db: Db, day: int, now: int, tsaFails: bool): Checkpoint {
    var hours := HoursOf(db.cps, day);
    var root := Root(s.c.node, Roots(hours));
    var prev := PrevRootOf(db.cps, DAILY);
    var m := Manifest(s.c.dayName(day), ToHex(root), Records(hours), |hours|, prev, now);
    var stamped := s.tsa.Some? && !tsaFails;
    Checkpoint(DAILY, day, day + DAY, Records(hours), prev, ToHex(root),
               if s.tsa == None then "none" else if tsaFails then "error:" else "ok",
               if stamped then s.tsa.value(s.c.node(root)) else [], Signed(s, m), now)
  }

  function Daily(s: Setup, db: Db, day: int, now: int, tsaFails: bool): Db {
    if Exists(db.cps, DAILY, day) || HoursOf(db.cps, day) == [] then db
    else db.(cps := db.cps + [DayCheckpoint(s, db, day, now, tsaFails)])
  }

  /** Local midnight of the day `now` is in. */
  function Midnight(s: Setup, now: int): int { now - (now + s.tz) % DAY }

  /** One turn of the sealer's loop: the previous hour, then, between 00:05 and 01:00, the previous
      day. A failing step leaves the store as it was. */
  function Ticked(s: Setup, db: Db, now: int, hourlyFails: bool, dailyFails: bool, tsaFails: bool): Db {
    var db1 := if hourlyFails then db else Hourly(s.c, db, HourOf(now) - HOUR);
    if 300 <= (now + s.tz) % DAY < HOUR && !dailyFails then Daily(s, db1, Midnight(s, now) - DAY, now, tsaFails)
    else db1
  }

  method HourlyCheckpoint(st: Store, c: Crypto, start: int)
    modifies st
    ensures st.Value() == Hourly(c, old(st.Value()), start)
  {
    hide Root, FromHex, ToHex;
    if Exists(st.cps, HOURLY, start) { return; }
    var logs := LogsIn(st.logs, start, start + HOUR);
    if |logs| == 0 { return; }
    var root := MerkleRoot(c.node, Hashes(logs));
    var prevCp := Latest(st.cps, HOURLY);
    var prev := "";
    if prevCp.Some? { prev := prevCp.value.root; }
    st.SaveLogCheckpoint(Checkpoint(HOURLY, start, start + HOUR, |logs|, prev, ToHex(root), "", [], "",
                                    logs[0].seqNo + logs[|logs| - 1].seqNo));
  }

  method DailySeal(st: Store, s: Setup, day: int, now: int, tsaFails: bool)
    modifies st
    ensures st.Value() == Daily(s, old(st.Value()), day, now, tsaFails)
  {
    hide Root, FromHex, ToHex, Latest, Between, OfKind, Exists;
    if Exists(st.cps, DAILY, day) { return; }
    var hours := OfKind(Between(st.cps, day, day + DAY), HOURLY);
    var hourlyRoots: seq<Bytes>, recordCount := [], 0;
    for i := 0 to |hours|
      invariant hourlyRoots == Roots(hours[..i]) && recordCount == Records(hours[..i])
    {
      assert hours[..i + 1][..i] == hours[..i];
      hourlyRoots := hourlyRoots + [FromHex(hours[i].root)];
      recordCount := recordCount + hours[i].recordCount;
    }
    assert hours[..|hours|] == hours;
    if |hourlyRoots| == 0 { return; }
    var root := MerkleRoot(s.c.node, hourlyRoots);
    var prevDaily := Latest(st.cps, DAILY);
    var prev := "";
    if prevDaily.Some? { prev := prevDaily.value.root; }
    var m := Manifest(s.c.dayName(day), ToHex(root), recordCount, |hourlyRoots|, prev, now);
    var tsaStatus, token := "none", [];
    if s.tsa.Some? {
      if tsaFails { tsaStatus := "error:"; }
      else { tsaStatus, token := "ok", s.tsa.value(s.c.node(root)); }
    }
    var sig := "";
    if s.sign.Some? { sig := s.sign.value(m); }
    st.SaveLogCheckpoint(Checkpoint(DAILY, day, day + DAY, recordCount, prev, ToHex(root), tsaStatus, token, sig,
                                    now));
  }

  method Tick(st: Store, s: Setup, now: int, hourlyFails: bool, dailyFails: bool, tsaFails: bool)
    modifies st
    ensures st.Value() == Ticked(s, old(st.Value()), now, hourlyFails, dailyFails, tsaFails)
  {
    hide Hourly, Daily;
    if !hourlyFails { HourlyCheckpoint(st, s.c, HourOf(now) - HOUR); }
    if 300 <= (now + s.tz) % DAY < HOUR && !dailyFails {
      DailySeal(st, s, Midnight(s, now) - DAY, now, tsaFails);
    }
  }
}
