/** What the signature and the time stamp of an accepted bundle are worth: the sealed values, the sealed hours
    and, in the end, the records that were logged. */
module SignedBundles {
  import opened Wrappers
  import opened Merkle
  import opened LogChain
  import opened Evidence
  import opened Sealer
  import opened SealChains
  import opened SealedDay

  // ----- what is signed -----

  /** The manifest of the seal at `k`. */
  function Sealed(s: Setup, cps: seq<Checkpoint>, k: nat): Manifest
    requires k < |cps|
  {
    var d := cps[k];
    Manifest(s.c.dayName(d.bucketStart), d.root, d.recordCount, |HoursOf(cps[..k], d.bucketStart)|, d.prevRoot,
             d.signedAt)
  }

  /** The sealer signs the manifests of its seals. */
  lemma SealIsSigned(s: Setup, evs: seq<Event>, k: nat)
    requires Clock(evs) && s.tz % HOUR == 0 && k < |Run(s, evs).cps| && Run(s, evs).cps[k].kind == DAILY
    ensures var cps := Run(s, evs).cps;
      cps[k].signature == if s.sign == None then "" else s.sign.value(Sealed(s, cps, k))
  {
    hide Run, HoursOf, Root, ToHex, Roots, OnlyLastHourLeft, Records;
    RunKeepsSeals(s, evs);
    assert SealOk(s, Run(s, evs).cps, k);
  }

  /** The key accepts no manifest but those of the seals. */
  ghost predicate OnlySealsSigned(s: Setup, cps: seq<Checkpoint>, key: PublicKey) {
    forall m, sig | key(m, sig) :: exists k: nat | k < |cps| :: cps[k].kind == DAILY && m == Sealed(s, cps, k)
  }

  /** A signed day of an accepted bundle is one that was sealed: same root, count, predecessor, time and day, and
      as many hours. */
  lemma SignedDayIsSealed(s: Setup, cps: seq<Checkpoint>, b: Bundle, key: PublicKey, d: Checkpoint) returns (k: nat)
    requires Good(s.c, b, Some(key)) && OnlySealsSigned(s, cps, key)
    requires d in b.checkpoints && d.kind == DAILY && d.signature != ""
    ensures k < |cps| && cps[k].kind == DAILY && d.root == cps[k].root && d.recordCount == cps[k].recordCount
    ensures d.prevRoot == cps[k].prevRoot && d.signedAt == cps[k].signedAt
    ensures s.c.dayName(d.bucketStart) == s.c.dayName(cps[k].bucketStart)
    ensures |HoursAt(b.checkpoints, d.bucketStart, d.bucketEnd)| == |HoursOf(cps[..k], cps[k].bucketStart)|
  {
    hide RecordsGood, HourGood, Linked, DayRootGood, StampGood, OfKind, HoursAt, HoursOf;
    SignedSeals(s.c, b.checkpoints, Some(key));
    var m := Manifest(s.c.dayName(d.bucketStart), d.root, d.recordCount,
                      |HoursAt(b.checkpoints, d.bucketStart, d.bucketEnd)|, d.prevRoot, d.signedAt);
    assert key(m, d.signature);
    k :| k < |cps| && cps[k].kind == DAILY && m == Sealed(s, cps, k);
  }

  /** A stamp that holds the digest of `root` only stamps no other root. */
  lemma StampFixesRoot(c: Crypto, b: Bundle, pub: Option<PublicKey>, d: Checkpoint, root: Bytes)
    requires Good(c, b, pub) && d in b.checkpoints && d.kind == DAILY && d.tsaStatus == "ok" && d.tsaToken != []
    requires forall x: Bytes, i | 0 <= i <= |d.tsaToken| && c.node(x) <= d.tsaToken[i..] :: c.node(x) == c.node(root)
    requires CollisionFree(c.node, {root, FromHex(d.root)})
    ensures FromHex(d.root) == root
  {
    hide RecordsGood, HourGood, Linked, DayRootGood, SignatureGood, OfKind, FromHex;
    StampedSeals(c, b.checkpoints);
    var i :| 0 <= i <= |d.tsaToken| && c.node(FromHex(d.root)) <= d.tsaToken[i..];
    assert c.node(FromHex(d.root)) == c.node(root);
  }

  // ----- when seals are made, and what they count -----

  /** The seal of the day before `now`, made at `now`. */
  ghost predicate MadeAt(s: Setup, now: int, d: Checkpoint) {
    SealTime(s, now) && d.signedAt == now && d.bucketStart == Midnight(s, now) - DAY
    && d.bucketEnd == d.bucketStart + DAY
  }

  lemma NewSeal(s: Setup, db: Db, now: int, tsaFails: bool, d: Checkpoint)
    requires SealTime(s, now) && d in OfKind(Daily(s, db, Midnight(s, now) - DAY, now, tsaFails).cps, DAILY)
    ensures d in OfKind(db.cps, DAILY) || MadeAt(s, now, d)
  {
    var day := Midnight(s, now) - DAY;
    hide HoursOf, Midnight, Root, ToHex, Roots, Records, PrevRootOf, Exists, Signed, SealTime;
    OfKindAppend(db.cps, DayCheckpoint(s, db, day, now, tsaFails), DAILY);
    hide OfKind;
  }

  lemma NewDay(s: Setup, db: Db, e: Event, d: Checkpoint)
    requires d in OfKind(Step(s, db, e).cps, DAILY)
    ensures d in OfKind(db.cps, DAILY) || (e.Ticking? && MadeAt(s, e.now, d))
  {
    hide Hourly, Daily, Midnight, MadeAt, OfKind, HourOf, Appended;
    match e {
      case Append(rec) => AppendKeepsCps(s.c, db, rec);
      case Ticking(now, hourlyFails, dailyFails, tsaFails) =>
        var start, day := HourOf(now) - HOUR, Midnight(s, now) - DAY;
        OtherKind(s, db, start, day, now, tsaFails);
        var db1 := if hourlyFails then db else Hourly(s.c, db, start);
        if SealTime(s, now) && !dailyFails { NewSeal(s, db1, now, tsaFails, d); }
    }
  }

  /** Under any clock, a day is sealed by a tick that comes from five minutes to an hour after its end. */
  lemma {:induction false} SealTimes(s: Setup, evs: seq<Event>, d: Checkpoint)
    requires d in OfKind(Run(s, evs).cps, DAILY)
    ensures d.bucketEnd == d.bucketStart + DAY && 300 <= d.signedAt - d.bucketEnd < HOUR
    ensures exists e | e in evs :: e.Ticking? && e.now == d.signedAt
  {
    hide OfKind, Step;
    NoSealYet();
    if evs != [] {
      var n := |evs| - 1;
      assert evs == evs[..n] + [evs[n]];
      NewDay(s, Run(s, evs[..n]), evs[n], d);
      if d in OfKind(Run(s, evs[..n]).cps, DAILY) { SealTimes(s, evs[..n], d); }
      else { assert evs[n] in evs; }
    }
  }

  lemma NoSealYet()
    ensures OfKind([], DAILY) == []
  {}

  /** The places of the records in these hours. */
  ghost function Covered(logs: seq<Log>, hs: seq<Checkpoint>): set<int> {
    set i | 0 <= i < |logs| && exists h | h in hs :: HourOf(logs[i].ts) == h.bucketStart
  }

  ghost function InHour(logs: seq<Log>, hour: int): set<int> { set i | 0 <= i < |logs| && HourOf(logs[i].ts) == hour }

  lemma {:induction false} HourSize(logs: seq<Log>, hour: int)
    ensures |HourHashes(logs, hour)| == |InHour(logs, hour)|
  {
    hide FromHex, HourOf;
    if logs != [] {
      var n := |logs| - 1;
      HourSize(logs[..n], hour);
      var before := InHour(logs[..n], hour);
      assert InHour(logs, hour) == if HourOf(logs[n].ts) == hour then before + {n} else before;
    }
  }

  lemma CoveredGrows(logs: seq<Log>, init: seq<Checkpoint>, h: Checkpoint)
    requires forall i | 0 <= i < |init| :: init[i].bucketStart < h.bucketStart
    ensures |Covered(logs, init + [h])| == |Covered(logs, init)| + |InHour(logs, h.bucketStart)|
  {
    hide HourOf;
    assert Covered(logs, init + [h]) == Covered(logs, init) + InHour(logs, h.bucketStart);
    assert Covered(logs, init) !! InHour(logs, h.bucketStart);
  }

  lemma NothingCovered(logs: seq<Log>)
    ensures Covered(logs, []) == {}
  {}

  lemma {:induction false} RecordsCovered(c: Crypto, logs: seq<Log>, hs: seq<Checkpoint>)
    requires Ascending(hs) && forall h | h in hs :: HourFact(c, logs, h, 0)
    ensures Records(hs) == |Covered(logs, hs)|
  {
    hide HourOf, HourHashes, Root, ToHex, Covered, InHour, Ascending;
    NothingCovered(logs);
    if hs != [] {
      var n := |hs| - 1;
      var init, h := hs[..n], hs[n];
      assert hs == init + [h];
      AscendingInit(init, h);
      RecordsCovered(c, logs, init);
      assert HourFact(c, logs, h, 0);
      HourSize(logs, h.bucketStart);
      CoveredGrows(logs, init, h);
    }
  }

  lemma {:induction false} WithinAscends(hs: seq<Checkpoint>, from: int, to: int)
    requires Ascending(hs)
    ensures Ascending(Within(hs, from, to))
  {
    if hs != [] {
      var n := |hs| - 1;
      var init, h := hs[..n], hs[n];
      assert hs == init + [h];
      AscendingInit(init, h);
      WithinAscends(init, from, to);
      WithinMembers(init, from, to);
      hide Ascending;
      if from <= h.bucketStart < to { AscendingGrows(Within(init, from, to), h); }
      else { assert Within(hs, from, to) == Within(init, from, to); }
    }
  }

  lemma FrontMember(cps: seq<Checkpoint>, k: nat, x: Checkpoint)
    requires k <= |cps| && x in cps[..k]
    ensures x in cps
  {}

  /** The hours of a seal ascend and are hours of the store, of that day. */
  lemma SealedHours(cps: seq<Checkpoint>, k: nat, day: int)
    requires k <= |cps| && Ascending(OfKind(cps, HOURLY))
    ensures Ascending(HoursOf(cps[..k], day))
    ensures forall h | h in HoursOf(cps[..k], day) :: h in OfKind(cps, HOURLY) && day <= h.bucketStart < day + DAY
  {
    hide OfKind, Between, Within, Ascending;
    FrontAscends(cps, k);
    HoursBetween(cps[..k], day, day + DAY);
    WithinAscends(OfKind(cps[..k], HOURLY), day, day + DAY);
    WithinMembers(OfKind(cps[..k], HOURLY), day, day + DAY);
  }

  /** A seal's count is the number of records in the hours it was made from, if none of them came late. */
  lemma SealCounts(s: Setup, evs: seq<Event>, k: nat)
    requires Clock(evs) && s.tz % HOUR == 0 && k < |Run(s, evs).cps| && Run(s, evs).cps[k].kind == DAILY
    requires forall h | h in HoursOf(Run(s, evs).cps[..k], Run(s, evs).cps[k].bucketStart) ::
      Stragglers(s, evs, h.bucketStart) == 0
    ensures var db := Run(s, evs);
      db.cps[k].recordCount == |Covered(db.logs, HoursOf(db.cps[..k], db.cps[k].bucketStart))|
  {
    hide Run, HoursOf, Root, ToHex, Roots, OnlyLastHourLeft, Records, HourFact, Ascending, OfKind, Covered, Stragglers;
    var db := Run(s, evs);
    var hs := HoursOf(db.cps[..k], db.cps[k].bucketStart);
    LinearChains(s, evs);
    RunKeepsSeals(s, evs);
    assert SealOk(s, db.cps, k);
    SealedHours(db.cps, k, db.cps[k].bucketStart);
    HoursCounted(s, evs);
    forall h | h in hs ensures HourFact(s.c, db.logs, h, 0) {}
    RecordsCovered(s.c, db.logs, hs);
  }

  // ----- what is logged -----

  /** The records that were sent, in the order of their appends. */
  function Sent(evs: seq<Event>): seq<Log> {
    if evs == [] then []
    else
      var e := evs[|evs| - 1];
      Sent(evs[..|evs| - 1]) + if e.Append? then [e.rec] else []
  }

  /** The log holds every record that was sent, unchanged, and numbers them from one on. */
  lemma {:induction false} LogIsSent(s: Setup, evs: seq<Event>)
    ensures var logs := Run(s, evs).logs;
      |logs| == |Sent(evs)| && forall i | 0 <= i < |logs| :: logs[i].SameContent(Sent(evs)[i]) && logs[i].seqNo == i + 1
  {
    hide ComplianceHash, Ticked;
    if evs != [] {
      var n := |evs| - 1;
      LogIsSent(s, evs[..n]);
      if evs[n].Ticking? { TickKeepsLogs(s, Run(s, evs[..n]), evs[n]); }
    }
  }

  // ----- from the signature down to the records -----

  /** No two of the strings that were hashed for the store or the bundle collide, no record has the digest of
      a node, and no text field holds a separator. */
  ghost predicate Sound(s: Setup, db: Db, b: Bundle, inputs: set<Bytes>) {
    && NoCollision(s.c.text, HashedTexts(b.logs) + HashedTexts(db.logs))
    && (forall l, m | l in b.logs && m in db.logs :: LogChain.Distinct(l, m))
    && CollisionFree(s.c.node, inputs)
    && Inputs(s.c.node, Roots(OfKind(b.checkpoints, HOURLY))) <= inputs
    && (forall k: nat | k < |db.cps| :: Inputs(s.c.node, SealedRoots(db.cps, k)) <= inputs)
    && (forall hour :: Inputs(s.c.node, HourHashes(b.logs, hour)) <= inputs)
    && (forall hour, n: nat | n <= |HourHashes(db.logs, hour)| ::
          Inputs(s.c.node, HourHashes(db.logs, hour)[..n]) <= inputs)
    && (forall l | l in b.logs || l in db.logs :: Fresh(s.c.node, inputs, FromHex(l.hash)))
  }

  function SealedRoots(cps: seq<Checkpoint>, k: nat): seq<Bytes>
    requires k < |cps|
  {
    Roots(HoursOf(cps[..k], cps[k].bucketStart))
  }

  lemma {:induction false} RootAt(cps: seq<Checkpoint>, i: nat)
    requires i < |cps|
    ensures Roots(cps)[i] == FromHex(cps[i].root)
  {
    hide FromHex;
    if i < |cps| - 1 { RootAt(cps[..|cps| - 1], i); }
  }

  lemma {:induction false} HashMember(logs: seq<Log>, hour: int, x: Bytes)
    ensures x in HourHashes(logs, hour)
      <==> exists i :: 0 <= i < |logs| && HourOf(logs[i].ts) == hour && FromHex(logs[i].hash) == x
  {
    hide FromHex, HourOf;
    if logs != [] {
      var n := |logs| - 1;
      HashMember(logs[..n], hour, x);
      if x in HourHashes(logs[..n], hour) {
        var i :| 0 <= i < n && HourOf(logs[..n][i].ts) == hour && FromHex(logs[..n][i].hash) == x;
        assert logs[i] == logs[..n][i];
      }
    }
  }

  /** In an intact chain the digests of an hour's records are all different. */
  lemma {:induction false} HourDiffers(t: TextHash, logs: seq<Log>, hour: int)
    requires ChainOk(t, logs) && NoCollision(t, HashedTexts(logs))
    ensures AllDifferent(HourHashes(logs, hour))
  {
    hide ChainOk, NoCollision, HashedTexts, FromHex, HourOf;
    if logs != [] {
      var n := |logs| - 1;
      ChainFront(t, logs, n);
      TextsOfFront(logs, n);
      FewerTexts(t, HashedTexts(logs), HashedTexts(logs[..n]));
      HourDiffers(t, logs[..n], hour);
      HashMember(logs[..n], hour, FromHex(logs[n].hash));
      if FromHex(logs[n].hash) in HourHashes(logs[..n], hour) {
        var i :| 0 <= i < n && FromHex(logs[..n][i].hash) == FromHex(logs[n].hash);
        SameDigest(t, logs, i, logs, n);
        HashesDiffer(t, logs, i, n);
      }
    }
  }

  /** In intact chains, equal digests are equal hashes. */
  lemma SameDigest(t: TextHash, a: seq<Log>, i: nat, b: seq<Log>, j: nat)
    requires ChainOk(t, a) && ChainOk(t, b) && i < |a| && j < |b| && FromHex(a[i].hash) == FromHex(b[j].hash)
    ensures a[i].hash == b[j].hash
  {
    hide ChainOk, Canon, FromHex, ToHex;
    LinkOf(t, a, i);
    LinkOf(t, b, j);
    HexRoundTrip(t(Canon(PrevOf(a, i), a[i])));
    HexRoundTrip(t(Canon(PrevOf(b, j), b[j])));
  }

  /** What an hourly checkpoint of the store says: the root of at least one record. */
  lemma SealedHour(s: Setup, evs: seq<Event>, h: Checkpoint)
    requires Clock(evs) && h in OfKind(Run(s, evs).cps, HOURLY)
    ensures var hashes := HourHashes(Run(s, evs).logs, h.bucketStart);
      0 < h.recordCount <= |hashes| && FromHex(h.root) == Root(s.c.node, hashes[..h.recordCount])
      && Leaves(hashes) && |FromHex(h.root)| == 32
  {
    hide Run, OfKind, HourHashes, Root, FromHex, ToHex, Stragglers, ChainOk, HoursInv, DaysInv, Leaves;
    var db := Run(s, evs);
    var t := ClockEnds(evs);
    RunKeeps(s, evs, t);
    HoursCounted(s, evs);
    assert HourFact(s.c, db.logs, h, Stragglers(s, evs, h.bucketStart));
    var hashes := HourHashes(db.logs, h.bucketStart);
    HourLeaves(s.c.text, db.logs, h.bucketStart);
    LeavesFront(hashes, h.recordCount);
    RootSize(s.c.node, hashes[..h.recordCount]);
    HexRoundTrip(Root(s.c.node, hashes[..h.recordCount]));
  }

  lemma LeavesFront(level: seq<Bytes>, n: nat)
    requires Leaves(level) && n <= |level|
    ensures Leaves(level[..n])
  {}

  /** The root of an hour in an accepted bundle is as long as a digest, or empty with the hour. */
  lemma AcceptedHour(c: Crypto, b: Bundle, pub: Option<PublicKey>, cp: Checkpoint)
    requires Good(c, b, pub) && !b.masked && cp in OfKind(b.checkpoints, HOURLY)
    ensures var hashes := HourHashes(b.logs, cp.bucketStart);
      FromHex(cp.root) == Root(c.node, hashes) && Leaves(hashes)
      && |FromHex(cp.root)| == if hashes == [] then 0 else 32
  {
    UnmaskedChain(c, b, pub);
    hide OfKind, HourHashes, Root, FromHex, ChainOk, RecordsGood, Linked, DayRootGood, StampGood, SignatureGood, Leaves;
    var hashes := HourHashes(b.logs, cp.bucketStart);
    HourLeaves(c.text, b.logs, cp.bucketStart);
    if hashes != [] { RootSize(c.node, hashes); } else { NoRoot(c.node); }
    assert HourGood(c, b.logs, cp);
  }

  lemma NoRoot(h: NodeHash)
    ensures Root(h, []) == []
  {}

  lemma {:induction false} AllWithin(cps: seq<Checkpoint>, from: int, to: int)
    requires forall h | h in cps && h.kind == HOURLY :: from <= h.bucketStart < to
    ensures HoursWithin(cps, from, to) == |OfKind(cps, HOURLY)|
  {
    if cps != [] {
      var n := |cps| - 1;
      assert cps == cps[..n] + [cps[n]];
      AllWithin(cps[..n], from, to);
    }
  }

  /** A signed day, and nothing but its hours. */
  ghost predicate SignedDay(b: Bundle, d: Checkpoint) {
    !b.masked && d in b.checkpoints && d.kind == DAILY && d.signature != ""
    && forall h | h in b.checkpoints && h.kind == HOURLY :: d.bucketStart <= h.bucketStart < d.bucketEnd
  }

  /** The hourly roots of an accepted signed day are those that were sealed. */
  lemma SignedRoots(s: Setup, evs: seq<Event>, b: Bundle, key: PublicKey, d: Checkpoint, inputs: set<Bytes>)
    returns (k: nat)
    requires Clock(evs) && s.tz % HOUR == 0 && Good(s.c, b, Some(key)) && OnlySealsSigned(s, Run(s, evs).cps, key)
    requires SignedDay(b, d) && Sound(s, Run(s, evs), b, inputs)
    ensures var cps := Run(s, evs).cps;
      k < |cps| && cps[k].kind == DAILY && d.root == cps[k].root
      && |OfKind(b.checkpoints, HOURLY)| == |HoursOf(cps[..k], cps[k].bucketStart)|
      && Roots(OfKind(b.checkpoints, HOURLY)) == SealedRoots(cps, k)
  {
    hide Run, Roots, HoursOf, Inputs, CollisionFree, Root, FromHex, ToHex, HoursAt, OnlySealsSigned, Good, Leaves,
         AtMostLeaves, OnlyLastHourLeft;
    var cps := Run(s, evs).cps;
    k := SignedDayIsSealed(s, cps, b, key, d);
    RunKeepsSeals(s, evs);
    assert SealOk(s, cps, k);
    AllWithin(b.checkpoints, d.bucketStart, d.bucketEnd);
    HoursAreThere(b.checkpoints, d.bucketStart, d.bucketEnd);
    SealedLeaves(s, evs, k);
    AcceptedLeaves(s.c, b, Some(key));
    DayRoot(s.c, b, Some(key), d);
    var sealed, shown := SealedRoots(cps, k), Roots(OfKind(b.checkpoints, HOURLY));
    HexRoundTrip(Root(s.c.node, sealed));
    Fewer(s.c.node, inputs, Inputs(s.c.node, sealed) + Inputs(s.c.node, shown));
    RootBinding(s.c.node, sealed, shown);
  }

  lemma DayRoot(c: Crypto, b: Bundle, pub: Option<PublicKey>, d: Checkpoint)
    requires Good(c, b, pub) && d in b.checkpoints && d.kind == DAILY
    ensures FromHex(d.root) == Root(c.node, Roots(OfKind(b.checkpoints, HOURLY)))
  {
    hide FromHex, Root, Roots, OfKind, RecordsGood, HourGood, Linked, StampGood, SignatureGood;
    assert d in OfKind(b.checkpoints, DAILY);
  }

  lemma SealedLeaves(s: Setup, evs: seq<Event>, k: nat)
    requires Clock(evs) && k < |Run(s, evs).cps|
    ensures Leaves(SealedRoots(Run(s, evs).cps, k))
  {
    hide Run, Roots, HoursOf, FromHex, OfKind, Ascending, Linked;
    var cps := Run(s, evs).cps;
    var hs := HoursOf(cps[..k], cps[k].bucketStart);
    LinearChains(s, evs);
    SealedHours(cps, k, cps[k].bucketStart);
    forall x | x in Roots(hs) ensures |x| == 32 {
      var i :| 0 <= i < |hs| && Roots(hs)[i] == x;
      RootAt(hs, i);
      assert hs[i] in hs;
      SealedHour(s, evs, hs[i]);
    }
  }

  lemma AcceptedLeaves(c: Crypto, b: Bundle, pub: Option<PublicKey>)
    requires Good(c, b, pub) && !b.masked
    ensures AtMostLeaves(Roots(OfKind(b.checkpoints, HOURLY)))
  {
    hide Roots, FromHex, OfKind, Good;
    var hs := OfKind(b.checkpoints, HOURLY);
    forall x | x in Roots(hs) ensures |x| <= 32 {
      var i :| 0 <= i < |hs| && Roots(hs)[i] == x;
      RootAt(hs, i);
      assert hs[i] in hs;
      AcceptedHour(c, b, pub, hs[i]);
    }
  }

  /** So hour by hour the bundle holds the digests that were sealed. */
  lemma SignedHours(s: Setup, evs: seq<Event>, b: Bundle, key: PublicKey, d: Checkpoint, inputs: set<Bytes>)
    returns (k: nat)
    requires Clock(evs) && s.tz % HOUR == 0 && Good(s.c, b, Some(key)) && OnlySealsSigned(s, Run(s, evs).cps, key)
    requires SignedDay(b, d) && Sound(s, Run(s, evs), b, inputs)
    ensures var db, shown := Run(s, evs), OfKind(b.checkpoints, HOURLY);
      k < |db.cps| && db.cps[k].kind == DAILY && d.root == db.cps[k].root
      && |shown| == |HoursOf(db.cps[..k], db.cps[k].bucketStart)|
      && forall i: nat | i < |shown| ::
           SameHour(db, b, HoursOf(db.cps[..k], db.cps[k].bucketStart)[i], shown[i].bucketStart)
  {
    hide Run, Roots, HoursOf, Root, FromHex, OfKind, Sound, Good, OnlySealsSigned, SignedDay, Ascending, Linked,
         SameHour;
    k := SignedRoots(s, evs, b, key, d, inputs);
    var db, shown := Run(s, evs), OfKind(b.checkpoints, HOURLY);
    var hs := HoursOf(db.cps[..k], db.cps[k].bucketStart);
    LinearChains(s, evs);
    SealedHours(db.cps, k, db.cps[k].bucketStart);
    Unmasked(b, d);
    forall i: nat | i < |shown| ensures SameHour(db, b, hs[i], shown[i].bucketStart) {
      RootAt(hs, i);
      RootAt(shown, i);
      assert hs[i] in hs && shown[i] in shown;
      SealedHour(s, evs, hs[i]);
      AcceptedHour(s.c, b, Some(key), shown[i]);
      UnmaskedChain(s.c, b, Some(key));
      OneHour(s, evs, b, hs[i], shown[i].bucketStart, inputs);
    }
  }

  lemma Unmasked(b: Bundle, d: Checkpoint)
    requires SignedDay(b, d)
    ensures !b.masked
  {}

  /** The bundle's records of `hour` have the digests that `h` covers. */
  ghost predicate SameHour(db: Db, b: Bundle, h: Checkpoint, hour: int) {
    h.recordCount <= |HourHashes(db.logs, h.bucketStart)| && 0 <= h.recordCount
    && HourHashes(b.logs, hour) == HourHashes(db.logs, h.bucketStart)[..h.recordCount]
  }

  lemma OneHour(s: Setup, evs: seq<Event>, b: Bundle, h: Checkpoint, hour: int, inputs: set<Bytes>)
    requires Clock(evs) && ChainOk(s.c.text, b.logs) && Sound(s, Run(s, evs), b, inputs)
    requires var hashes := HourHashes(Run(s, evs).logs, h.bucketStart);
      0 < h.recordCount <= |hashes| && Leaves(hashes)
      && Root(s.c.node, hashes[..h.recordCount]) == Root(s.c.node, HourHashes(b.logs, hour))
    requires HourHashes(b.logs, hour) != [] && Leaves(HourHashes(b.logs, hour))
    ensures SameHour(Run(s, evs), b, h, hour)
  {
    hide Run, Root, FromHex, OfKind, HourHashes, ChainOk, HoursInv, DaysInv, NoCollision, HashedTexts, AllDifferent,
         Leaves, Inputs, CollisionFree, Fresh, SealedRoots, Roots, LogChain.Distinct;
    var db := Run(s, evs);
    var t := ClockEnds(evs);
    RunKeeps(s, evs, t);
    var covered, shown := HourHashes(db.logs, h.bucketStart)[..h.recordCount], HourHashes(b.logs, hour);
    FewerTexts(s.c.text, HashedTexts(b.logs) + HashedTexts(db.logs), HashedTexts(b.logs));
    FewerTexts(s.c.text, HashedTexts(b.logs) + HashedTexts(db.logs), HashedTexts(db.logs));
    HourDiffers(s.c.text, b.logs, hour);
    HourDiffers(s.c.text, db.logs, h.bucketStart);
    DifferentFront(HourHashes(db.logs, h.bucketStart), h.recordCount);
    LeavesFront(HourHashes(db.logs, h.bucketStart), h.recordCount);
    FreshHour(s, db.logs, h.bucketStart, covered[0], inputs);
    FreshHour(s, b.logs, hour, shown[0], inputs);
    RootFixesList(s.c.node, covered, shown, inputs);
  }

  lemma DifferentFront(level: seq<Bytes>, n: nat)
    requires AllDifferent(level) && n <= |level|
    ensures AllDifferent(level[..n])
  {}

  lemma FreshHour(s: Setup, logs: seq<Log>, hour: int, x: Bytes, inputs: set<Bytes>)
    requires x in HourHashes(logs, hour) && forall l | l in logs :: Fresh(s.c.node, inputs, FromHex(l.hash))
    ensures Fresh(s.c.node, inputs, x)
  {
    hide Fresh, FromHex, HourHashes, HourOf;
    HashMember(logs, hour, x);
    var i :| 0 <= i < |logs| && FromHex(logs[i].hash) == x;
    assert logs[i] in logs;
  }

  /** Every record that an accepted signed day shows in one of its hours was logged, at the same place and after
      the same records. */
  lemma SignedRecordsWereLogged(s: Setup, evs: seq<Event>, b: Bundle, key: PublicKey, d: Checkpoint,
                                inputs: set<Bytes>, p: nat)
    requires Clock(evs) && s.tz % HOUR == 0 && Good(s.c, b, Some(key)) && OnlySealsSigned(s, Run(s, evs).cps, key)
    requires SignedDay(b, d) && Sound(s, Run(s, evs), b, inputs) && p < |b.logs|
    requires exists cp | cp in OfKind(b.checkpoints, HOURLY) :: cp.bucketStart == HourOf(b.logs[p].ts)
    ensures var logs := Run(s, evs).logs; p < |logs| && SameLogs(b.logs[..p + 1], logs[..p + 1])
  {
    hide Run, Roots, HoursOf, Root, FromHex, OfKind, Good, OnlySealsSigned, SignedDay, HourHashes, HourOf, ChainOk,
         HoursInv, DaysInv, NoCollision, HashedTexts, CollisionFree, Inputs, Fresh, LogChain.Distinct, SameLogs;
    var k := SignedHours(s, evs, b, key, d, inputs);
    var db, shown, x := Run(s, evs), OfKind(b.checkpoints, HOURLY), FromHex(b.logs[p].hash);
    var hs := HoursOf(db.cps[..k], db.cps[k].bucketStart);
    var i: nat :| i < |shown| && shown[i].bucketStart == HourOf(b.logs[p].ts);
    assert SameHour(db, b, hs[i], shown[i].bucketStart);
    HashMember(b.logs, shown[i].bucketStart, x);
    assert x in HourHashes(db.logs, hs[i].bucketStart);
    HashMember(db.logs, hs[i].bucketStart, x);
    var q: nat :| q < |db.logs| && FromHex(db.logs[q].hash) == x;
    var t := ClockEnds(evs);
    RunKeeps(s, evs, t);
    Unmasked(b, d);
    UnmaskedChain(s.c, b, Some(key));
    SameDigest(s.c.text, b.logs, p, db.logs, q);
    ChainsAgree(s.c.text, b.logs, db.logs, p, q);
  }
}
