/** The hour that comes after its day's seal, and runs in which nothing comes late. */
module LateHours {
  import opened Wrappers
  import opened Merkle
  import opened LogChain
  import opened Evidence
  import opened Sealer
  import opened SealChains
  import opened SealedDay

  // ----- the seal that came too early -----

  ghost predicate AlignedHours(cps: seq<Checkpoint>) {
    forall i | 0 <= i < |cps| && cps[i].kind == HOURLY :: cps[i].bucketStart % HOUR == 0
  }

  /** From `k` on, no hour of the day but the one at `j`. */
  ghost predicate NoneElse(cps: seq<Checkpoint>, day: int, k: nat, j: nat) {
    forall i | k <= i < |cps| && cps[i].kind == HOURLY && i != j :: !(day <= cps[i].bucketStart < day + DAY)
  }

  /** A late hour is the last of its day and the only one, so the day's hours grow by exactly it. */
  lemma HoursGrewByOne(cps: seq<Checkpoint>, day: int, k: nat, j: nat)
    requires Ascending(OfKind(cps, HOURLY)) && OnePerBucket(cps) && k < j < |cps|
    requires cps[k].kind == DAILY && cps[k].bucketStart == day && OnlyLastHourLeft(cps, k)
    requires cps[j].kind == HOURLY && cps[j].bucketStart < day + DAY
    requires day % HOUR == 0 && AlignedHours(cps)
    ensures HoursOf(cps, day) == HoursOf(cps[..k], day) + [cps[j]]
  {
    hide Between, OfKind, Within, Ascending, OnePerBucket, OnlyLastHourLeft, AlignedHours, NoneElse;
    OthersOutside(cps, day, k, j);
    LastHourLeft(cps, k, j);
    HoursBetween(cps, day, day + DAY);
    FrontAscends(cps, k);
    HoursBetween(cps[..k], day, day + DAY);
    HoursAround(cps, day, k, j);
  }

  lemma OthersOutside(cps: seq<Checkpoint>, day: int, k: nat, j: nat)
    requires OnePerBucket(cps) && k < j < |cps|
    requires cps[k].kind == DAILY && cps[k].bucketStart == day && OnlyLastHourLeft(cps, k)
    requires cps[j].kind == HOURLY && cps[j].bucketStart < day + DAY
    requires day % HOUR == 0 && AlignedHours(cps)
    ensures NoneElse(cps, day, k, j)
  {
    hide OnePerBucket, OnlyLastHourLeft;
    forall i | k <= i < |cps| && cps[i].kind == HOURLY && i != j ensures !(day <= cps[i].bucketStart < day + DAY) {
      OnlyOneHourLeft(cps, day, k, i, j);
    }
  }

  lemma LastHourLeft(cps: seq<Checkpoint>, k: nat, j: nat)
    requires k < j < |cps| && OnlyLastHourLeft(cps, k) && cps[j].kind == HOURLY
    ensures cps[j].bucketStart >= cps[k].bucketStart + DAY - HOUR
  {}

  lemma NoneAround(cps: seq<Checkpoint>, day: int, k: nat, j: nat)
    requires k < j < |cps| && NoneElse(cps, day, k, j)
    ensures NoHoursFrom(cps, j + 1, day) && NoHoursFrom(cps[..j], k, day)
  {}

  lemma HoursAround(cps: seq<Checkpoint>, day: int, k: nat, j: nat)
    requires k < j < |cps| && cps[j].kind == HOURLY && day <= cps[j].bucketStart < day + DAY
    requires NoneElse(cps, day, k, j)
    ensures Within(OfKind(cps, HOURLY), day, day + DAY) == Within(OfKind(cps[..k], HOURLY), day, day + DAY) + [cps[j]]
  {
    hide OfKind, Within, NoneElse, NoHoursFrom;
    NoneAround(cps, day, k, j);
    var upTo, with := cps[..j], cps[..j + 1];
    HoursSince(cps, j + 1, day);
    assert with == upTo + [cps[j]];
    OfKindAppend(upTo, cps[j], HOURLY);
    WithinAppend(OfKind(upTo, HOURLY), cps[j], day, day + DAY);
    HoursSince(upTo, k, day);
    assert upTo[..k] == cps[..k];
  }

  lemma OnlyOneHourLeft(cps: seq<Checkpoint>, day: int, k: nat, i: nat, j: nat)
    requires OnePerBucket(cps) && k <= i < |cps| && k < j < |cps| && i != j && OnlyLastHourLeft(cps, k)
    requires cps[k].kind == DAILY && cps[k].bucketStart == day && day % HOUR == 0
    requires cps[i].kind == HOURLY && cps[i].bucketStart % HOUR == 0
    requires cps[j].kind == HOURLY && cps[j].bucketStart % HOUR == 0 && cps[j].bucketStart < day + DAY
    ensures !(day <= cps[i].bucketStart < day + DAY)
  {
    assert i != k;
  }

  lemma SealInBundle(db: Db, day: int, k: nat)
    requires k < |db.cps| && db.cps[k].kind == DAILY && db.cps[k].bucketStart == day
    ensures db.cps[k] in OfKind(DayBundle(db, day).checkpoints, DAILY)
  {
    BetweenMembers(db.cps, day, day + DAY);
  }

  lemma HoursAligned(cps: seq<Checkpoint>, t: int)
    requires HoursInv(cps, t)
    ensures AlignedHours(cps) && Ascending(OfKind(cps, HOURLY))
  {
    hide Linked, Ascending;
    forall i | 0 <= i < |cps| && cps[i].kind == HOURLY ensures cps[i].bucketStart % HOUR == 0 {
      assert cps[i] in OfKind(cps, HOURLY);
      assert HourShape(cps[i], t);
    }
  }

  lemma RootsAppend(hs: seq<Checkpoint>, cp: Checkpoint)
    ensures Roots(hs + [cp]) == Roots(hs) + [FromHex(cp.root)]
  {
    hide FromHex;
    assert (hs + [cp])[..|hs|] == hs;
  }

  // ----- what is hashed, and what that must not do -----

  /** The digests of the records a checkpoint covers. */
  function Covered(logs: seq<Log>, h: Checkpoint): seq<Bytes> {
    var hashes := HourHashes(logs, h.bucketStart);
    if 0 <= h.recordCount <= |hashes| then hashes[..h.recordCount] else hashes
  }

  ghost function HourInputs(c: Crypto, db: Db, day: int): set<Bytes> {
    set h, w | h in HoursOf(db.cps, day) && w in Inputs(c.node, Covered(db.logs, h)) :: w
  }

  ghost function DayInputs(c: Crypto, cps: seq<Checkpoint>, day: int): set<Bytes> {
    set k, w | 0 <= k <= |cps| && w in Inputs(c.node, Roots(HoursOf(cps[..k], day))) :: w
  }

  /** The strings hashed for the hourly and daily roots of a day. */
  ghost function TreeInputs(c: Crypto, db: Db, day: int): set<Bytes> {
    HourInputs(c, db, day) + DayInputs(c, db.cps, day)
  }

  /** No two of the texts hashed collide, no two of the nodes, and no text with a node. */
  ghost predicate NothingCollides(c: Crypto, db: Db, day: int) {
    NoCollision(c.text, HashedTexts(db.logs)) && CollisionFree(c.node, TreeInputs(c, db, day))
    && forall x, w | x in HashedTexts(db.logs) && w in TreeInputs(c, db, day) :: c.text(x) != c.node(w)
  }

  lemma HourIsHashed(c: Crypto, db: Db, day: int, h: Checkpoint)
    requires h in HoursOf(db.cps, day)
    ensures Inputs(c.node, Covered(db.logs, h)) <= TreeInputs(c, db, day)
  {
    hide Covered, HoursOf, Inputs;
    forall w | w in Inputs(c.node, Covered(db.logs, h)) ensures w in HourInputs(c, db, day) {}
  }

  lemma DayIsHashed(c: Crypto, db: Db, day: int, k: nat)
    requires k <= |db.cps|
    ensures Inputs(c.node, Roots(HoursOf(db.cps[..k], day))) <= TreeInputs(c, db, day)
  {
    hide HoursOf, Inputs, Roots;
    forall w | w in Inputs(c.node, Roots(HoursOf(db.cps[..k], day))) ensures w in DayInputs(c, db.cps, day) {}
  }

  /** The first digest of an hour is that of one of its records. */
  lemma {:induction false} FirstOfHour(t: TextHash, logs: seq<Log>, hour: int) returns (i: nat)
    requires ChainOk(t, logs) && HourHashes(logs, hour) != []
    ensures i < |logs| && HourOf(logs[i].ts) == hour && HourHashes(logs, hour)[0] == t(TextAt(logs, i))
  {
    hide ChainOk, Canon, ToHex, FromHex, PrevOf;
    var n := |logs| - 1;
    if HourHashes(logs[..n], hour) == [] {
      i := n;
      LinkOf(t, logs, n);
      HexRoundTrip(t(Canon(PrevOf(logs, n), logs[n])));
    } else {
      ChainFront(t, logs, n);
      i := FirstOfHour(t, logs[..n], hour);
      SameTextAt(logs, n, i);
    }
  }

  lemma SameTextAt(logs: seq<Log>, n: nat, i: nat)
    requires i < n <= |logs|
    ensures TextAt(logs[..n], i) == TextAt(logs, i)
  {
    hide Canon;
    assert PrevOf(logs[..n], i) == PrevOf(logs, i);
  }

  lemma CoveredLeaves(t: TextHash, c: Crypto, logs: seq<Log>, h: Checkpoint, late: nat)
    requires ChainOk(t, logs) && HourFact(c, logs, h, late)
    ensures var covered := Covered(logs, h);
      covered != [] && Leaves(covered) && covered[0] == HourHashes(logs, h.bucketStart)[0]
        && FromHex(h.root) == Root(c.node, covered)
  {
    hide HourHashes, Root, ToHex, FromHex, ChainOk;
    HourLeaves(t, logs, h.bucketStart);
    HexRoundTrip(Root(c.node, Covered(logs, h)));
  }

  lemma TextsDiffer(t: TextHash, logs: seq<Log>, i: nat, j: nat)
    requires ChainOk(t, logs) && NoCollision(t, HashedTexts(logs)) && i < |logs| && j < |logs| && i != j
    ensures t(TextAt(logs, i)) != t(TextAt(logs, j))
  {
    hide ChainOk, NoCollision, HashedTexts, Canon, PrevOf, ToHex;
    LinkOf(t, logs, i);
    LinkOf(t, logs, j);
    if t(TextAt(logs, i)) == t(TextAt(logs, j)) { HashesDiffer(t, logs, i, j); }
  }

  /** The digest of a hashed text is not that of a node. */
  lemma TextIsFresh(c: Crypto, db: Db, day: int, i: nat)
    requires NothingCollides(c, db, day) && i < |db.logs|
    ensures Fresh(c.node, TreeInputs(c, db, day), c.text(TextAt(db.logs, i)))
  {
    hide TextAt, TreeInputs, CollisionFree, NoCollision;
    assert TextAt(db.logs, i) in HashedTexts(db.logs);
  }

  lemma NoTwoCollide(c: Crypto, db: Db, day: int)
    requires NothingCollides(c, db, day)
    ensures NoCollision(c.text, HashedTexts(db.logs)) && CollisionFree(c.node, TreeInputs(c, db, day))
  {}

  /** Two hours of a day never have the same root. */
  lemma HourRootsDiffer(c: Crypto, db: Db, day: int, g: Checkpoint, h: Checkpoint, m: nat, n: nat)
    requires ChainOk(c.text, db.logs) && NothingCollides(c, db, day) && g.bucketStart != h.bucketStart
    requires g in HoursOf(db.cps, day) && h in HoursOf(db.cps, day)
    requires HourFact(c, db.logs, g, m) && HourFact(c, db.logs, h, n)
    ensures FromHex(g.root) != FromHex(h.root)
  {
    var i := FirstOfHour(c.text, db.logs, g.bucketStart);
    var j := FirstOfHour(c.text, db.logs, h.bucketStart);
    hide ChainOk, HourOf, NoCollision, CollisionFree, HashedTexts, TextAt, Covered, HourHashes, Root, FromHex, HourFact,
         TreeInputs, NothingCollides, Inputs, Leaves, Fresh, HoursOf;
    NoTwoCollide(c, db, day);
    TextsDiffer(c.text, db.logs, i, j);
    CoveredLeaves(c.text, c, db.logs, g, m);
    CoveredLeaves(c.text, c, db.logs, h, n);
    HourIsHashed(c, db, day, g);
    HourIsHashed(c, db, day, h);
    TextIsFresh(c, db, day, i);
    TextIsFresh(c, db, day, j);
    DifferentRoots(c.node, Covered(db.logs, g), Covered(db.logs, h), TreeInputs(c, db, day));
  }

  // ----- the late hour -----

  /** The day's hours all have their counts. */
  ghost predicate AllCovered(s: Setup, evs: seq<Event>, hs: seq<Checkpoint>) {
    forall h | h in hs :: HourFact(s.c, Run(s, evs).logs, h, Stragglers(s, evs, h.bucketStart))
  }

  lemma DayCovered(s: Setup, evs: seq<Event>, day: int)
    ensures AllCovered(s, evs, HoursOf(Run(s, evs).cps, day))
  {
    hide Run, HourFact, Stragglers, Between;
    HoursCounted(s, evs);
    var cps := Run(s, evs).cps;
    BetweenMembers(cps, day, day + DAY);
    forall h | h in HoursOf(cps, day) ensures h in OfKind(cps, HOURLY) { assert h in Between(cps, day, day + DAY); }
  }

  lemma {:induction false} RootsAreLeaves(s: Setup, evs: seq<Event>, hs: seq<Checkpoint>)
    requires ChainOk(s.c.text, Run(s, evs).logs) && AllCovered(s, evs, hs)
    ensures Leaves(Roots(hs))
  {
    hide ChainOk, HourHashes, ToHex, FromHex, Root, Run, HourFact, Stragglers, Covered;
    if hs != [] {
      var n := |hs| - 1;
      var logs := Run(s, evs).logs;
      assert hs == hs[..n] + [hs[n]];
      RootsAreLeaves(s, evs, hs[..n]);
      CoveredLeaves(s.c.text, s.c, logs, hs[n], Stragglers(s, evs, hs[n].bucketStart));
      RootSize(s.c.node, Covered(logs, hs[n]));
    }
  }

  lemma {:induction false} RootIn(hs: seq<Checkpoint>, y: Bytes) returns (h: Checkpoint)
    requires y in Roots(hs)
    ensures h in hs && FromHex(h.root) == y
  {
    hide FromHex;
    var n := |hs| - 1;
    if FromHex(hs[n].root) == y { h := hs[n]; } else { h := RootIn(hs[..n], y); }
  }

  lemma NewRoot(s: Setup, evs: seq<Event>, day: int, hours: seq<Checkpoint>, late: Checkpoint)
    requires ChainOk(s.c.text, Run(s, evs).logs) && NothingCollides(s.c, Run(s, evs), day)
    requires HoursOf(Run(s, evs).cps, day) == hours + [late] && AllCovered(s, evs, hours + [late])
    requires forall h | h in hours :: h.bucketStart != late.bucketStart
    ensures FromHex(late.root) !in Roots(hours)
  {
    hide ChainOk, NothingCollides, HourFact, Stragglers, Run, FromHex, Roots, HoursOf;
    if FromHex(late.root) in Roots(hours) {
      var h := RootIn(hours, FromHex(late.root));
      assert h in hours + [late] && late in hours + [late];
      HourRootsDiffer(s.c, Run(s, evs), day, h, late, Stragglers(s, evs, h.bucketStart),
        Stragglers(s, evs, late.bucketStart));
    }
  }

  /** The seal's root is not hashed from itself. */
  lemma SealDoesNotLoop(s: Setup, evs: seq<Event>, day: int, hours: seq<Checkpoint>, k: nat)
    requires ChainOk(s.c.text, Run(s, evs).logs) && NothingCollides(s.c, Run(s, evs), day)
    requires k <= |Run(s, evs).cps| && hours == HoursOf(Run(s, evs).cps[..k], day) && hours != []
    requires hours[0] in HoursOf(Run(s, evs).cps, day) && AllCovered(s, evs, hours)
    ensures NoLoop(s.c.node, TreeInputs(s.c, Run(s, evs), day), Root(s.c.node, Roots(hours)))
  {
    var db, h := Run(s, evs), hours[0];
    var n := Stragglers(s, evs, h.bucketStart);
    FirstRoot(hours);
    assert h in hours && HourFact(s.c, db.logs, h, n);
    RootsAreLeaves(s, evs, hours);
    CoveredLeaves(s.c.text, s.c, db.logs, h, n);
    var i := FirstOfHour(s.c.text, db.logs, h.bucketStart);
    NoTwoCollide(s.c, db, day);
    TextIsFresh(s.c, db, day, i);
    HourIsHashed(s.c, db, day, h);
    DayIsHashed(s.c, db, day, k);
    hide ChainOk, NothingCollides, HourFact, Stragglers, Run, FromHex, Roots, HoursOf, Root, Inputs, TreeInputs,
         Covered, HourHashes, TextAt, Fresh, CollisionFree, NoLoop, Leaves, HashedTexts, NoCollision;
    NoLoopOverTrees(s.c.node, TreeInputs(s.c, db, day), Covered(db.logs, h), Roots(hours));
  }

  lemma {:induction false} FirstRoot(hs: seq<Checkpoint>)
    requires hs != []
    ensures Roots(hs)[0] == FromHex(hs[0].root)
  {
    hide FromHex;
    if |hs| > 1 { FirstRoot(hs[..|hs| - 1]); }
  }

  lemma SealedRootsDiffer(h: NodeHash, sealed: seq<Bytes>, y: Bytes, inputs: set<Bytes>)
    requires sealed != [] && Leaves(sealed + [y]) && y !in sealed
    requires Inputs(h, sealed) <= inputs && Inputs(h, sealed + [y]) <= inputs
    requires CollisionFree(h, inputs) && NoLoop(h, inputs, Root(h, sealed))
    ensures Root(h, sealed) != Root(h, sealed + [y])
  {
    hide CollisionFree, NoLoop, Inputs, Root;
    assert y in sealed + [y];
    assert forall x | x in sealed :: x in sealed + [y];
    Fewer(h, inputs, Inputs(h, sealed) + Inputs(h, sealed + [y]));
    NoLoopSub(h, inputs, Inputs(h, sealed + [y]), Root(h, sealed));
    GrownRoot(h, sealed, y);
  }

  lemma SealedBefore(cps: seq<Checkpoint>, day: int, k: nat, j: nat, h: Checkpoint)
    requires OnePerBucket(cps) && LateAt(cps, day, k, j) && h in HoursOf(cps[..k], day)
    ensures h.bucketStart != cps[j].bucketStart
  {
    hide Between;
    BetweenMembers(cps[..k], day, day + DAY);
    assert h in Between(cps[..k], day, day + DAY);
    var i :| 0 <= i < k && cps[i] == h;
  }

  lemma LateRootDiffers(s: Setup, evs: seq<Event>, t: int, day: int, k: nat, j: nat)
    requires SealerState(s, Run(s, evs), t, day) && OnePerBucket(Run(s, evs).cps) && LateAt(Run(s, evs).cps, day, k, j)
    requires NothingCollides(s.c, Run(s, evs), day)
    ensures !DayRootGood(s.c, DayBundle(Run(s, evs), day).checkpoints, Run(s, evs).cps[k])
  {
    hide Run, Between, OfKind, HourFact, Linked, Ascending, OnlyLastHourLeft, DaysInv, HoursInv, HoursOf, OnePerBucket,
         Fresh, FromHex, ToHex, CollisionFree, NoLoop, Inputs, Root, LogsIn, Signed, Leaves, Roots, AlignedHours,
         TreeInputs, ChainOk, NothingCollides, AllCovered, Stragglers;
    var db := Run(s, evs);
    HoursAligned(db.cps, t);
    assert SealOk(s, db.cps, k);
    HoursGrewByOne(db.cps, day, k, j);
    var hours, late := HoursOf(db.cps[..k], day), db.cps[j];
    forall h | h in hours ensures h.bucketStart != late.bucketStart { SealedBefore(db.cps, day, k, j, h); }
    DayCovered(s, evs, day);
    AllCoveredFront(s, evs, hours, late);
    RootsAreLeaves(s, evs, hours + [late]);
    NewRoot(s, evs, day, hours, late);
    SealDoesNotLoop(s, evs, day, hours, k);
    DayIsHashed(s.c, db, day, k);
    DayIsHashed(s.c, db, day, |db.cps|);
    assert db.cps[..|db.cps|] == db.cps;
    RootsAppend(hours, late);
    NoTwoCollide(s.c, db, day);
    SealedRootsDiffer(s.c.node, Roots(hours), FromHex(late.root), TreeInputs(s.c, db, day));
    HexRoundTrip(Root(s.c.node, Roots(hours)));
    BundleHours(db, day);
  }

  lemma AllCoveredFront(s: Setup, evs: seq<Event>, hours: seq<Checkpoint>, late: Checkpoint)
    requires AllCovered(s, evs, hours + [late])
    ensures AllCovered(s, evs, hours)
  {
    hide HourFact, Stragglers, Run;
    assert forall h | h in hours :: h in hours + [late];
  }

  lemma BundleHours(db: Db, day: int)
    ensures OfKind(DayBundle(db, day).checkpoints, HOURLY) == HoursOf(db.cps, day)
  {}

  /** An hour checkpointed after its day's seal makes the bundle fail, unless something collides. */
  lemma LateHourRejected(s: Setup, evs: seq<Event>, day: int, pub: Option<PublicKey>)
    requires Clock(evs) && Aligned(s, day) && Late(Run(s, evs).cps, day) && NothingCollides(s.c, Run(s, evs), day)
    ensures !Good(s.c, DayBundle(Run(s, evs), day), pub)
  {
    hide Run, Clock, NothingCollides, DayBundle, SealerState, OnePerBucket, RecordsGood, HourGood, Linked, StampGood,
         SignatureGood, DayRootGood, OfKind, Aligned;
    var t := Reached(s, evs, day);
    AtMostOne(s, evs);
    var cps := Run(s, evs).cps;
    var k, j :| LateAt(cps, day, k, j);
    LateRootDiffers(s, evs, t, day, k, j);
    SealInBundle(Run(s, evs), day, k);
  }

  /** Exactly the days in order are accepted, unless something collides. */
  lemma AcceptedExactlyWhen(s: Setup, evs: seq<Event>, day: int, pub: Option<PublicKey>)
    requires Clock(evs) && Aligned(s, day) && Honest(s, pub) && NothingCollides(s.c, Run(s, evs), day)
    ensures Good(s.c, DayBundle(Run(s, evs), day), pub) <==> InOrder(s, evs, day)
  {
    hide Run, Clock, Aligned, Honest, Front, FirstHours, Punctual, Late, Good, DayBundle;
    NoTwoCollide(s.c, Run(s, evs), day);
    hide NothingCollides, NoCollision, HashedTexts;
    if InOrder(s, evs, day) {
      SealedDayAccepted(s, evs, day, pub);
    } else if Late(Run(s, evs).cps, day) {
      LateHourRejected(s, evs, day, pub);
    } else {
      DisorderRejected(s, evs, day, pub);
    }
  }

  // ----- no failing hour, no late hour -----

  /** When the seal at `k` was written, the last hour of its day was checkpointed or had no records, and
      it has none since. */
  ghost predicate Complete(logs: seq<Log>, cps: seq<Checkpoint>, k: nat)
    requires k < |cps|
  {
    cps[k].kind == DAILY ==>
      Exists(cps[..k], HOURLY, cps[k].bucketStart + DAY - HOUR)
        || HourHashes(logs, cps[k].bucketStart + DAY - HOUR) == []
  }

  ghost predicate AllComplete(logs: seq<Log>, cps: seq<Checkpoint>) {
    forall k | 0 <= k < |cps| :: Complete(logs, cps, k)
  }

  lemma CompleteGrows(logs: seq<Log>, cps: seq<Checkpoint>, cp: Checkpoint)
    requires AllComplete(logs, cps)
    requires cp.kind == DAILY ==>
      Exists(cps, HOURLY, cp.bucketStart + DAY - HOUR) || HourHashes(logs, cp.bucketStart + DAY - HOUR) == []
    ensures AllComplete(logs, cps + [cp])
  {
    hide Exists, HourHashes;
    var after := cps + [cp];
    forall k | 0 <= k < |after| ensures Complete(logs, after, k) {
      if k < |cps| { assert after[..k] == cps[..k] && Complete(logs, cps, k); }
      else { assert after[..k] == cps; }
    }
  }

  lemma HourlyCovers(c: Crypto, db: Db, start: int)
    requires start % HOUR == 0
    ensures var after := Hourly(c, db, start); Exists(after.cps, HOURLY, start) || HourHashes(after.logs, start) == []
  {
    HourIsRange(db.logs, start);
    HourKind(c, db, start);
    hide HourCheckpoint, LogsIn, HourHashes;
    var after := Hourly(c, db, start);
    if after != db {
      assert after.cps[|db.cps|].kind == HOURLY && after.cps[|db.cps|].bucketStart == start;
    } else if !Exists(db.cps, HOURLY, start) {
      assert |db.cps + [HourCheckpoint(c, db, start)]| == |db.cps| + 1;
    }
  }

  lemma SealHour(s: Setup, now: int)
    requires SealTime(s, now) && s.tz % HOUR == 0
    ensures HourOf(now) - HOUR == Midnight(s, now) - DAY + DAY - HOUR
  {}

  lemma TickKeepsComplete(s: Setup, db: Db, now: int, dailyFails: bool, tsaFails: bool)
    requires AllComplete(db.logs, db.cps) && s.tz % HOUR == 0
    ensures var after := Ticked(s, db, now, false, dailyFails, tsaFails); AllComplete(after.logs, after.cps)
  {
    hide AllComplete, HourCheckpoint, DayCheckpoint, LogsIn, HourHashes, HoursOf, Midnight, Exists;
    var start, day := HourOf(now) - HOUR, Midnight(s, now) - DAY;
    var db1 := Hourly(s.c, db, start);
    HourKind(s.c, db, start);
    CompleteGrows(db.logs, db.cps, HourCheckpoint(s.c, db, start));
    assert AllComplete(db1.logs, db1.cps);
    if SealTime(s, now) {
      SealHour(s, now);
      HourlyCovers(s.c, db, start);
      DayKind(s, db1, day, now, tsaFails);
      CompleteGrows(db1.logs, db1.cps, DayCheckpoint(s, db1, day, now, tsaFails));
    }
  }

  lemma AppendKeepsComplete(s: Setup, db: Db, t: int, rec: Log)
    requires AllComplete(db.logs, db.cps) && DaysInv(s, db.cps, t) && s.tz % HOUR == 0 && t < HourOf(rec.ts) + HOUR
    ensures AllComplete(Appended(s.c, db, rec).logs, db.cps)
  {
    hide ComplianceHash, FromHex, Linked, Ascending, Exists;
    var a, b := db.logs, Appended(s.c, db, rec).logs;
    assert b[..|a|] == a;
    forall k | 0 <= k < |db.cps| ensures Complete(b, db.cps, k) {
      assert Complete(a, db.cps, k);
      if db.cps[k].kind == DAILY {
        assert db.cps[k] in OfKind(db.cps, DAILY);
        AlignedDay(s, db.cps[k].bucketStart);
        assert HourOf(rec.ts) >= db.cps[k].bucketStart + DAY;
      }
    }
  }

  /** Every record arrives before the first tick of a later hour than the one it is stamped with. */
  ghost predicate Prompt(evs: seq<Event>) {
    forall i, j | 0 <= i < j < |evs| && evs[i].Ticking? && evs[j].Append? :: HourOf(evs[i].now) <= HourOf(evs[j].rec.ts)
  }

  ghost predicate NoHourFails(evs: seq<Event>) { forall e | e in evs && e.Ticking? :: !e.hourlyFails }

  lemma PromptInit(evs: seq<Event>)
    requires Prompt(evs) && evs != []
    ensures var n := |evs| - 1;
      Prompt(evs[..n]) && (evs[n].Append? ==> Until(evs[..n], HourOf(evs[n].rec.ts) + HOUR - 1))
  {}

  lemma NoHourFailsInit(evs: seq<Event>)
    requires NoHourFails(evs) && evs != []
    ensures var n := |evs| - 1; NoHourFails(evs[..n]) && (evs[n].Ticking? ==> !evs[n].hourlyFails)
  {
    assert evs == evs[..|evs| - 1] + [evs[|evs| - 1]];
  }

  lemma {:induction false} RunKeepsComplete(s: Setup, evs: seq<Event>)
    requires Clock(evs) && Prompt(evs) && NoHourFails(evs) && s.tz % HOUR == 0
    ensures AllComplete(Run(s, evs).logs, Run(s, evs).cps)
  {
    if evs != [] {
      var n := |evs| - 1;
      var e, init := evs[n], evs[..n];
      ClockInit(evs);
      PromptInit(evs);
      NoHourFailsInit(evs);
      hide Clock, DaysInv, Ticked, AllComplete, Appended, Prompt, NoHourFails, Until, HourOf;
      RunKeepsComplete(s, init);
      match e {
        case Append(rec) =>
          RunDays(s, init, HourOf(rec.ts) + HOUR - 1);
          AppendKeepsComplete(s, Run(s, init), HourOf(rec.ts) + HOUR - 1, rec);
          AppendKeepsCps(s.c, Run(s, init), rec);
        case Ticking(now, hourlyFails, dailyFails, tsaFails) =>
          TickKeepsComplete(s, Run(s, init), now, dailyFails, tsaFails);
      }
    }
  }

  /** If no hourly step fails and records arrive promptly, no hour is ever late: at 00:05 the last hour of
      the day is already there. */
  lemma PromptNoLateHour(s: Setup, evs: seq<Event>, day: int)
    requires Clock(evs) && Prompt(evs) && NoHourFails(evs) && Aligned(s, day)
    ensures !Late(Run(s, evs).cps, day)
  {
    hide Run, Clock, Prompt, NoHourFails, OnePerBucket, SealerState;
    RunKeepsComplete(s, evs);
    var t := Reached(s, evs, day);
    AtMostOne(s, evs);
    var db := Run(s, evs);
    if Late(db.cps, day) {
      var k, j :| LateAt(db.cps, day, k, j);
      DayCovered(s, evs, day);
      LateIsNew(s, evs, t, day, k, j);
    }
  }

  lemma LateIsNew(s: Setup, evs: seq<Event>, t: int, day: int, k: nat, j: nat)
    requires SealerState(s, Run(s, evs), t, day) && OnePerBucket(Run(s, evs).cps) && LateAt(Run(s, evs).cps, day, k, j)
    ensures !Complete(Run(s, evs).logs, Run(s, evs).cps, k)
  {
    hide MadeFrom, ChainOk, DaysInv, HourHashes, Root, ToHex, OfKind, Run, Stragglers;
    HoursCounted(s, evs);
    var db := Run(s, evs);
    HoursAligned(db.cps, t);
    assert SealOk(s, db.cps, k);
    assert db.cps[j].bucketStart == day + DAY - HOUR;
    assert db.cps[j] in OfKind(db.cps, HOURLY);
    assert HourFact(s.c, db.logs, db.cps[j], Stragglers(s, evs, db.cps[j].bucketStart));
    forall i | 0 <= i < k ensures db.cps[..k][i].kind != HOURLY || db.cps[..k][i].bucketStart != day + DAY - HOUR {
      assert db.cps[..k][i] == db.cps[i];
    }
  }

  lemma NotYetThere(s: Setup, evs: seq<Event>, hour: int)
    requires Clock(evs) && Until(evs, hour + HOUR - 1)
    ensures !Exists(Run(s, evs).cps, HOURLY, hour)
  {
    hide Run, Exists;
    RunKeeps(s, evs, hour + HOUR - 1);
    NotThere(Run(s, evs).cps, HOURLY, hour);
    forall h | h in OfKind(Run(s, evs).cps, HOURLY) ensures h.bucketStart != hour {
      assert HourShape(h, hour + HOUR - 1);
    }
  }

  /** Nobody straggles in a prompt run. */
  lemma {:induction false} PromptIsPunctual(s: Setup, evs: seq<Event>, hour: int)
    requires Clock(evs) && Prompt(evs)
    ensures Stragglers(s, evs, hour) == 0
  {
    if evs != [] {
      var n := |evs| - 1;
      var e, init := evs[n], evs[..n];
      ClockInit(evs);
      PromptInit(evs);
      hide Clock, Prompt, Until, Run;
      PromptIsPunctual(s, init, hour);
      if e.Append? && HourOf(e.rec.ts) == hour { NotYetThere(s, init, hour); }
    }
  }

  // ----- the first day of a log -----

  /** The log began on `day`, and records are appended in the order of their time stamps. */
  ghost predicate Sorted(evs: seq<Event>, day: int) {
    (forall e | e in evs && e.Append? :: day <= e.rec.ts)
    && forall i, j | 0 <= i < j < |evs| && evs[i].Append? && evs[j].Append? :: evs[i].rec.ts <= evs[j].rec.ts
  }

  lemma SortedInit(evs: seq<Event>, day: int)
    requires Sorted(evs, day) && evs != []
    ensures var n := |evs| - 1;
      Sorted(evs[..n], day)
      && (evs[n].Append? ==> day <= evs[n].rec.ts && forall e | e in evs[..n] && e.Append? :: e.rec.ts <= evs[n].rec.ts)
  {
    var n := |evs| - 1;
    assert evs == evs[..n] + [evs[n]];
  }

  lemma {:induction false} LogsBounded(s: Setup, evs: seq<Event>, from: int, to: int)
    requires forall e | e in evs && e.Append? :: from <= e.rec.ts <= to
    ensures forall l | l in Run(s, evs).logs :: from <= l.ts <= to
  {
    hide ComplianceHash;
    if evs != [] {
      var n := |evs| - 1;
      assert evs == evs[..n] + [evs[n]];
      LogsBounded(s, evs[..n], from, to);
      if evs[n].Ticking? { TickKeepsLogs(s, Run(s, evs[..n]), evs[n]); }
    }
  }

  lemma {:induction false} SortedIsFront(s: Setup, evs: seq<Event>, day: int)
    requires Sorted(evs, day)
    ensures Front(Run(s, evs).logs, day)
  {
    hide Front;
    if evs == [] {
      NothingInFront(day);
    } else {
      var n := |evs| - 1;
      SortedInit(evs, day);
      SortedIsFront(s, evs[..n], day);
      hide Ticked, ComplianceHash;
      if evs[n].Ticking? {
        TickKeepsLogs(s, Run(s, evs[..n]), evs[n]);
      } else {
        LogsBounded(s, evs[..n], day, evs[n].rec.ts);
        var logs := Run(s, evs).logs;
        assert logs[..|logs| - 1] == Run(s, evs[..n]).logs;
        assert logs == logs[..|logs| - 1] + [logs[|logs| - 1]];
        FrontLast(logs, day);
      }
    }
  }

  lemma SortedHoursFirst(s: Setup, evs: seq<Event>, day: int)
    requires Sorted(evs, day) && day % HOUR == 0
    ensures FirstHours(Run(s, evs).cps, day)
  {
    hide Run, HourHashes, Root, ToHex, Stragglers;
    HoursCounted(s, evs);
    var db := Run(s, evs);
    LogsSince(s, evs, day);
    forall g | g in OfKind(db.cps, HOURLY) ensures day <= g.bucketStart {
      assert HourFact(s.c, db.logs, g, Stragglers(s, evs, g.bucketStart));
      HourNotBefore(db.logs, g.bucketStart, day);
    }
  }

  lemma {:induction false} LogsSince(s: Setup, evs: seq<Event>, day: int)
    requires Sorted(evs, day)
    ensures forall l | l in Run(s, evs).logs :: day <= l.ts
  {
    hide ComplianceHash;
    if evs != [] {
      var n := |evs| - 1;
      SortedInit(evs, day);
      hide Sorted;
      LogsSince(s, evs[..n], day);
      if evs[n].Ticking? { TickKeepsLogs(s, Run(s, evs[..n]), evs[n]); }
    }
  }

  /** Every hour with records starts at or after the first record's day. */
  lemma {:induction false} HourNotBefore(logs: seq<Log>, hour: int, day: int)
    requires HourHashes(logs, hour) != [] && day % HOUR == 0 && forall l | l in logs :: day <= l.ts
    ensures hour >= day
  {
    var n := |logs| - 1;
    if HourOf(logs[n].ts) == hour { assert logs[n] in logs; }
    else { HourNotBefore(logs[..n], hour, day); }
  }

  /** So the first day of a log is accepted when its records arrive promptly and in order and no hourly
      step fails; daily steps and time stamps may fail and ticks repeat as they like. */
  lemma FirstDayAccepted(s: Setup, evs: seq<Event>, day: int, pub: Option<PublicKey>)
    requires Clock(evs) && Aligned(s, day) && Honest(s, pub) && Sorted(evs, day) && Prompt(evs) && NoHourFails(evs)
    ensures Good(s.c, DayBundle(Run(s, evs), day), pub)
  {
    AlignedDay(s, day);
    SortedIsFront(s, evs, day);
    SortedHoursFirst(s, evs, day);
    PromptNoLateHour(s, evs, day);
    forall hour | day <= hour < day + DAY ensures Stragglers(s, evs, hour) == 0 { PromptIsPunctual(s, evs, hour); }
    hide Run, Clock, Aligned, Honest, Sorted, Prompt, NoHourFails, Front, FirstHours, Late, Good, DayBundle;
    SealedDayAccepted(s, evs, day, pub);
  }
}
