/** Several replicas that seal the same store: each looks for a checkpoint, reads and saves in separate
    statements, and nothing but the order of the statements keeps one from overtaking another. */
module SealRace {
  import opened Wrappers
  import opened Merkle
  import opened LogChain
  import opened Evidence
  import opened Sealer
  import SealChains
  import SealedDay

  datatype Job = Hour(start: int) | Day(day: int, now: int, tsaFails: bool) {
    function Kind(): string { if Hour? then HOURLY else DAILY }
    function Bucket(): int { if Hour? then start else day }
  }

  /** Between its steps a sealer is idle, has found no checkpoint for its job, or has one ready to save. */
  datatype Phase = Idle | Checked(job: Job) | Ready(cp: Checkpoint) {
    predicate For(kind: string, start: int) {
      match this
      case Idle => false
      case Checked(job) => job.Kind() == kind && job.Bucket() == start
      case Ready(cp) => cp.kind == kind && cp.bucketStart == start
    }
  }

  datatype State = State(db: Db, phases: map<int, Phase>) {
    function Phase(who: int): Phase { if who in phases then phases[who] else Idle }
    function With(who: int, p: Phase): State { State(db, phases[who := p]) }
  }

  datatype Event =
    | Append(rec: Log)
    | Check(who: int, job: Job)
    | Read(who: int)
    | Save(who: int)
    | GiveUp(who: int)

  /** What the job makes of the store, or nothing. */
  function Made(s: Setup, db: Db, job: Job): Phase {
    match job
    case Hour(start) =>
      if LogsIn(db.logs, start, start + HOUR) == [] then Idle else Ready(HourCheckpoint(s.c, db, start))
    case Day(day, now, tsaFails) =>
      if HoursOf(db.cps, day) == [] then Idle else Ready(DayCheckpoint(s, db, day, now, tsaFails))
  }

  function Step(s: Setup, st: State, e: Event): State {
    match e
    case Append(rec) => st.(db := Appended(s.c, st.db, rec))
    case Check(who, job) =>
      if st.Phase(who) != Idle || Exists(st.db.cps, job.Kind(), job.Bucket()) then st else st.With(who, Checked(job))
    case Read(who) => if st.Phase(who).Checked? then st.With(who, Made(s, st.db, st.Phase(who).job)) else st
    case Save(who) =>
      if st.Phase(who).Ready? then State(st.db.(cps := st.db.cps + [st.Phase(who).cp]), st.phases[who := Idle]) else st
    case GiveUp(who) => st.With(who, Idle)
  }

  function Run(s: Setup, evs: seq<Event>): State {
    if evs == [] then State(Db([], []), map[]) else Step(s, Run(s, evs[..|evs| - 1]), evs[|evs| - 1])
  }

  /** Left alone, the three steps are the checkpoint of one sealer. */
  lemma Undisturbed(s: Setup, st: State, who: int, job: Job)
    requires st.Phase(who) == Idle
    ensures Step(s, Step(s, Step(s, st, Check(who, job)), Read(who)), Save(who)).db
         == match job
            case Hour(start) => Hourly(s.c, st.db, start)
            case Day(day, now, tsaFails) => Daily(s, st.db, day, now, tsaFails)
  {
    hide HourCheckpoint, DayCheckpoint, LogsIn, HoursOf, Exists;
  }

  // ----- who saved what -----

  /** The i-th event is a check that finds nothing for this bucket. */
  predicate Begins(s: Setup, evs: seq<Event>, i: nat, who: int, kind: string, start: int)
    requires i < |evs|
  {
    var st, e := Run(s, evs[..i]), evs[i];
    e.Check? && e.who == who && e.job.Kind() == kind && e.job.Bucket() == start
    && st.Phase(who) == Idle && !Exists(st.db.cps, kind, start)
  }

  /** The k-th event saves a checkpoint of this bucket. */
  predicate Saves(s: Setup, evs: seq<Event>, k: nat, who: int, kind: string, start: int)
    requires k < |evs|
  {
    var p := Run(s, evs[..k]).Phase(who);
    evs[k] == Save(who) && p.Ready? && p.For(kind, start)
  }

  /** After the i-th event and up to the k-th the sealer is at work on this bucket. */
  ghost predicate AtWork(s: Setup, evs: seq<Event>, i: nat, k: nat, who: int, kind: string, start: int)
    requires k <= |evs|
  {
    forall m | i < m <= k :: Run(s, evs[..m]).Phase(who).For(kind, start)
  }

  /** Between one sealer's check and its save of a bucket, another one saves the same bucket. */
  ghost predicate Overtaken(s: Setup, evs: seq<Event>) {
    exists i: nat, j: nat, k: nat, a: int, b: int, kind: string, start: int ::
      Overtakes(s, evs, i, j, k, a, b, kind, start)
  }

  ghost predicate Overtakes(s: Setup, evs: seq<Event>, i: nat, j: nat, k: nat, a: int, b: int, kind: string,
                            start: int)
  {
    i < j < k < |evs| && a != b && Begins(s, evs, i, a, kind, start) && AtWork(s, evs, i, k, a, kind, start)
    && Saves(s, evs, j, b, kind, start) && Saves(s, evs, k, a, kind, start)
  }

  lemma StepAt(s: Setup, evs: seq<Event>, i: nat)
    requires i < |evs|
    ensures Run(s, evs[..i + 1]) == Step(s, Run(s, evs[..i]), evs[i])
  {
    hide Step;
    assert evs[..i + 1][..i] == evs[..i];
  }

  lemma JobMade(s: Setup, db: Db, job: Job)
    ensures Made(s, db, job) == Idle || Made(s, db, job).For(job.Kind(), job.Bucket())
  {
    hide LogsIn, HoursOf;
    match job {
      case Hour(start) => SealChains.HourKind(s.c, db, start);
      case Day(day, now, tsaFails) => SealChains.DayKind(s, db, day, now, tsaFails);
    }
  }

  lemma NothingBegun(s: Setup, who: int, kind: string, start: int)
    ensures !Run(s, []).Phase(who).For(kind, start) && Run(s, []).db.cps == []
  {}

  /** A sealer at work on a bucket began with a check that did not find it. */
  lemma {:induction false} BegunBy(s: Setup, evs: seq<Event>, k: nat, who: int, kind: string, start: int)
    returns (i: nat)
    requires k <= |evs| && Run(s, evs[..k]).Phase(who).For(kind, start)
    ensures i < k && Begins(s, evs, i, who, kind, start) && AtWork(s, evs, i, k, who, kind, start)
    decreases k
  {
    hide Made, Appended, Exists, Run;
    i := 0;
    if k == 0 {
      NothingBegun(s, who, kind, start);
    } else {
      StepAt(s, evs, k - 1);
      var before, e := Run(s, evs[..k - 1]), evs[k - 1];
      if before.Phase(who).Checked? { JobMade(s, before.db, before.Phase(who).job); }
      if before.Phase(who).For(kind, start) {
        i := BegunBy(s, evs, k - 1, who, kind, start);
      } else {
        i := k - 1;
      }
    }
  }

  lemma {:induction false} CpsGrow(s: Setup, evs: seq<Event>, i: nat, k: nat)
    requires i <= k <= |evs|
    ensures Run(s, evs[..i]).db.cps <= Run(s, evs[..k]).db.cps
    decreases k - i
  {
    hide Made, ComplianceHash, Exists, Run;
    if i < k {
      StepAt(s, evs, k - 1);
      CpsGrow(s, evs, i, k - 1);
    }
  }

  /** The event that saved the q-th checkpoint. */
  lemma {:induction false} SavedBy(s: Setup, evs: seq<Event>, n: nat, q: nat) returns (k: nat, who: int)
    requires n <= |evs| && q < |Run(s, evs[..n]).db.cps|
    ensures var cp := Run(s, evs[..n]).db.cps[q];
      k < n && |Run(s, evs[..k]).db.cps| == q && Saves(s, evs, k, who, cp.kind, cp.bucketStart)
    decreases n
  {
    hide Made, ComplianceHash, Exists;
    k, who := 0, 0;
    if n > 0 {
      StepAt(s, evs, n - 1);
      hide Run;
      if q < |Run(s, evs[..n - 1]).db.cps| { k, who := SavedBy(s, evs, n - 1, q); }
      else { k, who := n - 1, evs[n - 1].who; }
    }
  }

  lemma SaveAppends(s: Setup, evs: seq<Event>, k: nat, who: int, kind: string, start: int)
    requires k < |evs| && Saves(s, evs, k, who, kind, start)
    ensures var before, after := Run(s, evs[..k]).db.cps, Run(s, evs[..k + 1]).db.cps;
      |after| == |before| + 1 && after[|before|].kind == kind && after[|before|].bucketStart == start
    ensures Run(s, evs[..k + 1]).Phase(who) == Idle
  {
    StepAt(s, evs, k);
    hide Run;
  }

  ghost predicate Twice(cps: seq<Checkpoint>, p: nat, q: nat) {
    p < q < |cps| && cps[p].kind == cps[q].kind && cps[p].bucketStart == cps[q].bucketStart
  }

  lemma SavedForGood(s: Setup, evs: seq<Event>, j: nat, i: nat, who: int, kind: string, start: int)
    requires j < i <= |evs| && Saves(s, evs, j, who, kind, start)
    ensures Exists(Run(s, evs[..i]).db.cps, kind, start)
  {
    hide Run, Saves;
    SaveAppends(s, evs, j, who, kind, start);
    CpsGrow(s, evs, j + 1, i);
    var p := |Run(s, evs[..j]).db.cps|;
    var cps := Run(s, evs[..i]).db.cps;
    assert cps[p].kind == kind && cps[p].bucketStart == start;
  }

  lemma SavedAfterCheck(s: Setup, evs: seq<Event>, i: nat, j: nat, a: int, b: int, kind: string, start: int)
    requires i < |evs| && j < |evs| && Begins(s, evs, i, a, kind, start) && Saves(s, evs, j, b, kind, start)
    ensures i < j
  {
    hide Run, Exists;
    if j < i { SavedForGood(s, evs, j, i, b, kind, start); }
  }

  lemma SavesOnce(s: Setup, evs: seq<Event>, i: nat, j: nat, k: nat, a: int, b: int, kind: string, start: int)
    requires i < j < k <= |evs| && AtWork(s, evs, i, k, a, kind, start) && Saves(s, evs, j, b, kind, start)
    ensures a != b
  {
    hide Run, Saves;
    SaveAppends(s, evs, j, b, kind, start);
    var m := j + 1;
    assert Run(s, evs[..m]).Phase(a).For(kind, start);
  }

  lemma {:induction false} TwiceMeansOvertaken(s: Setup, evs: seq<Event>, p: nat, q: nat)
    requires Twice(Run(s, evs).db.cps, p, q)
    ensures Overtaken(s, evs)
  {
    hide Run, Saves, Begins, AtWork;
    var n := |evs|;
    assert evs[..n] == evs;
    var cps := Run(s, evs).db.cps;
    var kind, start := cps[q].kind, cps[q].bucketStart;
    var j, b := SavedBy(s, evs, n, p);
    var k, a := SavedBy(s, evs, n, q);
    if k <= j { CpsGrow(s, evs, k, j); }
    ReadyFor(s, evs, k, a, kind, start);
    var i := BegunBy(s, evs, k, a, kind, start);
    SavedAfterCheck(s, evs, i, j, a, b, kind, start);
    SavesOnce(s, evs, i, j, k, a, b, kind, start);
    assert Overtakes(s, evs, i, j, k, a, b, kind, start);
  }

  lemma ReadyFor(s: Setup, evs: seq<Event>, k: nat, who: int, kind: string, start: int)
    requires k < |evs| && Saves(s, evs, k, who, kind, start)
    ensures Run(s, evs[..k]).Phase(who).For(kind, start)
  {
    hide Run;
  }

  lemma {:induction false} OvertakenMeansTwice(s: Setup, evs: seq<Event>, i: nat, j: nat, k: nat, a: int, b: int,
                                               kind: string, start: int)
    requires Overtakes(s, evs, i, j, k, a, b, kind, start)
    ensures !SealChains.OnePerBucket(Run(s, evs).db.cps)
  {
    hide Run, Saves, Begins, AtWork;
    assert evs[..|evs|] == evs;
    SaveAppends(s, evs, j, b, kind, start);
    SaveAppends(s, evs, k, a, kind, start);
    CpsGrow(s, evs, j + 1, k);
    CpsGrow(s, evs, k + 1, |evs|);
    var p, q := |Run(s, evs[..j]).db.cps|, |Run(s, evs[..k]).db.cps|;
    var cps := Run(s, evs).db.cps;
    assert Run(s, evs[..k]).db.cps[p] == Run(s, evs[..j + 1]).db.cps[p];
    assert Run(s, evs[..k + 1]).db.cps[p] == cps[p];
    PrefixStep(s, evs, k, p);
    assert cps[q] == Run(s, evs[..k + 1]).db.cps[q];
    assert cps[p].kind == cps[q].kind && cps[p].bucketStart == cps[q].bucketStart;
  }

  lemma PrefixStep(s: Setup, evs: seq<Event>, k: nat, p: nat)
    requires k < |evs| && p < |Run(s, evs[..k]).db.cps|
    ensures p < |Run(s, evs[..k + 1]).db.cps| && Run(s, evs[..k + 1]).db.cps[p] == Run(s, evs[..k]).db.cps[p]
  {
    hide Run;
    CpsGrow(s, evs, k, k + 1);
  }

  /** A bucket gets a second checkpoint exactly when a sealer is overtaken between its check and its save. */
  lemma AtMostOneExactlyWhen(s: Setup, evs: seq<Event>)
    ensures SealChains.OnePerBucket(Run(s, evs).db.cps) <==> !Overtaken(s, evs)
  {
    hide Run, Overtakes;
    var cps := Run(s, evs).db.cps;
    if !SealChains.OnePerBucket(cps) {
      var p, q :| 0 <= p < q < |cps| && cps[p].kind == cps[q].kind && cps[p].bucketStart == cps[q].bucketStart;
      TwiceMeansOvertaken(s, evs, p, q);
    }
    if Overtaken(s, evs) {
      var i: nat, j: nat, k: nat, a, b, kind, start :| Overtakes(s, evs, i, j, k, a, b, kind, start);
      OvertakenMeansTwice(s, evs, i, j, k, a, b, kind, start);
    }
  }

  /** At no time are two sealers at work on the same bucket. */
  ghost predicate Exclusive(s: Setup, evs: seq<Event>) {
    forall m, a, b, kind, start | 0 <= m <= |evs|
      && Run(s, evs[..m]).Phase(a).For(kind, start) && Run(s, evs[..m]).Phase(b).For(kind, start) :: a == b
  }

  lemma BothAtWork(s: Setup, evs: seq<Event>, i: nat, j: nat, k: nat, a: int, b: int, kind: string, start: int)
    requires Overtakes(s, evs, i, j, k, a, b, kind, start)
    ensures Run(s, evs[..j]).Phase(a).For(kind, start) && Run(s, evs[..j]).Phase(b).For(kind, start) && a != b
  {
    hide Run;
  }

  lemma NotOvertaken(s: Setup, evs: seq<Event>, i: nat, j: nat, k: nat, a: int, b: int, kind: string, start: int)
    requires Exclusive(s, evs)
    ensures !Overtakes(s, evs, i, j, k, a, b, kind, start)
  {
    hide Run, Begins, AtWork, Saves, Phase.For;
    if Overtakes(s, evs, i, j, k, a, b, kind, start) { BothAtWork(s, evs, i, j, k, a, b, kind, start); }
  }

  /** Several sealers of which one at a time is let into a bucket save it at most once. */
  lemma OneAtATime(s: Setup, evs: seq<Event>)
    requires Exclusive(s, evs)
    ensures SealChains.OnePerBucket(Run(s, evs).db.cps)
  {
    hide Run, Overtakes, Exclusive;
    AtMostOneExactlyWhen(s, evs);
    forall i: nat, j: nat, k: nat, a: int, b: int, kind: string, start: int
      ensures !Overtakes(s, evs, i, j, k, a, b, kind, start)
    {
      NotOvertaken(s, evs, i, j, k, a, b, kind, start);
    }
  }

  predicate Sealing(e: Event) { !e.Append? }

  lemma {:induction false} OnlyOneWorks(s: Setup, evs: seq<Event>, who: int, other: int)
    requires other != who && forall e | e in evs && Sealing(e) :: e.who == who
    ensures Run(s, evs).Phase(other) == Idle
  {
    hide Made, Appended, Exists;
    if evs != [] {
      assert evs[|evs| - 1] in evs;
      OnlyOneWorks(s, evs[..|evs| - 1], who, other);
    }
  }

  /** So one sealer, whatever the failures and whenever records arrive, saves each bucket at most once. */
  lemma OneSealer(s: Setup, evs: seq<Event>, who: int)
    requires forall e | e in evs && Sealing(e) :: e.who == who
    ensures SealChains.OnePerBucket(Run(s, evs).db.cps)
  {
    hide Run, Sealing, Phase.For;
    forall m, a, b, kind, start | 0 <= m <= |evs|
      && Run(s, evs[..m]).Phase(a).For(kind, start) && Run(s, evs[..m]).Phase(b).For(kind, start)
      ensures a == b
    {
      WorksAlone(s, evs, m, a, kind, start, who);
      WorksAlone(s, evs, m, b, kind, start, who);
    }
    OneAtATime(s, evs);
  }

  lemma WorksAlone(s: Setup, evs: seq<Event>, m: nat, a: int, kind: string, start: int, who: int)
    requires m <= |evs| && Run(s, evs[..m]).Phase(a).For(kind, start)
    requires forall e | e in evs && Sealing(e) :: e.who == who
    ensures a == who
  {
    hide Run, Sealing;
    if a != who {
      assert forall e | e in evs[..m] :: e in evs;
      OnlyOneWorks(s, evs[..m], who, a);
    }
  }

  // ----- two replicas at the full hour -----

  const JOB := Hour(46800)

  /** Both look for the checkpoint of hour 13 before either has saved it. */
  function TwinEvents(rec: Log): seq<Event> {
    [Append(rec.(ts := 50000))] + [Check(1, JOB)] + [Check(2, JOB)] + [Read(1)] + [Read(2)] + [Save(1)] + [Save(2)]
  }

  lemma Grows(s: Setup, evs: seq<Event>, e: Event)
    ensures Run(s, evs + [e]) == Step(s, Run(s, evs), e)
  {
    hide Step;
    assert (evs + [e])[..|evs|] == evs;
  }

  lemma TwinStart(s: Setup, rec: Log) returns (db: Db)
    ensures Run(s, [Append(rec.(ts := 50000))]) == State(db, map[]) && db.cps == []
    ensures LogsIn(db.logs, 46800, 50400) != [] && ChainOk(s.c.text, db.logs)
  {
    hide ComplianceHash;
    var e := Append(rec.(ts := 50000));
    assert [] + [e] == [e];
    Grows(s, [], e);
    db := Appended(s.c, Db([], []), rec.(ts := 50000));
    assert db.logs[..0] == [];
    hide Run;
    SealChains.AppendKeepsChain(s.c, Db([], []), rec.(ts := 50000));
  }

  lemma TwinCps(s: Setup, rec: Log) returns (db: Db)
    ensures var h := HourCheckpoint(s.c, db, 46800); Run(s, TwinEvents(rec)).db == Db(db.logs, [h, h])
    ensures db.cps == [] && LogsIn(db.logs, 46800, 50400) != [] && ChainOk(s.c.text, db.logs)
  {
    db := TwinStart(s, rec);
    hide Run, LogsIn, HourCheckpoint, ChainOk;
    var evs := [Append(rec.(ts := 50000))];
    Grows(s, evs, Check(1, JOB));
    evs := evs + [Check(1, JOB)];
    Grows(s, evs, Check(2, JOB));
    evs := evs + [Check(2, JOB)];
    Grows(s, evs, Read(1));
    evs := evs + [Read(1)];
    Grows(s, evs, Read(2));
    evs := evs + [Read(2)];
    Grows(s, evs, Save(1));
    Grows(s, evs + [Save(1)], Save(2));
  }

  lemma PairBetween(db: Db, h: Checkpoint)
    requires db.cps == [h, h] && h.kind == HOURLY && 0 <= h.bucketStart < DAY
    ensures OfKind(SealedDay.DayBundle(db, 0).checkpoints, HOURLY) == [h, h]
  {
    hide Between, OfKind, LogsIn;
    assert [] + [h] == [h] && [h] + [h] == db.cps;
    NoneBetween();
    SealedDay.BetweenAppend([], h, 0, DAY);
    SealedDay.BetweenAppend([h], h, 0, DAY);
    SealedDay.PlacedStep([], h, h);
    SealChains.OfKindAppend([], h, HOURLY);
    SealChains.OfKindAppend([h], h, HOURLY);
  }

  lemma NoneBetween()
    ensures Between([], 0, DAY) == [] && OfKind([], HOURLY) == []
  {}

  lemma PairRejected(c: Crypto, db: Db, h: Checkpoint, pub: Option<PublicKey>)
    requires db.cps == [h, h] && h.kind == HOURLY && 0 <= h.bucketStart < DAY && h.prevRoot == "" && h.root != ""
    ensures !Good(c, SealedDay.DayBundle(db, 0), pub)
  {
    PairBetween(db, h);
    hide SealedDay.DayBundle, OfKind, RecordsGood, HourGood, DayRootGood, StampGood, SignatureGood;
    assert !LinkAt([h, h], 1);
  }

  lemma FirstHour(c: Crypto, db: Db)
    requires db.cps == [] && LogsIn(db.logs, 46800, 50400) != [] && ChainOk(c.text, db.logs)
    ensures var h := HourCheckpoint(c, db, 46800);
      h.kind == HOURLY && h.bucketStart == 46800 && h.prevRoot == "" && h.root != ""
  {
    hide LogsIn, ToHex, Root, Hashes, ChainOk;
    SealChains.HourlyShape(c, db, 46800, 50400);
  }

  /** So two replicas checkpoint one hour twice, and no verifier accepts the bundle of that day. */
  lemma TwinsRejected(s: Setup, rec: Log, pub: Option<PublicKey>)
    ensures Overtaken(s, TwinEvents(rec))
    ensures !Good(s.c, SealedDay.DayBundle(Run(s, TwinEvents(rec)).db, 0), pub)
  {
    hide Run, HourCheckpoint, Overtaken, Good, LogsIn, SealedDay.DayBundle, ChainOk, TwinEvents;
    var db := TwinCps(s, rec);
    var evs, h := TwinEvents(rec), HourCheckpoint(s.c, db, 46800);
    FirstHour(s.c, db);
    PairRejected(s.c, Run(s, evs).db, h, pub);
    AtMostOneExactlyWhen(s, evs);
    var cps := Run(s, evs).db.cps;
    assert cps[0].kind == cps[1].kind && cps[0].bucketStart == cps[1].bucketStart;
  }
}
