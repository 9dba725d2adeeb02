/** Evidence bundles and their independent verification: internal/compliance/verify.go. */
module Evidence {
  import opened Wrappers
  import opened Merkle
  import opened LogChain

  datatype Checkpoint = Checkpoint(kind: string, bucketStart: int, bucketEnd: int, recordCount: int, prevRoot: string,
                                   root: string, tsaStatus: string, tsaToken: Bytes, signature: string, signedAt: int)

  datatype Manifest = Manifest(day: string, root: string, recordCount: int, hours: int, prevDaily: string,
                               createdAt: int)

  /** A public key, as the relation it decides between manifests and signatures. */
  type PublicKey = (Manifest, string) -> bool

  /** SHA-256 on text and on bytes, and the printed date of a day's first second. */
  datatype Crypto = Crypto(text: TextHash, node: NodeHash, dayName: int -> string)

  datatype Bundle = Bundle(masked: bool, logs: seq<Log>, checkpoints: seq<Checkpoint>)

  datatype Report = Report(ok: bool, checkedRecords: nat, brokenSeq: int, merkleOk: bool, failedBucket: int,
                           dailyOk: bool, sigOk: bool, sigChecked: bool)

  const HOURLY := "hourly"
  const DAILY := "daily"

  /** Truncation to the hour. */
  function HourOf(ts: int): int { ts - ts % 3600 }

  predicate TokenContainsHash(token: Bytes, hash: Bytes) {
    exists i | 0 <= i <= |token| :: hash <= token[i..]
  }

  // ----- what a good bundle is -----

  predicate LinkGood(c: Crypto, b: Bundle, i: nat)
    requires i < |b.logs|
  {
    var l := b.logs[i];
    l.prevHash == PrevOf(b.logs, i)
    && if b.masked then l.hash != "" else l.hash == ComplianceHash(c.text, PrevOf(b.logs, i), l)
  }

  ghost predicate RecordsGood(c: Crypto, b: Bundle) { forall i | 0 <= i < |b.logs| :: LinkGood(c, b, i) }

  /** The digests of the records that fall into an hour. */
  function HourHashes(logs: seq<Log>, hour: int): seq<Bytes> {
    if logs == [] then []
    else
      var n := |logs| - 1;
      HourHashes(logs[..n], hour) + if HourOf(logs[n].ts) == hour then [FromHex(logs[n].hash)] else []
  }

  function OfKind(cps: seq<Checkpoint>, kind: string): (r: seq<Checkpoint>)
    ensures forall cp :: cp in r <==> cp in cps && cp.kind == kind
  {
    if cps == [] then []
    else
      var n := |cps| - 1;
      OfKind(cps[..n], kind) + if cps[n].kind == kind then [cps[n]] else []
  }

  predicate HourGood(c: Crypto, logs: seq<Log>, cp: Checkpoint) {
    var hashes := HourHashes(logs, cp.bucketStart);
    cp.recordCount == |hashes| && FromHex(cp.root) == Root(c.node, hashes)
  }

  /** Each checkpoint names its predecessor's root, the first one names none. */
  predicate Linked(cps: seq<Checkpoint>) {
    forall i | 0 <= i < |cps| :: LinkAt(cps, i)
  }

  predicate LinkAt(cps: seq<Checkpoint>, i: nat)
    requires i < |cps|
  {
    cps[i].prevRoot == if i == 0 then "" else cps[i - 1].root
  }

  function Roots(cps: seq<Checkpoint>): (r: seq<Bytes>)
    ensures |r| == |cps|
  {
    if cps == [] then [] else Roots(cps[..|cps| - 1]) + [FromHex(cps[|cps| - 1].root)]
  }

  function HoursWithin(cps: seq<Checkpoint>, start: int, end: int): nat {
    if cps == [] then 0
    else
      var n := |cps| - 1;
      HoursWithin(cps[..n], start, end) + if cps[n].kind == HOURLY && start <= cps[n].bucketStart < end then 1 else 0
  }

  /** The manifest a verifier rebuilds for a daily seal. */
  function Rebuilt(c: Crypto, cps: seq<Checkpoint>, d: Checkpoint): Manifest {
    Manifest(c.dayName(d.bucketStart), d.root, d.recordCount, HoursWithin(cps, d.bucketStart, d.bucketEnd),
             d.prevRoot, d.signedAt)
  }

  predicate DayRootGood(c: Crypto, cps: seq<Checkpoint>, d: Checkpoint) {
    FromHex(d.root) == Root(c.node, Roots(OfKind(cps, HOURLY)))
  }

  predicate StampGood(c: Crypto, d: Checkpoint) {
    d.tsaStatus == "ok" && d.tsaToken != [] ==> TokenContainsHash(d.tsaToken, c.node(FromHex(d.root)))
  }

  predicate SignatureGood(c: Crypto, cps: seq<Checkpoint>, d: Checkpoint, pub: Option<PublicKey>) {
    pub.Some? && d.signature != "" ==> pub.value(Rebuilt(c, cps, d), d.signature)
  }

  /** Everything a bundle must satisfy to be accepted. */
  ghost predicate Good(c: Crypto, b: Bundle, pub: Option<PublicKey>) {
    && RecordsGood(c, b)
    && (forall cp | cp in OfKind(b.checkpoints, HOURLY) :: HourGood(c, b.logs, cp))
    && Linked(OfKind(b.checkpoints, HOURLY))
    && forall d | d in OfKind(b.checkpoints, DAILY) ::
         DayRootGood(c, b.checkpoints, d) && StampGood(c, d) && SignatureGood(c, b.checkpoints, d, pub)
  }

  // ----- the verifier -----

  lemma OfKindStep(cps: seq<Checkpoint>, kind: string, i: nat)
    requires i < |cps|
    ensures OfKind(cps[..i + 1], kind) == OfKind(cps[..i], kind) + if cps[i].kind == kind then [cps[i]] else []
  {
    assert cps[..i + 1][..i] == cps[..i];
  }

  method CheckRecords(c: Crypto, b: Bundle) returns (checked: nat, brokenSeq: int)
    ensures checked <= |b.logs| && forall i | 0 <= i < checked :: LinkGood(c, b, i)
    ensures checked < |b.logs| ==> !LinkGood(c, b, checked) && brokenSeq == b.logs[checked].seqNo
    ensures checked == |b.logs| ==> brokenSeq == 0
  {
    hide ComplianceHash;
    var prev := "";
    checked, brokenSeq := 0, 0;
    while checked < |b.logs|
      invariant checked <= |b.logs| && forall i | 0 <= i < checked :: LinkGood(c, b, i)
      invariant prev == if checked == 0 then "" else b.logs[checked - 1].hash
    {
      var l := b.logs[checked];
      if l.prevHash != prev || (b.masked && l.hash == "") || (!b.masked && ComplianceHash(c.text, prev, l) != l.hash) {
        return checked, l.seqNo;
      }
      prev := l.hash;
      checked := checked + 1;
    }
  }

  ghost predicate Groups(byBucket: map<int, seq<Bytes>>, logs: seq<Log>) {
    forall hour :: HourHashes(logs, hour) == if hour in byBucket then byBucket[hour] else []
  }

  method GroupByHour(logs: seq<Log>) returns (byBucket: map<int, seq<Bytes>>)
    ensures Groups(byBucket, logs)
  {
    hide FromHex;
    byBucket := map[];
    for i := 0 to |logs|
      invariant forall hour :: HourHashes(logs[..i], hour) == if hour in byBucket then byBucket[hour] else []
    {
      assert logs[..i + 1][..i] == logs[..i];
      var bucket, h := HourOf(logs[i].ts), FromHex(logs[i].hash);
      var sofar := if bucket in byBucket then byBucket[bucket] else [];
      byBucket := byBucket[bucket := sofar + [h]];
    }
    assert logs[..|logs|] == logs;
  }

  /** The bucket of the last hourly checkpoint that does not match its records. */
  function LastBad(c: Crypto, logs: seq<Log>, hs: seq<Checkpoint>): (r: Option<int>)
    ensures r == None <==> forall cp | cp in hs :: HourGood(c, logs, cp)
    ensures r.Some? ==> exists cp | cp in hs :: !HourGood(c, logs, cp) && r.value == cp.bucketStart
  {
    if hs == [] then None
    else
      var n := |hs| - 1;
      assert hs == hs[..n] + [hs[n]];
      if !HourGood(c, logs, hs[n]) then Some(hs[n].bucketStart) else LastBad(c, logs, hs[..n])
  }

  /** What the hour loop knows after the hours `hs`. */
  ghost predicate HoursChecked(c: Crypto, logs: seq<Log>, hs: seq<Checkpoint>, ok: bool, failed: int,
                               roots: seq<Bytes>)
  {
    var bad := LastBad(c, logs, hs);
    ok == (bad == None) && failed == (if bad == None then 0 else bad.value) && roots == Roots(hs)
  }

  lemma HourTurn(c: Crypto, logs: seq<Log>, hs: seq<Checkpoint>, cp: Checkpoint, ok: bool, failed: int,
                 roots: seq<Bytes>)
    requires HoursChecked(c, logs, hs, ok, failed, roots)
    ensures var good := HourGood(c, logs, cp);
      HoursChecked(c, logs, hs + [cp], ok && good, if good then failed else cp.bucketStart, roots + [FromHex(cp.root)])
  {
    hide FromHex, HourGood;
    assert (hs + [cp])[..|hs|] == hs;
  }

  /** One hourly checkpoint against the records of its hour. */
  method CheckHour(c: Crypto, logs: seq<Log>, byBucket: map<int, seq<Bytes>>, cp: Checkpoint) returns (good: bool)
    requires Groups(byBucket, logs)
    ensures good <==> HourGood(c, logs, cp)
  {
    hide HourHashes, FromHex, Root;
    var hashes := if cp.bucketStart in byBucket then byBucket[cp.bucketStart] else [];
    var got := MerkleRoot(c.node, hashes);
    good := cp.recordCount == |hashes| && FromHex(cp.root) == got;
  }

  method CheckHours(c: Crypto, b: Bundle) returns (ok: bool, failedBucket: int, hourlyRoots: seq<Bytes>)
    ensures HoursChecked(c, b.logs, OfKind(b.checkpoints, HOURLY), ok, failedBucket, hourlyRoots)
  {
    hide FromHex, OfKind, HourGood, HoursChecked, Groups;
    var byBucket := GroupByHour(b.logs);
    ok, failedBucket, hourlyRoots := true, 0, [];
    var cps := b.checkpoints;
    NoHours(c, b.logs);
    for i := 0 to |cps|
      invariant HoursChecked(c, b.logs, OfKind(cps[..i], HOURLY), ok, failedBucket, hourlyRoots)
    {
      var cp := cps[i];
      OfKindStep(cps, HOURLY, i);
      if cp.kind != HOURLY {
        assert OfKind(cps[..i + 1], HOURLY) == OfKind(cps[..i], HOURLY);
        continue;
      }
      HourTurn(c, b.logs, OfKind(cps[..i], HOURLY), cp, ok, failedBucket, hourlyRoots);
      var good := CheckHour(c, b.logs, byBucket, cp);
      if !good { ok, failedBucket := false, cp.bucketStart; }
      hourlyRoots := hourlyRoots + [FromHex(cp.root)];
    }
    assert cps[..|cps|] == cps;
  }

  lemma NoHours(c: Crypto, logs: seq<Log>)
    ensures OfKind([], HOURLY) == [] && HoursChecked(c, logs, [], true, 0, [])
  {}

  method CheckLinks(cps: seq<Checkpoint>) returns (ok: bool)
    ensures ok == Linked(OfKind(cps, HOURLY))
  {
    hide OfKind, Linked;
    var prevRoot := "";
    ok := true;
    NothingLinked();
    for i := 0 to |cps|
      invariant ok == Linked(OfKind(cps[..i], HOURLY))
      invariant prevRoot == LastRoot(OfKind(cps[..i], HOURLY))
    {
      var cp := cps[i];
      OfKindStep(cps, HOURLY, i);
      if cp.kind != HOURLY {
        assert OfKind(cps[..i + 1], HOURLY) == OfKind(cps[..i], HOURLY);
        continue;
      }
      LinkedGrows(OfKind(cps[..i], HOURLY), cp);
      if cp.prevRoot != prevRoot { ok := false; }
      prevRoot := cp.root;
    }
    assert cps[..|cps|] == cps;
  }

  function LastRoot(hs: seq<Checkpoint>): string { if hs == [] then "" else hs[|hs| - 1].root }

  lemma NothingLinked()
    ensures OfKind([], HOURLY) == [] && Linked([])
  {}

  lemma LinkedGrows(hs: seq<Checkpoint>, cp: Checkpoint)
    ensures Linked(hs + [cp]) <==> Linked(hs) && cp.prevRoot == LastRoot(hs)
  {
    var gs := hs + [cp];
    forall i | 0 <= i < |hs| ensures LinkAt(gs, i) == LinkAt(hs, i) {
      assert gs[i] == hs[i] && (i > 0 ==> gs[i - 1] == hs[i - 1]);
    }
    assert LinkAt(gs, |hs|) <==> cp.prevRoot == LastRoot(hs);
    if Linked(gs) {
      forall i | 0 <= i < |hs| ensures LinkAt(hs, i) { assert LinkAt(gs, i); }
      assert LinkAt(gs, |hs|);
    }
  }

  method CountHours(cps: seq<Checkpoint>, start: int, end: int) returns (hours: nat)
    ensures hours == HoursWithin(cps, start, end)
  {
    hours := 0;
    for i := 0 to |cps|
      invariant hours == HoursWithin(cps[..i], start, end)
    {
      assert cps[..i + 1][..i] == cps[..i];
      if cps[i].kind == HOURLY && cps[i].bucketStart >= start && cps[i].bucketStart < end { hours := hours + 1; }
    }
    assert cps[..|cps|] == cps;
  }

  method CheckDay(c: Crypto, cps: seq<Checkpoint>, hourlyRoots: seq<Bytes>, d: Checkpoint, pub: Option<PublicKey>)
    returns (rootOk: bool, stampOk: bool, sigOk: bool)
    requires hourlyRoots == Roots(OfKind(cps, HOURLY))
    ensures rootOk == DayRootGood(c, cps, d) && stampOk == StampGood(c, d) && sigOk == SignatureGood(c, cps, d, pub)
  {
    var root := FromHex(d.root);
    var whole := MerkleRoot(c.node, hourlyRoots);
    rootOk := root == whole;
    stampOk, sigOk := true, true;
    if d.tsaStatus == "ok" && |d.tsaToken| > 0 {
      stampOk := TokenContainsHash(d.tsaToken, c.node(root));
    }
    if pub.Some? && d.signature != "" {
      var hours := CountHours(cps, d.bucketStart, d.bucketEnd);
      var m := Manifest(c.dayName(d.bucketStart), d.root, d.recordCount, hours, d.prevRoot, d.signedAt);
      sigOk := pub.value(m, d.signature);
    }
  }

  /** The places of the hourly checkpoints in a range of buckets. */
  ghost function HoursAt(cps: seq<Checkpoint>, start: int, end: int): set<int> {
    set i | 0 <= i < |cps| && cps[i].kind == "hourly" && start <= cps[i].bucketStart < end
  }

  lemma {:induction false} HoursAreThere(cps: seq<Checkpoint>, start: int, end: int)
    ensures HoursWithin(cps, start, end) == |HoursAt(cps, start, end)|
  {
    if cps != [] {
      var n := |cps| - 1;
      HoursAreThere(cps[..n], start, end);
      var before := HoursAt(cps[..n], start, end);
      assert HoursAt(cps, start, end) == if n in HoursAt(cps, start, end) then before + {n} else before;
    }
  }

  /** The key accepts the signature of every signed daily checkpoint for its own name, root, count, predecessor
      and time, and the number of hours that the checkpoints hold of it. */
  lemma SignedSeals(c: Crypto, cps: seq<Checkpoint>, pub: Option<PublicKey>)
    ensures (forall d | d in OfKind(cps, DAILY) :: SignatureGood(c, cps, d, pub))
      <==> (pub.Some? ==>
        forall d | d in cps && d.kind == "daily" && d.signature != "" ::
          pub.value(Manifest(c.dayName(d.bucketStart), d.root, d.recordCount,
                             |HoursAt(cps, d.bucketStart, d.bucketEnd)|, d.prevRoot, d.signedAt), d.signature))
  {
    hide HoursWithin, HoursAt, OfKind;
    var ds := OfKind(cps, DAILY);
    forall d ensures d in ds <==> d in cps && d.kind == "daily" {}
    forall d | d in cps && d.kind == "daily"
      ensures SignatureGood(c, cps, d, pub) <==> (pub.Some? && d.signature != "" ==>
        pub.value(Manifest(c.dayName(d.bucketStart), d.root, d.recordCount,
                           |HoursAt(cps, d.bucketStart, d.bucketEnd)|, d.prevRoot, d.signedAt), d.signature))
    {
      HoursAreThere(cps, d.bucketStart, d.bucketEnd);
    }
    hide SignatureGood;
    if forall d | d in ds :: SignatureGood(c, cps, d, pub) {
      forall d | d in cps && d.kind == "daily" ensures SignatureGood(c, cps, d, pub) { assert d in ds; }
    }
  }

  /** Every stamp holds the digest of its day's root somewhere. */
  lemma StampedSeals(c: Crypto, cps: seq<Checkpoint>)
    ensures (forall d | d in OfKind(cps, DAILY) :: StampGood(c, d))
      <==> forall d | d in cps && d.kind == "daily" && d.tsaStatus == "ok" && d.tsaToken != [] ::
             exists i | 0 <= i <= |d.tsaToken| :: c.node(FromHex(d.root)) <= d.tsaToken[i..]
  {
    hide OfKind, FromHex;
    var ds := OfKind(cps, DAILY);
    if forall d | d in ds :: StampGood(c, d) {
      forall d | d in cps && d.kind == "daily" ensures StampGood(c, d) { assert d in ds; }
    }
  }

  method CheckDays(c: Crypto, cps: seq<Checkpoint>, hourlyRoots: seq<Bytes>, pub: Option<PublicKey>)
    returns (rootsOk: bool, stampsOk: bool, sigsOk: bool, sigChecked: bool)
    requires hourlyRoots == Roots(OfKind(cps, HOURLY))
    ensures rootsOk <==> forall d | d in OfKind(cps, DAILY) :: DayRootGood(c, cps, d)
    ensures stampsOk <==> forall d | d in OfKind(cps, DAILY) :: StampGood(c, d)
    ensures sigsOk <==> (pub.Some? ==>
      forall d | d in cps && d.kind == "daily" && d.signature != "" ::
        pub.value(Manifest(c.dayName(d.bucketStart), d.root, d.recordCount,
                           |HoursAt(cps, d.bucketStart, d.bucketEnd)|, d.prevRoot, d.signedAt), d.signature))
    ensures sigsOk <==> forall d | d in OfKind(cps, DAILY) :: SignatureGood(c, cps, d, pub)
    ensures sigChecked <==> pub.Some? && exists d | d in OfKind(cps, DAILY) :: d.signature != ""
  {
    hide FromHex, Root, DayRootGood, StampGood, SignatureGood, Roots, OfKind;
    rootsOk, stampsOk, sigsOk, sigChecked := true, true, true, false;
    for i := 0 to |cps|
      invariant rootsOk <==> forall d | d in OfKind(cps[..i], DAILY) :: DayRootGood(c, cps, d)
      invariant stampsOk <==> forall d | d in OfKind(cps[..i], DAILY) :: StampGood(c, d)
      invariant sigsOk <==> forall d | d in OfKind(cps[..i], DAILY) :: SignatureGood(c, cps, d, pub)
      invariant sigChecked <==> pub.Some? && exists d | d in OfKind(cps[..i], DAILY) :: d.signature != ""
    {
      OfKindStep(cps, DAILY, i);
      if cps[i].kind != DAILY { continue; }
      var rootOk, stampOk, sigOk := CheckDay(c, cps, hourlyRoots, cps[i], pub);
      rootsOk, stampsOk, sigsOk := rootsOk && rootOk, stampsOk && stampOk, sigsOk && sigOk;
      sigChecked := sigChecked || (pub.Some? && cps[i].signature != "");
    }
    assert cps[..|cps|] == cps;
    SignedSeals(c, cps, pub);
  }

  lemma RecordsLinked(c: Crypto, b: Bundle)
    requires RecordsGood(c, b)
    ensures forall i | 0 <= i < |b.logs| ::
      b.logs[i].prevHash == (if i == 0 then "" else b.logs[i - 1].hash)
      && if b.masked then b.logs[i].hash != ""
         else b.logs[i].hash == ComplianceHash(c.text, b.logs[i].prevHash, b.logs[i])
  {
    hide ComplianceHash;
    forall i | 0 <= i < |b.logs|
      ensures b.logs[i].prevHash == (if i == 0 then "" else b.logs[i - 1].hash)
      ensures if b.masked then b.logs[i].hash != ""
              else b.logs[i].hash == ComplianceHash(c.text, b.logs[i].prevHash, b.logs[i])
    {
      assert LinkGood(c, b, i);
    }
  }

  method VerifyBundle(c: Crypto, b: Bundle, pub: Option<PublicKey>) returns (rep: Report)
    ensures rep.ok <==> Good(c, b, pub)
    ensures rep.merkleOk <==> Linked(OfKind(b.checkpoints, HOURLY))
                              && forall cp | cp in OfKind(b.checkpoints, HOURLY) :: HourGood(c, b.logs, cp)
    ensures rep.dailyOk <==> forall d | d in OfKind(b.checkpoints, DAILY) :: DayRootGood(c, b.checkpoints, d)
    ensures rep.sigOk <==> (pub.Some? ==>
      forall d | d in b.checkpoints && d.kind == "daily" && d.signature != "" ::
        pub.value(Manifest(c.dayName(d.bucketStart), d.root, d.recordCount,
                           |HoursAt(b.checkpoints, d.bucketStart, d.bucketEnd)|, d.prevRoot, d.signedAt), d.signature))
    ensures rep.ok ==> rep.merkleOk && rep.dailyOk && rep.sigOk
    ensures rep.ok ==>
      forall i | 0 <= i < |b.logs| ::
        b.logs[i].prevHash == (if i == 0 then "" else b.logs[i - 1].hash)
        && if b.masked then b.logs[i].hash != ""
           else b.logs[i].hash == ComplianceHash(c.text, b.logs[i].prevHash, b.logs[i])
    ensures rep.ok ==>
      forall d | d in b.checkpoints && d.kind == "daily" && d.tsaStatus == "ok" && d.tsaToken != [] ::
        exists i | 0 <= i <= |d.tsaToken| :: c.node(FromHex(d.root)) <= d.tsaToken[i..]
    ensures rep.sigChecked <==> pub.Some? && exists d | d in OfKind(b.checkpoints, DAILY) :: d.signature != ""
    ensures rep.checkedRecords == |b.logs| <==> RecordsGood(c, b)
    ensures rep.failedBucket != 0 ==>
      exists cp | cp in OfKind(b.checkpoints, HOURLY) :: !HourGood(c, b.logs, cp) && rep.failedBucket == cp.bucketStart
    ensures !RecordsGood(c, b) ==> rep.checkedRecords < |b.logs| && rep.brokenSeq == b.logs[rep.checkedRecords].seqNo
  {
    hide FromHex, Root, LinkGood, HourGood, Linked, DayRootGood, StampGood, SignatureGood, Roots, OfKind;
    var checked, brokenSeq := CheckRecords(c, b);
    var hoursOk, failedBucket, hourlyRoots := CheckHours(c, b);
    var linksOk := CheckLinks(b.checkpoints);
    var daysOk, stampsOk, sigsOk, sigChecked := CheckDays(c, b.checkpoints, hourlyRoots, pub);
    StampedSeals(c, b.checkpoints);
    if checked == |b.logs| { RecordsLinked(c, b); }
    rep := Report(checked == |b.logs| && hoursOk && linksOk && daysOk && stampsOk && sigsOk,
                  checked, brokenSeq, hoursOk && linksOk, failedBucket, daysOk, sigsOk, sigChecked);
  }

  // ----- what an accepted bundle pins down -----

  lemma {:induction false} SameHours(a: seq<Log>, b: seq<Log>, hour: int)
    requires |a| == |b| && forall k | 0 <= k < |a| :: b[k].hash == a[k].hash && b[k].ts == a[k].ts
    ensures HourHashes(a, hour) == HourHashes(b, hour)
  {
    hide FromHex;
    if a != [] { SameHours(a[..|a| - 1], b[..|b| - 1], hour); }
  }

  /** Exchanging the records for others with the same hashes and times goes unnoticed if their chain is intact. */
  lemma Exchanged(c: Crypto, a: Bundle, logs: seq<Log>, pub: Option<PublicKey>)
    requires Good(c, a, pub) && ChainOk(c.text, logs)
    requires |logs| == |a.logs|
    requires forall k | 0 <= k < |logs| :: logs[k].hash == a.logs[k].hash && logs[k].ts == a.logs[k].ts
    ensures Good(c, Bundle(false, logs, a.checkpoints), pub)
  {
    hide ChainOk, RecordsGood, HourHashes, Root, FromHex, Linked, DayRootGood, StampGood, SignatureGood;
    var b := Bundle(false, logs, a.checkpoints);
    UnmaskedIsChain(c, b);
    forall cp | cp in OfKind(b.checkpoints, HOURLY) ensures HourGood(c, logs, cp) {
      assert HourGood(c, a.logs, cp);
      SameHours(a.logs, logs, cp.bucketStart);
    }
  }

  /** Another unmasked bundle that is accepted and ends in the same hash. */
  ghost predicate Rivals(c: Crypto, a: Bundle, b: Bundle, pub: Option<PublicKey>) {
    a.logs != [] && !b.masked && Good(c, b, pub) && b.logs != []
      && b.logs[|b.logs| - 1].hash == a.logs[|a.logs| - 1].hash
    && NoCollision(c.text, HashedTexts(a.logs) + HashedTexts(b.logs))
  }

  ghost predicate Pinned(c: Crypto, a: Bundle, pub: Option<PublicKey>) {
    forall b | Rivals(c, a, b, pub) :: SameLogs(a.logs, b.logs)
  }

  /** Without masking, the record check is the chain check. */
  lemma UnmaskedIsChain(c: Crypto, b: Bundle)
    requires !b.masked
    ensures RecordsGood(c, b) <==> ChainOk(c.text, b.logs)
  {
    hide ComplianceHash;
    if RecordsGood(c, b) {
      forall i | 0 <= i < |b.logs|
        ensures b.logs[i].prevHash == PrevOf(b.logs, i)
                && b.logs[i].hash == ComplianceHash(c.text, PrevOf(b.logs, i), b.logs[i])
      {
        assert LinkGood(c, b, i);
      }
    }
    if ChainOk(c.text, b.logs) {
      forall i | 0 <= i < |b.logs| ensures LinkGood(c, b, i) { LinkOf(c.text, b.logs, i); }
    }
  }

  lemma UnmaskedChain(c: Crypto, a: Bundle, pub: Option<PublicKey>)
    requires Good(c, a, pub) && !a.masked
    ensures ChainOk(c.text, a.logs)
  {
    hide RecordsGood, ChainOk, HourGood, Linked, DayRootGood, StampGood, SignatureGood;
    UnmaskedIsChain(c, a);
  }

  lemma CleanIsPinned(c: Crypto, a: Bundle, b: Bundle, pub: Option<PublicKey>)
    requires Good(c, a, pub) && !a.masked && Rivals(c, a, b, pub) && forall l | l in a.logs :: Clean(l.Texts())
    ensures SameLogs(a.logs, b.logs)
  {
    hide ChainOk, NoCollision, HashedTexts, Clean, SameLogs, Log.Texts, Log.Heads, Good;
    UnmaskedChain(c, a, pub);
    UnmaskedChain(c, b, pub);
    TamperEvidence(c.text, a.logs, b.logs);
  }

  lemma Exchange(c: Crypto, a: Bundle, i: nat, pub: Option<PublicKey>) returns (b: Bundle)
    requires Good(c, a, pub) && !a.masked && i < |a.logs| && !Clean(a.logs[i].Texts())
    ensures Good(c, b, pub) && !b.masked && |b.logs| == |a.logs| && !SameLogs(a.logs, b.logs)
    ensures b.logs[|b.logs| - 1].hash == a.logs[|a.logs| - 1].hash && HashedTexts(b.logs) == HashedTexts(a.logs)
  {
    hide ChainOk, HashedTexts, Clean, SameLogs, Log.Texts, Good, ComplianceHash, PrevOf;
    UnmaskedChain(c, a, pub);
    var logs := TamperUnseen(c.text, a.logs, i);
    Exchanged(c, a, logs, pub);
    b := Bundle(false, logs, a.checkpoints);
  }

  lemma SeparatorUnpins(c: Crypto, a: Bundle, pub: Option<PublicKey>, i: nat)
    requires Good(c, a, pub) && !a.masked && NoCollision(c.text, HashedTexts(a.logs))
    requires i < |a.logs| && !Clean(a.logs[i].Texts())
    ensures !Pinned(c, a, pub)
  {
    hide ChainOk, NoCollision, HashedTexts, Clean, SameLogs, Log.Texts, Good;
    var b := Exchange(c, a, i, pub);
    assert HashedTexts(a.logs) + HashedTexts(b.logs) == HashedTexts(a.logs);
    assert Rivals(c, a, b, pub);
  }

  /** The records of an accepted, unmasked bundle are the only ones an accepted bundle with that last hash
      can hold, exactly when no text field of theirs holds a separator. */
  lemma AcceptedIsPinned(c: Crypto, a: Bundle, pub: Option<PublicKey>)
    requires Good(c, a, pub) && !a.masked && NoCollision(c.text, HashedTexts(a.logs))
    ensures (forall l | l in a.logs :: Clean(l.Texts())) <==> Pinned(c, a, pub)
  {
    hide Good, Rivals, NoCollision, HashedTexts, Clean, SameLogs, Log.Texts;
    if forall l | l in a.logs :: Clean(l.Texts()) {
      forall b | Rivals(c, a, b, pub) ensures SameLogs(a.logs, b.logs) { CleanIsPinned(c, a, b, pub); }
    } else {
      var l :| l in a.logs && !Clean(l.Texts());
      var i :| 0 <= i < |a.logs| && a.logs[i] == l;
      SeparatorUnpins(c, a, pub, i);
    }
  }
}
