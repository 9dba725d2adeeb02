/** The record chain of internal/store/compliance.go: what its hash binds, and what it leaves open. */
module LogChain {
  import opened Merkle
  import opened Text

  type TextHash = string -> Digest

  // ----- hexadecimal text -----

  const HEX := "0123456789abcdef"

  function ToHex(b: Bytes): (s: string)
    ensures |s| == 2 * |b| && '|' !in s
  {
    if b == [] then "" else [HEX[b[0] / 16], HEX[b[0] % 16]] + ToHex(b[1..])
  }

  function Nibble(c: char): int {
    if '0' <= c <= '9' then c as int - '0' as int
    else if 'a' <= c <= 'f' then c as int - 'a' as int + 10
    else if 'A' <= c <= 'F' then c as int - 'A' as int + 10
    else -1
  }

  /** hex.DecodeString with its error ignored: the bytes in front of the first bad pair. */
  function FromHex(s: string): Bytes {
    if |s| < 2 || Nibble(s[0]) < 0 || Nibble(s[1]) < 0 then []
    else [Nibble(s[0]) * 16 + Nibble(s[1])] + FromHex(s[2..])
  }

  lemma NibbleOfHex(n: nat)
    requires n < 16
    ensures Nibble(HEX[n]) == n
  {
    if n < 8 { } else { }
  }

  lemma {:induction false} HexRoundTrip(b: Bytes)
    ensures FromHex(ToHex(b)) == b
  {
    hide Nibble;
    if b != [] {
      var hi, lo: nat := b[0] / 16, b[0] % 16;
      NibbleOfHex(hi);
      NibbleOfHex(lo);
      var s := ToHex(b);
      assert s == [HEX[hi], HEX[lo]] + ToHex(b[1..]);
      assert s[0] == HEX[hi] && s[1] == HEX[lo] && s[2..] == ToHex(b[1..]);
      HexRoundTrip(b[1..]);
      assert FromHex(s) == [hi * 16 + lo] + FromHex(s[2..]);
      assert b == [b[0]] + b[1..];
    }
  }

  // ----- joined fields -----

  function Join(fs: seq<string>): string {
    if fs == [] then "" else if |fs| == 1 then fs[0] else fs[0] + "|" + Join(fs[1..])
  }

  lemma InFirst(a: string, r: string, k: nat)
    ensures k < |a| ==> (a + "|" + r)[k] == a[k] && a[k] in a
  {}

  lemma FirstField(a: string, r: string, b: string, s: string)
    requires '|' !in a && '|' !in b && a + "|" + r == b + "|" + s
    ensures a == b && r == s
  {
    var x, y := a + "|" + r, b + "|" + s;
    assert x[|a|] == '|' && y[|b|] == '|';
    InFirst(b, s, |a|);
    InFirst(a, r, |b|);
    assert x[..|a|] == a && y[..|b|] == b;
    assert x[|a| + 1..] == r && y[|b| + 1..] == s;
  }

  /** Equally many fields, none but the last with a separator inside: the joined text fixes them. */
  lemma {:induction false} JoinInjective(fs: seq<string>, gs: seq<string>)
    requires |fs| == |gs|
    requires forall i | 0 <= i < |fs| - 1 :: '|' !in fs[i] && '|' !in gs[i]
    requires Join(fs) == Join(gs)
    ensures fs == gs
  {
    if |fs| == 1 {
      assert fs == [fs[0]] && gs == [gs[0]];
    } else if |fs| > 1 {
      FirstField(fs[0], Join(fs[1..]), gs[0], Join(gs[1..]));
      JoinInjective(fs[1..], gs[1..]);
      assert fs == [fs[0]] + fs[1..] && gs == [gs[0]] + gs[1..];
    }
  }

  function Pipes(s: string): nat {
    if s == "" then 0 else (if s[0] == '|' then 1 else 0) + Pipes(s[1..])
  }

  lemma {:induction false} PipesAdd(s: string, t: string)
    ensures Pipes(s + t) == Pipes(s) + Pipes(t)
  {
    if s == "" {
      assert s + t == t;
    } else {
      PipesAdd(s[1..], t);
      assert (s + t)[1..] == s[1..] + t;
    }
  }

  lemma {:induction false} NoPipes(s: string)
    ensures Pipes(s) == 0 <==> '|' !in s
  {
    if s != "" {
      NoPipes(s[1..]);
      assert s == [s[0]] + s[1..];
    }
  }

  function AllPipes(fs: seq<string>): nat {
    if fs == [] then 0 else Pipes(fs[0]) + AllPipes(fs[1..])
  }

  lemma {:induction false} PipesOfJoin(fs: seq<string>)
    requires fs != []
    ensures Pipes(Join(fs)) == AllPipes(fs) + |fs| - 1
  {
    if |fs| > 1 {
      PipesOfJoin(fs[1..]);
      PipesAdd(fs[0] + "|", Join(fs[1..]));
      PipesAdd(fs[0], "|");
    }
  }

  lemma {:induction false} NoneInAny(fs: seq<string>)
    ensures AllPipes(fs) == 0 <==> forall f | f in fs :: '|' !in f
  {
    if fs != [] {
      NoPipes(fs[0]);
      NoneInAny(fs[1..]);
      assert fs == [fs[0]] + fs[1..];
    }
  }

  // ----- records -----

  datatype Log = Log(seqNo: int, ts: int, sourceType: string, sourceName: string, srcIP: string, srcMAC: string,
                     userID: string, category: string, message: string, prevHash: string, hash: string) {
    /** The six text fields in front of the message. */
    function Heads(): seq<string> { [sourceType, sourceName, srcIP, srcMAC, userID, category] }

    function Texts(): seq<string> { Heads() + [message] }

    /** What the hash covers: everything but the sequence number. */
    predicate SameContent(other: Log) {
      ts == other.ts && sourceType == other.sourceType && sourceName == other.sourceName && srcIP == other.srcIP
      && srcMAC == other.srcMAC && userID == other.userID && category == other.category && message == other.message
    }
  }

  function Fields(prev: string, l: Log): seq<string> {
    [prev, Decimal(l.ts)] + l.Texts()
  }

  /** The text that is hashed: the fields behind each other, with a separator that is not escaped. */
  function Canon(prev: string, l: Log): string { Join(Fields(prev, l)) }

  /** The order of the fields. */
  lemma CanonText(prev: string, l: Log)
    ensures Canon(prev, l)
         == prev + "|" + (Decimal(l.ts) + "|" + (l.sourceType + "|" + (l.sourceName + "|" + (l.srcIP + "|"
            + (l.srcMAC + "|" + (l.userID + "|" + (l.category + "|" + l.message)))))))
  {
    hide Decimal;
    var fs := Fields(prev, l);
    JoinStep(fs);
    JoinStep(fs[1..]);
    JoinStep(fs[2..]);
    JoinStep(fs[3..]);
    JoinStep(fs[4..]);
    JoinStep(fs[5..]);
    JoinStep(fs[6..]);
    JoinStep(fs[7..]);
    assert fs[8..] == [l.message];
  }

  lemma JoinStep(fs: seq<string>)
    requires |fs| > 1
    ensures Join(fs) == fs[0] + "|" + Join(fs[1..])
  {}

  function ComplianceHash(t: TextHash, prev: string, l: Log): (s: string)
    ensures |s| == 64 && '|' !in s
  {
    ToHex(t(Canon(prev, l)))
  }

  predicate Clean(fs: seq<string>) { forall f | f in fs :: '|' !in f }

  /** Records whose fields in front of the message are free of the separator are fixed by the text. */
  lemma CanonBinds(p: string, l: Log, q: string, m: Log)
    requires '|' !in p && '|' !in q && Clean(l.Heads()) && Clean(m.Heads())
    requires Canon(p, l) == Canon(q, m)
    ensures p == q && l.SameContent(m)
  {
    var fs, gs := Fields(p, l), Fields(q, m);
    assert forall i | 2 <= i < 8 :: fs[i] == l.Heads()[i - 2] && gs[i] == m.Heads()[i - 2];
    JoinInjective(fs, gs);
    DecimalInjective(l.ts, m.ts);
    assert fs[0] == gs[0] && fs[1] == gs[1] && fs[2] == gs[2] && fs[3] == gs[3] && fs[4] == gs[4]
        && fs[5] == gs[5] && fs[6] == gs[6] && fs[7] == gs[7] && fs[8] == gs[8];
  }

  /** Moving the text around a separator from one field to the next leaves the joined text as it is. */
  lemma {:induction false} ShiftJoin(fs: seq<string>, i: nat, x: string, y: string)
    requires i + 1 < |fs|
    ensures fs[i] == x + "|" + y ==> Join(fs[i := x][i + 1 := y + "|" + fs[i + 1]]) == Join(fs)
    ensures fs[i + 1] == x + "|" + y ==> Join(fs[i := fs[i] + "|" + x][i + 1 := y]) == Join(fs)
  {
    var f, g := fs[i], fs[i + 1];
    if i == 0 {
      var rest := fs[2..];
      var a, b := fs[0 := x][1 := y + "|" + g], fs[0 := f + "|" + x][1 := y];
      assert a[1..] == [y + "|" + g] + rest && b[1..] == [y] + rest && fs[1..] == [g] + rest;
      JoinHead(y + "|" + g, g, y + "|", rest);
      JoinHead(g, y, x + "|", rest);
      if f == x + "|" + y {
        assert Join(a) == x + "|" + (y + "|" + Join([g] + rest)) == f + "|" + Join([g] + rest);
      }
      if g == x + "|" + y {
        assert Join(b) == (f + "|" + x) + "|" + Join([y] + rest) == f + "|" + (x + "|" + Join([y] + rest));
      }
    } else {
      ShiftJoin(fs[1..], i - 1, x, y);
      assert fs[i := x][i + 1 := y + "|" + g][1..] == fs[1..][i - 1 := x][i := y + "|" + g];
      assert fs[i := f + "|" + x][i + 1 := y][1..] == fs[1..][i - 1 := f + "|" + x][i := y];
    }
  }

  lemma JoinHead(whole: string, g: string, prefix: string, rest: seq<string>)
    ensures whole == prefix + g ==> Join([whole] + rest) == prefix + Join([g] + rest)
  {
    assert ([whole] + rest)[1..] == rest && ([g] + rest)[1..] == rest;
    if whole == prefix + g && rest != [] {
      assert prefix + g + "|" + Join(rest) == prefix + (g + "|" + Join(rest));
    }
  }

  function WithFields(l: Log, fs: seq<string>): Log
    requires |fs| == 9
  {
    l.(sourceType := fs[2], sourceName := fs[3], srcIP := fs[4], srcMAC := fs[5], userID := fs[6], category := fs[7],
       message := fs[8])
  }

  lemma Rewritten(prev: string, l: Log, gs: seq<string>, k: nat)
    requires |gs| == 9 && gs[0] == prev && gs[1] == Decimal(l.ts)
    requires 2 <= k < 9 && gs[k] != Fields(prev, l)[k]
    ensures var m := WithFields(l, gs); Fields(prev, m) == gs && !m.SameContent(l) && m.ts == l.ts
  {
    hide Decimal;
  }

  lemma FieldsAre(prev: string, l: Log)
    ensures var fs, texts := Fields(prev, l), l.Texts();
      |fs| == 9 && fs[0] == prev && fs[1] == Decimal(l.ts) && forall i | 0 <= i < 7 :: fs[i + 2] == texts[i]
  {
    hide Decimal;
  }

  /** A record with a separator in any of its seven text fields has a different twin with the same text. */
  lemma Twin(prev: string, l: Log) returns (m: Log)
    requires !Clean(l.Texts())
    ensures Canon(prev, m) == Canon(prev, l) && !m.SameContent(l) && m.ts == l.ts
  {
    FieldsAre(prev, l);
    hide Join, Decimal, Fields, WithFields, Log.SameContent;
    var texts := l.Texts();
    var k :| 0 <= k < 7 && '|' in texts[k];
    var p :| 0 <= p < |texts[k]| && texts[k][p] == '|';
    var x, y := texts[k][..p], texts[k][p + 1..];
    assert texts[k] == x + "|" + y;
    var fs, gs := Fields(prev, l), [];
    if k < 6 {
      ShiftJoin(fs, k + 2, x, y);
      gs := fs[k + 2 := x][k + 3 := y + "|" + fs[k + 3]];
    } else {
      ShiftJoin(fs, 7, x, y);
      gs := fs[7 := fs[7] + "|" + x][8 := y];
    }
    Rewritten(prev, l, gs, k + 2);
    m := WithFields(l, gs);
  }

  /** A record with the same text as a clean one is clean itself: separators are only shifted, never lost. */
  lemma CleanToo(p: string, l: Log, q: string, m: Log)
    requires '|' !in p && '|' !in q && Clean(l.Texts()) && Canon(p, l) == Canon(q, m)
    ensures Clean(m.Texts())
  {
    hide Join, Decimal;
    assert Fields(p, l) == [p, Decimal(l.ts)] + l.Texts() && Fields(q, m) == [q, Decimal(m.ts)] + m.Texts();
    hide Fields, Log.Texts;
    PipesOfJoin(Fields(p, l));
    PipesOfJoin(Fields(q, m));
    SplitPipes(p, Decimal(l.ts), l.Texts());
    SplitPipes(q, Decimal(m.ts), m.Texts());
    NoneInAny(l.Texts());
    NoneInAny(m.Texts());
  }

  lemma SplitPipes(a: string, b: string, fs: seq<string>)
    requires '|' !in a && '|' !in b
    ensures AllPipes([a, b] + fs) == AllPipes(fs)
  {
    NoPipes(a);
    NoPipes(b);
    assert ([a, b] + fs)[1..] == [b] + fs && ([b] + fs)[1..] == fs;
  }

  /** Two records whose hashed texts cannot be confused: either both are clean in front of the
      message, or one of them is clean all through. */
  predicate Distinct(l: Log, m: Log) {
    (Clean(l.Heads()) && Clean(m.Heads())) || Clean(l.Texts())
  }

  lemma TextBinds(p: string, l: Log, q: string, m: Log)
    requires '|' !in p && '|' !in q && Distinct(l, m) && Canon(p, l) == Canon(q, m)
    ensures p == q && l.SameContent(m)
  {
    if Clean(l.Texts()) {
      CleanToo(p, l, q, m);
      CleanHeads(l);
      CleanHeads(m);
    }
    hide Canon;
    CanonBinds(p, l, q, m);
  }

  lemma CleanHeads(l: Log)
    requires Clean(l.Texts())
    ensures Clean(l.Heads())
  {
    assert forall f | f in l.Heads() :: f in l.Texts();
  }

  /** Exactly the records without a separator in any text field are determined by the hashed text. */
  lemma CanonIsUnique(prev: string, l: Log)
    requires '|' !in prev
    ensures Clean(l.Texts()) <==> forall m: Log | Canon(prev, m) == Canon(prev, l) :: m.SameContent(l)
  {
    hide Canon, Log.Texts, Log.SameContent;
    if Clean(l.Texts()) {
      forall m: Log | Canon(prev, m) == Canon(prev, l) ensures m.SameContent(l) {
        TextBinds(prev, l, prev, m);
        SameEitherWay(l, m);
      }
    } else {
      var m := Twin(prev, l);
    }
  }

  lemma SameEitherWay(l: Log, m: Log)
    ensures l.SameContent(m) <==> m.SameContent(l)
  {}

  // ----- the chain -----

  function PrevOf(logs: seq<Log>, i: nat): string
    requires i < |logs|
  {
    if i == 0 then "" else logs[i - 1].hash
  }

  /** The record check of VerifyBundle on an unmasked bundle, all along the list. */
  predicate ChainOk(t: TextHash, logs: seq<Log>) {
    forall i | 0 <= i < |logs| ::
      logs[i].prevHash == PrevOf(logs, i) && logs[i].hash == ComplianceHash(t, PrevOf(logs, i), logs[i])
  }

  ghost function HashedTexts(logs: seq<Log>): set<string> {
    set i | 0 <= i < |logs| :: TextAt(logs, i)
  }

  function TextAt(logs: seq<Log>, i: nat): string
    requires i < |logs|
  {
    Canon(PrevOf(logs, i), logs[i])
  }

  ghost predicate NoCollision(t: TextHash, texts: set<string>) {
    forall x, y | x in texts && y in texts && t(x) == t(y) :: x == y
  }

  lemma ToHexInjective(a: Bytes, b: Bytes)
    requires ToHex(a) == ToHex(b)
    ensures a == b
  {
    HexRoundTrip(a);
    HexRoundTrip(b);
  }

  /** One step back along two chains: equal hashes come from equal records behind equal hashes. */
  lemma StepBack(t: TextHash, a: seq<Log>, b: seq<Log>, i: nat, j: nat)
    requires ChainOk(t, a) && ChainOk(t, b) && i < |a| && j < |b| && a[i].hash == b[j].hash
    requires NoCollision(t, HashedTexts(a) + HashedTexts(b))
    requires forall l, m | l in a && m in b :: Distinct(l, m)
    ensures a[i].SameContent(b[j]) && PrevOf(a, i) == PrevOf(b, j) && (i == 0 <==> j == 0)
  {
    hide ChainOk, Canon, Distinct, NoCollision, HashedTexts, ToHex, Log.SameContent;
    var p, q := PrevOf(a, i), PrevOf(b, j);
    LinkOf(t, a, i);
    LinkOf(t, b, j);
    ToHexInjective(t(Canon(p, a[i])), t(Canon(q, b[j])));
    TextOf(a, i);
    TextOf(b, j);
    SameText(t, HashedTexts(a) + HashedTexts(b), Canon(p, a[i]), Canon(q, b[j]));
    PrevClean(t, a, i);
    PrevClean(t, b, j);
    assert a[i] in a && b[j] in b;
    TextBinds(p, a[i], q, b[j]);
  }

  lemma TextOf(a: seq<Log>, i: nat)
    requires i < |a|
    ensures Canon(PrevOf(a, i), a[i]) in HashedTexts(a)
  {
    assert TextAt(a, i) in HashedTexts(a);
  }

  lemma SameText(t: TextHash, texts: set<string>, x: string, y: string)
    requires NoCollision(t, texts) && x in texts && y in texts && t(x) == t(y)
    ensures x == y
  {}

  lemma PrevClean(t: TextHash, a: seq<Log>, i: nat)
    requires ChainOk(t, a) && i < |a|
    ensures '|' !in PrevOf(a, i) && |PrevOf(a, i)| == if i == 0 then 0 else 64
  {
    if i > 0 { assert a[i - 1].hash == ComplianceHash(t, PrevOf(a, i - 1), a[i - 1]); }
  }

  lemma TextNamesPrev(p: string, l: Log, q: string, m: Log)
    requires '|' !in p && '|' !in q && Canon(p, l) == Canon(q, m)
    ensures p == q
  {
    hide Decimal;
    FirstField(p, Join(Fields(p, l)[1..]), q, Join(Fields(q, m)[1..]));
  }

  /** No two records of an intact chain have the same hash: each text starts with the hash before it. */
  lemma {:induction false} HashesDiffer(t: TextHash, a: seq<Log>, i: nat, j: nat)
    requires ChainOk(t, a) && i < |a| && j < |a| && NoCollision(t, HashedTexts(a)) && a[i].hash == a[j].hash
    ensures i == j
  {
    hide ChainOk, Canon, NoCollision, HashedTexts, ToHex;
    var p, q := PrevOf(a, i), PrevOf(a, j);
    LinkOf(t, a, i);
    LinkOf(t, a, j);
    ToHexInjective(t(Canon(p, a[i])), t(Canon(q, a[j])));
    TextOf(a, i);
    TextOf(a, j);
    SameText(t, HashedTexts(a), Canon(p, a[i]), Canon(q, a[j]));
    PrevClean(t, a, i);
    PrevClean(t, a, j);
    TextNamesPrev(p, a[i], q, a[j]);
    if i > 0 && j > 0 { HashesDiffer(t, a, i - 1, j - 1); }
  }

  ghost predicate SameLogs(a: seq<Log>, b: seq<Log>) {
    |a| == |b| && forall i | 0 <= i < |a| ::
      a[i].SameContent(b[i]) && a[i].prevHash == b[i].prevHash && a[i].hash == b[i].hash
  }

  /** Two verified chains that meet in one hash agree all the way back to the start. */
  lemma {:induction false} ChainsAgree(t: TextHash, a: seq<Log>, b: seq<Log>, i: nat, j: nat)
    requires ChainOk(t, a) && ChainOk(t, b) && i < |a| && j < |b| && a[i].hash == b[j].hash
    requires NoCollision(t, HashedTexts(a) + HashedTexts(b))
    requires forall l, m | l in a && m in b :: Distinct(l, m)
    ensures i == j && SameLogs(a[..i + 1], b[..j + 1])
  {
    hide ChainOk, Canon, ComplianceHash, NoCollision, HashedTexts, Log.SameContent, SameLogs, Distinct;
    StepBack(t, a, b, i, j);
    LinkOf(t, a, i);
    LinkOf(t, b, j);
    if i > 0 {
      ChainsAgree(t, a, b, i - 1, j - 1);
    } else {
      NoLogs(a[..0], b[..0]);
    }
    SameLogsGrow(a, b, i);
  }

  lemma LinkOf(t: TextHash, a: seq<Log>, i: nat)
    requires ChainOk(t, a) && i < |a|
    ensures a[i].prevHash == PrevOf(a, i) && a[i].hash == ComplianceHash(t, PrevOf(a, i), a[i])
  {}

  lemma NoLogs(a: seq<Log>, b: seq<Log>)
    requires a == [] && b == []
    ensures SameLogs(a, b)
  {}

  lemma SameLogsGrow(a: seq<Log>, b: seq<Log>, i: nat)
    requires i < |a| && i < |b| && SameLogs(a[..i], b[..i])
    requires a[i].SameContent(b[i]) && a[i].prevHash == b[i].prevHash && a[i].hash == b[i].hash
    ensures SameLogs(a[..i + 1], b[..i + 1])
  {
    hide Log.SameContent;
    var p, q := a[..i + 1], b[..i + 1];
    forall k | 0 <= k < i + 1
      ensures p[k].SameContent(q[k]) && p[k].prevHash == q[k].prevHash && p[k].hash == q[k].hash
    {
      if k < i { assert a[..i][k] == p[k] && b[..i][k] == q[k]; }
    }
  }

  /** Tamper evidence: unmasked bundles that pass the record check and end in the same hash hold the
      same records, if no two of their records can be confused. */
  lemma TamperEvidence(t: TextHash, a: seq<Log>, b: seq<Log>)
    requires ChainOk(t, a) && ChainOk(t, b) && a != [] && b != [] && a[|a| - 1].hash == b[|b| - 1].hash
    requires NoCollision(t, HashedTexts(a) + HashedTexts(b))
    requires forall l, m | l in a && m in b :: Distinct(l, m)
    ensures SameLogs(a, b)
  {
    hide ChainOk, NoCollision, HashedTexts, Distinct, SameLogs;
    ChainsAgree(t, a, b, |a| - 1, |b| - 1);
    assert a[..|a|] == a && b[..|b|] == b;
  }

  /** Replacing the record at `i` by one with the same hashed text keeps a chain intact. */
  lemma ReplaceOne(t: TextHash, a: seq<Log>, i: nat, m: Log)
    requires ChainOk(t, a) && i < |a| && m.prevHash == a[i].prevHash && m.hash == a[i].hash
    requires Canon(PrevOf(a, i), m) == Canon(PrevOf(a, i), a[i])
    ensures ChainOk(t, a[i := m])
  {
    hide Canon, ToHex;
    var b := a[i := m];
    forall k | 0 <= k < |b|
      ensures b[k].prevHash == PrevOf(b, k) && b[k].hash == ComplianceHash(t, PrevOf(b, k), b[k])
    {
      assert PrevOf(b, k) == PrevOf(a, k);
    }
  }

  lemma TextsKept(a: seq<Log>, i: nat, m: Log)
    requires i < |a| && m.hash == a[i].hash && Canon(PrevOf(a, i), m) == Canon(PrevOf(a, i), a[i])
    ensures HashedTexts(a[i := m]) == HashedTexts(a)
  {
    hide Canon;
    var b := a[i := m];
    forall k | 0 <= k < |b| ensures TextAt(b, k) == TextAt(a, k) {
      assert PrevOf(b, k) == PrevOf(a, k);
    }
    hide TextAt;
    forall x ensures x in HashedTexts(b) <==> x in HashedTexts(a) {
      if x in HashedTexts(b) { var k :| 0 <= k < |b| && x == TextAt(b, k); assert x == TextAt(a, k); }
      if x in HashedTexts(a) { var k :| 0 <= k < |a| && x == TextAt(a, k); assert x == TextAt(b, k); }
    }
  }

  lemma CanonIgnores(prev: string, l: Log, seqNo: int, prevHash: string, hash: string)
    ensures Canon(prev, l.(seqNo := seqNo, prevHash := prevHash, hash := hash)) == Canon(prev, l)
    ensures l.(seqNo := seqNo, prevHash := prevHash, hash := hash).SameContent(l)
  {}

  /** Where the promise fails: a passing bundle can swap in a different record, same hash and all, as
      soon as the record has a separator in a text field. */
  lemma TamperUnseen(t: TextHash, a: seq<Log>, i: nat) returns (b: seq<Log>)
    requires ChainOk(t, a) && i < |a| && !Clean(a[i].Texts())
    ensures ChainOk(t, b) && !SameLogs(a, b)
    ensures |b| == |a| && forall k | 0 <= k < |a| :: b[k].hash == a[k].hash && b[k].ts == a[k].ts
    ensures HashedTexts(b) == HashedTexts(a)
  {
    hide ChainOk, Canon, Clean, Log.Texts, HashedTexts, Log.SameContent;
    var twin := Twin(PrevOf(a, i), a[i]);
    var m := twin.(prevHash := a[i].prevHash, hash := a[i].hash);
    CanonIgnores(PrevOf(a, i), twin, twin.seqNo, a[i].prevHash, a[i].hash);
    assert m == twin.(seqNo := twin.seqNo, prevHash := a[i].prevHash, hash := a[i].hash);
    ReplaceOne(t, a, i, m);
    TextsKept(a, i, m);
    b := a[i := m];
    SameContentTrans(m, twin, a[i]);
    assert !a[i].SameContent(b[i]);
  }

  lemma SameContentTrans(m: Log, twin: Log, l: Log)
    requires m.SameContent(twin) && !twin.SameContent(l)
    ensures !l.SameContent(m)
  {}

  /** A passing bundle is the only one that ends in its hash, whatever fields the other one uses. */
  ghost predicate OnlyOne(t: TextHash, a: seq<Log>) {
    forall b | Rival(t, a, b) :: SameLogs(a, b)
  }

  ghost predicate Rival(t: TextHash, a: seq<Log>, b: seq<Log>) {
    a != [] && b != [] && ChainOk(t, b) && b[|b| - 1].hash == a[|a| - 1].hash
    && NoCollision(t, HashedTexts(a) + HashedTexts(b))
  }

  /** Exactly the bundles free of the separator are pinned down by their last hash. */
  lemma TamperEvidenceIsExact(t: TextHash, a: seq<Log>)
    requires ChainOk(t, a) && a != [] && NoCollision(t, HashedTexts(a))
    ensures (forall l | l in a :: Clean(l.Texts())) <==> OnlyOne(t, a)
  {
    hide ChainOk, NoCollision, HashedTexts, Clean, SameLogs, Log.Texts, Log.Heads;
    if forall l | l in a :: Clean(l.Texts()) {
      forall b | Rival(t, a, b) ensures SameLogs(a, b) {
        TamperEvidence(t, a, b);
      }
    } else {
      var l :| l in a && !Clean(l.Texts());
      var i :| 0 <= i < |a| && a[i] == l;
      var b := TamperUnseen(t, a, i);
      assert HashedTexts(a) + HashedTexts(b) == HashedTexts(a);
      assert Rival(t, a, b);
    }
  }

  /** The sequence number is not covered at all: it can be rewritten freely. */
  lemma {:induction false} SequenceIsFree(t: TextHash, a: seq<Log>, i: nat, n: int) returns (b: seq<Log>)
    requires ChainOk(t, a) && i < |a|
    ensures ChainOk(t, b) && |b| == |a| && b[i].seqNo == n && forall k | 0 <= k < |a| :: b[k].hash == a[k].hash
  {
    hide ChainOk, Canon;
    CanonIgnores(PrevOf(a, i), a[i], n, a[i].prevHash, a[i].hash);
    var m := a[i].(seqNo := n);
    assert m == a[i].(seqNo := n, prevHash := a[i].prevHash, hash := a[i].hash);
    ReplaceOne(t, a, i, m);
    b := a[i := m];
  }
}
