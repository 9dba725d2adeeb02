/** NetFlow v5: the fixed-format decoder of internal/flows/nfv5.go and the generator's buildV5 in
    cmd/bazntms-loadgen/flowgen.go. */
module NetFlow5 {
  import opened Wire
  import opened Templates
  import opened FlowGen
  import X = SFlowRoundTrip

  const HEADER := 24
  const RECORD := 48
  const NS := 1_000_000_000
  const WEEK := 7 * 24 * 3600 * NS

  // ----- the decoder -----

  /** The second a flow ended: the header's time less how long before it, by the exporter's uptime clock;
      the receiving time if that is later than now or more than a week ago. All times but the result are
      in nanoseconds; an exporter without a clock sends 0 seconds. */
  function FlowTime(uptimeMs: u32, secs: u32, lastMs: u32, receivedAt: int): int {
    var base := if secs == 0 then receivedAt else secs * NS;
    var delta := if uptimeMs < lastMs then 0 else uptimeMs - lastMs;
    var ts := base - delta * 1_000_000;
    (if ts > receivedAt || ts < receivedAt - WEEK then receivedAt else ts) / NS
  }

  /** Whatever the exporter claims, a row is dated within the week before it was received. */
  lemma FlowTimeIsSane(uptimeMs: u32, secs: u32, lastMs: u32, receivedAt: int)
    ensures receivedAt - WEEK - NS < FlowTime(uptimeMs, secs, lastMs, receivedAt) * NS <= receivedAt
  {}

  function RecordAt(payload: seq<byte>, off: nat, device: string, receivedAt: int): Row
    requires HEADER <= off && off + RECORD <= |payload|
  {
    var rec := payload[off..off + RECORD];
    Row(FlowTime(Be32(payload, 4), Be32(payload, 8), Be32(rec, 28), receivedAt), device, Host(rec[0..4]),
      Host(rec[4..8]),
        Be16(rec, 32), Be16(rec, 34), ProtoName(rec[38]), Be32(rec, 16), Be32(rec, 20))
  }

  /** The next `n` records, as far as they are there. */
  function RowsAt(payload: seq<byte>, off: nat, n: nat, device: string, receivedAt: int): seq<Row>
    requires HEADER <= off
    decreases n
  {
    if n == 0 || off + RECORD > |payload| then []
    else [RecordAt(payload, off, device, receivedAt)] + RowsAt(payload, off + RECORD, n - 1, device, receivedAt)
  }

  function V5Rows(payload: seq<byte>, device: string, receivedAt: int): seq<Row> {
    if |payload| < HEADER || Be16(payload, 0) != 5 then []
    else RowsAt(payload, HEADER, Be16(payload, 2), device, receivedAt)
  }

  method ParseV5(payload: seq<byte>, device: string, receivedAt: int) returns (rows: seq<Row>)
    ensures rows == V5Rows(payload, device, receivedAt)
  {
    hide RecordAt, Be16;
    rows := [];
    if |payload| < HEADER { return; }
    if Be16(payload, 0) != 5 { return; }
    var count: nat := Be16(payload, 2);
    ghost var goal := RowsAt(payload, HEADER, count, device, receivedAt);
    assert [] + goal == goal;
    for i := 0 to count
      invariant goal == rows + RowsAt(payload, HEADER + i * RECORD, count - i, device, receivedAt)
    {
      var off := HEADER + i * RECORD;
      if off + RECORD > |payload| { break; }
      RowsTurn(goal, rows, payload, off, count - i, device, receivedAt);
      rows := rows + [RecordAt(payload, off, device, receivedAt)];
    }
  }

  lemma RowsTurn(goal: seq<Row>, rows: seq<Row>, payload: seq<byte>, off: nat, n: nat, device: string, receivedAt: int)
    requires HEADER <= off && off + RECORD <= |payload| && n > 0
    requires goal == rows + RowsAt(payload, off, n, device, receivedAt)
    ensures goal
         == rows + [RecordAt(payload, off, device, receivedAt)]
           + RowsAt(payload, off + RECORD, n - 1, device, receivedAt)
  {
    hide RecordAt;
  }

  /** Who sent and received, what and how much, by the offsets of the format. */
  predicate ShowsRecord(row: Row, payload: seq<byte>, off: nat)
    requires off + RECORD <= |payload|
  {
    row.src == Host(payload[off..off + 4]) && row.dst == Host(payload[off + 4..off + 8])
    && row.packets == Be32(payload, off + 16) && row.octets == Be32(payload, off + 20)
    && row.srcPort == Be16(payload, off + 32) && row.dstPort == Be16(payload, off + 34)
    && row.proto == ProtoName(payload[off + 38])
  }

  /** The row of a flow that ended `ago` milliseconds before the datagram was sent at the header's second is dated
      then, unless that is in the future or more than a week past; without a clock it ended that long before it
      was received, and the end is never after the sending. */
  predicate DatedRight(row: Row, payload: seq<byte>, off: nat, receivedAt: int)
    requires HEADER <= off && off + RECORD <= |payload|
  {
    var sent := if Be32(payload, 8) == 0 then receivedAt else Be32(payload, 8) * 1_000_000_000;
    var ago: int := Be32(payload, 4) - Be32(payload, off + 28);
    var ended := if ago > 0 then sent - ago * 1_000_000 else sent;
    if receivedAt - 604_800_000_000_000 <= ended <= receivedAt then row.ts == ended / 1_000_000_000
    else row.ts == receivedAt / 1_000_000_000
  }

  lemma {:induction false} RowsLaw(payload: seq<byte>, off: nat, n: nat, device: string, receivedAt: int, i: nat)
    requires HEADER <= off && i < n && off + (i + 1) * RECORD <= |payload|
    ensures i < |RowsAt(payload, off, n, device, receivedAt)|
    ensures var row := RowsAt(payload, off, n, device, receivedAt)[i];
      row == RecordAt(payload, off + i * RECORD, device, receivedAt)
    decreases n
  {
    hide RecordAt;
    if i > 0 { RowsLaw(payload, off + RECORD, n - 1, device, receivedAt, i - 1); }
  }

  lemma {:induction false} RowsCount(payload: seq<byte>, off: nat, n: nat, device: string, receivedAt: int)
    requires HEADER <= off <= |payload|
    ensures var rows := RowsAt(payload, off, n, device, receivedAt);
      |rows| <= n && off + |rows| * RECORD <= |payload| && (|rows| < n ==> off + (|rows| + 1) * RECORD > |payload|)
    decreases n
  {
    hide RecordAt;
    if n > 0 && off + RECORD <= |payload| { RowsCount(payload, off + RECORD, n - 1, device, receivedAt); }
  }

  lemma RecordShows(payload: seq<byte>, off: nat, device: string, receivedAt: int)
    requires HEADER <= off && off + RECORD <= |payload|
    ensures var row := RecordAt(payload, off, device, receivedAt);
      row.device == device && ShowsRecord(row, payload, off) && DatedRight(row, payload, off, receivedAt)
  {
    SliceOf(payload, off, 0, 4);
    SliceOf(payload, off, 4, 8);
  }

  lemma SliceOf(payload: seq<byte>, off: nat, a: nat, b: nat)
    requires off + RECORD <= |payload| && a <= b <= RECORD
    ensures payload[off..off + RECORD][a..b] == payload[off + a..off + b]
  {
    var x, y := payload[off..off + RECORD][a..b], payload[off + a..off + b];
    forall k | 0 <= k < b - a ensures x[k] == y[k] {
      var j := off + a + k;
      assert x[k] == payload[j] && y[k] == payload[j];
    }
    assert |x| == |y|;
  }

  /** Any datagram: as many rows as are announced and there, each showing its own record. */
  lemma {:induction false} EveryRecordShows(payload: seq<byte>, device: string, receivedAt: int)
    requires |payload| >= HEADER && Be16(payload, 0) == 5
    ensures var rows := V5Rows(payload, device, receivedAt);
      |rows| <= Be16(payload, 2) && HEADER + |rows| * RECORD <= |payload|
      && (|rows| < Be16(payload, 2) ==> HEADER + (|rows| + 1) * RECORD > |payload|)
    ensures forall i: nat | i < |V5Rows(payload, device, receivedAt)| ::
      var row := V5Rows(payload, device, receivedAt)[i];
      HEADER + (i + 1) * RECORD <= |payload| && row.device == device && ShowsRecord(row, payload, HEADER + i * RECORD)
      && DatedRight(row, payload, HEADER + i * RECORD, receivedAt)
  {
    hide RecordAt, ShowsRecord, DatedRight, RowsAt, Be16;
    RowsCount(payload, HEADER, Be16(payload, 2), device, receivedAt);
    forall i: nat | i < |V5Rows(payload, device, receivedAt)|
      ensures HEADER + (i + 1) * RECORD <= |payload|
      ensures var row := V5Rows(payload, device, receivedAt)[i];
        row.device == device && ShowsRecord(row, payload, HEADER + i * RECORD)
        && DatedRight(row, payload, HEADER + i * RECORD, receivedAt)
    {
      RowsLaw(payload, HEADER, Be16(payload, 2), device, receivedAt, i);
      RecordShows(payload, HEADER + i * RECORD, device, receivedAt);
    }
  }

  // ----- the generator -----

  function EncRec5(r: FlowRec): (b: seq<byte>)
    ensures |b| == RECORD
  {
    r.src + r.dst + X.Zeros(8) + Put32(r.packets) + Put32(r.bytes) + X.Zeros(8) + Put16(r.sport) + Put16(r.dport)
    + X.Zeros(2) + [r.proto] + X.Zeros(9)
  }

  function EncRecs5(recs: seq<FlowRec>): (b: seq<byte>)
    ensures |b| == RECORD * |recs|
  {
    if recs == [] then [] else EncRecs5(recs[..|recs| - 1]) + EncRec5(recs[|recs| - 1])
  }

  function Header5(count: nat, exporter: nat, now: Clock, nanos: nat): (b: seq<byte>)
    ensures |b| == HEADER
  {
    Put16(5) + Put16(count) + Put32(now.millis % 0x8000_0000) + Put32(now.secs) + Put32(nanos) + Put32(exporter)
      + X.Zeros(4)
  }

  function Datagram5(recs: seq<FlowRec>, exporter: nat, now: Clock, nanos: nat): seq<byte> {
    Header5(|recs|, exporter, now, nanos) + EncRecs5(recs)
  }

  predicate ZeroFrom(s: seq<byte>, k: nat) { forall i | k <= i < |s| :: s[i] == 0 }

  lemma Gap(s: seq<byte>, a: nat, k: nat)
    requires a + k <= |s| && ZeroFrom(s, a)
    ensures s[..a + k] == s[..a] + X.Zeros(k)
  {}

  /** PutUint16, PutUint32 and copy all write some bytes in place; the rest stays zero. */
  method Write(b: array<byte>, off: nat, part: seq<byte>)
    requires off + |part| <= b.Length && ZeroFrom(b[..], off)
    modifies b
    ensures b[..off + |part|] == old(b[..off]) + part && ZeroFrom(b[..], off + |part|)
  {
    CopyTo(b, off, part);
    forall i | off + |part| <= i < b.Length ensures b[i] == 0 {
      assert b[i] == b[off + |part|..][i - off - |part|] == old(b[..])[i];
    }
  }

  method PutRecord(b: array<byte>, off: nat, r: FlowRec)
    requires off + RECORD <= b.Length && ZeroFrom(b[..], off)
    modifies b
    ensures b[..off + RECORD] == old(b[..off]) + EncRec5(r) && ZeroFrom(b[..], off + RECORD)
  {
    hide Put16, Put32, X.Zeros, ZeroFrom;
    ghost var pre := b[..off];
    Write(b, off, r.src);
    Write(b, off + 4, r.dst);
    Skip(b, off + 8, 8);
    Write(b, off + 16, Put32(r.packets));
    Write(b, off + 20, Put32(r.bytes));
    ghost var half := r.src + r.dst + X.Zeros(8) + Put32(r.packets) + Put32(r.bytes);
    assert b[..off + 24] == pre + half;
    Skip(b, off + 24, 8);
    Write(b, off + 32, Put16(r.sport));
    Write(b, off + 34, Put16(r.dport));
    Skip(b, off + 36, 2);
    assert b[..off + 38] == pre + (half + X.Zeros(8) + Put16(r.sport) + Put16(r.dport) + X.Zeros(2));
    Write(b, off + 38, [r.proto]);
    Skip(b, off + 39, 9);
    assert b[..off + 48]
         == pre + (half + X.Zeros(8) + Put16(r.sport) + Put16(r.dport) + X.Zeros(2) + [r.proto] + X.Zeros(9));
  }

  /** Bytes that are passed over are zero. */
  lemma Skip(b: array<byte>, off: nat, k: nat)
    requires off + k <= b.Length && ZeroFrom(b[..], off)
    ensures b[..off + k] == b[..off] + X.Zeros(k) && ZeroFrom(b[..], off + k)
  {
    Gap(b[..], off, k);
  }

  method BuildV5(recs: seq<FlowRec>, exporter: nat, now: Clock, nanos: nat) returns (out: seq<byte>)
    ensures out == Datagram5(recs, exporter, now, nanos)
  {
    hide Put16, Put32, X.Zeros, EncRec5, ZeroFrom;
    var b := new byte[HEADER + |recs| * RECORD](i => 0);
    assert ZeroFrom(b[..], 0) by { AllStillZero(b); }
    PutHeader(b, |recs|, exporter, now, nanos);
    ghost var head := Header5(|recs|, exporter, now, nanos);
    var off := HEADER;
    assert recs[..0] == [] && head + [] == head;
    for i := 0 to |recs|
      invariant off == HEADER + i * RECORD && ZeroFrom(b[..], off) && b[..off] == head + EncRecs5(recs[..i])
    {
      assert recs[..i + 1][..i] == recs[..i];
      PutRecord(b, off, recs[i]);
      off := off + RECORD;
    }
    assert recs[..|recs|] == recs;
    out := b[..];
  }

  lemma AllStillZero(b: array<byte>)
    requires forall i | 0 <= i < b.Length :: b[i] == 0
    ensures ZeroFrom(b[..], 0)
  {}

  method PutHeader(b: array<byte>, count: nat, exporter: nat, now: Clock, nanos: nat)
    requires HEADER <= b.Length && ZeroFrom(b[..], 0)
    modifies b
    ensures b[..HEADER] == Header5(count, exporter, now, nanos) && ZeroFrom(b[..], HEADER)
  {
    hide Put16, Put32, X.Zeros, ZeroFrom;
    Write(b, 0, Put16(5));
    Write(b, 2, Put16(count));
    Write(b, 4, Put32(now.millis % 0x8000_0000));
    Write(b, 8, Put32(now.secs));
    Write(b, 12, Put32(nanos));
    Write(b, 16, Put32(exporter));
    Skip(b, 20, 4);
  }

  // ----- there and back -----

  lemma HeaderRead(count: nat, exporter: nat, now: Clock, nanos: nat, rest: seq<byte>)
    ensures var p := Header5(count, exporter, now, nanos) + rest;
      Be16(p, 0) == 5 && Be16(p, 2) == count % 0x1_0000 && Be32(p, 4) == now.millis % 0x8000_0000
      && Be32(p, 8) == now.secs % 0x1_0000_0000
  {
    hide Put16, Put32, X.Zeros;
    var p := Header5(count, exporter, now, nanos) + rest;
    assert p[0..2] == Put16(5) && p[2..4] == Put16(count);
    assert p[4..8] == Put32(now.millis % 0x8000_0000) && p[8..12] == Put32(now.secs);
    assert Be16(p, 0) == Be16(p[0..2], 0) && Be16(p, 2) == Be16(p[2..4], 0);
    assert Be32(p, 4) == Be32(p[4..8], 0) && Be32(p, 8) == Be32(p[8..12], 0);
  }

  lemma RecordParts(r: FlowRec)
    ensures var e := EncRec5(r);
      e[0..4] == r.src && e[4..8] == r.dst && e[16..20] == Put32(r.packets) && e[20..24] == Put32(r.bytes)
      && e[28..32] == X.Zeros(4) && e[32..34] == Put16(r.sport) && e[34..36] == Put16(r.dport) && e[38] == r.proto
  {
    hide Put16, Put32;
  }

  lemma RecordRead(r: FlowRec)
    ensures var e := EncRec5(r);
      e[0..4] == r.src && e[4..8] == r.dst && Be32(e, 16) == r.packets && Be32(e, 20) == r.bytes && Be32(e, 28) == 0
      && Be16(e, 32) == r.sport && Be16(e, 34) == r.dport && e[38] == r.proto
  {
    hide Put16, Put32, EncRec5;
    var e := EncRec5(r);
    RecordParts(r);
    assert Be32(e, 16) == Be32(e[16..20], 0) && Be32(e, 20) == Be32(e[20..24], 0) && Be32(e, 28) == Be32(e[28..32], 0);
    assert Be16(e, 32) == Be16(e[32..34], 0) && Be16(e, 34) == Be16(e[34..36], 0);
  }

  /** The time the generator's rows get: it never fills in when a flow ended. */
  function SentTime(now: Clock, receivedAt: int): int {
    FlowTime(now.millis % 0x8000_0000, now.secs % 0x1_0000_0000, 0, receivedAt)
  }

  lemma {:induction false} RecordsRead(head: seq<byte>, recs: seq<FlowRec>, i: nat, n: nat, now: Clock, device: string,
                                       receivedAt: int)
    requires |head| == HEADER && i + n <= |recs|
    requires Be32(head + EncRecs5(recs), 4) == now.millis % 0x8000_0000
    requires Be32(head + EncRecs5(recs), 8) == now.secs % 0x1_0000_0000
    ensures RowsAt(head + EncRecs5(recs), HEADER + i * RECORD, n, device, receivedAt)
         == RowsOf(recs[i..i + n], Context(device, SentTime(now, receivedAt)))
    decreases n
  {
    hide EncRec5, EncRecs5, FlowTime, Be32, Be16, ProtoName;
    var p := head + EncRecs5(recs);
    if n > 0 {
      EncodedAt(recs, i);
      var off := HEADER + i * RECORD;
      assert p[off..off + RECORD] == EncRec5(recs[i]);
      RecordRead(recs[i]);
      RecordsRead(head, recs, i + 1, n - 1, now, device, receivedAt);
      assert recs[i..i + n][1..] == recs[i + 1..i + n];
    }
  }

  lemma {:induction false} EncodedAt(recs: seq<FlowRec>, i: nat)
    requires i < |recs|
    ensures (i + 1) * RECORD <= |EncRecs5(recs)| && EncRecs5(recs)[i * RECORD..(i + 1) * RECORD] == EncRec5(recs[i])
  {
    hide EncRec5;
    var n := |recs| - 1;
    if i < n { EncodedAt(recs[..n], i); }
  }

  /** What is read back: the records that the 16-bit count announces. */
  lemma DatagramRead(recs: seq<FlowRec>, exporter: nat, now: Clock, nanos: nat, device: string, receivedAt: int)
    ensures V5Rows(Datagram5(recs, exporter, now, nanos), device, receivedAt)
         == RowsOf(recs[..|recs| % 0x1_0000], Context(device, SentTime(now, receivedAt)))
  {
    hide EncRecs5, Header5, Be16, Be32, RowsAt, RowsOf;
    HeaderRead(|recs|, exporter, now, nanos, EncRecs5(recs));
    RecordsRead(Header5(|recs|, exporter, now, nanos), recs, 0, |recs| % 0x1_0000, now, device, receivedAt);
    assert recs[0..|recs| % 0x1_0000] == recs[..|recs| % 0x1_0000];
  }

  /** The round trip: every record in order, exactly when there are fewer than 65536 of them. */
  lemma {:induction false} RoundTrip(recs: seq<FlowRec>, exporter: nat, now: Clock, nanos: nat, device: string,
                                     receivedAt: int)
    ensures var c := Context(device, SentTime(now, receivedAt));
      V5Rows(Datagram5(recs, exporter, now, nanos), device, receivedAt) == RowsOf(recs, c) <==> |recs| < 0x1_0000
  {
    hide V5Rows, Datagram5, SentTime, RowsOf;
    DatagramRead(recs, exporter, now, nanos, device, receivedAt);
    if |recs| < 0x1_0000 { assert recs[..|recs|] == recs; }
  }

  /** It reaches its own parser. */
  lemma Dispatched(recs: seq<FlowRec>, exporter: nat, now: Clock, nanos: nat)
    ensures X.DatagramKind(Datagram5(recs, exporter, now, nanos)) == X.IsV5
  {
    hide Put16, Put32, EncRecs5, X.Zeros;
    var m := Datagram5(recs, exporter, now, nanos);
    assert m[..2] == Put16(5);
    X.DispatchIsSound(m);
  }
}
