/** The sFlow generator of cmd/bazntms-loadgen/flowgen.go, read back by SFlow; and the
    dispatch of internal/flows/nfv5.go that keeps the four protocols apart. */
module SFlowRoundTrip {
  import opened Wrappers
  import opened Wire
  import opened SFlow
  import T = Templates
  import G = FlowGen
  import TR = TemplateRoundTrip

  /** A flow with the sampling rate, frame length and sequence number drawn for it. */
  datatype Sampled = Sampled(flow: G.FlowRec, rate: u32, frameLen: u32, seqNo: u32)

  // ----- the writer -----

  function Zeros(n: nat): (z: seq<byte>)
    ensures |z| == n
  {
    seq(n, i => 0)
  }

  function Padded(b: seq<byte>): (p: seq<byte>)
    ensures |p| == PadUp(|b|)
  {
    b + Zeros(PadUp(|b|) - |b|)
  }

  class XdrWriter {
    var buf: seq<byte>

    constructor ()
      ensures buf == []
    { buf := []; }

    method U32(v: nat)
      modifies this
      ensures buf == old(buf) + Put32(v)
    { buf := buf + Put32(v); }

    method Raw(b: seq<byte>)
      modifies this
      ensures buf == old(buf) + b
    { buf := buf + b; }

    method RawAligned(b: seq<byte>)
      modifies this
      ensures buf == Padded(old(buf) + b)
    {
      buf := buf + b;
      ghost var whole := buf;
      while |buf| % 4 != 0
        invariant buf == whole + Zeros(|buf| - |whole|) && |whole| <= |buf| <= PadUp(|whole|)
        decreases PadUp(|whole|) - |buf|
      {
        buf := buf + [0];
        assert Zeros(|buf| - 1 - |whole|) + [0] == Zeros(|buf| - |whole|);
      }
    }
  }

  function Words(ws: seq<nat>): seq<byte> {
    if ws == [] then [] else Put32(ws[0]) + Words(ws[1..])
  }

  function FrameHeader(r: G.FlowRec): (h: seq<byte>)
    ensures |h| == 38
  {
    Zeros(12) + Put16(0x0800) + [0x45] + Zeros(8) + [r.proto] + Zeros(2) + r.src + r.dst + Put16(r.sport)
      + Put16(r.dport)
  }

  function PacketRecord(s: Sampled): (b: seq<byte>)
    ensures |b| == 56
  {
    Put32(1) + Put32(s.frameLen) + Put32(0) + Put32(38) + FrameHeader(s.flow) + Zeros(2)
  }

  function Sample(s: Sampled): (b: seq<byte>)
    ensures |b| == 96
  {
    Put32(s.seqNo) + Put32(0) + Put32(s.rate) + Put32(s.frameLen * s.rate) + Put32(0) + Put32(0) + Put32(0) + Put32(1)
    + (Put32(1) + Put32(56) + PacketRecord(s))
  }

  function Samples(ss: seq<Sampled>): seq<byte> {
    if ss == [] then [] else (Put32(1) + Put32(96) + Sample(ss[0])) + Samples(ss[1..])
  }

  function Agent(exporter: nat): seq<byte> { [10, 0, 0, (1 + exporter) % 0x100] }

  function SFlowDatagram(ss: seq<Sampled>, exporter: nat, millis: nat): seq<byte> {
    Put32(5) + Put32(1) + Agent(exporter) + Put32(0) + Put32(exporter) + Put32(millis % 0x8000_0000) + Put32(|ss|)
    + Samples(ss)
  }

  lemma PadNone(b: seq<byte>)
    requires |b| % 4 == 0
    ensures Padded(b) == b
  {}

  method BuildPacketRecord(s: Sampled) returns (b: seq<byte>)
    ensures b == PacketRecord(s)
  {
    hide Put32, FrameHeader;
    var hdr := FrameHeader(s.flow);
    var rec := new XdrWriter();
    rec.U32(1);
    rec.U32(s.frameLen);
    rec.U32(0);
    rec.U32(|hdr|);
    rec.RawAligned(hdr);
    b := rec.buf;
  }

  method BuildSFlowFlowSample(s: Sampled) returns (b: seq<byte>)
    ensures b == Sample(s)
  {
    hide Put32, PacketRecord, Padded;
    var w := new XdrWriter();
    w.U32(s.seqNo);
    w.U32(0);
    w.U32(s.rate);
    w.U32(s.frameLen * s.rate);
    w.U32(0);
    w.U32(0);
    w.U32(0);
    w.U32(1);
    ghost var front := w.buf;
    var recBytes := BuildPacketRecord(s);
    w.U32(1);
    w.U32(|recBytes|);
    ghost var whole := w.buf + recBytes;
    PadNone(whole);
    w.RawAligned(recBytes);
    b := w.buf;
    assert b == front + (Put32(1) + Put32(56) + PacketRecord(s));
  }

  method WriteSamples(w: XdrWriter, ss: seq<Sampled>)
    requires |w.buf| % 4 == 0
    modifies w
    ensures w.buf == old(w.buf) + Samples(ss)
  {
    hide Put32, Sample, Samples, Padded;
    ghost var front := w.buf;
    NoSamples();
    assert ss[..0] == [] && w.buf == front + [];
    for i := 0 to |ss|
      invariant w.buf == front + Samples(ss[..i]) && |w.buf| % 4 == 0
    {
      SamplesAppend(ss[..i], ss[i]);
      assert ss[..i + 1] == ss[..i] + [ss[i]];
      var sample := BuildSFlowFlowSample(ss[i]);
      w.U32(1);
      w.U32(|sample|);
      PadNone(w.buf + sample);
      w.RawAligned(sample);
      Grow(front, Samples(ss[..i]), Put32(1), Put32(96), Sample(ss[i]));
    }
    assert ss[..|ss|] == ss;
  }

  method BuildSFlow(ss: seq<Sampled>, exporter: nat, millis: nat) returns (b: seq<byte>)
    ensures b == SFlowDatagram(ss, exporter, millis)
  {
    hide Put32, Samples;
    var w := new XdrWriter();
    w.U32(5);
    w.U32(1);
    w.Raw([10, 0, 0, (1 + exporter) % 0x100]);
    w.U32(0);
    w.U32(exporter);
    w.U32(millis % 0x8000_0000);
    w.U32(|ss|);
    WriteSamples(w, ss);
    b := w.buf;
  }

  lemma Grow(a: seq<byte>, b: seq<byte>, c: seq<byte>, d: seq<byte>, e: seq<byte>)
    ensures a + b + c + d + e == a + (b + (c + d + e))
  {}

  lemma NoSamples()
    ensures Samples([]) == []
  {}

  lemma {:induction false} SamplesAppend(ss: seq<Sampled>, s: Sampled)
    ensures Samples(ss + [s]) == Samples(ss) + (Put32(1) + Put32(96) + Sample(s))
  {
    hide Sample, Put32;
    if ss == [] {
      assert ss + [s] == [s] && [s][1..] == [];
    } else {
      SamplesAppend(ss[1..], s);
      assert (ss + [s])[1..] == ss[1..] + [s];
    }
  }

  // ----- reading back, one item at a time -----

  /** The reader is fine and `rest` is what it has still to read. */
  ghost predicate At(r: Rd, rest: seq<byte>) {
    !r.err && r.off <= |r.b| && r.b[r.off..] == rest
  }

  lemma ReadU32(r: Rd, v: nat, rest: seq<byte>)
    requires At(r, Put32(v) + rest)
    ensures var (x, r1) := r.U32();
      x == v % 0x1_0000_0000 && At(r1, rest) && r1.b == r.b && r1.off == r.off + 4
  {
    hide Put32;
    var t := r.b[r.off..];
    assert |t| == 4 + |rest| && t[..4] == Put32(v);
    assert Be32(r.b, r.off) == Be32(Put32(v), 0) by {
      assert forall i | 0 <= i < 4 :: t[i] == r.b[r.off + i] && t[i] == Put32(v)[i];
    }
    assert r.b[r.off + 4..] == t[4..] == rest;
  }

  lemma ReadBytes(r: Rd, e: seq<byte>, rest: seq<byte>)
    requires At(r, e + rest) && r.off % 4 == 0
    ensures r.Bytes(|e|).0 == e && !r.Bytes(|e|).1.err && r.Bytes(|e|).1.b == r.b
    ensures |e| % 4 == 0 ==> At(r.Bytes(|e|).1, rest) && r.Bytes(|e|).1.off == r.off + |e|
  {
    var t := r.b[r.off..];
    assert |t| == |e| + |rest|;
    assert r.b[r.off..r.off + |e|] == t[..|e|] == e;
    assert r.b[r.off + |e|..] == t[|e|..] == rest;
  }

  lemma {:induction false} ReadItem(r: Rd, typ: u32, body: seq<byte>, rest: seq<byte>)
    requires r.off % 4 == 0 && |body| % 4 == 0 && |body| < 0x1_0000_0000
    requires At(r, Put32(typ) + Put32(|body|) + body + rest)
    ensures var (t, b, r1) := Item(r);
      t == typ && b == body && At(r1, rest) && r1.off % 4 == 0
  {
    hide Put32, At, Rd.U32, Rd.Bytes;
    assert Put32(typ) + Put32(|body|) + body + rest == Put32(typ) + (Put32(|body|) + (body + rest));
    ReadU32(r, typ, Put32(|body|) + (body + rest));
    var r1 := r.U32().1;
    ReadU32(r1, |body|, body + rest);
    ReadBytes(r1.U32().1, body, rest);
  }

  // ----- the row of a sample -----

  /** The row a sampled flow stands for. A rate of zero counts as one. */
  function RowOf(s: Sampled, e: Env): Row {
    var rate: u32 := if s.rate == 0 then 1 else s.rate;
    var ports := s.flow.proto == 6 || s.flow.proto == 17;
    MulU32(s.frameLen, rate);
    Row(e.ts, e.device, Host(s.flow.src), Host(s.flow.dst),
        if ports then s.flow.sport else 0, if ports then s.flow.dport else 0,
        ProtoName(s.flow.proto), rate, s.frameLen * rate)
  }

  lemma HeaderRow(s: Sampled, e: Env, rate: u32)
    requires rate == if s.rate == 0 then 1 else s.rate
    ensures PacketRow(FrameHeader(s.flow), s.frameLen, e, rate) == Some(RowOf(s, e))
  {
    hide Put16, ProtoName, FrameHeader;
    var f := s.flow;
    var h := FrameHeader(f);
    FrameParts(f);
    var l3 := h[14..];
    assert Be16(h, 12) == Be16(h[12..14], 0) == 0x0800;
    assert Ethernet(h) == (0x0800, l3);
    var l4 := l3[20..];
    assert Be16(l4, 0) == Be16(Put16(f.sport), 0) && Be16(l4, 2) == Be16(Put16(f.dport), 0);
  }

  lemma FrameParts(f: G.FlowRec)
    ensures var l3 := FrameHeader(f)[14..];
      FrameHeader(f)[12..14] == Put16(0x0800) && l3[0] == 0x45 && l3[9] == f.proto
      && l3[12..16] == f.src && l3[16..20] == f.dst && l3[20..] == Put16(f.sport) + Put16(f.dport)
  {
    hide Put16;
  }

  /** The four words and the frame header of a raw packet record. */
  function RecordWords(rec: seq<byte>): (u32, u32, seq<byte>, Rd) {
    var (proto, r1) := Rd(rec, 0, false).U32();
    var (frameLen, r2) := r1.U32();
    var (_, r3) := r2.U32();
    var (headerLen, r4) := r3.U32();
    var (header, r5) := r4.Bytes(headerLen);
    (proto, frameLen, header, r5)
  }

  lemma {:induction false} RecordWordsRead(s: Sampled)
    ensures var (proto, frameLen, header, r) := RecordWords(PacketRecord(s));
      proto == 1 && frameLen == s.frameLen && header == FrameHeader(s.flow) && !r.err
  {
    hide Put32, FrameHeader, At, Rd.U32, Rd.Bytes, Zeros;
    var h, rec := FrameHeader(s.flow), PacketRecord(s);
    var r0 := Rd(rec, 0, false);
    var t4 := h + Zeros(2);
    var t3 := Put32(38) + t4;
    var t2 := Put32(0) + t3;
    var t1 := Put32(s.frameLen) + t2;
    assert rec == Put32(1) + t1;
    StartAt(rec);
    ReadU32(r0, 1, t1);
    var r1 := r0.U32().1;
    ReadU32(r1, s.frameLen, t2);
    var r2 := r1.U32().1;
    ReadU32(r2, 0, t3);
    var r3 := r2.U32().1;
    ReadU32(r3, 38, t4);
    var r4 := r3.U32().1;
    ReadBytes(r4, h, Zeros(2));
  }

  lemma {:induction false} RecordRead(s: Sampled, e: Env, rate: u32)
    requires rate == if s.rate == 0 then 1 else s.rate
    ensures RawPacket(PacketRecord(s), e, rate) == Some(RowOf(s, e))
  {
    hide Put32, FrameHeader, PacketRow, Rd.U32, Rd.Bytes, RowOf, PacketRecord;
    RecordWordsRead(s);
    HeaderRow(s, e, rate);
  }

  lemma StartAt(b: seq<byte>)
    ensures At(Rd(b, 0, false), b)
  {}

  /** A generated sample holds one record, and its rate and record count are read from their places. */
  lemma {:induction false} SampleRead(s: Sampled, e: Env)
    ensures SampleRows(Sample(s), e, false) == [RowOf(s, e)]
  {
    var rate: u32 := if s.rate == 0 then 1 else s.rate;
    var rec := PacketRecord(s);
    RecordRead(s, e, rate);
    var item := Put32(1) + Put32(56) + rec;
    SampleHeadRead(s, item);
    hide Put32, At, RawPacket, PacketRecord, SampleHead, Item, RowOf;
    var (_, _, r) := SampleHead(Sample(s), false);
    assert item + [] == Put32(1) + Put32(56) + rec + [];
    assert item + [] == item;
    ReadItem(r, 1, rec, []);
    var (_, _, r1) := Item(r);
    AtIsFine(r);
    AtIsFine(r1);
    assert RecordsOf(r, 1, e, rate) == [RowOf(s, e)] + RecordsOf(r1, 0, e, rate);
  }

  lemma AtIsFine(r: Rd)
    ensures forall rest :: At(r, rest) ==> !r.err
  {}

  lemma {:induction false} SampleHeadRead(s: Sampled, item: seq<byte>)
    requires item == Put32(1) + Put32(56) + PacketRecord(s)
    ensures var (rate, n, r) := SampleHead(Sample(s), false);
      rate == s.rate && n == 1 && At(r, item) && r.off % 4 == 0
  {
    hide Put32, At, PacketRecord, Rd.U32;
    var b := Sample(s);
    var t7 := Put32(1) + item;
    var t6 := Put32(0) + t7;
    var t5 := Put32(0) + t6;
    var t4 := Put32(0) + t5;
    var t3 := Put32(s.frameLen * s.rate) + t4;
    var t2 := Put32(s.rate) + t3;
    var t1 := Put32(0) + t2;
    assert b == Put32(s.seqNo) + t1;
    StartAt(b);
    var r0 := Rd(b, 0, false);
    ReadU32(r0, s.seqNo, t1);
    var r1 := r0.U32().1;
    ReadU32(r1, 0, t2);
    var r2 := r1.U32().1;
    ReadU32(r2, s.rate, t3);
    var r3 := r2.U32().1;
    ReadU32(r3, s.frameLen * s.rate, t4);
    var r4 := r3.U32().1;
    ReadU32(r4, 0, t5);
    var r5 := r4.U32().1;
    ReadU32(r5, 0, t6);
    var r6 := r5.U32().1;
    ReadU32(r6, 0, t7);
    var r7 := r6.U32().1;
    ReadU32(r7, 1, item);
  }

  function RowsOf(ss: seq<Sampled>, e: Env): (rows: seq<Row>)
    ensures |rows| == |ss|
  {
    if ss == [] then [] else [RowOf(ss[0], e)] + RowsOf(ss[1..], e)
  }

  /** The first `n` of the encoded samples give the first `n` rows. */
  lemma {:induction false} SamplesRead(r: Rd, ss: seq<Sampled>, n: nat, e: Env)
    requires n <= |ss| && At(r, Samples(ss)) && r.off % 4 == 0
    ensures SamplesOf(r, n, e) == RowsOf(ss[..n], e)
    decreases n
  {
    hide Sample, RowOf, Item, SampleRows, At, Put32;
    AtIsFine(r);
    if n > 0 {
      var rest := Samples(ss[1..]);
      assert Samples(ss) == Put32(1) + Put32(96) + Sample(ss[0]) + rest;
      ReadItem(r, 1, Sample(ss[0]), rest);
      var (_, _, r1) := Item(r);
      AtIsFine(r1);
      SampleRead(ss[0], e);
      SamplesRead(r1, ss[1..], n - 1, e);
      assert ss[..n][1..] == ss[1..][..n - 1];
    }
  }

  function Counts(n: nat): (c: nat)
    ensures c <= n && (n < 0x1_0000_0000 ==> c == n)
  {
    n % 0x1_0000_0000
  }

  /** The samples the count field announces, if it announces no more than 4096. */
  function Counted(ss: seq<Sampled>): seq<Sampled> {
    if Counts(|ss|) > 4096 then [] else ss[..Counts(|ss|)]
  }

  lemma NoRows(e: Env)
    ensures RowsOf([], e) == []
  {}

  /** What the parser makes of a generated datagram: the count field keeps 32 bits of the number of
      samples, and a count above 4096 is refused. */
  lemma {:induction false} DatagramRead(ss: seq<Sampled>, exporter: nat, millis: nat, deviceOverride: string, ts: int,
                     text: seq<byte> -> string)
    ensures SFlowRows(SFlowDatagram(ss, exporter, millis), deviceOverride, ts, text)
         == RowsOf(Counted(ss), EnvOf(Agent(exporter), deviceOverride, ts, text))
  {
    hide Put32, At, SamplesOf, Agent, Samples, RowsOf, Rd.U32, Rd.Bytes;
    var b := SFlowDatagram(ss, exporter, millis);
    var tail := Samples(ss);
    var t5 := Put32(|ss|) + tail;
    var t4 := Put32(millis % 0x8000_0000) + t5;
    var t3 := Put32(exporter) + t4;
    var t2 := Put32(0) + t3;
    var t1 := Agent(exporter) + t2;
    var t0 := Put32(1) + t1;
    assert b == Put32(5) + t0;
    StartAt(b);
    var r0 := Rd(b, 0, false);
    ReadU32(r0, 5, t0);
    var r1 := r0.U32().1;
    ReadU32(r1, 1, t1);
    var r2 := r1.U32().1;
    AgentLen(exporter);
    ReadBytes(r2, Agent(exporter), t2);
    var r3 := r2.Bytes(4).1;
    ReadU32(r3, 0, t3);
    var r4 := r3.U32().1;
    ReadU32(r4, exporter, t4);
    var r5 := r4.U32().1;
    ReadU32(r5, millis % 0x8000_0000, t5);
    var r6 := r5.U32().1;
    ReadU32(r6, |ss|, tail);
    var r7 := r6.U32().1;
    AtIsFine(r7);
    var e := EnvOf(Agent(exporter), deviceOverride, ts, text);
    NoRows(e);
    if Counts(|ss|) <= 4096 { SamplesRead(r7, ss, Counts(|ss|), e); }
  }

  lemma AgentLen(exporter: nat)
    ensures |Agent(exporter)| == 4
  {}

  /** The round trip: one row per sample, in order, exactly when there are at most 4096 samples. */
  lemma {:induction false} RoundTrip(ss: seq<Sampled>, exporter: nat, millis: nat, deviceOverride: string, ts: int,
                  text: seq<byte> -> string)
    ensures var rows := SFlowRows(SFlowDatagram(ss, exporter, millis), deviceOverride, ts, text);
      rows == RowsOf(ss, EnvOf(Agent(exporter), deviceOverride, ts, text)) <==> |ss| <= 4096
  {
    hide SFlowRows, SFlowDatagram, EnvOf, RowsOf, Agent;
    DatagramRead(ss, exporter, millis, deviceOverride, ts, text);
    if |ss| <= 4096 { assert ss[..|ss|] == ss; }
    else { assert |Counted(ss)| <= 4096; }
  }

  // ----- dispatch -----

  datatype Protocol = Short | IsSFlow | IsV5 | IsV9 | IsIPFIX | Unknown

  /** datagramKind, which parse follows branch for branch. */
  function DatagramKind(payload: seq<byte>): Protocol {
    if |payload| < 4 then Short
    else if Be32(payload, 0) == 5 then IsSFlow
    else
      var version := Be16(payload, 0);
      if version == 5 then IsV5 else if version == 9 then IsV9 else if version == 10 then IsIPFIX else Unknown
  }

  /** A 16-bit version field is never mistaken for sFlow's 32-bit one, whatever follows it. */
  lemma DispatchIsSound(payload: seq<byte>)
    requires |payload| >= 4
    ensures DatagramKind(payload) == IsSFlow <==> payload[..4] == Put32(5)
    ensures DatagramKind(payload) == IsV5 <==> payload[..2] == Put16(5)
    ensures DatagramKind(payload) == IsV9 <==> payload[..2] == Put16(9)
    ensures DatagramKind(payload) == IsIPFIX <==> payload[..2] == Put16(10)
  {
    assert Put32(5) == [0, 0, 0, 5];
    assert Put16(5) == [0, 5] && Put16(9) == [0, 9] && Put16(10) == [0, 10];
  }

  /** Every generated datagram reaches the parser of its own protocol. */
  lemma {:induction false} GeneratedDispatch(v: T.Version, recs: seq<G.FlowRec>, exporter: nat, withTemplate: bool,
                                             now: G.Clock, ss: seq<Sampled>, millis: nat)
    ensures DatagramKind(G.Datagram(v, recs, exporter, withTemplate, now)) == if v.V9? then IsV9 else IsIPFIX
    ensures DatagramKind(SFlowDatagram(ss, exporter, millis)) == IsSFlow
  {
    hide Put32, Put16, Samples, TR.EncSets;
    var m := G.Datagram(v, recs, exporter, withTemplate, now);
    assert m[..2] == Put16(if v.V9? then 9 else 10);
    DispatchIsSound(m);
    var d := SFlowDatagram(ss, exporter, millis);
    assert d[..4] == Put32(5);
    DispatchIsSound(d);
  }
}
