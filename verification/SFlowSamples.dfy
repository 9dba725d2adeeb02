/** What any sFlow v5 agent may send, plain and expanded samples with records of every kind, and that the
    parsers of SFlow read it back. */
module SFlowSamples {
  import opened Wrappers
  import opened Wire
  import opened SFlow
  import R = SFlowRoundTrip

  // ----- frames -----

  type Bytes2 = b: seq<byte> | |b| == 2 witness [0, 0]
  type Bytes4 = b: seq<byte> | |b| == 4 witness [0, 0, 0, 0]
  type Bytes8 = b: seq<byte> | |b| == 8 witness [0, 0, 0, 0, 0, 0, 0, 0]
  type Macs = b: seq<byte> | |b| == 12 witness [0, 0, 0, 0, 0, 0, 0, 0, 0, 0, 0, 0]

  /** A tag of IEEE 802.1Q, or the outer one of two. */
  datatype Tag = Tag(outer: bool, tci: u16) {
    function Type(): u16 { if outer then 0x88a8 else 0x8100 }
  }

  /** An IPv4 packet: `front` holds the seven bytes behind the header length and the time to live. */
  datatype Ip4 = Ip4(front: Bytes8, proto: byte, checksum: Bytes2, src: Bytes4, dst: Bytes4, options: seq<byte>,
                     l4: seq<byte>)
  {
    predicate Ok() { |options| % 4 == 0 && |options| <= 40 }

    function Enc(): seq<byte>
      requires Ok()
    {
      [0x45 + |options| / 4] + front + [proto] + checksum + src + dst + options + l4
    }
  }

  datatype L3 = V4(ip: Ip4) | Other(typ: u16, payload: seq<byte>) {
    predicate Ok() { if V4? then ip.Ok() else typ !in {0x0800, 0x8100, 0x88a8} }
    function Type(): u16 { if V4? then 0x0800 else typ }

    function Enc(): seq<byte>
      requires Ok()
    {
      if V4? then ip.Enc() else payload
    }
  }

  datatype Frame = Frame(macs: Macs, tags: seq<Tag>, l3: L3) {
    function Enc(): seq<byte>
      requires l3.Ok()
    {
      macs + (EncTags(tags, l3.Type()) + l3.Enc())
    }
  }

  /** Every tag stands in front of the type of what it tags. */
  function EncTags(tags: seq<Tag>, typ: u16): (b: seq<byte>)
    ensures |b| == 2 + 4 * |tags|
  {
    if tags == [] then Put16(typ) else Put16(tags[0].Type()) + Put16(tags[0].tci) + EncTags(tags[1..], typ)
  }

  lemma Half(b: seq<byte>, off: nat, n: u16)
    requires off + 2 <= |b| && b[off..off + 2] == Put16(n)
    ensures Be16(b, off) == n
  {
    assert b[off] == b[off..off + 2][0] && b[off + 1] == b[off..off + 2][1];
  }

  /** Any number of tags is skipped. */
  lemma {:induction false} TagsRead(b: seq<byte>, off: nat, tags: seq<Tag>, typ: u16, payload: seq<byte>)
    requires 2 <= off <= |b| && typ !in {0x8100, 0x88a8} && b[off - 2..] == EncTags(tags, typ) + payload
    ensures Untagged(b, Be16(b, off - 2), off) == (typ, payload)
    decreases |tags|
  {
    hide Put16, Be16;
    var t := b[off - 2..];
    if tags == [] {
      assert b[off - 2..off] == t[..2] == Put16(typ);
      Half(b, off - 2, typ);
      assert b[off..] == t[2..] == payload;
    } else {
      var rest := EncTags(tags[1..], typ);
      assert t == Put16(tags[0].Type()) + Put16(tags[0].tci) + rest + payload;
      assert b[off - 2..off] == t[..2] == Put16(tags[0].Type());
      Half(b, off - 2, tags[0].Type());
      assert b[off + 2..] == t[4..] == rest + payload;
      TagsRead(b, off + 4, tags[1..], typ, payload);
    }
  }

  lemma FrameRead(f: Frame)
    requires f.l3.Ok()
    ensures Ethernet(f.Enc()) == (f.l3.Type(), f.l3.Enc())
  {
    hide EncTags;
    var b := f.Enc();
    assert b[12..] == EncTags(f.tags, f.l3.Type()) + f.l3.Enc();
    TagsRead(b, 14, f.tags, f.l3.Type(), f.l3.Enc());
  }

  /** Options of any length are skipped. */
  lemma Ip4Read(ip: Ip4)
    requires ip.Ok()
    ensures ParseIPv4(ip.Enc()) == Some(Ip(ip.proto, Host(ip.src), Host(ip.dst), ip.l4))
  {
    var b := ip.Enc();
    assert b[0] / 16 == 4 && b[0] % 16 * 4 == 20 + |ip.options|;
    assert b[9] == ip.proto;
    assert b[12..16] == ip.src && b[16..20] == ip.dst && b[20 + |ip.options|..] == ip.l4;
  }

  // ----- records -----

  /** A raw packet header, of Ethernet or another protocol, or a record of another type. */
  datatype Rec =
    | Raw(frame: Frame, frameLen: u32, stripped: u32)
    | NotEthernet(protocol: u32, frameLen: u32, stripped: u32, header: seq<byte>)
    | OtherRec(typ: u32, body: seq<byte>)
  {
    function Type(): u32 { if OtherRec? then typ else 1 }

    predicate Ok() {
      (Raw? ==> frame.l3.Ok() && |frame.Enc()| < 0x1_0000_0000 - 16)
      && (NotEthernet? ==> protocol != 1 && |header| < 0x1_0000_0000 - 16)
      && (OtherRec? ==> typ != 1 && |body| < 0x1_0000_0000)
    }

    function Body(): seq<byte>
      requires Ok()
    {
      match this
      case Raw(frame, frameLen, stripped) =>
        Put32(1) + (Put32(frameLen) + (Put32(stripped) + (Put32(|frame.Enc()|) + frame.Enc())))
      case NotEthernet(protocol, frameLen, stripped, header) =>
        Put32(protocol) + (Put32(frameLen) + (Put32(stripped) + (Put32(|header|) + header)))
      case OtherRec(_, body) => body
    }

    /** One row for an IPv4 packet, with the ports of TCP and UDP if they are there; nothing else counts. */
    function Rows(e: Env, rate: u32): seq<Row> {
      if !Raw? || !frame.l3.V4? then []
      else
        var ip := frame.l3.ip;
        var ports := ip.proto in {6, 17} && |ip.l4| >= 4;
        MulU32(frameLen, rate);
        [Row(e.ts, e.device, Host(ip.src), Host(ip.dst), if ports then Be16(ip.l4, 0) else 0,
             if ports then Be16(ip.l4, 2) else 0, ProtoName(ip.proto), rate, frameLen * rate)]
    }
  }

  lemma FrameRow(f: Frame, frameLen: u32, stripped: u32, e: Env, rate: u32)
    requires f.l3.Ok()
    ensures var rows := Raw(f, frameLen, stripped).Rows(e, rate);
      PacketRow(f.Enc(), frameLen, e, rate) == if rows == [] then None else Some(rows[0])
  {
    hide Ethernet, ParseIPv4, ProtoName, EncTags;
    FrameRead(f);
    if f.l3.V4? { Ip4Read(f.l3.ip); }
  }

  lemma RawWords(protocol: u32, frameLen: u32, stripped: u32, header: seq<byte>, e: Env, rate: u32)
    requires |header| < 0x1_0000_0000
    ensures RawPacket(Put32(protocol) + (Put32(frameLen) + (Put32(stripped) + (Put32(|header|) + header))), e, rate)
         == if protocol != 1 then None else PacketRow(header, frameLen, e, rate)
  {
    hide Put32, PacketRow, R.At, Rd.U32, Rd.Bytes;
    var t3 := Put32(|header|) + header;
    var t2 := Put32(stripped) + t3;
    var t1 := Put32(frameLen) + t2;
    var b := Put32(protocol) + t1;
    R.StartAt(b);
    var r0 := Rd(b, 0, false);
    R.ReadU32(r0, protocol, t1);
    var r1 := r0.U32().1;
    R.ReadU32(r1, frameLen, t2);
    var r2 := r1.U32().1;
    R.ReadU32(r2, stripped, t3);
    var r3 := r2.U32().1;
    R.ReadU32(r3, |header|, header);
    var r4 := r3.U32().1;
    assert header + [] == header;
    R.ReadBytes(r4, header, []);
  }

  lemma RecRead(rec: Rec, e: Env, rate: u32)
    requires rec.Ok()
    ensures RecordRow(rec.Type(), rec.Body(), e, rate) == rec.Rows(e, rate)
  {
    hide Put32, RawPacket, PacketRow, ProtoName, Frame.Enc;
    match rec
    case Raw(frame, frameLen, stripped) =>
      RawWords(1, frameLen, stripped, frame.Enc(), e, rate);
      FrameRow(frame, frameLen, stripped, e, rate);
    case NotEthernet(protocol, frameLen, stripped, header) =>
      RawWords(protocol, frameLen, stripped, header, e, rate);
    case OtherRec(_, _) =>
  }

  // ----- items -----

  function Padding(n: nat): seq<byte> { R.Zeros(PadUp(n) - n) }

  /** XDR: type, length, and the bytes padded to a multiple of four. */
  function EncItem(typ: u32, body: seq<byte>): seq<byte> { Put32(typ) + (Put32(|body|) + (body + Padding(|body|))) }

  lemma PadSum(off: nat, n: nat)
    requires off % 4 == 0
    ensures PadUp(off + n) == off + PadUp(n)
  {}

  lemma BytesRead(r: Rd, e: seq<byte>, rest: seq<byte>)
    requires R.At(r, e + Padding(|e|) + rest) && r.off % 4 == 0
    ensures r.Bytes(|e|).0 == e && R.At(r.Bytes(|e|).1, rest) && r.Bytes(|e|).1.off % 4 == 0
  {
    hide R.Zeros, PadUp;
    var t := r.b[r.off..];
    PadSum(r.off, |e|);
    assert r.b[r.off..r.off + |e|] == t[..|e|] == e;
    assert r.b[r.off + PadUp(|e|)..] == t[PadUp(|e|)..] == rest;
  }

  lemma {:induction false} ItemRead(r: Rd, typ: u32, body: seq<byte>, rest: seq<byte>)
    requires R.At(r, EncItem(typ, body) + rest) && r.off % 4 == 0 && |body| < 0x1_0000_0000
    ensures var (t, b, r1) := Item(r);
      t == typ && b == body && R.At(r1, rest) && r1.off % 4 == 0 && !r1.err && !r.err
  {
    R.AtIsFine(r);
    hide Put32, R.At, Rd.U32, Rd.Bytes, Padding;
    var t2 := body + Padding(|body|) + rest;
    var t1 := Put32(|body|) + t2;
    assert EncItem(typ, body) + rest == Put32(typ) + t1;
    R.ReadU32(r, typ, t1);
    var r1 := r.U32().1;
    R.ReadU32(r1, |body|, t2);
    BytesRead(r1.U32().1, body, rest);
    R.AtIsFine(r1.U32().1.Bytes(|body|).1);
  }

  function EncRecs(recs: seq<Rec>): seq<byte>
    requires forall rec | rec in recs :: rec.Ok()
  {
    if recs == [] then [] else EncItem(recs[0].Type(), recs[0].Body()) + EncRecs(recs[1..])
  }

  function AllRows(recs: seq<Rec>, e: Env, rate: u32): seq<Row> {
    if recs == [] then [] else recs[0].Rows(e, rate) + AllRows(recs[1..], e, rate)
  }

  lemma {:induction false} RecsRead(r: Rd, recs: seq<Rec>, e: Env, rate: u32)
    requires (forall rec | rec in recs :: rec.Ok()) && R.At(r, EncRecs(recs)) && r.off % 4 == 0
    ensures RecordsOf(r, |recs|, e, rate) == AllRows(recs, e, rate)
    decreases |recs|
  {
    R.AtIsFine(r);
    hide R.At, Item, Rec.Rows, Rec.Body, Rec.Ok, EncItem, RecordRow;
    if recs != [] {
      assert recs[0] in recs;
      BodyFits(recs[0]);
      ItemRead(r, recs[0].Type(), recs[0].Body(), EncRecs(recs[1..]));
      RecRead(recs[0], e, rate);
      RecsRead(Item(r).2, recs[1..], e, rate);
    }
  }

  lemma BodyFits(rec: Rec)
    requires rec.Ok()
    ensures |rec.Body()| < 0x1_0000_0000
  {
    hide Put32, Frame.Enc;
  }

  // ----- samples -----

  /** A flow sample; in the plain layout the source and each interface take one word, in the expanded one two. */
  datatype Flow = Flow(seqNo: u32, sourceType: u32, sourceIndex: u32, rate: u32, pool: u32, drops: u32,
                       inFormat: u32, inValue: u32, outFormat: u32, outValue: u32, records: seq<Rec>)
  {
    predicate Ok() { |records| < 0x1_0000_0000 && forall rec | rec in records :: rec.Ok() }

    function Head(expanded: bool): seq<nat> {
      if expanded then
        [seqNo, sourceType, sourceIndex, rate, pool, drops, inFormat, inValue, outFormat, outValue, |records|]
      else [seqNo, sourceIndex, rate, pool, drops, inValue, outValue, |records|]
    }

    function Enc(expanded: bool): seq<byte>
      requires Ok()
    {
      R.Words(Head(expanded)) + EncRecs(records)
    }

    /** The rows of a sample do not depend on its layout; a rate of zero counts as one. */
    function Rows(e: Env): seq<Row> {
      if |records| > 256 then [] else AllRows(records, e, if rate == 0 then 1 else rate)
    }
  }

  /** The reader stands in front of these words, and then `rest`. */
  ghost predicate AtWords(r: Rd, ws: seq<nat>, rest: seq<byte>) { R.At(r, R.Words(ws) + rest) && r.off % 4 == 0 }

  lemma NextWord(r: Rd, w: u32, ws: seq<nat>, rest: seq<byte>)
    requires AtWords(r, [w] + ws, rest)
    ensures r.U32().0 == w && AtWords(r.U32().1, ws, rest)
  {
    hide Put32, R.At, Rd.U32;
    assert ([w] + ws)[1..] == ws;
    assert R.Words([w] + ws) + rest == Put32(w) + (R.Words(ws) + rest);
    R.ReadU32(r, w, R.Words(ws) + rest);
  }

  lemma WordsStart(ws: seq<nat>, rest: seq<byte>)
    ensures AtWords(Rd(R.Words(ws) + rest, 0, false), ws, rest)
  {}

  lemma NoMoreWords(r: Rd, rest: seq<byte>)
    requires AtWords(r, [], rest)
    ensures R.At(r, rest) && r.off % 4 == 0 && !r.err
  {
    assert R.Words([]) + rest == rest;
  }

  lemma {:induction false} FourWords(r: Rd, w0: u32, w1: u32, w2: u32, w3: u32, ws: seq<nat>, rest: seq<byte>)
    requires AtWords(r, [w0, w1, w2, w3] + ws, rest)
    ensures
      var r1 := r.U32().1;
      var r2 := r1.U32().1;
      var r3 := r2.U32().1;
      r.U32().0 == w0 && r1.U32().0 == w1 && r2.U32().0 == w2 && r3.U32().0 == w3 && AtWords(r3.U32().1, ws, rest)
  {
    hide AtWords, Rd.U32;
    assert [w0, w1, w2, w3] + ws == [w0] + ([w1, w2, w3] + ws);
    NextWord(r, w0, [w1, w2, w3] + ws, rest);
    var r1 := r.U32().1;
    assert [w1, w2, w3] + ws == [w1] + ([w2, w3] + ws);
    NextWord(r1, w1, [w2, w3] + ws, rest);
    var r2 := r1.U32().1;
    assert [w2, w3] + ws == [w2] + ([w3] + ws);
    NextWord(r2, w2, [w3] + ws, rest);
    NextWord(r2.U32().1, w3, ws, rest);
  }

  lemma {:induction false} PlainHeadRead(f: Flow)
    requires f.Ok()
    ensures var (rate, n, r) := SampleHead(f.Enc(false), false);
      rate == f.rate && n == |f.records| && R.At(r, EncRecs(f.records)) && r.off % 4 == 0 && !r.err
  {
    hide AtWords, Rd.U32, R.Words, EncRecs, R.At;
    var ws, rest := f.Head(false), EncRecs(f.records);
    WordsStart(ws, rest);
    var r := Rd(f.Enc(false), 0, false);
    var back := [f.drops, f.inValue, f.outValue, |f.records|];
    assert ws == [f.seqNo, f.sourceIndex, f.rate, f.pool] + back;
    FourWords(r, f.seqNo, f.sourceIndex, f.rate, f.pool, back, rest);
    var r4 := r.U32().1.U32().1.U32().1.U32().1;
    assert back == back + [];
    FourWords(r4, f.drops, f.inValue, f.outValue, |f.records|, [], rest);
    NoMoreWords(r4.U32().1.U32().1.U32().1.U32().1, rest);
  }

  lemma {:induction false} ExpandedHeadRead(f: Flow)
    requires f.Ok()
    ensures var (rate, n, r) := SampleHead(f.Enc(true), true);
      rate == f.rate && n == |f.records| && R.At(r, EncRecs(f.records)) && r.off % 4 == 0 && !r.err
  {
    hide AtWords, Rd.U32, R.Words, EncRecs, R.At;
    var ws, rest := f.Head(true), EncRecs(f.records);
    WordsStart(ws, rest);
    var r := Rd(f.Enc(true), 0, false);
    var back := [f.outFormat, f.outValue, |f.records|];
    var middle := [f.pool, f.drops, f.inFormat, f.inValue] + back;
    assert ws == [f.seqNo, f.sourceType, f.sourceIndex, f.rate] + middle;
    FourWords(r, f.seqNo, f.sourceType, f.sourceIndex, f.rate, middle, rest);
    var r4 := r.U32().1.U32().1.U32().1.U32().1;
    FourWords(r4, f.pool, f.drops, f.inFormat, f.inValue, back, rest);
    var r8 := r4.U32().1.U32().1.U32().1.U32().1;
    assert back == [f.outFormat] + [f.outValue, |f.records|];
    NextWord(r8, f.outFormat, [f.outValue, |f.records|], rest);
    assert [f.outValue, |f.records|] == [f.outValue] + [|f.records|];
    NextWord(r8.U32().1, f.outValue, [|f.records|], rest);
    assert [|f.records|] == [|f.records|] + [];
    NextWord(r8.U32().1.U32().1, |f.records|, [], rest);
    NoMoreWords(r8.U32().1.U32().1.U32().1, rest);
  }

  /** A sample of either layout, with any source, interfaces and records, gives one row per IPv4 packet. */
  lemma FlowRead(f: Flow, e: Env, expanded: bool)
    requires f.Ok()
    ensures SampleRows(f.Enc(expanded), e, expanded) == f.Rows(e)
  {
    hide SampleHead, Flow.Head, R.At, EncRecs, RecordsOf, AllRows;
    if expanded { ExpandedHeadRead(f); } else { PlainHeadRead(f); }
    var (rate, n, r) := SampleHead(f.Enc(expanded), expanded);
    RecsRead(r, f.records, e, if f.rate == 0 then 1 else f.rate);
  }

  // ----- datagrams -----

  datatype Sampling = OfFlow(flow: Flow, expanded: bool) | OtherSample(typ: u32, body: seq<byte>) {
    predicate Ok() {
      (OfFlow? ==> flow.Ok() && |flow.Enc(expanded)| < 0x1_0000_0000)
      && (OtherSample? ==> typ !in {1, 3} && |body| < 0x1_0000_0000)
    }

    function Type(): u32 { if OtherSample? then typ else if expanded then 3 else 1 }

    function Body(): seq<byte>
      requires Ok()
    {
      if OtherSample? then body else flow.Enc(expanded)
    }

    function Rows(e: Env): seq<Row> { if OtherSample? then [] else flow.Rows(e) }
  }

  function EncSamples(ss: seq<Sampling>): seq<byte>
    requires forall s | s in ss :: s.Ok()
  {
    if ss == [] then [] else EncItem(ss[0].Type(), ss[0].Body()) + EncSamples(ss[1..])
  }

  function RowsOf(ss: seq<Sampling>, e: Env): seq<Row> { if ss == [] then [] else ss[0].Rows(e) + RowsOf(ss[1..], e) }

  lemma {:induction false} SamplingRead(s: Sampling, e: Env)
    requires s.Ok()
    ensures FormatRows(s.Type(), s.Body(), e) == s.Rows(e)
  {
    hide SampleRows, Flow.Enc, Flow.Rows, Flow.Ok;
    if s.OfFlow? { FlowRead(s.flow, e, s.expanded); }
  }

  lemma {:induction false} SamplesRead(r: Rd, ss: seq<Sampling>, e: Env)
    requires (forall s | s in ss :: s.Ok()) && R.At(r, EncSamples(ss)) && r.off % 4 == 0
    ensures SamplesOf(r, |ss|, e) == RowsOf(ss, e)
    decreases |ss|
  {
    R.AtIsFine(r);
    hide R.At, Item, Sampling.Rows, Sampling.Body, Sampling.Ok, EncItem, FormatRows;
    if ss != [] {
      assert ss[0] in ss;
      SampleFits(ss[0]);
      ItemRead(r, ss[0].Type(), ss[0].Body(), EncSamples(ss[1..]));
      SamplingRead(ss[0], e);
      SamplesRead(Item(r).2, ss[1..], e);
    }
  }

  lemma SampleFits(s: Sampling)
    requires s.Ok()
    ensures |s.Body()| < 0x1_0000_0000
  {}

  /** An IPv4 or IPv6 agent's datagram. */
  datatype Datagram = Datagram(agent: seq<byte>, subAgent: u32, seqNo: u32, uptime: u32, samples: seq<Sampling>) {
    predicate Ok() {
      |agent| in {4, 16} && |samples| < 0x1_0000_0000 && forall s | s in samples :: s.Ok()
    }

    function Enc(): seq<byte>
      requires Ok()
    {
      Put32(5) + (Put32(if |agent| == 4 then 1 else 2) + (agent
      + (R.Words([subAgent, seqNo, uptime, |samples|]) + EncSamples(samples))))
    }
  }

  lemma {:induction false} CountersRead(r: Rd, d: Datagram)
    requires d.Ok() && AtWords(r, [d.subAgent, d.seqNo, d.uptime, |d.samples|], EncSamples(d.samples))
    ensures var last := r.U32().1.U32().1.U32().1.U32();
      last.0 == |d.samples| && R.At(last.1, EncSamples(d.samples)) && last.1.off % 4 == 0 && !last.1.err
  {
    hide AtWords, Rd.U32, R.Words, EncSamples, R.At;
    var ws, rest := [d.subAgent, d.seqNo, d.uptime, |d.samples|], EncSamples(d.samples);
    assert ws == ws + [];
    FourWords(r, d.subAgent, d.seqNo, d.uptime, |d.samples|, [], rest);
    NoMoreWords(r.U32().1.U32().1.U32().1.U32().1, rest);
  }

  lemma {:induction false} HeadRead(d: Datagram)
    requires d.Ok()
    ensures if |d.samples| > 4096 then DatagramHead(d.Enc()) == None
            else exists r :: DatagramHead(d.Enc()) == Some((d.agent, |d.samples|, r))
                             && R.At(r, EncSamples(d.samples)) && r.off % 4 == 0
  {
    hide Put32, R.At, Rd.U32, Rd.Bytes, R.Words, EncSamples;
    var tail := R.Words([d.subAgent, d.seqNo, d.uptime, |d.samples|]) + EncSamples(d.samples);
    var t1 := d.agent + tail;
    var t0 := Put32(if |d.agent| == 4 then 1 else 2) + t1;
    R.StartAt(d.Enc());
    var r0 := Rd(d.Enc(), 0, false);
    R.ReadU32(r0, 5, t0);
    var r1 := r0.U32().1;
    R.ReadU32(r1, if |d.agent| == 4 then 1 else 2, t1);
    var r2 := r1.U32().1;
    R.ReadBytes(r2, d.agent, tail);
    var r3 := r2.Bytes(|d.agent|).1;
    assert AtWords(r3, [d.subAgent, d.seqNo, d.uptime, |d.samples|], EncSamples(d.samples));
    CountersRead(r3, d);
  }

  /** Any datagram is read as its samples, one after the other, unless there are more than 4096 of them. */
  lemma {:induction false} DatagramRead(d: Datagram, deviceOverride: string, ts: int, text: seq<byte> -> string)
    requires d.Ok()
    ensures SFlowRows(d.Enc(), deviceOverride, ts, text)
         == if |d.samples| > 4096 then []
            else RowsOf(d.samples, Env(if deviceOverride != "" then deviceOverride else text(d.agent), ts))
  {
    assert EnvOf(d.agent, deviceOverride, ts, text)
        == Env(if deviceOverride != "" then deviceOverride else text(d.agent), ts);
    hide DatagramHead, SamplesOf, EncSamples, Datagram.Enc, R.At, EnvOf, RowsOf;
    HeadRead(d);
    if |d.samples| <= 4096 {
      var r :| DatagramHead(d.Enc()) == Some((d.agent, |d.samples|, r)) && R.At(r, EncSamples(d.samples))
        && r.off % 4 == 0;
      SamplesRead(r, d.samples, EnvOf(d.agent, deviceOverride, ts, text));
    }
  }

  /** The layout of the samples makes no difference. */
  lemma PlainIsExpanded(f: Flow, e: Env)
    requires f.Ok()
    ensures SampleRows(f.Enc(true), e, true) == SampleRows(f.Enc(false), e, false)
  {
    hide SampleRows, Flow.Enc;
    FlowRead(f, e, true);
    FlowRead(f, e, false);
  }
}
