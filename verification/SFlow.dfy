/** sFlow v5 decoding (internal/flows/sflow.go): XDR items of section 4 of RFC 4506, nested
    three deep (datagram, flow sample, raw packet header). */
module SFlow {
  import opened Wrappers
  import opened Wire

  // ----- the reader -----

  /** The state of a beReader; once `err` is set, every read fails. */
  datatype Rd = Rd(b: seq<byte>, off: nat, err: bool) {
    function U32(): (u32, Rd) {
      if err || off + 4 > |b| then (0, this.(err := true)) else (Be32(b, off), this.(off := off + 4))
    }

    /** `n` bytes, then on to the next 4-byte boundary (which may lie behind the end). */
    function Bytes(n: nat): (seq<byte>, Rd) {
      if err || off + n > |b| then ([], this.(err := true))
      else (b[off..off + n], this.(off := PadUp(off + n)))
    }
  }

  function PadUp(n: nat): (m: nat)
    ensures n <= m < n + 4 && m % 4 == 0
  {
    if n % 4 == 0 then n else n + 4 - n % 4
  }

  class BeReader {
    const b: seq<byte>
    var off: nat
    var err: bool

    ghost function State(): Rd
      reads this
    { Rd(b, off, err) }

    constructor (b: seq<byte>)
      ensures State() == Rd(b, 0, false)
    {
      this.b := b;
      off, err := 0, false;
    }

    method U32() returns (v: u32)
      modifies this
      ensures (v, State()) == old(State()).U32()
    {
      if err || off + 4 > |b| {
        err := true;
        return 0;
      }
      v := Be32(b, off);
      off := off + 4;
    }

    method Bytes(n: nat) returns (out: seq<byte>)
      modifies this
      ensures (out, State()) == old(State()).Bytes(n)
    {
      if err || off + n > |b| {
        err := true;
        return [];
      }
      out := b[off..off + n];
      off := off + n;
      var pad := off % 4;
      if pad != 0 { off := off + 4 - pad; }
    }
  }

  // ----- Ethernet and IPv4 -----

  /** The ethertype and payload behind any VLAN tags that start at `off`. */
  function Untagged(b: seq<byte>, et: u16, off: nat): (u16, seq<byte>)
    requires off <= |b|
    decreases |b| - off
  {
    if (et == 0x8100 || et == 0x88a8) && off + 4 <= |b| then Untagged(b, Be16(b, off + 2), off + 4)
    else (et, b[off..])
  }

  function Ethernet(b: seq<byte>): (u16, seq<byte>) {
    if |b| < 14 then (0, []) else Untagged(b, Be16(b, 12), 14)
  }

  method ParseEthernet(b: seq<byte>) returns (ethertype: u16, l3: seq<byte>)
    ensures (ethertype, l3) == Ethernet(b)
  {
    if |b| < 14 { return 0, []; }
    var et := Be16(b, 12);
    var off := 14;
    while (et == 0x8100 || et == 0x88a8) && |b| >= off + 4
      invariant 14 <= off <= |b| && Ethernet(b) == Untagged(b, et, off)
    {
      et := Be16(b, off + 2);
      off := off + 4;
    }
    return et, b[off..];
  }

  datatype Ip = Ip(proto: byte, src: Host, dst: Host, l4: seq<byte>)

  function ParseIPv4(b: seq<byte>): Option<Ip> {
    if |b| < 20 || b[0] / 16 != 4 then None
    else
      var ihl := b[0] % 16 * 4;
      if ihl < 20 || |b| < ihl then None
      else Some(Ip(b[9], Printed(b[12..16]), Printed(b[16..20]), b[ihl..]))
  }

  // ----- records and samples -----

  /** What is fixed while one datagram is decoded. */
  datatype Env = Env(device: string, ts: int)

  function PacketRow(header: seq<byte>, frameLen: u32, e: Env, rate: u32): Option<Row> {
    var eth := Ethernet(header);
    if eth.0 != 0x0800 then None
    else
      match ParseIPv4(eth.1)
      case None => None
      case Some(ip) =>
        var ports := ip.proto in {6, 17} && |ip.l4| >= 4;
        MulU32(frameLen, rate);
        Some(Row(e.ts, e.device, ip.src, ip.dst,
                 if ports then Be16(ip.l4, 0) else 0, if ports then Be16(ip.l4, 2) else 0,
                 ProtoName(ip.proto), rate, frameLen * rate))
  }

  lemma MulU32(a: u32, b: u32)
    ensures 0 <= a * b < TWO64
  {
    MulMono(a, 0xFFFF_FFFF, b);
  }

  function RawPacket(rec: seq<byte>, e: Env, rate: u32): Option<Row> {
    var (proto, r1) := Rd(rec, 0, false).U32();
    var (frameLen, r2) := r1.U32();
    var (_, r3) := r2.U32();
    var (headerLen, r4) := r3.U32();
    var (header, r5) := r4.Bytes(headerLen);
    if r5.err || proto != 1 then None else PacketRow(header, frameLen, e, rate)
  }

  method DecodeRawPacketRecord(rec: seq<byte>, e: Env, rate: u32) returns (row: Option<Row>)
    ensures row == RawPacket(rec, e, rate)
  {
    var h := new BeReader(rec);
    var proto := h.U32();
    var frameLen := h.U32();
    var _ := h.U32();
    var headerLen := h.U32();
    var header := h.Bytes(headerLen);
    if h.err || proto != 1 { return None; }
    var l3proto, l3 := ParseEthernet(header);
    if l3proto != 0x0800 { return None; }
    var ip := ParseIPv4(l3);
    if ip == None { return None; }
    var sport, dport: u16 := 0, 0;
    if ip.value.proto in {6, 17} && |ip.value.l4| >= 4 {
      sport, dport := Be16(ip.value.l4, 0), Be16(ip.value.l4, 2);
    }
    MulU32(frameLen, rate);
    return Some(Row(e.ts, e.device, ip.value.src, ip.value.dst, sport, dport, ProtoName(ip.value.proto),
                    rate, frameLen * rate));
  }

  /** One item of a sequence: a type, a length and that many bytes. */
  function Item(r: Rd): (u32, seq<byte>, Rd) {
    var (typ, r1) := r.U32();
    var (len, r2) := r1.U32();
    var (body, r3) := r2.Bytes(len);
    (typ, body, r3)
  }

  function RecordsOf(r: Rd, n: nat, e: Env, rate: u32): seq<Row>
    decreases n
  {
    if n == 0 || r.err then []
    else
      var (typ, rec, r1) := Item(r);
      if r1.err then []
      else
        RecordRow(typ, rec, e, rate) + RecordsOf(r1, n - 1, e, rate)
  }

  /** The words in front of a sample's records: the sampling rate, the record count and the reader
      behind them. An expanded sample splits the source id and both interface numbers in two. */
  function SampleHead(body: seq<byte>, expanded: bool): (u32, u32, Rd) {
    var (_, r1) := Rd(body, 0, false).U32();
    var (_, r2) := r1.U32();
    var r3 := if expanded then r2.U32().1 else r2;
    var (rate, r4) := r3.U32();
    var (_, r5) := r4.U32();
    var (_, r6) := r5.U32();
    var (_, r7) := r6.U32();
    var (_, r8) := r7.U32();
    var r9 := if expanded then r8.U32().1.U32().1 else r8;
    var (n, r10) := r9.U32();
    (rate, n, r10)
  }

  function SampleRows(body: seq<byte>, e: Env, expanded: bool): seq<Row> {
    var (rate, n, r) := SampleHead(body, expanded);
    if r.err || n > 256 then [] else RecordsOf(r, n, e, if rate == 0 then 1 else rate)
  }

  method ReadItem(s: BeReader) returns (typ: u32, body: seq<byte>)
    modifies s
    ensures (typ, body, s.State()) == Item(old(s.State()))
  {
    typ := s.U32();
    var len := s.U32();
    body := s.Bytes(len);
  }

  method ReadSampleHead(s: BeReader, expanded: bool) returns (rate: u32, numRecords: u32)
    requires s.State() == Rd(s.b, 0, false)
    modifies s
    ensures (rate, numRecords, s.State()) == SampleHead(s.b, expanded)
  {
    var _ := s.U32();
    if expanded {
      var _ := s.U32();
      var _ := s.U32();
    } else {
      var _ := s.U32();
    }
    rate := s.U32();
    var _ := s.U32();
    var _ := s.U32();
    if expanded {
      var _ := s.U32();
      var _ := s.U32();
      var _ := s.U32();
      var _ := s.U32();
    } else {
      var _ := s.U32();
      var _ := s.U32();
    }
    numRecords := s.U32();
  }

  function RecordRow(typ: u32, rec: seq<byte>, e: Env, rate: u32): seq<Row> {
    if typ != 1 then [] else match RawPacket(rec, e, rate) case None => [] case Some(row) => [row]
  }

  method AppendSFlowSample(rows: seq<Row>, body: seq<byte>, e: Env, expanded: bool) returns (out: seq<Row>)
    ensures out == rows + SampleRows(body, e, expanded)
  {
    hide RawPacket, SampleHead, Item, RecordRow, RecordsOf;
    var s := new BeReader(body);
    var rate, numRecords := ReadSampleHead(s, expanded);
    out := rows;
    if s.err || numRecords > 256 { return; }
    if rate == 0 { rate := 1; }
    ghost var goal := RecordsOf(s.State(), numRecords, e, rate);
    var i := 0;
    while i < numRecords && !s.err
      invariant 0 <= i <= numRecords && s.b == body
      invariant rows + goal == out + RecordsOf(s.State(), numRecords - i, e, rate)
      decreases numRecords - i
    {
      RecordTurn(s.State(), numRecords - i, e, rate);
      ghost var out0, r0 := out, s.State();
      var recType, rec := ReadItem(s);
      if s.err { break; }
      i := i + 1;
      if recType == 1 {
        var row := DecodeRawPacketRecord(rec, e, rate);
        if row.Some? { out := out + [row.value]; }
      }
      assert out == out0 + RecordRow(recType, rec, e, rate) by { RowOfRecord(recType, rec, e, rate); }
      Assoc(out0, RecordRow(recType, rec, e, rate), RecordsOf(s.State(), numRecords - i, e, rate));
    }
    RecordsEnd(s.State(), numRecords - i, e, rate);
  }

  lemma Assoc(a: seq<Row>, b: seq<Row>, c: seq<Row>)
    ensures a + (b + c) == (a + b) + c
  {}

  lemma RowOfRecord(typ: u32, rec: seq<byte>, e: Env, rate: u32)
    ensures RecordRow(typ, rec, e, rate)
         == if typ == 1 && RawPacket(rec, e, rate).Some? then [RawPacket(rec, e, rate).value] else []
  {}

  lemma RecordsEnd(r: Rd, n: nat, e: Env, rate: u32)
    requires n == 0 || r.err
    ensures RecordsOf(r, n, e, rate) == []
  {}

  lemma RecordTurn(r: Rd, n: nat, e: Env, rate: u32)
    requires n > 0 && !r.err
    ensures var (typ, rec, r1) := Item(r);
      RecordsOf(r, n, e, rate) == if r1.err then [] else RecordRow(typ, rec, e, rate) + RecordsOf(r1, n - 1, e, rate)
  {}

  /** Enterprise number zero and format 1 or 3; everything else is skipped. */
  function FormatRows(typ: u32, body: seq<byte>, e: Env): seq<Row> {
    if typ == 1 then SampleRows(body, e, false) else if typ == 3 then SampleRows(body, e, true) else []
  }

  function SamplesOf(r: Rd, n: nat, e: Env): seq<Row>
    decreases n
  {
    if n == 0 || r.err then []
    else
      var (typ, body, r1) := Item(r);
      if r1.err then []
      else
        FormatRows(typ, body, e) + SamplesOf(r1, n - 1, e)
  }

  /** Version, agent address, three counters and the number of samples. */
  function DatagramHead(payload: seq<byte>): Option<(seq<byte>, u32, Rd)> {
    var (version, r1) := Rd(payload, 0, false).U32();
    if version != 5 then None
    else
      var (agentType, r2) := r1.U32();
      if agentType != 1 && agentType != 2 then None
      else
        var (agent, r3) := r2.Bytes(if agentType == 1 then 4 else 16);
        var (_, r4) := r3.U32();
        var (_, r5) := r4.U32();
        var (_, r6) := r5.U32();
        var (n, r7) := r6.U32();
        if r7.err || n > 4096 then None else Some((agent, n, r7))
  }

  /** `text` prints an address; the device is the agent's address unless an override is set. */
  function EnvOf(agent: seq<byte>, deviceOverride: string, ts: int, text: seq<byte> -> string): Env {
    Env(if deviceOverride != "" then deviceOverride else text(agent), ts)
  }

  function SFlowRows(payload: seq<byte>, deviceOverride: string, ts: int, text: seq<byte> -> string): seq<Row> {
    match DatagramHead(payload)
    case None => []
    case Some(h) => SamplesOf(h.2, h.1, EnvOf(h.0, deviceOverride, ts, text))
  }

  lemma SamplesEnd(r: Rd, n: nat, e: Env)
    requires n == 0 || r.err
    ensures SamplesOf(r, n, e) == []
  {}

  lemma SampleTurn(r: Rd, n: nat, e: Env)
    requires n > 0 && !r.err
    ensures var (typ, body, r1) := Item(r);
      SamplesOf(r, n, e) == if r1.err then [] else FormatRows(typ, body, e) + SamplesOf(r1, n - 1, e)
  {}

  method ReadDatagramHead(r: BeReader) returns (h: Option<(seq<byte>, u32)>)
    requires r.State() == Rd(r.b, 0, false)
    modifies r
    ensures DatagramHead(r.b) == if h == None then None else Some((h.value.0, h.value.1, r.State()))
  {
    var version := r.U32();
    if version != 5 { return None; }
    var agentType := r.U32();
    var agent;
    if agentType == 1 { agent := r.Bytes(4); }
    else if agentType == 2 { agent := r.Bytes(16); }
    else { return None; }
    var _ := r.U32();
    var _ := r.U32();
    var _ := r.U32();
    var numSamples := r.U32();
    if r.err || numSamples > 4096 { return None; }
    return Some((agent, numSamples));
  }

  method ParseSFlow(payload: seq<byte>, deviceOverride: string, ts: int, text: seq<byte> -> string)
    returns (rows: seq<Row>)
    ensures rows == SFlowRows(payload, deviceOverride, ts, text)
  {
    hide SampleRows, DatagramHead, Item, SamplesOf, FormatRows, EnvOf;
    var r := new BeReader(payload);
    rows := [];
    var h := ReadDatagramHead(r);
    if h == None { return; }
    var numSamples := h.value.1;
    var e := EnvOf(h.value.0, deviceOverride, ts, text);
    ghost var goal := SamplesOf(r.State(), numSamples, e);
    var i := 0;
    assert rows + goal == goal;
    while i < numSamples && !r.err
      invariant 0 <= i <= numSamples && r.b == payload
      invariant goal == rows + SamplesOf(r.State(), numSamples - i, e)
      decreases numSamples - i
    {
      SampleTurn(r.State(), numSamples - i, e);
      ghost var rows0 := rows;
      var sampleType, body := ReadItem(r);
      if r.err { break; }
      i := i + 1;
      var format := sampleType % 0x1000;
      if sampleType / 0x1000 == 0 {
        if format == 1 { rows := AppendSFlowSample(rows, body, e, false); }
        else if format == 3 { rows := AppendSFlowSample(rows, body, e, true); }
      }
      assert rows == rows0 + FormatRows(sampleType, body, e) by { RowsOfFormat(sampleType, body, e); }
      Assoc(rows0, FormatRows(sampleType, body, e), SamplesOf(r.State(), numSamples - i, e));
    }
    SamplesEnd(r.State(), numSamples - i, e);
  }

  lemma RowsOfFormat(typ: u32, body: seq<byte>, e: Env)
    ensures FormatRows(typ, body, e)
         == if typ / 0x1000 == 0 && typ % 0x1000 == 1 then SampleRows(body, e, false)
            else if typ / 0x1000 == 0 && typ % 0x1000 == 3 then SampleRows(body, e, true) else []
  {}
}
