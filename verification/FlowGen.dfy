/** The synthetic v9 and IPFIX exporter of cmd/bazntms-loadgen/flowgen.go. */
module FlowGen {
  import opened Wrappers
  import opened Wire
  import opened Templates
  import opened TemplateRoundTrip

  const TEMPLATE_ID: u16 := 256
  const FLOW_FIELDS: seq<Field> :=
    [Field(8, 4), Field(12, 4), Field(7, 2), Field(11, 2), Field(4, 1), Field(1, 4), Field(2, 4)]
  const REC_LEN := 21

  type Ip4 = b: seq<byte> | |b| == 4 witness [0, 0, 0, 0]

  datatype FlowRec = FlowRec(src: Ip4, dst: Ip4, sport: u16, dport: u16, proto: byte, packets: u32, bytes: u32)

  function Values(r: FlowRec): seq<seq<byte>> {
    [r.src, r.dst, Put16(r.sport), Put16(r.dport), [r.proto], Put32(r.bytes), Put32(r.packets)]
  }

  function EncRec(r: FlowRec): (b: seq<byte>)
    ensures |b| == REC_LEN
  {
    r.src + r.dst + Put16(r.sport) + Put16(r.dport) + [r.proto] + Put32(r.bytes) + Put32(r.packets)
  }

  function EncRecs(recs: seq<FlowRec>): (bs: seq<seq<byte>>)
    ensures |bs| == |recs| && forall b | b in bs :: |b| == REC_LEN
  {
    if recs == [] then [] else [EncRec(recs[0])] + EncRecs(recs[1..])
  }

  /** The row a record stands for. */
  function RowOf(r: FlowRec, c: Context): Row {
    Row(c.at, c.device, Host(r.src), Host(r.dst), r.sport, r.dport, ProtoName(r.proto), r.packets, r.bytes)
  }

  function RowsOf(recs: seq<FlowRec>, c: Context): (rows: seq<Row>)
    ensures |rows| == |recs|
  {
    if recs == [] then [] else [RowOf(recs[0], c)] + RowsOf(recs[1..], c)
  }

  function Specs(fields: seq<Field>): (s: seq<Spec>)
    ensures |s| == |fields| && forall i | 0 <= i < |s| :: s[i] == Spec(fields[i], None)
  {
    seq(|fields|, i requires 0 <= i < |fields| => Spec(fields[i], None))
  }

  const FLOW_DEF := Def(TEMPLATE_ID, Specs(FLOW_FIELDS))
  const FLOW_TEMPLATE := Template(FLOW_FIELDS, REC_LEN)

  function SetsOf(withTemplate: bool, recs: seq<FlowRec>): seq<FlowSet> {
    (if withTemplate then [TemplateDefs([FLOW_DEF], [])] else []) + [Records(TEMPLATE_ID, EncRecs(recs), [])]
  }

  function Domain(exporter: nat): u32 { (1000 + exporter) % 0x1_0000_0000 }

  datatype Clock = Clock(millis: nat, secs: nat)

  /** The header bytes between the length (or count) and the domain. */
  function Head(v: Version, exporter: nat, now: Clock): seq<byte> {
    if v.V9? then Put32(now.millis % 0x8000_0000) + Put32(now.secs) + Put32(exporter)
    else Put32(now.secs) + Put32(exporter)
  }

  function LenOrCount(v: Version, withTemplate: bool, recs: seq<FlowRec>): nat {
    if v.V9? then if withTemplate then 2 else 1
    else 16 + |EncSets(v, SetsOf(withTemplate, recs))|
  }

  function Datagram(v: Version, recs: seq<FlowRec>, exporter: nat, withTemplate: bool, now: Clock): seq<byte> {
    Message(v, LenOrCount(v, withTemplate, recs), Head(v, exporter, now), Domain(exporter), SetsOf(withTemplate, recs))
  }

  // ----- the builders write into buffers -----

  method PutU16(a: array<byte>, off: nat, n: nat)
    requires off + 2 <= a.Length
    modifies a
    ensures a[..off + 2] == old(a[..off]) + Put16(n) && a[off + 2..] == old(a[off + 2..])
  {
    var b := Put16(n);
    a[off], a[off + 1] := b[0], b[1];
  }

  method PutU32(a: array<byte>, off: nat, n: nat)
    requires off + 4 <= a.Length
    modifies a
    ensures a[..off + 4] == old(a[..off]) + Put32(n) && a[off + 4..] == old(a[off + 4..])
  {
    var b := Put32(n);
    a[off], a[off + 1], a[off + 2], a[off + 3] := b[0], b[1], b[2], b[3];
  }

  method CopyTo(a: array<byte>, off: nat, b: seq<byte>)
    requires off + |b| <= a.Length
    modifies a
    ensures a[..off + |b|] == old(a[..off]) + b && a[off + |b|..] == old(a[off + |b|..])
  {
    forall i | 0 <= i < |b| { a[off + i] := b[i]; }
  }

  method EncodeFlowRecord(dst: array<byte>, off: nat, r: FlowRec)
    requires off + REC_LEN <= dst.Length
    modifies dst
    ensures dst[..off + REC_LEN] == old(dst[..off]) + EncRec(r)
  {
    hide Put16, Put32;
    ghost var pre := dst[..off];
    CopyTo(dst, off, r.src);
    CopyTo(dst, off + 4, r.dst);
    assert dst[..off + 8] == pre + (r.src + r.dst);
    PutU16(dst, off + 8, r.sport);
    PutU16(dst, off + 10, r.dport);
    assert dst[..off + 12] == pre + (r.src + r.dst + Put16(r.sport) + Put16(r.dport));
    CopyTo(dst, off + 12, [r.proto]);
    PutU32(dst, off + 13, r.bytes);
    PutU32(dst, off + 17, r.packets);
    assert dst[..off + 21]
         == pre + (r.src + r.dst + Put16(r.sport) + Put16(r.dport) + [r.proto] + Put32(r.bytes) + Put32(r.packets));
  }

  lemma FlatAppend(bs: seq<seq<byte>>, b: seq<byte>)
    ensures Flat(bs + [b]) == Flat(bs) + b
  {
    if bs == [] {
      assert [] + [b] == [b] && Flat([b]) == b + Flat([]);
    } else {
      FlatAppend(bs[1..], b);
      assert (bs + [b])[1..] == bs[1..] + [b];
    }
  }

  lemma {:induction false} EncRecsAppend(recs: seq<FlowRec>, r: FlowRec)
    ensures EncRecs(recs + [r]) == EncRecs(recs) + [EncRec(r)]
  {
    hide EncRec;
    if recs == [] {
      assert recs + [r] == [r] && [r][1..] == [];
    } else {
      EncRecsAppend(recs[1..], r);
      assert (recs + [r])[1..] == recs[1..] + [r];
    }
  }

  method EncodeAll(recs: seq<FlowRec>) returns (dataBody: array<byte>)
    ensures fresh(dataBody) && dataBody[..] == Flat(EncRecs(recs))
  {
    hide EncRec, EncRecs, Put16, Flat;
    NoRecords();
    dataBody := new byte[|recs| * REC_LEN];
    for i := 0 to |recs|
      invariant dataBody[..i * REC_LEN] == Flat(EncRecs(recs[..i]))
    {
      EncodeFlowRecord(dataBody, i * REC_LEN, recs[i]);
      assert recs[..i + 1] == recs[..i] + [recs[i]];
      EncRecsAppend(recs[..i], recs[i]);
      FlatAppend(EncRecs(recs[..i]), EncRec(recs[i]));
    }
    assert recs[..|recs|] == recs;
  }

  lemma NoRecords()
    ensures Flat(EncRecs([])) == []
  {}

  /** The data set both builders share. */
  method BuildDataSet(v: Version, recs: seq<FlowRec>) returns (set_: seq<byte>)
    ensures set_ == EncSet(v, Data(recs))
  {
    hide EncRec, EncRecs, Put16, Flat;
    var dataBody := EncodeAll(recs);
    var dataSet := new byte[4 + dataBody.Length];
    PutU16(dataSet, 0, TEMPLATE_ID);
    PutU16(dataSet, 2, dataSet.Length);
    CopyTo(dataSet, 4, dataBody[..]);
    set_ := dataSet[..];
    assert Flat(EncRecs(recs)) + [] == dataBody[..];
  }

  lemma EncSpecsAppend(v: Version, specs: seq<Spec>, s: Spec)
    ensures EncSpecs(v, specs + [s]) == EncSpecs(v, specs) + EncSpec(v, s)
  {
    hide EncSpec;
    if specs == [] {
      assert specs + [s] == [s] && [s][1..] == [];
    } else {
      EncSpecsAppend(v, specs[1..], s);
      assert (specs + [s])[1..] == specs[1..] + [s];
    }
  }

  method PutField(v: Version, a: array<byte>, off: nat, f: Field)
    requires off + 4 <= a.Length
    modifies a
    ensures a[..off + 4] == old(a[..off]) + EncSpec(v, Spec(f, None))
  {
    hide Put16;
    PutU16(a, off, f.typ);
    PutU16(a, off + 2, f.length);
  }

  method PutFields(v: Version, a: array<byte>, off: nat, fields: seq<Field>)
    requires off + 4 * |fields| <= a.Length
    modifies a
    ensures a[..off + 4 * |fields|] == old(a[..off]) + EncSpecs(v, Specs(fields))
  {
    hide Put16, EncSpecs, EncSpec;
    ghost var specs := Specs(fields);
    var o := off;
    ghost var front := a[..off];
    NoSpecs(v, specs);
    for i := 0 to |fields|
      invariant o == off + 4 * i
      invariant a[..o] == front + EncSpecs(v, specs[..i])
    {
      assert specs[..i + 1] == specs[..i] + [specs[i]];
      EncSpecsAppend(v, specs[..i], specs[i]);
      PutField(v, a, o, fields[i]);
      o := o + 4;
    }
    assert specs[..|fields|] == specs;
  }

  lemma NoSpecs(v: Version, specs: seq<Spec>)
    ensures EncSpecs(v, specs[..0]) == []
  {}

  method BuildTemplateSet(v: Version) returns (set_: seq<byte>)
    ensures set_ == EncSet(v, TMPL)
  {
    hide Put16, EncSpecs, Specs;
    var fieldsLen := |FLOW_FIELDS| * 4;
    var tmplSet := new byte[4 + 4 + fieldsLen];
    PutU16(tmplSet, 0, v.TemplateSet());
    PutU16(tmplSet, 2, tmplSet.Length);
    PutU16(tmplSet, 4, TEMPLATE_ID);
    PutU16(tmplSet, 6, |FLOW_FIELDS|);
    PutFields(v, tmplSet, 8, FLOW_FIELDS);
    set_ := tmplSet[..];
    ghost var d := EncDef(v, FLOW_DEF);
    assert d == Put16(TEMPLATE_ID) + Put16(|FLOW_FIELDS|) + EncSpecs(v, FLOW_DEF.specs);
    assert EncDefs(v, [FLOW_DEF]) == d + EncDefs(v, []) == d;
    assert SetBody(v, TMPL) == d + [] == d;
  }

  const TMPL := TemplateDefs([FLOW_DEF], [])
  function Data(recs: seq<FlowRec>): FlowSet { Records(TEMPLATE_ID, EncRecs(recs), []) }

  lemma ListsOf(recs: seq<FlowRec>)
    ensures SetsOf(true, recs) == [TMPL, Data(recs)] && SetsOf(false, recs) == [Data(recs)]
  {}

  lemma {:induction false} GenSets(v: Version, recs: seq<FlowRec>)
    ensures EncSets(v, SetsOf(true, recs)) == EncSet(v, TMPL) + EncSet(v, Data(recs))
    ensures EncSets(v, SetsOf(false, recs)) == EncSet(v, Data(recs))
  {
    hide EncSet, EncRecs, FLOW_DEF, Data, TMPL;
    var two, one := [TMPL, Data(recs)], [Data(recs)];
    assert two[1..] == one && one[1..] == [];
    assert EncSets(v, one) == EncSet(v, Data(recs)) + [] == EncSet(v, Data(recs));
    ListsOf(recs);
  }

  method HeaderV9(count: nat, exporter: nat, now: Clock) returns (b: seq<byte>)
    ensures b == Put16(9) + Put16(count) + Head(V9, exporter, now) + Put32(Domain(exporter))
  {
    hide Put16, Put32;
    var hdr := new byte[20];
    PutU16(hdr, 0, 9);
    PutU16(hdr, 2, count);
    assert hdr[..4] == Put16(9) + Put16(count);
    PutU32(hdr, 4, now.millis % 0x8000_0000);
    PutU32(hdr, 8, now.secs);
    PutU32(hdr, 12, exporter);
    assert hdr[..16] == Put16(9) + Put16(count) + Head(V9, exporter, now);
    PutU32(hdr, 16, Domain(exporter));
    b := hdr[..];
    assert b == hdr[..20];
  }

  method HeaderIPFIX(total: nat, exporter: nat, now: Clock) returns (b: seq<byte>)
    ensures b == Put16(10) + Put16(total) + Head(IPFIX, exporter, now) + Put32(Domain(exporter))
  {
    hide Put16, Put32;
    var hdr := new byte[16];
    PutU16(hdr, 0, 10);
    PutU16(hdr, 2, total);
    assert hdr[..4] == Put16(10) + Put16(total);
    PutU32(hdr, 4, now.secs);
    PutU32(hdr, 8, exporter);
    assert hdr[..12] == Put16(10) + Put16(total) + Head(IPFIX, exporter, now);
    PutU32(hdr, 12, Domain(exporter));
    b := hdr[..];
    assert b == hdr[..16];
  }

  method BuildV9(recs: seq<FlowRec>, exporter: nat, withTemplate: bool, now: Clock) returns (out: seq<byte>)
    ensures out == Datagram(V9, recs, exporter, withTemplate, now)
  {
    hide Put16, Put32, EncSet, EncRecs, EncSets, FLOW_DEF, Head;
    GenSets(V9, recs);
    var tmplSet := [];
    if withTemplate { tmplSet := BuildTemplateSet(V9); }
    var dataSet := BuildDataSet(V9, recs);
    var count := 1;
    if withTemplate { count := 2; }
    assert tmplSet + dataSet == EncSets(V9, SetsOf(withTemplate, recs));
    var hdr := HeaderV9(count, exporter, now);
    out := hdr + tmplSet;
    out := out + dataSet;
    assert out == hdr + (tmplSet + dataSet);
  }

  method BuildIPFIX(recs: seq<FlowRec>, exporter: nat, withTemplate: bool, now: Clock) returns (out: seq<byte>)
    ensures out == Datagram(IPFIX, recs, exporter, withTemplate, now)
  {
    hide Put16, Put32, EncSet, EncRecs, EncSets, FLOW_DEF, Head;
    GenSets(IPFIX, recs);
    var tmplSet := [];
    if withTemplate { tmplSet := BuildTemplateSet(IPFIX); }
    var dataSet := BuildDataSet(IPFIX, recs);
    assert tmplSet + dataSet == EncSets(IPFIX, SetsOf(withTemplate, recs));
    var total := 16 + |tmplSet| + |dataSet|;
    var hdr := HeaderIPFIX(total, exporter, now);
    out := hdr + tmplSet;
    out := out + dataSet;
    assert out == hdr + (tmplSet + dataSet);
  }
}
