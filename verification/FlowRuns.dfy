/** Whole runs of the template-based decoders: pairs do not disturb each other, and a
    generated stream decodes from its first template on. */
module FlowRuns {
  import opened Wrappers
  import opened Wire
  import opened Templates
  import opened TemplateRoundTrip
  import opened FlowGen

  // ----- one generated datagram -----

  lemma ApplyOne(fields: seq<Field>, values: seq<seq<byte>>, i: nat, p: Partial)
    requires |fields| == |values| && i < |fields|
    ensures ApplyValues(fields[i..], values[i..], p)
         == ApplyValues(fields[i + 1..], values[i + 1..], ApplyField(fields[i], values[i], p))
  {
    assert fields[i..][1..] == fields[i + 1..] && values[i..][1..] == values[i + 1..];
  }

  lemma AddressEffect(src: Ip4, dst: Ip4, p: Partial, q: Partial)
    ensures ApplyField(Field(8, 4), src, p) == p.(row := p.row.(src := Host(src)), haveEndpoints := true)
    ensures ApplyField(Field(12, 4), dst, q) == q.(row := q.row.(dst := Host(dst)))
  {}

  lemma {:induction false} NumberEffects(r: FlowRec, p2: Partial, p3: Partial, p4: Partial, p5: Partial, p6: Partial)
    ensures ApplyField(Field(7, 2), Put16(r.sport), p2) == p2.(row := p2.row.(srcPort := r.sport))
    ensures ApplyField(Field(11, 2), Put16(r.dport), p3) == p3.(row := p3.row.(dstPort := r.dport))
    ensures ApplyField(Field(4, 1), [r.proto], p4) == p4.(row := p4.row.(proto := ProtoName(r.proto)))
    ensures ApplyField(Field(1, 4), Put32(r.bytes), p5) == p5.(row := p5.row.(octets := r.bytes))
    ensures ApplyField(Field(2, 4), Put32(r.packets), p6) == p6.(row := p6.row.(packets := r.packets))
  {
    hide Put16, Put32, BeVal, ProtoName;
    BeVal2(Put16(r.sport));
    BeVal2(Put16(r.dport));
    BeVal4(Put32(r.bytes));
    BeVal4(Put32(r.packets));
  }

  function FilledRow(r: FlowRec, c: Context): Partial {
    Partial(Row(c.at, c.device, Host(r.src), Host(r.dst), r.sport, r.dport, ProtoName(r.proto), r.packets, r.bytes),
      true)
  }

  lemma ValuesApplied(r: FlowRec, c: Context)
    ensures ApplyValues(FLOW_FIELDS, Values(r), EmptyRow(c.device, c.at)) == FilledRow(r, c)
  {
    hide ApplyValues, Put16, Put32, ProtoName, ApplyField;
    var f, vs := FLOW_FIELDS, Values(r);
    var p0 := EmptyRow(c.device, c.at);
    var p1 := p0.(row := p0.row.(src := Host(r.src)), haveEndpoints := true);
    var p2 := p1.(row := p1.row.(dst := Host(r.dst)));
    var p3 := p2.(row := p2.row.(srcPort := r.sport));
    var p4 := p3.(row := p3.row.(dstPort := r.dport));
    var p5 := p4.(row := p4.row.(proto := ProtoName(r.proto)));
    var p6 := p5.(row := p5.row.(octets := r.bytes));
    var p7 := p6.(row := p6.row.(packets := r.packets));
    AddressEffect(r.src, r.dst, p0, p1);
    NumberEffects(r, p2, p3, p4, p5, p6);
    ApplyOne(f, vs, 0, p0);
    ApplyOne(f, vs, 1, p1);
    ApplyOne(f, vs, 2, p2);
    ApplyOne(f, vs, 3, p3);
    ApplyOne(f, vs, 4, p4);
    ApplyOne(f, vs, 5, p5);
    ApplyOne(f, vs, 6, p6);
    assert f[0..] == f && vs[0..] == vs && f[7..] == [] && vs[7..] == [];
    assert p7 == FilledRow(r, c);
    NoValues(p7);
  }

  /** The generator's record decodes to its row under the generator's template. */
  lemma RecordDecodes(r: FlowRec, c: Context)
    ensures Decoded(FLOW_FIELDS, EncRec(r), c.device, c.at) == Some(RowOf(r, c))
  {
    hide ApplyValues, ApplyFields, Flat, Put16, Put32, EncRec, ProtoName;
    FlatOfValues(r);
    RecordSplits(FLOW_FIELDS, Values(r), EmptyRow(c.device, c.at));
    ValuesApplied(r, c);
    ProtoNamed(r.proto);
  }

  lemma NoValues(p: Partial)
    ensures ApplyValues([], [], p) == p
  {}

  lemma ProtoNamed(n: byte)
    ensures ProtoName(n) != ""
  {}

  lemma FlatOfValues(r: FlowRec)
    ensures Flat(Values(r)) == EncRec(r)
  {
    hide Put16, Put32, Flat;
    var vs := Values(r);
    assert Flat(vs[7..]) == [] by { FlatNone(vs); }
    var t5, t4 := Put32(r.bytes) + Put32(r.packets), [r.proto] + (Put32(r.bytes) + Put32(r.packets));
    assert Flat(vs[5..]) == t5 by { FlatOne(vs, 5); FlatOne(vs, 6); }
    var t3 := Put16(r.dport) + t4;
    assert Flat(vs[3..]) == t3 by { FlatOne(vs, 4); FlatOne(vs, 3); }
    FlatOne(vs, 2);
    FlatOne(vs, 1);
    FlatOne(vs, 0);
    assert vs[0..] == vs;
    assert EncRec(r) == r.src + (r.dst + (Put16(r.sport) + t3));
  }

  lemma FlatNone(bs: seq<seq<byte>>)
    ensures Flat(bs[|bs|..]) == []
  {}

  lemma FlatOne(bs: seq<seq<byte>>, i: nat)
    requires i < |bs|
    ensures Flat(bs[i..]) == bs[i] + Flat(bs[i + 1..])
  {
    assert bs[i..][1..] == bs[i + 1..];
  }

  lemma AddFlow(i: nat, n: nat)
    requires i < |FLOW_FIELDS|
    ensures AddSpecs(Template(FLOW_FIELDS[..i], n), FLOW_DEF.specs[i..])
         == AddSpecs(Template(FLOW_FIELDS[..i + 1], n + FLOW_FIELDS[i].length), FLOW_DEF.specs[i + 1..])
  {
    var s := FLOW_DEF.specs;
    assert s[i..][1..] == s[i + 1..];
    assert FLOW_FIELDS[..i + 1] == FLOW_FIELDS[..i] + [FLOW_FIELDS[i]];
  }

  lemma FlowTemplate()
    ensures TemplateOf(FLOW_DEF) == FLOW_TEMPLATE
  {
    hide AddSpecs;
    AddFlow(0, 0);
    AddFlow(1, 4);
    AddFlow(2, 8);
    AddFlow(3, 10);
    AddFlow(4, 12);
    AddFlow(5, 13);
    AddFlow(6, 17);
    assert FLOW_DEF.specs[0..] == FLOW_DEF.specs && FLOW_DEF.specs[7..] == [];
    assert FLOW_FIELDS[..0] == [] && FLOW_FIELDS[..7] == FLOW_FIELDS;
    AddNone(FLOW_TEMPLATE);
  }

  lemma AddNone(t: Template)
    ensures AddSpecs(t, []) == t
  {}

  lemma {:induction false} RecordsDecode(recs: seq<FlowRec>, c: Context)
    ensures RowsOfRecords(FLOW_TEMPLATE, EncRecs(recs), c) == RowsOf(recs, c)
  {
    hide EncRec, RowOf, Decoded;
    if recs != [] {
      RecordDecodes(recs[0], c);
      RecordsDecode(recs[1..], c);
      assert EncRecs(recs)[1..] == EncRecs(recs[1..]);
    }
  }

  function TotalLen(v: Version, withTemplate: bool, n: nat): nat {
    v.HeaderLen() + (if withTemplate then 36 else 0) + 4 + REC_LEN * n
  }

  /** When `n` records can be sent in one datagram: the 16-bit set length holds, and an IPFIX
      message length is either right or so small that the parser ignores it. */
  predicate Fits(v: Version, withTemplate: bool, n: nat) {
    && 4 + REC_LEN * n < 0x1_0000
    && (v.IPFIX? ==> TotalLen(v, withTemplate, n) < 0x1_0000 || TotalLen(v, withTemplate, n) % 0x1_0000 < 16)
  }

  lemma {:induction false} FlatLen(recs: seq<FlowRec>)
    ensures |Flat(EncRecs(recs))| == REC_LEN * |recs|
  {
    hide EncRec;
    if recs != [] {
      FlatLen(recs[1..]);
      assert EncRecs(recs)[1..] == EncRecs(recs[1..]);
    }
  }

  lemma TemplateSetLen(v: Version)
    ensures |EncDefs(v, [FLOW_DEF])| == 32
  {
    hide Put16;
    SpecsLen(v, FLOW_DEF.specs);
    assert EncDefs(v, [FLOW_DEF]) == EncDef(v, FLOW_DEF) + EncDefs(v, []);
  }

  lemma {:induction false} SpecsLen(v: Version, specs: seq<Spec>)
    requires forall s | s in specs :: s.enterprise == None
    ensures |EncSpecs(v, specs)| == 4 * |specs|
  {
    if specs != [] { SpecsLen(v, specs[1..]); }
  }

  lemma {:induction false} DatagramLen(v: Version, withTemplate: bool, recs: seq<FlowRec>)
    ensures v.HeaderLen() + |EncSets(v, SetsOf(withTemplate, recs))| == TotalLen(v, withTemplate, |recs|)
    ensures |SetBody(v, TMPL)| == 32 && |SetBody(v, Data(recs))| == REC_LEN * |recs|
    ensures |EncSet(v, TMPL)| == 36
  {
    hide EncRec, EncRecs, EncDefs, FLOW_DEF;
    GenSets(v, recs);
    FlatLen(recs);
    TemplateSetLen(v);
  }

  function Key(exporter: string, domain: u32): TemplateKey { TemplateKey(Pair(exporter, domain), TEMPLATE_ID) }

  lemma {:induction false} GeneratedLen(v: Version, recs: seq<FlowRec>, exporter: nat, withTemplate: bool, now: Clock)
    ensures Datagram(v, recs, exporter, withTemplate, now)
         == Message(v, LenOrCount(v, withTemplate, recs), Head(v, exporter, now), Domain(exporter),
           SetsOf(withTemplate, recs))
    ensures |Datagram(v, recs, exporter, withTemplate, now)| == TotalLen(v, withTemplate, |recs|)
    ensures v.IPFIX? ==> LenOrCount(v, withTemplate, recs) == TotalLen(v, withTemplate, |recs|)
    ensures HeaderOk(v, Head(v, exporter, now), Domain(exporter))
  {
    hide EncRec, EncRecs, EncSets, Put16, Put32;
    DatagramLen(v, withTemplate, recs);
  }

  lemma {:induction false} DataMeaning(cache: Cache, pair: Pair, recs: seq<FlowRec>, c: Context)
    requires TemplateKey(pair, TEMPLATE_ID) in cache ==> cache[TemplateKey(pair, TEMPLATE_ID)] == FLOW_TEMPLATE
    ensures AllConform(cache, pair, [Data(recs)])
    ensures Meaning(cache, pair, [Data(recs)], c)
         == (cache, if TemplateKey(pair, TEMPLATE_ID) in cache then RowsOf(recs, c) else [])
  {
    hide EncRec, RowsOf, RowsOfRecords;
    RecordsDecode(recs, c);
    var one := [Data(recs)];
    assert one[1..] == [];
    var rows := RowsOfSet(cache, pair, Data(recs), c);
    assert rows + [] == rows;
    assert Conforms(cache, pair, Data(recs));
  }

  /** The sets of a generated datagram are well formed, and what they mean. */
  lemma GeneratedSets(v: Version, cache: Cache, pair: Pair, recs: seq<FlowRec>, withTemplate: bool, c: Context)
    requires 4 + REC_LEN * |recs| < 0x1_0000
    requires TemplateKey(pair, TEMPLATE_ID) in cache ==> cache[TemplateKey(pair, TEMPLATE_ID)] == FLOW_TEMPLATE
    ensures AllConform(cache, pair, SetsOf(withTemplate, recs))
    ensures var key := TemplateKey(pair, TEMPLATE_ID);
      Meaning(cache, pair, SetsOf(withTemplate, recs), c) ==
      (if withTemplate then cache[key := FLOW_TEMPLATE] else cache,
       if withTemplate || key in cache then RowsOf(recs, c) else [])
  {
    hide EncRec, EncRecs, RowsOf, TemplateOf, SetsOf;
    var key := TemplateKey(pair, TEMPLATE_ID);
    ListsOf(recs);
    if withTemplate {
      var cache1 := cache[key := FLOW_TEMPLATE];
      FlowTemplate();
      DataMeaning(cache1, pair, recs, c);
      var one, two := [Data(recs)], [TMPL, Data(recs)];
      assert two[1..] == one;
      assert LearnDefs(cache, pair, [FLOW_DEF]) == LearnDefs(cache1, pair, [FLOW_DEF][1..]) == cache1;
      var rest := Meaning(cache1, pair, one, c);
      assert [] + rest.1 == rest.1;
    } else {
      DataMeaning(cache, pair, recs, c);
    }
  }

  lemma GeneratedSetsOk(v: Version, recs: seq<FlowRec>, withTemplate: bool)
    requires 4 + REC_LEN * |recs| < 0x1_0000
    ensures forall s | s in SetsOf(withTemplate, recs) :: SetOk(v, s)
  {
    hide EncRec, EncRecs, EncDefs, Flat, SetsOf, SetBody;
    DatagramLen(v, withTemplate, recs);
    ListsOf(recs);
    assert DefOk(v, FLOW_DEF);
    assert SetOk(v, TMPL) && SetOk(v, Data(recs));
  }

  /** What a receiver makes of a generated datagram that fits: all its records in order when it
      carries or follows the template of its own pair, and no row otherwise. */
  lemma {:induction false} GeneratedRead(v: Version, cache: Cache, peer: string, recs: seq<FlowRec>, exporter: nat,
                                         withTemplate: bool, now: Clock, c: Context)
    requires Fits(v, withTemplate, |recs|)
    requires Key(peer, Domain(exporter)) in cache ==> cache[Key(peer, Domain(exporter))] == FLOW_TEMPLATE
    ensures Parsed(v, cache, Datagram(v, recs, exporter, withTemplate, now), peer, c) ==
      (if withTemplate then cache[Key(peer, Domain(exporter)) := FLOW_TEMPLATE] else cache,
       if withTemplate || Key(peer, Domain(exporter)) in cache then RowsOf(recs, c) else [])
  {
    hide EncSets, Meaning, SetOk, RowsOf, AllConform, Head, Message, Parsed, SetsOf, LenOrCount, HeaderOk, Datagram,
         Domain, TotalLen;
    GeneratedSetsOk(v, recs, withTemplate);
    GeneratedSets(v, cache, Pair(peer, Domain(exporter)), recs, withTemplate, c);
    GeneratedLen(v, recs, exporter, withTemplate, now);
    MessageRead(v, cache, peer, LenOrCount(v, withTemplate, recs), Head(v, exporter, now), Domain(exporter),
                SetsOf(withTemplate, recs), c);
  }

  // ----- datagrams that are too long -----

  const ZERO := FlowRec([0, 0, 0, 0], [0, 0, 0, 0], 0, 0, 0, 0, 0)

  function Zeros(n: nat): (s: seq<FlowRec>)
    ensures |s| == n && forall r | r in s :: IsZero(r)
  {
    seq(n, _ => ZERO)
  }

  predicate AllZero(b: seq<byte>) { forall i | 0 <= i < |b| :: b[i] == 0 }

  lemma ZeroCat(a: seq<byte>, b: seq<byte>)
    requires AllZero(a) && AllZero(b)
    ensures AllZero(a + b)
  {}

  predicate IsZero(r: FlowRec) {
    AllZero(r.src) && AllZero(r.dst) && r.sport == 0 && r.dport == 0 && r.proto == 0 && r.packets == 0 && r.bytes == 0
  }

  lemma ZeroPut(n: nat)
    requires n == 0
    ensures AllZero(Put16(n)) && AllZero(Put32(n))
  {}

  lemma ZeroRecord(r: FlowRec)
    requires IsZero(r)
    ensures AllZero(EncRec(r))
  {
    ZeroPut(r.sport);
    hide Put16, Put32;
    ZeroCat(r.src, r.dst);
    ZeroCat(r.src + r.dst, Put16(r.sport));
    ZeroCat(r.src + r.dst + Put16(r.sport), Put16(r.dport));
    ZeroCat(r.src + r.dst + Put16(r.sport) + Put16(r.dport), [r.proto]);
    ZeroCat(r.src + r.dst + Put16(r.sport) + Put16(r.dport) + [r.proto], Put32(r.bytes));
    ZeroCat(r.src + r.dst + Put16(r.sport) + Put16(r.dport) + [r.proto] + Put32(r.bytes), Put32(r.packets));
  }

  lemma {:induction false} ZeroBytes(recs: seq<FlowRec>)
    requires forall r | r in recs :: IsZero(r)
    ensures AllZero(Flat(EncRecs(recs)))
  {
    hide EncRec;
    if recs != [] {
      assert recs[0] in recs;
      ZeroRecord(recs[0]);
      assert forall r | r in recs[1..] :: r in recs;
      ZeroBytes(recs[1..]);
      assert EncRecs(recs)[1..] == EncRecs(recs[1..]);
      assert Flat(EncRecs(recs)) == EncRec(recs[0]) + Flat(EncRecs(recs[1..]));
    }
  }

  /** Zero bytes are no set: their length field is below the header size. */
  lemma ZerosStop(v: Version, cache: Cache, pair: Pair, z: seq<byte>, c: Context)
    requires AllZero(z)
    ensures Sets(v, cache, pair, z, c) == (cache, [])
  {}

  /** A set cut short ends the parse. */
  lemma CutSet(v: Version, cache: Cache, pair: Pair, s: FlowSet, k: nat, c: Context)
    requires 4 + |SetBody(v, s)| < 0x1_0000 && k < |EncSet(v, s)|
    ensures Sets(v, cache, pair, EncSet(v, s)[..k], c) == (cache, [])
  {
    hide Put16, Learned, Yielded, SetBody, SetId;
    var b := EncSet(v, s)[..k];
    if k >= 4 {
      Middle(Put16(SetId(v, s)), Put16(4 + |SetBody(v, s)|), SetBody(v, s));
      assert EncSet(v, s)[2..4] == Put16(4 + |SetBody(v, s)|);
      assert b[2..4] == EncSet(v, s)[2..4];
      Be16In(b, 2, 4 + |SetBody(v, s)|);
    }
  }

  lemma {:induction false} RowBound(t: Template, body: seq<byte>, c: Context)
    requires t.recLen > 0
    ensures |RecordRows(t, body, c)| * t.recLen <= |body|
    decreases |body|
  {
    hide Decoded;
    if t.recLen <= |body| {
      RowBound(t, body[t.recLen..], c);
      var n := |RecordRows(t, body[t.recLen..], c)|;
      var more := RecordRows(t, body, c);
      assert |more| <= n + 1;
      MulMono(|more|, n + 1, t.recLen);
    }
  }

  /** A data set of `n` zero records whose length field wrapped, or that is cut short, gives fewer than `n` rows. */
  lemma CutData(v: Version, cache: Cache, pair: Pair, z: seq<byte>, n: nat, k: nat, c: Context)
    requires TemplateKey(pair, TEMPLATE_ID) in cache && cache[TemplateKey(pair, TEMPLATE_ID)] == FLOW_TEMPLATE
    requires |z| == REC_LEN * n && n > 0 && AllZero(z)
    requires k <= 4 + |z| && (k < 4 + |z| || 4 + |z| >= 0x1_0000)
    ensures |Sets(v, cache, pair, (Put16(TEMPLATE_ID) + Put16(4 + |z|) + z)[..k], c).1| < n
  {
    hide RecordRows, Put16, Learn;
    var d := Put16(TEMPLATE_ID) + Put16(4 + |z|) + z;
    var b := d[..k];
    if k >= 4 {
      assert b[0..2] == Put16(TEMPLATE_ID) && b[2..4] == Put16(4 + |z|);
      Be16In(b, 0, TEMPLATE_ID);
      Be16In(b, 2, 4 + |z|);
      var len: nat := Be16(b, 2);
      if 4 <= len <= k {
        var body, rest := b[4..len], b[len..];
        RowBound(FLOW_TEMPLATE, body, c);
        assert forall i | 0 <= i < |rest| :: rest[i] == z[len - 4 + i];
        ZerosStop(v, cache, pair, rest, c);
        assert Yielded(cache, pair, TEMPLATE_ID, body, c) == RecordRows(FLOW_TEMPLATE, body, c);
        var rows := RecordRows(FLOW_TEMPLATE, body, c);
        assert Sets(v, cache, pair, b, c).1 == rows + [] == rows;
        assert len - 4 < |z|;
      }
    }
  }

  /** The other half of GeneratedRead: a datagram of `n` records that does not fit loses rows,
      here for records of zeros and a receiver that knows the template. */
  lemma {:induction false} TooLong(v: Version, cache: Cache, peer: string, n: nat, exporter: nat, withTemplate: bool,
                                   now: Clock, c: Context)
    requires !Fits(v, withTemplate, n)
    requires Key(peer, Domain(exporter)) in cache && cache[Key(peer, Domain(exporter))] == FLOW_TEMPLATE
    ensures |Parsed(v, cache, Datagram(v, Zeros(n), exporter, withTemplate, now), peer, c).1| < n
  {
    hide EncRec, EncRecs, Put16, Put32, Sets, Head, LenOrCount, EncSets, Datagram, Domain;
    var recs := Zeros(n);
    var m := Datagram(v, recs, exporter, withTemplate, now);
    var pair := Pair(peer, Domain(exporter));
    GeneratedLen(v, recs, exporter, withTemplate, now);
    MessageHeader(v, LenOrCount(v, withTemplate, recs), Head(v, exporter, now), Domain(exporter),
      SetsOf(withTemplate, recs));
    var end := if v.V9? then |m| else MessageEnd(m);
    var k := end - v.HeaderLen();
    var b := m[v.HeaderLen()..];
    assert m[v.HeaderLen()..end] == b[..k];
    CutSets(v, cache, pair, recs, withTemplate, k, c);
  }

  lemma CutSets(v: Version, cache: Cache, pair: Pair, recs: seq<FlowRec>, withTemplate: bool, k: nat, c: Context)
    requires TemplateKey(pair, TEMPLATE_ID) in cache && cache[TemplateKey(pair, TEMPLATE_ID)] == FLOW_TEMPLATE
    requires recs == Zeros(|recs|) && recs != []
    requires k <= |EncSets(v, SetsOf(withTemplate, recs))|
    requires k < |EncSets(v, SetsOf(withTemplate, recs))| || 4 + REC_LEN * |recs| >= 0x1_0000
    ensures |Sets(v, cache, pair, EncSets(v, SetsOf(withTemplate, recs))[..k], c).1| < |recs|
  {
    hide EncRec, EncRecs, EncSets, Sets, SetsOf, TemplateOf, Flat, EncDefs, FLOW_DEF;
    DatagramLen(v, withTemplate, recs);
    GenSets(v, recs);
    var z := Flat(EncRecs(recs));
    ZeroBytes(recs);
    var d := Put16(TEMPLATE_ID) + Put16(4 + |z|) + z;
    assert EncSet(v, Data(recs)) == d by { assert z + [] == z; }
    if withTemplate {
      var t := EncSet(v, TMPL);
      if k < 36 {
        assert (t + d)[..k] == t[..k];
        CutSet(v, cache, pair, TMPL, k, c);
      } else {
        assert (t + d)[..k] == t + d[..k - 36];
        BehindTemplate(v, cache, pair, d[..k - 36], c);
        CutData(v, cache, pair, z, |recs|, k - 36, c);
      }
    } else {
      CutData(v, cache, pair, z, |recs|, k, c);
    }
  }

  lemma FlowDefOk(v: Version)
    ensures FLOW_DEF.id == TEMPLATE_ID && DefOk(v, FLOW_DEF)
  {}

  /** Learning the generator's template again changes nothing. */
  lemma LearnAgain(v: Version, cache: Cache, pair: Pair)
    requires TemplateKey(pair, TEMPLATE_ID) in cache && cache[TemplateKey(pair, TEMPLATE_ID)] == FLOW_TEMPLATE
    ensures Learn(v, cache, pair, SetBody(v, TMPL)) == cache
  {
    hide FLOW_DEF, TemplateOf, EncDefs, Learn, DefOk;
    FlowDefOk(v);
    FlowTemplate();
    DefsRead(v, cache, pair, [FLOW_DEF], []);
    var cache1 := cache[TemplateKey(pair, TEMPLATE_ID) := FLOW_TEMPLATE];
    assert cache1 == cache;
    assert [FLOW_DEF][1..] == [];
    assert LearnDefs(cache, pair, [FLOW_DEF]) == LearnDefs(cache1, pair, []) == cache;
  }

  /** A whole template set in front of `d` leaves only what `d` gives. */
  lemma {:induction false} BehindTemplate(v: Version, cache: Cache, pair: Pair, d: seq<byte>, c: Context)
    requires TemplateKey(pair, TEMPLATE_ID) in cache && cache[TemplateKey(pair, TEMPLATE_ID)] == FLOW_TEMPLATE
    ensures Sets(v, cache, pair, EncSet(v, TMPL) + d, c).1 == Sets(v, cache, pair, d, c).1
  {
    hide TMPL, Learn, SetBody, SetId, Sets, EncSet, DataRows, FLOW_TEMPLATE;
    TemplateBodyFits(v);
    LearnAgain(v, cache, pair);
    IsTemplateSet(v);
    SetThen(v, cache, pair, TMPL, d, c);
    var rest := Sets(v, cache, pair, d, c);
    assert [] + rest.1 == rest.1;
  }

  lemma TemplateBodyFits(v: Version)
    ensures 4 + |SetBody(v, TMPL)| < 0x1_0000
  {
    DatagramLen(v, false, []);
  }

  lemma IsTemplateSet(v: Version)
    ensures SetId(v, TMPL) == v.TemplateSet()
  {}

  /** Exactly the record counts that fit survive the trip, for every content. */
  lemma {:induction false} FitsIsExact(v: Version, cache: Cache, peer: string, n: nat, exporter: nat,
                                       withTemplate: bool, now: Clock, c: Context)
    requires Key(peer, Domain(exporter)) in cache && cache[Key(peer, Domain(exporter))] == FLOW_TEMPLATE
    ensures Fits(v, withTemplate, n) <==>
      forall recs: seq<FlowRec> | |recs| == n ::
        Parsed(v, cache, Datagram(v, recs, exporter, withTemplate, now), peer, c).1 == RowsOf(recs, c)
  {
    hide Parsed, Datagram, Fits, RowsOf, Domain;
    if Fits(v, withTemplate, n) {
      forall recs: seq<FlowRec> | |recs| == n
        ensures Parsed(v, cache, Datagram(v, recs, exporter, withTemplate, now), peer, c).1 == RowsOf(recs, c)
      {
        GeneratedRead(v, cache, peer, recs, exporter, withTemplate, now, c);
      }
    } else {
      TooLong(v, cache, peer, n, exporter, withTemplate, now, c);
      assert |RowsOf(Zeros(n), c)| == n;
    }
  }
}
