/** What any v9 or IPFIX exporter writes, and that the parsers of Templates read
    it back: section 5 of RFC 3954 and section 3 of RFC 7011. */
module TemplateRoundTrip {
  import opened Wrappers
  import opened Wire
  import opened Templates

  // ----- the wire grammar -----

  /** A field specifier; only IPFIX can mark one with an enterprise number. */
  datatype Spec = Spec(field: Field, enterprise: Option<u32>)
  datatype Def = Def(id: u16, specs: seq<Spec>)
  datatype FlowSet =
    | TemplateDefs(defs: seq<Def>, pad: seq<byte>)
    | Skipped(id: u16, content: seq<byte>)
    | Records(id: u16, records: seq<seq<byte>>, pad: seq<byte>)

  function Flat(bs: seq<seq<byte>>): seq<byte> {
    if bs == [] then [] else bs[0] + Flat(bs[1..])
  }

  function EncSpec(v: Version, s: Spec): seq<byte> {
    if v.IPFIX? && s.enterprise.Some? then
      Put16(s.field.typ + 0x8000) + Put16(s.field.length) + Put32(s.enterprise.value)
    else Put16(s.field.typ) + Put16(s.field.length)
  }

  function EncSpecs(v: Version, specs: seq<Spec>): seq<byte> {
    if specs == [] then [] else EncSpec(v, specs[0]) + EncSpecs(v, specs[1..])
  }

  function EncDef(v: Version, d: Def): seq<byte> {
    Put16(d.id) + Put16(|d.specs|) + EncSpecs(v, d.specs)
  }

  function EncDefs(v: Version, defs: seq<Def>): seq<byte> {
    if defs == [] then [] else EncDef(v, defs[0]) + EncDefs(v, defs[1..])
  }

  function SetId(v: Version, s: FlowSet): u16 { if s.TemplateDefs? then v.TemplateSet() else s.id }

  function SetBody(v: Version, s: FlowSet): seq<byte> {
    match s
    case TemplateDefs(defs, pad) => EncDefs(v, defs) + pad
    case Skipped(_, content) => content
    case Records(_, records, pad) => Flat(records) + pad
  }

  /** The set header carries the set's length in 16 bits. */
  function EncSet(v: Version, s: FlowSet): seq<byte> {
    Put16(SetId(v, s)) + Put16(4 + |SetBody(v, s)|) + SetBody(v, s)
  }

  function EncSets(v: Version, sets: seq<FlowSet>): seq<byte> {
    if sets == [] then [] else EncSet(v, sets[0]) + EncSets(v, sets[1..])
  }

  predicate SpecOk(v: Version, s: Spec) {
    if v.IPFIX? then s.field.typ < 0x8000 else s.enterprise == None
  }

  predicate DefOk(v: Version, d: Def) {
    |d.specs| < 0x1_0000 && forall s | s in d.specs :: SpecOk(v, s)
  }

  /** A set an exporter may write: lengths fit their fields, padding is shorter than what it pads. */
  predicate SetOk(v: Version, s: FlowSet) {
    && 4 + |SetBody(v, s)| < 0x1_0000
    && match s
       case TemplateDefs(defs, pad) => |pad| < 4 && forall d | d in defs :: DefOk(v, d)
       case Skipped(id, _) => id < 256 && id != v.TemplateSet()
       case Records(id, _, _) => id >= 256
  }

  // ----- what the sets mean -----

  function AddSpecs(t: Template, specs: seq<Spec>): Template
    decreases specs
  {
    if specs == [] then t else AddSpecs(AddField(t, specs[0].field), specs[1..])
  }

  function TemplateOf(d: Def): Template { AddSpecs(NO_FIELDS, d.specs) }

  function LearnDefs(cache: Cache, pair: Pair, defs: seq<Def>): Cache
    decreases defs
  {
    if defs == [] then cache
    else LearnDefs(cache[TemplateKey(pair, defs[0].id) := TemplateOf(defs[0])], pair, defs[1..])
  }

  function RowsOfRecords(t: Template, records: seq<seq<byte>>, c: Context): seq<Row> {
    if records == [] then []
    else (match Decoded(t.fields, records[0], c.device, c.at) case None => [] case Some(r) => [r])
         + RowsOfRecords(t, records[1..], c)
  }

  /** Each record of the set has the length the receiver's template says (a set whose
      template is unknown, empty or variable is not decoded at all). */
  predicate Conforms(cache: Cache, pair: Pair, s: FlowSet) {
    s.Records? && TemplateKey(pair, s.id) in cache && cache[TemplateKey(pair, s.id)].recLen > 0 ==>
      |s.pad| < cache[TemplateKey(pair, s.id)].recLen
      && forall r | r in s.records :: |r| == cache[TemplateKey(pair, s.id)].recLen
  }

  function RowsOfSet(cache: Cache, pair: Pair, s: FlowSet, c: Context): seq<Row> {
    if s.Records? && TemplateKey(pair, s.id) in cache && cache[TemplateKey(pair, s.id)].recLen > 0
    then RowsOfRecords(cache[TemplateKey(pair, s.id)], s.records, c)
    else []
  }

  function CacheAfter(cache: Cache, pair: Pair, s: FlowSet): Cache {
    if s.TemplateDefs? then LearnDefs(cache, pair, s.defs) else cache
  }

  function Meaning(cache: Cache, pair: Pair, sets: seq<FlowSet>, c: Context): (Cache, seq<Row>)
    decreases sets
  {
    if sets == [] then (cache, [])
    else
      var rest := Meaning(CacheAfter(cache, pair, sets[0]), pair, sets[1..], c);
      (rest.0, RowsOfSet(cache, pair, sets[0], c) + rest.1)
  }

  predicate AllConform(cache: Cache, pair: Pair, sets: seq<FlowSet>)
    decreases sets
  {
    sets == [] || (Conforms(cache, pair, sets[0]) && AllConform(CacheAfter(cache, pair, sets[0]), pair, sets[1..]))
  }

  // ----- templates -----

  /** The record length of a template: the sum of its field lengths, unless one of them is variable. */
  lemma {:induction false} RecordLength(t: Template, specs: seq<Spec>)
    requires t.recLen >= -1
    ensures AddSpecs(t, specs).recLen ==
            if t.recLen == -1 || (exists s | s in specs :: s.field.length == VARIABLE) then -1
            else t.recLen + SumOfLengths(specs)
    decreases specs
  {
    if specs != [] {
      RecordLength(AddField(t, specs[0].field), specs[1..]);
      assert forall s | s in specs :: s == specs[0] || s in specs[1..];
    }
  }

  function SumOfLengths(specs: seq<Spec>): nat {
    if specs == [] then 0 else specs[0].field.length + SumOfLengths(specs[1..])
  }

  lemma Be16In(b: seq<byte>, off: nat, x: nat)
    requires off + 2 <= |b| && b[off..off + 2] == Put16(x)
    ensures Be16(b, off) == x % 0x1_0000
  {
    assert b[off] == b[off..off + 2][0] && b[off + 1] == b[off..off + 2][1];
  }

  /** A part of an encoding found in `body` at `off`. */
  lemma PartAt(body: seq<byte>, off: nat, e: seq<byte>, a: nat, b: nat)
    requires off + |e| <= |body| && body[off..off + |e|] == e && a <= b <= |e|
    ensures body[off + a..off + b] == e[a..b]
  {
    SliceOfSlice(body, off, off + |e|, a, b);
  }

  lemma Middle(a: seq<byte>, b: seq<byte>, c: seq<byte>)
    ensures (a + b + c)[|a|..|a| + |b|] == b
  {}

  /** One specifier, wherever it stands. */
  lemma FieldRead(v: Version, body: seq<byte>, off: nat, s: Spec)
    requires SpecOk(v, s) && off + |EncSpec(v, s)| <= |body|
    requires body[off..off + |EncSpec(v, s)|] == EncSpec(v, s)
    ensures FieldAt(body, off, v.IPFIX?) == Some((s.field, off + |EncSpec(v, s)|))
  {
    var typ: nat := if v.IPFIX? && s.enterprise.Some? then s.field.typ + 0x8000 else s.field.typ;
    var tail := if v.IPFIX? && s.enterprise.Some? then Put32(s.enterprise.value) else [];
    assert EncSpec(v, s) == Put16(typ) + Put16(s.field.length) + tail by { hide Put16, Put32; }
    hide EncSpec, Put16, Put32, Be16;
    SpecHead(body, off, typ, s.field.length, tail);
  }

  lemma SpecHead(body: seq<byte>, off: nat, typ: nat, length: nat, tail: seq<byte>)
    requires typ < 0x1_0000 && length < 0x1_0000 && off + 4 + |tail| <= |body|
    requires body[off..off + 4 + |tail|] == Put16(typ) + Put16(length) + tail
    ensures Be16(body, off) == typ && Be16(body, off + 2) == length
  {
    hide Put16, Be16;
    var e := Put16(typ) + Put16(length) + tail;
    Middle([], Put16(typ), Put16(length) + tail);
    Middle(Put16(typ), Put16(length), tail);
    assert e == [] + Put16(typ) + (Put16(length) + tail);
    PartAt(body, off, e, 0, 2);
    PartAt(body, off, e, 2, 4);
    Be16In(body, off, typ);
    Be16In(body, off + 2, length);
  }

  lemma {:induction false} FieldsRead(v: Version, body: seq<byte>, off: nat, specs: seq<Spec>, t: Template)
    requires forall s | s in specs :: SpecOk(v, s)
    requires off + |EncSpecs(v, specs)| <= |body| && body[off..off + |EncSpecs(v, specs)|] == EncSpecs(v, specs)
    ensures FieldsAt(body, off, |specs|, v.IPFIX?, t) == Some((AddSpecs(t, specs), off + |EncSpecs(v, specs)|))
    decreases specs
  {
    hide EncSpec, SpecOk, AddField, FieldAt;
    if specs != [] {
      var e, es := EncSpec(v, specs[0]), EncSpecs(v, specs[1..]);
      var whole := body[off..off + |EncSpecs(v, specs)|];
      assert whole == e + es;
      assert body[off..off + |e|] == whole[..|e|] == e;
      assert body[off + |e|..off + |e| + |es|] == whole[|e|..] == es;
      FieldRead(v, body, off, specs[0]);
      FieldsRead(v, body, off + |e|, specs[1..], AddField(t, specs[0].field));
    }
  }

  lemma TemplateRead(v: Version, d: Def, post: seq<byte>)
    requires DefOk(v, d)
    ensures TemplateAt(EncDef(v, d) + post, v.IPFIX?) == Some((d.id, TemplateOf(d), |EncDef(v, d)|))
  {
    hide FieldsAt, EncSpecs, AddSpecs, Put16, Be16;
    var body := EncDef(v, d) + post;
    assert body[0..2] == Put16(d.id) && body[2..4] == Put16(|d.specs|);
    Be16In(body, 0, d.id);
    Be16In(body, 2, |d.specs|);
    assert body[4..4 + |EncSpecs(v, d.specs)|] == EncSpecs(v, d.specs);
    FieldsRead(v, body, 4, d.specs, NO_FIELDS);
  }

  lemma {:induction false} DefsRead(v: Version, cache: Cache, pair: Pair, defs: seq<Def>, pad: seq<byte>)
    requires |pad| < 4 && forall d | d in defs :: DefOk(v, d)
    ensures Learn(v, cache, pair, EncDefs(v, defs) + pad) == LearnDefs(cache, pair, defs)
    decreases defs
  {
    if defs == [] {
      assert EncDefs(v, defs) + pad == pad;
    } else {
      var e, es := EncDef(v, defs[0]), EncDefs(v, defs[1..]);
      var b := e + (es + pad);
      assert EncDefs(v, defs) + pad == b;
      TemplateRead(v, defs[0], es + pad);
      assert b[|e|..] == es + pad;
      DefsRead(v, cache[TemplateKey(pair, defs[0].id) := TemplateOf(defs[0])], pair, defs[1..], pad);
    }
  }

  // ----- records -----

  lemma {:induction false} RecordsRead(t: Template, records: seq<seq<byte>>, pad: seq<byte>, c: Context)
    requires t.recLen > |pad| && forall r | r in records :: |r| == t.recLen
    ensures RecordRows(t, Flat(records) + pad, c) == RowsOfRecords(t, records, c)
    decreases records
  {
    hide Decoded;
    if records == [] {
      assert Flat(records) + pad == pad;
    } else {
      var body := records[0] + (Flat(records[1..]) + pad);
      assert Flat(records) + pad == body;
      assert records[0] in records;
      assert body[..t.recLen] == records[0] && body[t.recLen..] == Flat(records[1..]) + pad;
      RecordsRead(t, records[1..], pad, c);
    }
  }

  function ApplyValues(fields: seq<Field>, values: seq<seq<byte>>, p: Partial): Partial
    requires |fields| == |values|
  {
    if fields == [] then p else ApplyValues(fields[1..], values[1..], ApplyField(fields[0], values[0], p))
  }

  /** A record laid out field after field is taken apart into the same values, under any fixed template. */
  lemma {:induction false} RecordSplits(fields: seq<Field>, values: seq<seq<byte>>, p: Partial)
    requires |fields| == |values|
    requires forall i | 0 <= i < |fields| :: |values[i]| == fields[i].length != VARIABLE
    ensures ApplyFields(fields, Flat(values), p) == Some(ApplyValues(fields, values, p))
    decreases fields
  {
    hide ApplyField;
    if fields != [] {
      var rec := Flat(values);
      assert rec[..fields[0].length] == values[0] && rec[fields[0].length..] == Flat(values[1..]);
      RecordSplits(fields[1..], values[1..], ApplyField(fields[0], values[0], p));
    }
  }

  // ----- whole messages -----

  lemma SetRead(v: Version, cache: Cache, pair: Pair, s: FlowSet, c: Context)
    requires SetOk(v, s) && Conforms(cache, pair, s)
    ensures Learned(v, cache, pair, SetId(v, s), SetBody(v, s)) == CacheAfter(cache, pair, s)
    ensures Yielded(cache, pair, SetId(v, s), SetBody(v, s), c) == RowsOfSet(cache, pair, s, c)
  {
    match s
    case TemplateDefs(defs, pad) => DefsRead(v, cache, pair, defs, pad);
    case Skipped(_, _) =>
    case Records(id, records, pad) =>
      var key := TemplateKey(pair, id);
      if key in cache && cache[key].recLen > 0 { RecordsRead(cache[key], records, pad, c); }
  }

  /** An encoded set at the head of the rest of a message. */
  lemma {:induction false} SetThen(v: Version, cache: Cache, pair: Pair, s: FlowSet, more: seq<byte>, c: Context)
    requires 4 + |SetBody(v, s)| < 0x1_0000
    ensures var rest := Sets(v, Learned(v, cache, pair, SetId(v, s), SetBody(v, s)), pair, more, c);
      Sets(v, cache, pair, EncSet(v, s) + more, c)
      == (rest.0, Yielded(cache, pair, SetId(v, s), SetBody(v, s), c) + rest.1)
  {
    hide Learned, Yielded, SetBody, SetId, Be16, Put16;
    var b, body := EncSet(v, s) + more, SetBody(v, s);
    var len := 4 + |body|;
    assert b[0..2] == Put16(SetId(v, s)) && b[2..4] == Put16(len);
    Be16In(b, 0, SetId(v, s));
    Be16In(b, 2, len);
    assert b[4..len] == body && b[len..] == more;
  }

  /** The round trip for any sequence of sets: learning, skipping and decoding in order, each
      data set under the template its pair defined last. */
  lemma {:induction false} SetsRead(v: Version, cache: Cache, pair: Pair, sets: seq<FlowSet>, c: Context)
    requires (forall s | s in sets :: SetOk(v, s)) && AllConform(cache, pair, sets)
    ensures Sets(v, cache, pair, EncSets(v, sets), c) == Meaning(cache, pair, sets, c)
    decreases sets
  {
    hide Learned, Yielded, CacheAfter, RowsOfSet, SetBody, SetId, Conforms, EncSet;
    if sets != [] {
      var s := sets[0];
      assert SetOk(v, s);
      SetThen(v, cache, pair, s, EncSets(v, sets[1..]), c);
      SetRead(v, cache, pair, s, c);
      SetsRead(v, CacheAfter(cache, pair, s), pair, sets[1..], c);
    }
  }

  /** The header around the sets: version, then `head` (uptime, time, sequence), then the domain. */
  predicate HeaderOk(v: Version, head: seq<byte>, domain: u32) {
    |head| == v.HeaderLen() - 8
  }

  function Message(v: Version, lenOrCount: nat, head: seq<byte>, domain: u32, sets: seq<FlowSet>): seq<byte> {
    Put16(if v.V9? then 9 else 10) + Put16(lenOrCount) + head + Put32(domain) + EncSets(v, sets)
  }

  lemma MessageHeader(v: Version, lenOrCount: nat, head: seq<byte>, domain: u32, sets: seq<FlowSet>)
    requires HeaderOk(v, head, domain)
    ensures var m := Message(v, lenOrCount, head, domain, sets);
      Accepts(v, m) && DomainOf(v, m) == domain && m[v.HeaderLen()..] == EncSets(v, sets)
      && Be16(m, 2) == lenOrCount % 0x1_0000
  {
    hide Put16, Put32, EncSets;
    var m := Message(v, lenOrCount, head, domain, sets);
    var ver, len, dom, body := Put16(if v.V9? then 9 else 10), Put16(lenOrCount), Put32(domain), EncSets(v, sets);
    var n := v.HeaderLen();
    assert m == ver + len + (head + dom + body) && |ver| == |len| == 2;
    assert m == (ver + len + head) + dom + body && |ver + len + head| == n - 4;
    Middle([], ver, len + (head + dom + body));
    assert [] + ver + (len + (head + dom + body)) == m;
    Middle(ver, len, head + dom + body);
    Middle(ver + len + head, dom, body);
    Be16In(m, 0, if v.V9? then 9 else 10);
    Be16In(m, 2, lenOrCount);
    assert Be32(m[n - 4..n], 0) == Be32(m, n - 4);
    assert m[n..] == body;
  }

  /** A message parses to the meaning of its sets. In IPFIX the length field must give the
      message's length, or be out of range so that the datagram's length replaces it. */
  lemma {:induction false} MessageRead(v: Version, cache: Cache, exporter: string, lenOrCount: nat, head: seq<byte>,
                                       domain: u32, sets: seq<FlowSet>, c: Context)
    requires HeaderOk(v, head, domain) && (forall s | s in sets :: SetOk(v, s))
    requires AllConform(cache, Pair(exporter, domain), sets)
    requires var m := Message(v, lenOrCount, head, domain, sets);
      v.IPFIX? ==> lenOrCount % 0x1_0000 == |m| || lenOrCount % 0x1_0000 < 16 || lenOrCount % 0x1_0000 > |m|
    ensures Parsed(v, cache, Message(v, lenOrCount, head, domain, sets), exporter, c)
         == Meaning(cache, Pair(exporter, domain), sets, c)
  {
    hide Sets, Meaning, EncSets;
    var m := Message(v, lenOrCount, head, domain, sets);
    MessageHeader(v, lenOrCount, head, domain, sets);
    assert m[v.HeaderLen()..|m|] == m[v.HeaderLen()..];
    SetsRead(v, cache, Pair(exporter, domain), sets, c);
  }
}
