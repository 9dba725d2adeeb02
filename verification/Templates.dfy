/** NetFlow v9 and IPFIX decoding: internal/flows/template.go, nfv9.go and ipfix.go. */
module Templates {
  import opened Wrappers
  import opened Wire

  datatype Field = Field(typ: u16, length: u16)
  datatype Template = Template(fields: seq<Field>, recLen: int)
  datatype Pair = Pair(exporter: string, domain: u32)
  datatype TemplateKey = TemplateKey(pair: Pair, tmpl: u16)
  type Cache = map<TemplateKey, Template>

  const VARIABLE: u16 := 0xFFFF
  const NO_FIELDS := Template([], 0)

  /** The template after one more field; a variable-length field makes the record length -1 for good. */
  function AddField(t: Template, f: Field): Template {
    Template(t.fields + [f],
             if f.length == VARIABLE then -1 else if t.recLen >= 0 then t.recLen + f.length else t.recLen)
  }

  // ----- template definitions -----

  /** One field specifier at `off`: the field and the offset behind it. */
  function FieldAt(body: seq<byte>, off: nat, ipfix: bool): (r: Option<(Field, nat)>)
    ensures r.Some? ==> off + 4 <= r.value.1 <= |body|
  {
    if off + 4 > |body| then None
    else
      var typ, length := Be16(body, off), Be16(body, off + 2);
      if ipfix && typ >= 0x8000 then
        if off + 8 > |body| then None else Some((Field(typ - 0x8000, length), off + 8))
      else Some((Field(typ, length), off + 4))
  }

  function FieldsAt(body: seq<byte>, off: nat, n: nat, ipfix: bool, t: Template): (r: Option<(Template, nat)>)
    decreases n
    ensures r.Some? ==> off <= r.value.1 && (off <= |body| ==> r.value.1 <= |body|)
  {
    if n == 0 then Some((t, off))
    else
      match FieldAt(body, off, ipfix)
      case None => None
      case Some(p) => FieldsAt(body, p.1, n - 1, ipfix, AddField(t, p.0))
  }

  /** A template definition at the head of `body`: its id, the template and the bytes used. */
  function TemplateAt(body: seq<byte>, ipfix: bool): (r: Option<(u16, Template, nat)>)
    ensures r.Some? ==> 4 <= r.value.2 <= |body|
  {
    if |body| < 4 then None
    else
      match FieldsAt(body, 4, Be16(body, 2), ipfix, NO_FIELDS)
      case None => None
      case Some(p) => Some((Be16(body, 0), p.0, p.1))
  }

  method ParseTemplate(body: seq<byte>, ipfix: bool) returns (id: u16, t: Template, consumed: nat, ok: bool)
    ensures ok == TemplateAt(body, ipfix).Some?
    ensures ok ==> TemplateAt(body, ipfix) == Some((id, t, consumed))
  {
    if |body| < 4 { return 0, NO_FIELDS, 0, false; }
    id := Be16(body, 0);
    var fieldCount := Be16(body, 2);
    var off := 4;
    t := NO_FIELDS;
    for i := 0 to fieldCount
      invariant 4 <= off <= |body|
      invariant FieldsAt(body, 4, fieldCount, ipfix, NO_FIELDS) == FieldsAt(body, off, fieldCount - i, ipfix, t)
    {
      if off + 4 > |body| { return 0, NO_FIELDS, 0, false; }
      var typ := Be16(body, off);
      var length := Be16(body, off + 2);
      off := off + 4;
      if ipfix && typ >= 0x8000 {
        typ := typ - 0x8000;
        off := off + 4;
        if off > |body| { return 0, NO_FIELDS, 0, false; }
      }
      t := Template(t.fields + [Field(typ, length)], t.recLen);
      if length == VARIABLE {
        t := t.(recLen := -1);
      } else if t.recLen >= 0 {
        t := t.(recLen := t.recLen + length);
      }
    }
    return id, t, off, true;
  }

  // ----- records -----

  datatype Partial = Partial(row: Row, haveEndpoints: bool)

  /** The effect of one field value on the row under construction. */
  function ApplyField(f: Field, v: seq<byte>, p: Partial): Partial {
    var r := p.row;
    var n := BeVal(v) % TWO64;
    match f.typ
    case 8 => if |v| == 4 then Partial(r.(src := Printed(v)), true) else p
    case 12 => if |v| == 4 then p.(row := r.(dst := Printed(v))) else p
    case 27 => if |v| == 16 then Partial(r.(src := Printed(v)), true) else p
    case 28 => if |v| == 16 then p.(row := r.(dst := Printed(v))) else p
    case 7 => p.(row := r.(srcPort := n % 0x1_0000))
    case 11 => p.(row := r.(dstPort := n % 0x1_0000))
    case 4 => if |v| >= 1 then p.(row := r.(proto := ProtoName(v[|v| - 1]))) else p
    case 1 => p.(row := r.(octets := n))
    case 85 => p.(row := r.(octets := n))
    case 2 => p.(row := r.(packets := n))
    case 86 => p.(row := r.(packets := n))
    case 151 => if n > 0 then p.(row := r.(ts := AsInt64(n))) else p
    case 153 => if n > 0 then p.(row := r.(ts := n / 1000)) else p
    case _ => p
  }

  function ApplyFields(fields: seq<Field>, rec: seq<byte>, p: Partial): Option<Partial> {
    if fields == [] then Some(p)
    else if fields[0].length == VARIABLE || fields[0].length > |rec| then None
    else ApplyFields(fields[1..], rec[fields[0].length..], ApplyField(fields[0], rec[..fields[0].length], p))
  }

  const WEEK := 7 * 24 * 3600

  /** The checks behind the field loop; a row without both addresses is dropped. */
  function Finish(p: Partial, at: int): Option<Row> {
    if !p.haveEndpoints || p.row.src == NoHost || p.row.dst == NoHost then None
    else
      var ts := if p.row.ts <= 0 || p.row.ts > at + 300 || p.row.ts < at - WEEK then at else p.row.ts;
      Some(p.row.(ts := ts, proto := if p.row.proto == "" then "proto-0" else p.row.proto))
  }

  function EmptyRow(device: string, at: int): Partial {
    Partial(Row(at, device, NoHost, NoHost, 0, 0, "", 0, 0), false)
  }

  function Decoded(fields: seq<Field>, rec: seq<byte>, device: string, at: int): Option<Row> {
    match ApplyFields(fields, rec, EmptyRow(device, at))
    case None => None
    case Some(p) => Finish(p, at)
  }

  method DecodeRecord(t: Template, rec: seq<byte>, device: string, at: int) returns (row: Option<Row>)
    ensures row == Decoded(t.fields, rec, device, at)
  {
    hide BeVal, Printed, ProtoName;
    var p := EmptyRow(device, at);
    var off := 0;
    for i := 0 to |t.fields|
      invariant 0 <= off <= |rec|
      invariant ApplyFields(t.fields, rec, EmptyRow(device, at)) == ApplyFields(t.fields[i..], rec[off..], p)
    {
      var f := t.fields[i];
      ghost var rest := t.fields[i..];
      assert rest[0] == f && rest[1..] == t.fields[i + 1..];
      if f.length == VARIABLE || off + f.length > |rec| {
        return None;
      }
      var v := rec[off..off + f.length];
      assert rec[off..][..f.length] == v && rec[off..][f.length..] == rec[off + f.length..];
      off := off + f.length;
      var n := BeUint(v);
      ghost var before := p;
      match f.typ {
        case 8 => if |v| == 4 { p := Partial(p.row.(src := Printed(v)), true); }
        case 12 => if |v| == 4 { p := p.(row := p.row.(dst := Printed(v))); }
        case 27 => if |v| == 16 { p := Partial(p.row.(src := Printed(v)), true); }
        case 28 => if |v| == 16 { p := p.(row := p.row.(dst := Printed(v))); }
        case 7 => p := p.(row := p.row.(srcPort := n % 0x1_0000));
        case 11 => p := p.(row := p.row.(dstPort := n % 0x1_0000));
        case 4 => if |v| >= 1 { p := p.(row := p.row.(proto := ProtoName(v[|v| - 1]))); }
        case 1 => p := p.(row := p.row.(octets := n));
        case 85 => p := p.(row := p.row.(octets := n));
        case 2 => p := p.(row := p.row.(packets := n));
        case 86 => p := p.(row := p.row.(packets := n));
        case 151 => if n > 0 { p := p.(row := p.row.(ts := AsInt64(n))); }
        case 153 => if n > 0 { p := p.(row := p.row.(ts := n / 1000)); }
        case _ =>
      }
      assert p == ApplyField(f, v, before);
    }
    assert t.fields[|t.fields|..] == [];
    var r := p.row;
    if !p.haveEndpoints || r.src == NoHost || r.dst == NoHost { return None; }
    if r.ts <= 0 || r.ts > at + 300 || r.ts < at - WEEK { r := r.(ts := at); }
    if r.proto == "" { r := r.(proto := "proto-0"); }
    return Some(r);
  }

  // ----- sets -----

  datatype Version = V9 | IPFIX {
    function TemplateSet(): u16 { if V9? then 0 else 2 }
    function HeaderLen(): nat { if V9? then 20 else 16 }
  }

  /** What a receiver knows around one datagram. */
  datatype Context = Context(device: string, at: int)

  function Learn(v: Version, cache: Cache, pair: Pair, b: seq<byte>): Cache
    decreases |b|
  {
    match TemplateAt(b, v.IPFIX?)
    case None => cache
    case Some(d) => Learn(v, cache[TemplateKey(pair, d.0) := d.1], pair, b[d.2..])
  }

  function RecordRows(t: Template, body: seq<byte>, c: Context): seq<Row>
    decreases |body|
  {
    if t.recLen <= 0 || t.recLen > |body| then []
    else
      (match Decoded(t.fields, body[..t.recLen], c.device, c.at) case None => [] case Some(r) => [r])
      + RecordRows(t, body[t.recLen..], c)
  }

  function DataRows(cache: Cache, key: TemplateKey, body: seq<byte>, c: Context): seq<Row> {
    if key in cache then RecordRows(cache[key], body, c) else []
  }

  /** What one set leaves in the cache: option templates and reserved ids are skipped. */
  function Learned(v: Version, cache: Cache, pair: Pair, id: u16, body: seq<byte>): Cache {
    if id == v.TemplateSet() then Learn(v, cache, pair, body) else cache
  }

  function Yielded(cache: Cache, pair: Pair, id: u16, body: seq<byte>, c: Context): seq<Row> {
    if id >= 256 then DataRows(cache, TemplateKey(pair, id), body, c) else []
  }

  /** The sets in `b`, one after the other: what the cache becomes and the rows that come out. */
  function Sets(v: Version, cache: Cache, pair: Pair, b: seq<byte>, c: Context): (Cache, seq<Row>)
    decreases |b|
  {
    if |b| < 4 then (cache, [])
    else
      var id, len := Be16(b, 0), Be16(b, 2);
      if len < 4 || len > |b| then (cache, [])
      else
        var body := b[4..len];
        var rest := Sets(v, Learned(v, cache, pair, id, body), pair, b[len..], c);
        (rest.0, Yielded(cache, pair, id, body, c) + rest.1)
  }

  /** The end of an IPFIX message: a length field out of range is replaced by the datagram's length. */
  function MessageEnd(payload: seq<byte>): (n: nat)
    requires |payload| >= 16
    ensures 16 <= n <= |payload|
  {
    var n := Be16(payload, 2);
    if n < 16 || n > |payload| then |payload| else n
  }

  function Accepts(v: Version, payload: seq<byte>): bool {
    |payload| >= v.HeaderLen() && Be16(payload, 0) == if v.V9? then 9 else 10
  }

  function DomainOf(v: Version, payload: seq<byte>): u32
    requires Accepts(v, payload)
  {
    Be32(payload, v.HeaderLen() - 4)
  }

  function Parsed(v: Version, cache: Cache, payload: seq<byte>, exporter: string, c: Context): (Cache, seq<Row>) {
    if !Accepts(v, payload) then (cache, [])
    else
      var end := if v.V9? then |payload| else MessageEnd(payload);
      Sets(v, cache, Pair(exporter, DomainOf(v, payload)), payload[v.HeaderLen()..end], c)
  }

  lemma SliceOfSlice<T>(s: seq<T>, off: nat, end: nat, a: nat, b: nat)
    requires off <= end <= |s| && a <= b <= end - off
    ensures s[off..end][a..b] == s[off + a..off + b]
  {
    var u := s[off..end];
    forall k | 0 <= k < b - a ensures u[a..b][k] == s[off + a..off + b][k] {
      assert u[a..b][k] == u[a + k];
    }
  }

  /** What is still to be parsed of `payload[off..end]` completes `rows` to `goal`. */
  ghost predicate Ahead(goal: (Cache, seq<Row>), rows: seq<Row>, v: Version, cache: Cache, pair: Pair,
                        payload: seq<byte>, off: nat, end: nat, c: Context)
    requires off <= end <= |payload|
  {
    var rest := Sets(v, cache, pair, payload[off..end], c);
    goal.0 == rest.0 && goal.1 == rows + rest.1
  }

  /** A set header that does not fit its message, or no room for one, ends the parse. */
  lemma SetsDone(goal: (Cache, seq<Row>), rows: seq<Row>, v: Version, cache: Cache, pair: Pair,
                 payload: seq<byte>, off: nat, end: nat, c: Context)
    requires off <= end <= |payload| && Ahead(goal, rows, v, cache, pair, payload, off, end, c)
    requires off + 4 <= end ==> Be16(payload, off + 2) < 4 || off + Be16(payload, off + 2) > end
    ensures goal == (cache, rows)
  {
    var b := payload[off..end];
    if off + 4 <= end { assert Be16(b, 2) == Be16(payload, off + 2); }
    assert rows + [] == rows;
  }

  lemma ParseStart(v: Version, cache: Cache, payload: seq<byte>, exporter: string, c: Context)
    requires Accepts(v, payload)
    ensures var end := if v.V9? then |payload| else MessageEnd(payload);
      Ahead(Parsed(v, cache, payload, exporter, c), [], v, cache, Pair(exporter, DomainOf(v, payload)),
            payload, v.HeaderLen(), end, c)
  {
    var goal := Parsed(v, cache, payload, exporter, c);
    assert [] + goal.1 == goal.1;
  }

  /** One turn of the set loop, read in place at offset `off`. */
  lemma SetTurn(goal: (Cache, seq<Row>), rows: seq<Row>, v: Version, cache: Cache, pair: Pair,
                payload: seq<byte>, off: nat, end: nat, c: Context)
    requires off + 4 <= end <= |payload| && Ahead(goal, rows, v, cache, pair, payload, off, end, c)
    requires 4 <= Be16(payload, off + 2) <= end - off
    ensures var id, len := Be16(payload, off), Be16(payload, off + 2);
      var body := payload[off + 4..off + len];
      Ahead(goal, rows + Yielded(cache, pair, id, body, c), v, Learned(v, cache, pair, id, body),
            pair, payload, off + len, end, c)
  {
    hide Learned, Yielded;
    var b := payload[off..end];
    var id: nat, len: nat := Be16(payload, off), Be16(payload, off + 2);
    assert Be16(b, 0) == id && Be16(b, 2) == len;
    SliceOfSlice(payload, off, end, 4, len);
    SliceOfSlice(payload, off, end, len, end - off);
    assert b[len..] == b[len..end - off];
    var body := payload[off + 4..off + len];
    var more := Yielded(cache, pair, id, body, c);
    var rest := Sets(v, Learned(v, cache, pair, id, body), pair, payload[off + len..end], c);
    assert rows + (more + rest.1) == (rows + more) + rest.1;
  }

  ghost predicate RowsAhead(goal: seq<Row>, rows: seq<Row>, t: Template, body: seq<byte>, c: Context) {
    goal == rows + RecordRows(t, body, c)
  }

  /** One turn of the record loop. */
  lemma RecordTurn(goal: seq<Row>, rows: seq<Row>, t: Template, body: seq<byte>, r: nat, c: Context)
    requires 0 < t.recLen && r + t.recLen <= |body| && RowsAhead(goal, rows, t, body[r..], c)
    ensures var row := Decoded(t.fields, body[r..r + t.recLen], c.device, c.at);
      RowsAhead(goal, if row.Some? then rows + [row.value] else rows, t, body[r + t.recLen..], c)
  {
    var rest := body[r..];
    assert rest[..t.recLen] == body[r..r + t.recLen];
    assert rest[t.recLen..] == body[r + t.recLen..];
    var tail := RecordRows(t, body[r + t.recLen..], c);
    match Decoded(t.fields, body[r..r + t.recLen], c.device, c.at)
    case None => assert [] + tail == tail;
    case Some(row) => assert rows + ([row] + tail) == (rows + [row]) + tail;
  }

  class TemplateCache {
    var m: Cache

    constructor ()
      ensures m == map[]
    { m := map[]; }

    method Put(k: TemplateKey, t: Template)
      modifies this
      ensures m == old(m)[k := t]
    { m := m[k := t]; }

    method Get(k: TemplateKey) returns (t: Option<Template>)
      ensures t == if k in m then Some(m[k]) else None
    { t := if k in m then Some(m[k]) else None; }

    /** The template loop of a template set, shared by both protocols. */
    method LearnTemplates(v: Version, pair: Pair, body: seq<byte>)
      modifies this
      ensures m == Learn(v, old(m), pair, body)
    {
      var b := body;
      while |b| >= 4
        invariant Learn(v, old(m), pair, body) == Learn(v, m, pair, b)
        decreases |b|
      {
        var id, t, consumed, ok := ParseTemplate(b, v.IPFIX?);
        if !ok { break; }
        Put(TemplateKey(pair, id), t);
        b := b[consumed..];
      }
    }

    /** The record loop of a data set. */
    method DecodeData(pair: Pair, id: u16, body: seq<byte>, c: Context) returns (rows: seq<Row>)
      ensures rows == DataRows(m, TemplateKey(pair, id), body, c)
    {
      rows := [];
      var t := Get(TemplateKey(pair, id));
      if t == None || t.value.recLen <= 0 { return; }
      ghost var goal := RecordRows(t.value, body, c);
      var r := 0;
      assert body[0..] == body && [] + goal == goal;
      while r + t.value.recLen <= |body|
        invariant 0 <= r <= |body| && RowsAhead(goal, rows, t.value, body[r..], c)
      {
        RecordTurn(goal, rows, t.value, body, r, c);
        var row := DecodeRecord(t.value, body[r..r + t.value.recLen], c.device, c.at);
        if row.Some? { rows := rows + [row.value]; }
        r := r + t.value.recLen;
      }
      assert rows + [] == rows;
    }

    /** The switch over the set id: option templates (1 in v9, 3 in IPFIX) and reserved ids are skipped. */
    method TakeSet(v: Version, pair: Pair, id: u16, body: seq<byte>, c: Context) returns (rows: seq<Row>)
      modifies this
      ensures m == Learned(v, old(m), pair, id, body)
      ensures rows == Yielded(old(m), pair, id, body, c)
    {
      rows := [];
      if id == v.TemplateSet() {
        LearnTemplates(v, pair, body);
      } else if id >= 256 {
        rows := DecodeData(pair, id, body, c);
      }
    }

    method ParseV9(payload: seq<byte>, exporter: string, c: Context) returns (rows: seq<Row>)
      modifies this
      ensures (m, rows) == Parsed(V9, old(m), payload, exporter, c)
    {
      hide Sets, Learned, Yielded, Ahead;
      rows := [];
      if |payload| < 20 || Be16(payload, 0) != 9 { return; }
      var pair := Pair(exporter, Be32(payload, 16));
      var off := 20;
      ghost var goal := Parsed(V9, m, payload, exporter, c);
      ParseStart(V9, m, payload, exporter, c);
      while off + 4 <= |payload|
        invariant 20 <= off <= |payload| && Ahead(goal, rows, V9, m, pair, payload, off, |payload|, c)
      {
        var fsID, fsLen := Be16(payload, off), Be16(payload, off + 2);
        if fsLen < 4 || off + fsLen > |payload| { break; }
        SetTurn(goal, rows, V9, m, pair, payload, off, |payload|, c);
        var body := payload[off + 4..off + fsLen];
        off := off + fsLen;
        var more := TakeSet(V9, pair, fsID, body, c);
        rows := rows + more;
      }
      SetsDone(goal, rows, V9, m, pair, payload, off, |payload|, c);
    }

    method ParseIPFIX(payload: seq<byte>, exporter: string, c: Context) returns (rows: seq<Row>)
      modifies this
      ensures (m, rows) == Parsed(IPFIX, old(m), payload, exporter, c)
    {
      hide Sets, Learned, Yielded, Ahead;
      rows := [];
      if |payload| < 16 || Be16(payload, 0) != 10 { return; }
      var msgLen: nat := Be16(payload, 2);
      if msgLen < 16 || msgLen > |payload| { msgLen := |payload|; }
      var pair := Pair(exporter, Be32(payload, 12));
      var off := 16;
      ghost var goal := Parsed(IPFIX, m, payload, exporter, c);
      ParseStart(IPFIX, m, payload, exporter, c);
      while off + 4 <= msgLen
        invariant 16 <= off <= msgLen && Ahead(goal, rows, IPFIX, m, pair, payload, off, msgLen, c)
      {
        var setID, setLen := Be16(payload, off), Be16(payload, off + 2);
        if setLen < 4 || off + setLen > msgLen { break; }
        SetTurn(goal, rows, IPFIX, m, pair, payload, off, msgLen, c);
        var body := payload[off + 4..off + setLen];
        off := off + setLen;
        var more := TakeSet(IPFIX, pair, setID, body, c);
        rows := rows + more;
      }
      SetsDone(goal, rows, IPFIX, m, pair, payload, off, msgLen, c);
    }
  }
}
