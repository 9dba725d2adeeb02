/** What a record of a v9 or IPFIX data set decodes to, element by element, under any template. */
module RecordLaws {
  import opened Wrappers
  import opened Wire
  import opened Templates
  import opened TemplateRoundTrip

  /** The last field that satisfies `p`, or -1. */
  function Last(fields: seq<Field>, values: seq<seq<byte>>, p: (Field, seq<byte>) -> bool): (i: int)
    requires |fields| == |values|
    ensures -1 <= i < |fields|
    ensures i >= 0 ==> p(fields[i], values[i])
    ensures forall k | i < k < |fields| :: !p(fields[k], values[k])
  {
    if fields == [] then -1
    else
      var n := |fields| - 1;
      if p(fields[n], values[n]) then n else Last(fields[..n], values[..n], p)
  }

  lemma LastStep(fields: seq<Field>, values: seq<seq<byte>>, f: Field, v: seq<byte>, p: (Field, seq<byte>) -> bool)
    requires |fields| == |values|
    ensures Last(fields + [f], values + [v], p) == if p(f, v) then |fields| else Last(fields, values, p)
  {
    assert (fields + [f])[..|fields|] == fields && (values + [v])[..|values|] == values;
  }

  // The elements of RFC 7012 that give each part of a row.

  predicate GivesSrc(f: Field, v: seq<byte>) { (f.typ == 8 && |v| == 4) || (f.typ == 27 && |v| == 16) }
  predicate GivesDst(f: Field, v: seq<byte>) { (f.typ == 12 && |v| == 4) || (f.typ == 28 && |v| == 16) }
  predicate GivesSrcPort(f: Field, v: seq<byte>) { f.typ == 7 }
  predicate GivesDstPort(f: Field, v: seq<byte>) { f.typ == 11 }
  predicate GivesProto(f: Field, v: seq<byte>) { f.typ == 4 && |v| >= 1 }
  predicate GivesOctets(f: Field, v: seq<byte>) { f.typ == 1 || f.typ == 85 }
  predicate GivesPackets(f: Field, v: seq<byte>) { f.typ == 2 || f.typ == 86 }
  predicate GivesTime(f: Field, v: seq<byte>) { (f.typ == 151 || f.typ == 153) && BeVal(v) % TWO64 > 0 }

  /** The address in the last field that gives one. */
  function AddressOf(fields: seq<Field>, values: seq<seq<byte>>, p: (Field, seq<byte>) -> bool): Host
    requires |fields| == |values|
  {
    var i := Last(fields, values, p);
    if i < 0 then NoHost else Printed(values[i])
  }

  function NumberOf(fields: seq<Field>, values: seq<seq<byte>>, p: (Field, seq<byte>) -> bool): nat
    requires |fields| == |values|
  {
    var i := Last(fields, values, p);
    if i < 0 then 0 else BeVal(values[i])
  }

  /** The seconds of element 151, or the milliseconds of element 153. */
  function TimeOf(fields: seq<Field>, values: seq<seq<byte>>, at: int): int
    requires |fields| == |values|
  {
    var i := Last(fields, values, GivesTime);
    if i < 0 then at
    else if fields[i].typ == 151 then AsInt64(BeVal(values[i]) % TWO64)
    else BeVal(values[i]) % TWO64 / 1000
  }

  function ProtoOf(fields: seq<Field>, values: seq<seq<byte>>): string
    requires |fields| == |values|
  {
    var i := Last(fields, values, GivesProto);
    if i < 0 then "" else ProtoName(values[i][|values[i]| - 1])
  }

  function Filled(fields: seq<Field>, values: seq<seq<byte>>, device: string, at: int): Partial
    requires |fields| == |values|
  {
    Partial(Row(TimeOf(fields, values, at), device,
                AddressOf(fields, values, GivesSrc), AddressOf(fields, values, GivesDst),
                NumberOf(fields, values, GivesSrcPort) % 0x1_0000, NumberOf(fields, values, GivesDstPort) % 0x1_0000,
                ProtoOf(fields, values),
                NumberOf(fields, values, GivesPackets) % TWO64, NumberOf(fields, values, GivesOctets) % TWO64),
            Last(fields, values, GivesSrc) >= 0)
  }

  lemma {:induction false} ApplyLast(fields: seq<Field>, values: seq<seq<byte>>, f: Field, v: seq<byte>, p: Partial)
    requires |fields| == |values|
    ensures ApplyValues(fields + [f], values + [v], p) == ApplyField(f, v, ApplyValues(fields, values, p))
    decreases |fields|
  {
    hide ApplyField;
    var fs, vs := fields + [f], values + [v];
    if fields == [] {
      assert fs[1..] == [] && vs[1..] == [];
    } else {
      ApplyLast(fields[1..], values[1..], f, v, ApplyField(fields[0], values[0], p));
      assert fs[1..] == fields[1..] + [f] && vs[1..] == values[1..] + [v];
    }
  }

  lemma PartStep(fields: seq<Field>, values: seq<seq<byte>>, f: Field, v: seq<byte>, p: (Field, seq<byte>) -> bool)
    requires |fields| == |values|
    ensures var fs, vs := fields + [f], values + [v];
      AddressOf(fs, vs, p) == (if p(f, v) then Printed(v) else AddressOf(fields, values, p))
      && NumberOf(fs, vs, p) == (if p(f, v) then BeVal(v) else NumberOf(fields, values, p))
      && (Last(fs, vs, p) >= 0 <==> p(f, v) || Last(fields, values, p) >= 0)
  {
    hide Printed, BeVal, Last;
    LastStep(fields, values, f, v, p);
  }

  lemma TimeStep(fields: seq<Field>, values: seq<seq<byte>>, f: Field, v: seq<byte>, at: int)
    requires |fields| == |values|
    ensures TimeOf(fields + [f], values + [v], at)
         == if !GivesTime(f, v) then TimeOf(fields, values, at)
            else if f.typ == 151 then AsInt64(BeVal(v) % TWO64) else BeVal(v) % TWO64 / 1000
  {
    hide BeVal, Last, AsInt64;
    LastStep(fields, values, f, v, GivesTime);
  }

  lemma ProtoStep(fields: seq<Field>, values: seq<seq<byte>>, f: Field, v: seq<byte>)
    requires |fields| == |values|
    ensures ProtoOf(fields + [f], values + [v])
         == if GivesProto(f, v) then ProtoName(v[|v| - 1]) else ProtoOf(fields, values)
  {
    hide ProtoName, Last;
    LastStep(fields, values, f, v, GivesProto);
  }

  /** What one field changes. */
  lemma {:induction false} FieldEffect(f: Field, v: seq<byte>, p: Partial)
    ensures var r, n := p.row, BeVal(v) % TWO64;
      ApplyField(f, v, p)
      == Partial(Row(if !GivesTime(f, v) then r.ts else if f.typ == 151 then AsInt64(n) else n / 1000, r.device,
                     if GivesSrc(f, v) then Printed(v) else r.src, if GivesDst(f, v) then Printed(v) else r.dst,
                     if GivesSrcPort(f, v) then BeVal(v) % 0x1_0000 else r.srcPort,
                     if GivesDstPort(f, v) then BeVal(v) % 0x1_0000 else r.dstPort,
                     if GivesProto(f, v) then ProtoName(v[|v| - 1]) else r.proto,
                     if GivesPackets(f, v) then n else r.packets, if GivesOctets(f, v) then n else r.octets),
                 p.haveEndpoints || GivesSrc(f, v))
  {
    hide BeVal, Printed, ProtoName, AsInt64;
    LowBytes(BeVal(v));
  }

  lemma LowBytes(n: nat)
    ensures n % TWO64 % 0x1_0000 == n % 0x1_0000
  {}

  lemma {:induction false} FilledStep(fields: seq<Field>, values: seq<seq<byte>>, f: Field, v: seq<byte>,
                                      device: string, at: int)
    requires |fields| == |values|
    ensures Filled(fields + [f], values + [v], device, at) == ApplyField(f, v, Filled(fields, values, device, at))
  {
    hide BeVal, Printed, ProtoName, Last, AddressOf, NumberOf, TimeOf, ProtoOf, AsInt64, ApplyField,
         GivesSrc, GivesDst, GivesSrcPort, GivesDstPort, GivesOctets, GivesPackets, GivesTime, GivesProto;
    PartStep(fields, values, f, v, GivesSrc);
    PartStep(fields, values, f, v, GivesDst);
    PartStep(fields, values, f, v, GivesSrcPort);
    PartStep(fields, values, f, v, GivesDstPort);
    PartStep(fields, values, f, v, GivesOctets);
    PartStep(fields, values, f, v, GivesPackets);
    TimeStep(fields, values, f, v, at);
    ProtoStep(fields, values, f, v);
    FieldEffect(f, v, Filled(fields, values, device, at));
  }

  lemma {:induction false} AllFilled(fields: seq<Field>, values: seq<seq<byte>>, device: string, at: int)
    requires |fields| == |values|
    ensures ApplyValues(fields, values, EmptyRow(device, at)) == Filled(fields, values, device, at)
    decreases |fields|
  {
    hide ApplyField;
    if fields != [] {
      var n := |fields| - 1;
      assert fields == fields[..n] + [fields[n]] && values == values[..n] + [values[n]];
      AllFilled(fields[..n], values[..n], device, at);
      ApplyLast(fields[..n], values[..n], fields[n], values[n], EmptyRow(device, at));
      FilledStep(fields[..n], values[..n], fields[n], values[n], device, at);
    }
  }

  // ----- the row -----

  /** A time out of the window around the receive time is replaced by it. */
  function Plausible(t: int, at: int): int { if 0 < t && at - 7 * 24 * 3600 <= t <= at + 300 then t else at }

  predicate LaidOut(fields: seq<Field>, values: seq<seq<byte>>) {
    |fields| == |values| && forall i | 0 <= i < |fields| :: |values[i]| == fields[i].length != VARIABLE
  }

  /** For every template and every record laid out by it: a row comes out exactly when both addresses are
      given, and each of its parts is the value of the last field that gives it. */
  lemma {:induction false} RecordLaw(fields: seq<Field>, values: seq<seq<byte>>, device: string, at: int)
    requires LaidOut(fields, values)
    ensures var src, dst := Last(fields, values, GivesSrc), Last(fields, values, GivesDst);
      var row := Decoded(fields, Flat(values), device, at);
      (row.Some? <==> src >= 0 && dst >= 0)
      && (row.Some? ==>
            row.value.src == Printed(values[src]) && row.value.dst == Printed(values[dst])
              && row.value.device == device)
    ensures var row := Decoded(fields, Flat(values), device, at);
      row.Some? ==>
        row.value.srcPort == NumberOf(fields, values, GivesSrcPort) % 0x1_0000
        && row.value.dstPort == NumberOf(fields, values, GivesDstPort) % 0x1_0000
        && row.value.octets == NumberOf(fields, values, GivesOctets) % TWO64
        && row.value.packets == NumberOf(fields, values, GivesPackets) % TWO64
        && row.value.ts == Plausible(TimeOf(fields, values, at), at)
        && row.value.proto == if ProtoOf(fields, values) == "" then "proto-0" else ProtoOf(fields, values)
  {
    hide ApplyFields, ApplyValues, Flat, BeVal, ProtoName, AsInt64, NumberOf, TimeOf, ProtoOf;
    RecordSplits(fields, values, EmptyRow(device, at));
    AllFilled(fields, values, device, at);
  }

  function TotalLength(fields: seq<Field>): nat {
    if fields == [] then 0 else fields[0].length + TotalLength(fields[1..])
  }

  lemma {:induction false} NotApplied(fields: seq<Field>, rec: seq<byte>, p: Partial)
    requires (exists f | f in fields :: f.length == VARIABLE) || |rec| < TotalLength(fields)
    ensures ApplyFields(fields, rec, p) == None
    decreases |fields|
  {
    hide ApplyField;
    if fields != [] && fields[0].length != VARIABLE && fields[0].length <= |rec| {
      assert forall f | f in fields :: f == fields[0] || f in fields[1..];
      NotApplied(fields[1..], rec[fields[0].length..], ApplyField(fields[0], rec[..fields[0].length], p));
    }
  }

  /** A record that is too short for its template, or whose template has a field of variable length, gives no row. */
  lemma NoRow(fields: seq<Field>, rec: seq<byte>, device: string, at: int)
    requires (exists f | f in fields :: f.length == VARIABLE) || |rec| < TotalLength(fields)
    ensures Decoded(fields, rec, device, at) == None
  {
    NotApplied(fields, rec, EmptyRow(device, at));
  }

  // ----- templates that name each part of a row at most once -----

  /** The part of a row an element stands for; 0 for all others. */
  function PartOf(typ: nat): nat {
    if typ in {8, 27} then 1 else if typ in {12, 28} then 2 else if typ == 7 then 3 else if typ == 11 then 4
    else if typ == 4 then 5 else if typ in {1, 85} then 6 else if typ in {2, 86} then 7
    else if typ in {151, 153} then 8 else 0
  }

  predicate OnceEach(fields: seq<Field>) {
    forall i, j | 0 <= i < j < |fields| :: PartOf(fields[i].typ) == 0 || PartOf(fields[i].typ) != PartOf(fields[j].typ)
  }

  /** An address element has the size of its addresses, a protocol element at least a byte. */
  predicate Sized(f: Field) {
    (f.typ in {8, 12} ==> f.length == 4) && (f.typ in {27, 28} ==> f.length == 16) && (f.typ == 4 ==> f.length >= 1)
  }

  /** The value of the field can be seen in the row. */
  predicate Shows(row: Row, f: Field, v: seq<byte>, at: int) {
    var n := BeVal(v) % TWO64;
    match PartOf(f.typ)
    case 1 => row.src == Printed(v)
    case 2 => row.dst == Printed(v)
    case 3 => row.srcPort == BeVal(v) % 0x1_0000
    case 4 => row.dstPort == BeVal(v) % 0x1_0000
    case 5 => |v| >= 1 && row.proto == ProtoName(v[|v| - 1])
    case 6 => row.octets == n
    case 7 => row.packets == n
    case 8 => row.ts == Plausible(if n == 0 then at else if f.typ == 151 then AsInt64(n) else n / 1000, at)
    case _ => true
  }

  /** A field is the last of its part if no other one has it. */
  lemma OnlyOne(fields: seq<Field>, values: seq<seq<byte>>, i: nat, p: (Field, seq<byte>) -> bool)
    requires |fields| == |values| && i < |fields| && OnceEach(fields) && PartOf(fields[i].typ) != 0
    requires forall f, v | p(f, v) :: PartOf(f.typ) == PartOf(fields[i].typ)
    ensures Last(fields, values, p) == if p(fields[i], values[i]) then i else -1
  {
    hide PartOf;
  }

  lemma HasAddresses(fields: seq<Field>, values: seq<seq<byte>>, i: nat, j: nat)
    requires LaidOut(fields, values) && OnceEach(fields) && i < |fields| && j < |fields|
    requires Sized(fields[i]) && Sized(fields[j]) && PartOf(fields[i].typ) == 1 && PartOf(fields[j].typ) == 2
    ensures Last(fields, values, GivesSrc) == i && Last(fields, values, GivesDst) == j
  {
    hide OnceEach, Last;
    OnlyOne(fields, values, i, GivesSrc);
    OnlyOne(fields, values, j, GivesDst);
  }

  lemma NumberShows(fields: seq<Field>, values: seq<seq<byte>>, i: nat, at: int)
    requires LaidOut(fields, values) && OnceEach(fields) && i < |fields|
    ensures var part := PartOf(fields[i].typ);
      (part == 3 ==> NumberOf(fields, values, GivesSrcPort) == BeVal(values[i]))
      && (part == 4 ==> NumberOf(fields, values, GivesDstPort) == BeVal(values[i]))
      && (part == 6 ==> NumberOf(fields, values, GivesOctets) == BeVal(values[i]))
      && (part == 7 ==> NumberOf(fields, values, GivesPackets) == BeVal(values[i]))
  {
    hide BeVal, Last, OnceEach;
    match PartOf(fields[i].typ) {
      case 3 => OnlyOne(fields, values, i, GivesSrcPort);
      case 4 => OnlyOne(fields, values, i, GivesDstPort);
      case 6 => OnlyOne(fields, values, i, GivesOctets);
      case 7 => OnlyOne(fields, values, i, GivesPackets);
      case _ =>
    }
  }

  lemma TimeShows(fields: seq<Field>, values: seq<seq<byte>>, i: nat, at: int)
    requires LaidOut(fields, values) && OnceEach(fields) && i < |fields| && PartOf(fields[i].typ) == 8
    ensures var n := BeVal(values[i]) % TWO64;
      TimeOf(fields, values, at) == if n == 0 then at else if fields[i].typ == 151 then AsInt64(n) else n / 1000
  {
    hide BeVal, Last, OnceEach, AsInt64;
    OnlyOne(fields, values, i, GivesTime);
  }

  lemma ProtoShows(fields: seq<Field>, values: seq<seq<byte>>, i: nat)
    requires LaidOut(fields, values) && OnceEach(fields) && i < |fields| && PartOf(fields[i].typ) == 5
    requires Sized(fields[i])
    ensures |values[i]| >= 1 && ProtoOf(fields, values) == ProtoName(values[i][|values[i]| - 1])
  {
    hide Last, OnceEach, ProtoName;
    OnlyOne(fields, values, i, GivesProto);
  }

  lemma ProtoNamed(n: byte)
    ensures ProtoName(n) != ""
  {}

  /** With each part named at most once, source and destination among them, in whatever order, every field
      shows in the row. */
  lemma {:induction false} EveryFieldShows(fields: seq<Field>, values: seq<seq<byte>>, device: string, at: int, i: nat)
    requires LaidOut(fields, values) && OnceEach(fields) && forall f | f in fields :: Sized(f)
    requires exists f, g :: f in fields && g in fields && PartOf(f.typ) == 1 && PartOf(g.typ) == 2
    requires i < |fields|
    ensures Decoded(fields, Flat(values), device, at).Some?
    ensures Shows(Decoded(fields, Flat(values), device, at).value, fields[i], values[i], at)
  {
    assert |fields| == |values|;
    hide Flat, BeVal, ProtoName, AsInt64, Decoded, Printed, Last, Plausible, OnceEach, NumberOf, TimeOf, ProtoOf,
         LaidOut,
         Sized, PartOf;
    var src, dst := Ends(fields);
    RecordLaw(fields, values, device, at);
    HasAddresses(fields, values, src, dst);
    assert fields[i] in fields;
    match PartOf(fields[i].typ) {
      case 1 => HasAddresses(fields, values, i, dst);
      case 2 => HasAddresses(fields, values, src, i);
      case 5 => ProtoShows(fields, values, i); ProtoNamed(values[i][|values[i]| - 1]);
      case 8 => TimeShows(fields, values, i, at);
      case _ => NumberShows(fields, values, i, at);
    }
  }

  lemma Ends(fields: seq<Field>) returns (src: nat, dst: nat)
    requires forall f | f in fields :: Sized(f)
    requires exists f, g :: f in fields && g in fields && PartOf(f.typ) == 1 && PartOf(g.typ) == 2
    ensures src < |fields| && dst < |fields| && PartOf(fields[src].typ) == 1 && PartOf(fields[dst].typ) == 2
    ensures Sized(fields[src]) && Sized(fields[dst])
  {
    hide PartOf, Sized;
    var f, g :| f in fields && g in fields && PartOf(f.typ) == 1 && PartOf(g.typ) == 2;
    src :| 0 <= src < |fields| && fields[src] == f;
    dst :| 0 <= dst < |fields| && fields[dst] == g;
  }
}
