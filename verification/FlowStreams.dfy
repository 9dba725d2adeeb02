/** Any interleaving of datagrams from many exporters through one collector, and the template schedule of
    the load generator's sendLoop. */
module FlowStreams {
  import opened Numbers
  import opened Wrappers
  import opened Wire
  import opened Templates
  import opened TemplateRoundTrip
  import opened FlowGen
  import opened FlowRuns
  import NetFlow5
  import SFlow
  import X = SFlowRoundTrip

  const NS := 1_000_000_000

  /** A datagram, its sender's address and when it was received, in nanoseconds. */
  datatype Arrival = Arrival(exporter: string, payload: seq<byte>, at: int)

  /** The device name that replaces the sender's, if any, and how sFlow prints an agent's address. */
  datatype Settings = Settings(exporterIP: string, text: seq<byte> -> string) {
    function DeviceOf(exporter: string): string { if exporterIP != "" then exporterIP else exporter }
    function Around(exporter: string, at: int): Context { Context(DeviceOf(exporter), at / NS) }
  }

  /** What the collector makes of one datagram: only v9 and IPFIX touch the templates. */
  function Received(o: Settings, cache: Cache, a: Arrival): (Cache, seq<Row>) {
    match X.DatagramKind(a.payload)
    case IsSFlow => (cache, SFlow.SFlowRows(a.payload, o.exporterIP, a.at / NS, o.text))
    case IsV5 => (cache, NetFlow5.V5Rows(a.payload, o.DeviceOf(a.exporter), a.at))
    case IsV9 => Parsed(V9, cache, a.payload, a.exporter, o.Around(a.exporter, a.at))
    case IsIPFIX => Parsed(IPFIX, cache, a.payload, a.exporter, o.Around(a.exporter, a.at))
    case _ => (cache, [])
  }

  /** The pair whose templates a datagram uses, if it uses any. */
  function PairOf(a: Arrival): Option<Pair> {
    if X.DatagramKind(a.payload) == X.IsV9 && Accepts(V9, a.payload) then
      Some(Pair(a.exporter, DomainOf(V9, a.payload)))
    else if X.DatagramKind(a.payload) == X.IsIPFIX && Accepts(IPFIX, a.payload) then
      Some(Pair(a.exporter, DomainOf(IPFIX, a.payload)))
    else None
  }

  /** The templates and the rows of each datagram after a run that starts with `cache`. */
  function Run(o: Settings, cache: Cache, arrivals: seq<Arrival>): (r: (Cache, seq<seq<Row>>))
    ensures |r.1| == |arrivals|
  {
    if arrivals == [] then (cache, [])
    else
      var n := |arrivals| - 1;
      var before := Run(o, cache, arrivals[..n]);
      var p := Received(o, before.0, arrivals[n]);
      (p.0, before.1 + [p.1])
  }

  method Parse(o: Settings, cache: TemplateCache, a: Arrival) returns (rows: seq<Row>)
    modifies cache
    ensures (cache.m, rows) == Received(o, old(cache.m), a)
  {
    hide Parsed, Be16, Be32, NetFlow5.V5Rows, SFlow.SFlowRows;
    rows := [];
    if |a.payload| < 4 { return; }
    var device := o.DeviceOf(a.exporter);
    if Be32(a.payload, 0) == 5 {
      rows := SFlow.ParseSFlow(a.payload, o.exporterIP, a.at / NS, o.text);
      return;
    }
    var version := Be16(a.payload, 0);
    if version == 5 {
      rows := NetFlow5.ParseV5(a.payload, device, a.at);
    } else if version == 9 {
      rows := cache.ParseV9(a.payload, a.exporter, Context(device, a.at / NS));
    } else if version == 10 {
      rows := cache.ParseIPFIX(a.payload, a.exporter, Context(device, a.at / NS));
    }
  }

  method Collect(o: Settings, cache: TemplateCache, arrivals: seq<Arrival>) returns (rows: seq<seq<Row>>)
    modifies cache
    ensures (cache.m, rows) == Run(o, old(cache.m), arrivals)
  {
    hide Received;
    rows := [];
    for i := 0 to |arrivals|
      invariant (cache.m, rows) == Run(o, old(cache.m), arrivals[..i])
    {
      var more := Parse(o, cache, arrivals[i]);
      rows := rows + [more];
      assert arrivals[..i + 1][..i] == arrivals[..i];
    }
    assert arrivals[..|arrivals|] == arrivals;
  }

  // ----- isolation, on arbitrary bytes -----

  function Own(cache: Cache, q: Pair): Cache { map k | k in cache && k.pair == q :: cache[k] }

  lemma {:induction false} LearnIsLocal(v: Version, cache: Cache, pair: Pair, b: seq<byte>, q: Pair)
    ensures Own(Learn(v, cache, pair, b), q) == if q == pair then Learn(v, Own(cache, q), pair, b) else Own(cache, q)
    decreases |b|
  {
    hide TemplateAt;
    match TemplateAt(b, v.IPFIX?)
    case None =>
    case Some(d) =>
      var cache1 := cache[TemplateKey(pair, d.0) := d.1];
      LearnIsLocal(v, cache1, pair, b[d.2..], q);
      assert Own(cache1, q) == if q == pair then Own(cache, q)[TemplateKey(pair, d.0) := d.1] else Own(cache, q);
  }

  /** The sets of one message read and write their own pair's templates only. */
  lemma {:induction false} SetsAreLocal(v: Version, cache: Cache, pair: Pair, b: seq<byte>, c: Context, q: Pair)
    ensures Own(Sets(v, cache, pair, b, c).0, q)
         == if q == pair then Sets(v, Own(cache, q), pair, b, c).0 else Own(cache, q)
    ensures Sets(v, cache, pair, b, c).1 == Sets(v, Own(cache, pair), pair, b, c).1
    decreases |b|
  {
    hide Learn, RecordRows;
    if |b| >= 4 {
      var id, len := Be16(b, 0), Be16(b, 2);
      if 4 <= len <= |b| {
        var body := b[4..len];
        LearnIsLocal(v, cache, pair, body, q);
        LearnIsLocal(v, cache, pair, body, pair);
        SetsAreLocal(v, Learned(v, cache, pair, id, body), pair, b[len..], c, q);
        assert Yielded(cache, pair, id, body, c) == Yielded(Own(cache, pair), pair, id, body, c);
      }
    }
  }

  /** One datagram reads and writes its own pair's templates only. */
  lemma ParsedIsLocal(v: Version, cache: Cache, payload: seq<byte>, exporter: string, c: Context, q: Pair)
    ensures var own := Accepts(v, payload) && q == Pair(exporter, DomainOf(v, payload));
      var all := Parsed(v, cache, payload, exporter, c);
      if own then (Own(all.0, q), all.1) == Parsed(v, Own(cache, q), payload, exporter, c)
      else Own(all.0, q) == Own(cache, q)
  {
    hide Sets;
    if Accepts(v, payload) {
      var end := if v.V9? then |payload| else MessageEnd(payload);
      SetsAreLocal(v, cache, Pair(exporter, DomainOf(v, payload)), payload[v.HeaderLen()..end], c, q);
    }
  }

  lemma ReceivedIsLocal(o: Settings, cache: Cache, a: Arrival, q: Pair)
    ensures var all := Received(o, cache, a);
      if PairOf(a) == Some(q) then (Own(all.0, q), all.1) == Received(o, Own(cache, q), a)
      else Own(all.0, q) == Own(cache, q)
  {
    hide Parsed, Accepts, Be16, Be32, NetFlow5.V5Rows, SFlow.SFlowRows, X.DatagramKind;
    var c := o.Around(a.exporter, a.at);
    ParsedIsLocal(V9, cache, a.payload, a.exporter, c, q);
    ParsedIsLocal(IPFIX, cache, a.payload, a.exporter, c, q);
    if !Accepts(V9, a.payload) { Ignored(V9, cache, a.payload, a.exporter, c); }
    if !Accepts(IPFIX, a.payload) { Ignored(IPFIX, cache, a.payload, a.exporter, c); }
  }

  lemma Ignored(v: Version, cache: Cache, payload: seq<byte>, exporter: string, c: Context)
    requires !Accepts(v, payload)
    ensures Parsed(v, cache, payload, exporter, c) == (cache, [])
  {}

  /** The datagrams of one pair, in order. */
  function Only(arrivals: seq<Arrival>, q: Pair): seq<Arrival> {
    if arrivals == [] then []
    else
      var n := |arrivals| - 1;
      Only(arrivals[..n], q) + if PairOf(arrivals[n]) == Some(q) then [arrivals[n]] else []
  }

  /** Their entries in a list with one entry per datagram. */
  function Picked<T>(arrivals: seq<Arrival>, xs: seq<T>, q: Pair): seq<T>
    requires |arrivals| == |xs|
  {
    if arrivals == [] then []
    else
      var n := |arrivals| - 1;
      Picked(arrivals[..n], xs[..n], q) + if PairOf(arrivals[n]) == Some(q) then [xs[n]] else []
  }

  /** Isolation: in any interleaving, one pair gets the templates and the rows it would get alone. */
  lemma {:induction false} Isolation(o: Settings, cache: Cache, arrivals: seq<Arrival>, q: Pair)
    ensures Run(o, Own(cache, q), Only(arrivals, q))
         == (Own(Run(o, cache, arrivals).0, q), Picked(arrivals, Run(o, cache, arrivals).1, q))
    decreases |arrivals|
  {
    hide Received, PairOf;
    if arrivals != [] {
      var n := |arrivals| - 1;
      var a, before := arrivals[n], Run(o, cache, arrivals[..n]);
      Isolation(o, cache, arrivals[..n], q);
      ReceivedIsLocal(o, before.0, a, q);
      assert Run(o, cache, arrivals).1[..n] == before.1;
      if PairOf(a) == Some(q) {
        assert Only(arrivals, q)[..|Only(arrivals, q)| - 1] == Only(arrivals[..n], q);
      } else {
        assert Only(arrivals, q) == Only(arrivals[..n], q);
        assert Picked(arrivals, Run(o, cache, arrivals).1, q) == Picked(arrivals[..n], before.1, q);
      }
    }
  }

  // ----- streams of messages -----

  /** A v9 or IPFIX message as an exporter writes it. */
  datatype Written = Written(v: Version, exporter: string, lenOrCount: nat, head: seq<byte>, domain: u32,
                             sets: seq<FlowSet>, at: int) {
    function Owner(): Pair { Pair(exporter, domain) }
    function Payload(): seq<byte> { Message(v, lenOrCount, head, domain, sets) }

    predicate Ok() {
      HeaderOk(v, head, domain) && (forall s | s in sets :: SetOk(v, s))
      && (v.IPFIX? ==> var n := lenOrCount % 0x1_0000; n == |Payload()| || n < 16 || n > |Payload()|)
    }
  }

  /** Messages, and between them datagrams that have nothing to do with templates. */
  datatype Incoming = Msg(w: Written) | Other(a: Arrival) {
    function Arrived(): Arrival { if Msg? then Arrival(w.exporter, w.Payload(), w.at) else a }
  }

  function AllArrived(ms: seq<Incoming>): (a: seq<Arrival>)
    ensures |a| == |ms| && forall i | 0 <= i < |a| :: a[i] == ms[i].Arrived()
  {
    seq(|ms|, i requires 0 <= i < |ms| => ms[i].Arrived())
  }

  /** What a pair has defined so far: the meaning of its own messages, one after the other. */
  function Known(o: Settings, ms: seq<Incoming>, q: Pair): Cache {
    if ms == [] then map[]
    else
      var n := |ms| - 1;
      var before := Known(o, ms[..n], q);
      if ms[n].Msg? && ms[n].w.Owner() == q then
        Meaning(before, q, ms[n].w.sets, o.Around(ms[n].w.exporter, ms[n].w.at)).0
      else before
  }

  /** What the i-th datagram owes: the meaning of its sets under the templates of its own pair. */
  function Owed(o: Settings, ms: seq<Incoming>, i: nat): seq<Row>
    requires i < |ms|
  {
    match ms[i]
    case Msg(w) => Meaning(Known(o, ms[..i], w.Owner()), w.Owner(), w.sets, o.Around(w.exporter, w.at)).1
    case Other(a) => Received(o, map[], a).1
  }

  /** Messages are well formed, and their records have the lengths the receiver's templates say. */
  predicate Readable(o: Settings, ms: seq<Incoming>, i: nat)
    requires i < |ms|
  {
    match ms[i]
    case Msg(w) => w.Ok() && AllConform(Known(o, ms[..i], w.Owner()), w.Owner(), w.sets)
    case Other(a) => PairOf(a) == None
  }

  lemma KindOfAccepted(v: Version, payload: seq<byte>)
    requires Accepts(v, payload)
    ensures X.DatagramKind(payload) == if v.V9? then X.IsV9 else X.IsIPFIX
  {
    X.DispatchIsSound(payload);
  }

  lemma WrittenIsSeen(o: Settings, cache: Cache, w: Written)
    requires w.Ok()
    ensures var a := Msg(w).Arrived();
      PairOf(a) == Some(w.Owner())
      && Received(o, cache, a) == Parsed(w.v, cache, w.Payload(), w.exporter, o.Around(w.exporter, w.at))
  {
    hide Message, Accepts, DomainOf, Parsed, SetOk, EncSets;
    MessageHeader(w.v, w.lenOrCount, w.head, w.domain, w.sets);
    KindOfAccepted(w.v, w.Payload());
  }

  lemma OtherIsUnseen(o: Settings, cache: Cache, a: Arrival)
    requires PairOf(a) == None
    ensures Received(o, cache, a) == (cache, Received(o, map[], a).1)
  {
    hide Parsed, NetFlow5.V5Rows, SFlow.SFlowRows, Accepts, DomainOf, X.DatagramKind;
    var c := o.Around(a.exporter, a.at);
    if !Accepts(V9, a.payload) {
      Ignored(V9, cache, a.payload, a.exporter, c);
      Ignored(V9, map[], a.payload, a.exporter, c);
    }
    if !Accepts(IPFIX, a.payload) {
      Ignored(IPFIX, cache, a.payload, a.exporter, c);
      Ignored(IPFIX, map[], a.payload, a.exporter, c);
    }
  }

  /** One more message, after any others. */
  lemma OneMore(o: Settings, cache: Cache, ms: seq<Incoming>, q: Pair)
    requires ms != [] && Readable(o, ms, |ms| - 1)
    requires forall p :: Own(cache, p) == Known(o, ms[..|ms| - 1], p)
    ensures var r := Received(o, cache, ms[|ms| - 1].Arrived());
      Own(r.0, q) == Known(o, ms, q) && r.1 == Owed(o, ms, |ms| - 1)
  {
    hide Received, PairOf, Parsed, Meaning, AllConform, Message, SetOk;
    var n := |ms| - 1;
    var a := ms[n].Arrived();
    match ms[n]
    case Other(_) => OtherIsUnseen(o, cache, a);
    case Msg(w) =>
      var p := w.Owner();
      WrittenIsSeen(o, cache, w);
      WrittenIsSeen(o, Own(cache, p), w);
      ReceivedIsLocal(o, cache, a, p);
      ReceivedIsLocal(o, cache, a, q);
      MessageRead(w.v, Own(cache, p), w.exporter, w.lenOrCount, w.head, w.domain, w.sets, o.Around(w.exporter, w.at));
  }

  /** In any interleaving of messages with arbitrary template definitions, and of other datagrams, every
      message is decoded under exactly the templates its own pair has defined last before it. */
  lemma {:induction false} MessagesRead(o: Settings, ms: seq<Incoming>)
    requires forall i | 0 <= i < |ms| :: Readable(o, ms, i)
    ensures forall q :: Own(Run(o, map[], AllArrived(ms)).0, q) == Known(o, ms, q)
    ensures forall i | 0 <= i < |ms| :: Run(o, map[], AllArrived(ms)).1[i] == Owed(o, ms, i)
    decreases |ms|
  {
    hide Received, Owed, Readable, Incoming.Arrived;
    if ms == [] {
      NothingKnown(o);
    } else {
      var n := |ms| - 1;
      var init := ms[..n];
      forall i | 0 <= i < n ensures Readable(o, init, i) && Owed(o, init, i) == Owed(o, ms, i) {
        assert Readable(o, ms, i);
        SameBefore(o, ms, n, i);
      }
      hide Known;
      MessagesRead(o, init);
      assert AllArrived(ms)[..n] == AllArrived(init);
      var cache := Run(o, map[], AllArrived(init)).0;
      assert Readable(o, ms, n);
      forall q ensures Own(Run(o, map[], AllArrived(ms)).0, q) == Known(o, ms, q) { OneMore(o, cache, ms, q); }
      OneMore(o, cache, ms, Pair("", 0));
    }
  }

  lemma NothingKnown(o: Settings)
    ensures AllArrived([]) == [] && forall q :: Own(map[], q) == Known(o, [], q)
  {}

  lemma SameBefore(o: Settings, ms: seq<Incoming>, n: nat, i: nat)
    requires i < n <= |ms|
    ensures Readable(o, ms[..n], i) == Readable(o, ms, i) && Owed(o, ms[..n], i) == Owed(o, ms, i)
  {
    assert ms[..n][..i] == ms[..i];
  }

  // ----- generated streams -----

  /** A v9 or IPFIX datagram of the generator, or any other datagram. */
  datatype Sent =
    | Sent(v: Version, peer: string, exporter: nat, recs: seq<FlowRec>, withTemplate: bool, now: Clock, at: int)
    | Mixed(a: Arrival)
  {
    predicate Ok() { if Sent? then Fits(v, withTemplate, |recs|) else PairOf(a) == None }

    function Item(): Incoming {
      if Sent? then
        Msg(Written(v, peer, LenOrCount(v, withTemplate, recs), Head(v, exporter, now), Domain(exporter),
                    SetsOf(withTemplate, recs), at))
      else Other(a)
    }
  }

  function Items(sents: seq<Sent>): (ms: seq<Incoming>)
    ensures |ms| == |sents| && forall i | 0 <= i < |ms| :: ms[i] == sents[i].Item()
  {
    seq(|sents|, i requires 0 <= i < |sents| => sents[i].Item())
  }

  /** What the generator writes is such a message. */
  lemma GeneratedItem(s: Sent)
    requires s.Sent? && s.Ok()
    ensures s.Item().w.Ok()
    ensures s.Item().Arrived() == Arrival(s.peer, Datagram(s.v, s.recs, s.exporter, s.withTemplate, s.now), s.at)
  {
    hide EncSets, SetOk, SetsOf, Head, LenOrCount, Domain, HeaderOk, Message, TotalLen, Datagram;
    GeneratedSetsOk(s.v, s.recs, s.withTemplate);
    GeneratedLen(s.v, s.recs, s.exporter, s.withTemplate, s.now);
  }

  predicate Announces(s: Sent, q: Pair) { s.Sent? && s.withTemplate && Pair(s.peer, Domain(s.exporter)) == q }

  predicate Announced(sents: seq<Sent>, q: Pair) { exists s | s in sents :: Announces(s, q) }

  function Announcement(sents: seq<Sent>, q: Pair): Cache {
    if Announced(sents, q) then map[TemplateKey(q, TEMPLATE_ID) := FLOW_TEMPLATE] else map[]
  }

  lemma AnnouncedLast(sents: seq<Sent>, q: Pair)
    requires sents != []
    ensures var n := |sents| - 1; Announced(sents, q) <==> Announced(sents[..n], q) || Announces(sents[n], q)
  {
    hide Announces;
    var n := |sents| - 1;
    assert sents == sents[..n] + [sents[n]];
  }

  lemma KnownLast(o: Settings, init: seq<Incoming>, m: Incoming, q: Pair)
    ensures var before := Known(o, init, q);
      Known(o, init + [m], q)
      == if m.Msg? && m.w.Owner() == q then Meaning(before, q, m.w.sets, o.Around(m.w.exporter, m.w.at)).0 else before
  {
    hide Meaning;
    assert (init + [m])[..|init|] == init;
  }

  /** One more generated datagram defines its pair's template if it carries one. */
  lemma GeneratedStep(o: Settings, cache: Cache, init: seq<Incoming>, s: Sent, q: Pair)
    requires s.Ok() && cache == Known(o, init, q)
    requires TemplateKey(q, TEMPLATE_ID) in cache ==> cache[TemplateKey(q, TEMPLATE_ID)] == FLOW_TEMPLATE
    ensures Known(o, init + [s.Item()], q)
         == if Announces(s, q) then cache[TemplateKey(q, TEMPLATE_ID) := FLOW_TEMPLATE] else cache
  {
    hide Known, Meaning, Fits, SetsOf, Domain, PairOf, Head, LenOrCount;
    KnownLast(o, init, s.Item(), q);
    if s.Sent? && Pair(s.peer, Domain(s.exporter)) == q {
      RecordsFit(s);
      GeneratedSets(s.v, cache, q, s.recs, s.withTemplate, o.Around(s.peer, s.at));
    }
  }

  /** A pair of the generator has defined the one template, or none yet. */
  lemma {:induction false} GeneratedKnown(o: Settings, sents: seq<Sent>, q: Pair)
    requires forall s | s in sents :: s.Ok()
    ensures Known(o, Items(sents), q) == Announcement(sents, q)
    decreases |sents|
  {
    hide Announced, Announces, Sent.Ok, Sent.Item;
    if sents == [] {
      NothingAnnounced(o, q);
    } else {
      var n := |sents| - 1;
      var s, init := sents[n], sents[..n];
      assert s in sents && sents == init + [s] && Items(sents) == Items(init) + [s.Item()];
      hide Known;
      GeneratedKnown(o, init, q);
      AnnouncedLast(sents, q);
      GeneratedStep(o, Announcement(init, q), Items(init), s, q);
    }
  }

  lemma NothingAnnounced(o: Settings, q: Pair)
    ensures Known(o, Items([]), q) == Announcement([], q)
  {
    assert Items([]) == [];
  }

  lemma RecordsFit(s: Sent)
    requires s.Sent? && s.Ok()
    ensures 4 + REC_LEN * |s.recs| < 0x1_0000
  {}

  /** The rows the i-th datagram owes: its records if its own pair announced the template up to
      and including it, and nothing if not. */
  function RowsDue(o: Settings, sents: seq<Sent>, i: nat): seq<Row>
    requires i < |sents|
  {
    match sents[i]
    case Sent(_, peer, exporter, recs, _, _, at) =>
      if Announced(sents[..i + 1], Pair(peer, Domain(exporter))) then RowsOf(recs, o.Around(peer, at)) else []
    case Mixed(a) => Received(o, map[], a).1
  }

  lemma GeneratedOwed(o: Settings, sents: seq<Sent>, i: nat)
    requires i < |sents| && forall s | s in sents :: s.Ok()
    ensures Readable(o, Items(sents), i) && Owed(o, Items(sents), i) == RowsDue(o, sents, i)
  {
    hide Meaning, Fits, SetsOf, Domain, PairOf, Received, RowsOf, AllConform, Head, LenOrCount, Message, HeaderOk,
         SetOk, EncSets;
    var s, upTo := sents[i], sents[..i + 1];
    assert s in sents && Items(sents)[..i] == Items(sents[..i]) && upTo[..i] == sents[..i];
    if s.Sent? {
      var q := Pair(s.peer, Domain(s.exporter));
      GeneratedKnown(o, sents[..i], q);
      AnnouncedLast(upTo, q);
      hide Announced, Known;
      RecordsFit(s);
      GeneratedItem(s);
      GeneratedSets(s.v, Announcement(sents[..i], q), q, s.recs, s.withTemplate, o.Around(s.peer, s.at));
    }
  }

  /** In any interleaving of generated datagrams and others, from a fresh cache, every one of them yields
      exactly the rows it owes, and the cache holds exactly the announced templates. */
  lemma StreamRead(o: Settings, sents: seq<Sent>)
    requires forall s | s in sents :: s.Ok()
    ensures forall q :: Own(Run(o, map[], AllArrived(Items(sents))).0, q) == Announcement(sents, q)
    ensures forall i | 0 <= i < |sents| :: Run(o, map[], AllArrived(Items(sents))).1[i] == RowsDue(o, sents, i)
  {
    hide Run, Known, Readable, Owed, RowsDue, Announcement, Sent.Ok;
    forall i | 0 <= i < |sents|
      ensures Readable(o, Items(sents), i) && Owed(o, Items(sents), i) == RowsDue(o, sents, i)
    {
      GeneratedOwed(o, sents, i);
    }
    MessagesRead(o, Items(sents));
    forall q ensures Known(o, Items(sents), q) == Announcement(sents, q) { GeneratedKnown(o, sents, q); }
  }

  // ----- sendLoop's schedule -----

  const TEMPLATE_EVERY := 400

  predicate CarriesTemplate(k: nat) { k < 3 || k % TEMPLATE_EVERY == 0 }

  datatype Slot = Slot(exporter: nat, withTemplate: bool)

  /** The exporters one sender serves in turn, and which datagrams carry the template: the
      k-th of every exporter with k < 3 or k a multiple of 400. */
  method Schedule(exporters: nat, n: nat) returns (slots: seq<Slot>)
    requires exporters >= 1
    ensures |slots| == n
    ensures forall i | 0 <= i < n :: slots[i] == Slot(i % exporters, CarriesTemplate(i / exporters))
  {
    var perExp := new nat[exporters](i => 0);
    var dgCount := 0;
    slots := [];
    forall e | 0 <= e < exporters ensures Served(e, 0, exporters) == 0 { Quotient(0, exporters, 0, 0); }
    while dgCount < n
      invariant dgCount <= n && |slots| == dgCount
      invariant forall e | 0 <= e < exporters :: perExp[e] == Served(e, dgCount, exporters)
      invariant forall i | 0 <= i < dgCount :: slots[i] == Slot(i % exporters, CarriesTemplate(i / exporters))
    {
      var exporter := dgCount % exporters;
      forall e | 0 <= e < exporters
        ensures Served(e, dgCount + 1, exporters) == Served(e, dgCount, exporters) + if e == exporter then 1 else 0
      {
        NextTurn(e, dgCount, exporters);
      }
      assert Served(exporter, dgCount, exporters) == dgCount / exporters;
      hide Served;
      var k := perExp[exporter];
      perExp[exporter] := perExp[exporter] + 1;
      slots := slots + [Slot(exporter, k < 3 || k % TEMPLATE_EVERY == 0)];
      dgCount := dgCount + 1;
    }
  }

  /** How often exporter `e` had its turn within the first `i` datagrams. */
  function Served(e: nat, i: nat, exporters: nat): nat
    requires exporters >= 1
  {
    i / exporters + if e < i % exporters then 1 else 0
  }

  lemma {:induction false} NextTurn(e: nat, i: nat, exporters: nat)
    requires e < exporters
    ensures Served(e, i + 1, exporters) == Served(e, i, exporters) + if e == i % exporters then 1 else 0
  {
    var q, r := i / exporters, i % exporters;
    if r + 1 == exporters {
      assert (q + 1) * exporters == q * exporters + exporters;
      Quotient(i + 1, exporters, q + 1, 0);
    } else {
      Quotient(i + 1, exporters, q, r + 1);
    }
  }

  // ----- several senders at once -----

  /** How many of these datagrams the sender `who` sent. */
  function Sends(senders: seq<nat>, who: nat): nat {
    if senders == [] then 0 else Sends(senders[..|senders| - 1], who) + if senders[|senders| - 1] == who then 1 else 0
  }

  /** Each of several senders serves the exporters in turn; those of protocols without templates send other
      datagrams. Their datagrams are processed in any order that keeps each sender's own. */
  ghost predicate Scheduled(sents: seq<Sent>, senders: seq<nat>, exporters: nat, peer: string, templated: set<nat>,
                            i: nat)
    requires exporters >= 1 && i < |sents| == |senders|
  {
    var turn := Sends(senders[..i], senders[i]);
    if turn % exporters in templated then
      sents[i].Sent? && sents[i].peer == peer
      && sents[i].exporter == turn % exporters && sents[i].withTemplate == CarriesTemplate(turn / exporters)
    else sents[i].Mixed?
  }

  /** Every earlier turn of a sender has been taken. */
  lemma {:induction false} EarlierTurn(senders: seq<nat>, i: nat, who: nat, turn: nat) returns (j: nat)
    requires i <= |senders| && turn < Sends(senders[..i], who)
    ensures j < i && senders[j] == who && Sends(senders[..j], who) == turn
    decreases i
  {
    assert senders[..i][..i - 1] == senders[..i - 1];
    if turn < Sends(senders[..i - 1], who) { j := EarlierTurn(senders, i - 1, who, turn); } else { j := i - 1; }
  }

  lemma FirstTurn(sents: seq<Sent>, senders: seq<nat>, exporters: nat, peer: string, templated: set<nat>, i: nat)
    requires exporters >= 1 && i < |sents| == |senders| && sents[i].Sent?
    requires forall k | 0 <= k < |sents| :: Scheduled(sents, senders, exporters, peer, templated, k)
    ensures Announced(sents[..i + 1], Pair(sents[i].peer, Domain(sents[i].exporter)))
  {
    hide Domain, Sends;
    var who, turn := senders[i], Sends(senders[..i], senders[i]);
    var e := turn % exporters;
    Quotient(e, exporters, 0, e);
    assert turn == turn / exporters * exporters + e && e <= turn;
    assert Scheduled(sents, senders, exporters, peer, templated, i);
    var j := i;
    if e < turn { j := EarlierTurn(senders, i, who, e); }
    assert Scheduled(sents, senders, exporters, peer, templated, j);
    var upTo := sents[..i + 1];
    assert upTo[j] in upTo && Announces(upTo[j], Pair(peer, Domain(e)));
  }

  /** Senders that follow the schedule and lose nothing are decoded from their very first datagrams on. */
  lemma {:induction false} ScheduledStream(o: Settings, sents: seq<Sent>, senders: seq<nat>, exporters: nat,
                                           peer: string, templated: set<nat>)
    requires exporters >= 1 && |senders| == |sents| && forall s | s in sents :: s.Ok()
    requires forall i | 0 <= i < |sents| :: Scheduled(sents, senders, exporters, peer, templated, i)
    ensures forall i | 0 <= i < |sents| && sents[i].Sent? ::
      Run(o, map[], AllArrived(Items(sents))).1[i] == RowsOf(sents[i].recs, o.Around(peer, sents[i].at))
  {
    hide Run, RowsOf, Fits, Domain, Announced, Sent.Ok;
    StreamRead(o, sents);
    forall i | 0 <= i < |sents| && sents[i].Sent?
      ensures Run(o, map[], AllArrived(Items(sents))).1[i] == RowsOf(sents[i].recs, o.Around(peer, sents[i].at))
    {
      FirstTurn(sents, senders, exporters, peer, templated, i);
      assert Scheduled(sents, senders, exporters, peer, templated, i);
    }
  }
}
