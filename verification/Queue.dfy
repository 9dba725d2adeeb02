/** The store-writer's delivery protocol: internal/queue/queue.go. */
module Queue {
  import opened Wrappers

  type Items = seq<int>

  datatype Envelope = Envelope(agent: int, attrMethod: bool, interfaces: Items, connections: Items,
    traffic: Items, l7: Items, dns: Items, subnets: Items)

  /** A payload and what json.Unmarshal makes of it for each of the three message types. */
  datatype Data = Data(telemetry: Option<Envelope>, flows: Option<Items>, syslog: Option<int>)

  datatype Subject = SubTelemetry | SubFlows | SubSyslog | OtherSubject

  /** The store calls, as far as the protocol depends on them. */
  datatype Write =
    | SaveIfaceSamples(agent: int, items: Items) | ReplaceConnLatest(agent: int, items: Items)
    | TouchAgent(agent: int) | SetAgentAttrInfo(agent: int)
    | SaveProcessTraffic(agent: int, items: Items) | SaveL7(agent: int, items: Items)
    | SaveAgentDNS(agent: int, items: Items) | SaveAgentSubnets(agent: int, items: Items)
    | SaveFlows(items: Items) | SaveSyslogEvent(event: int)

  /** What goes wrong while one delivery is handled: the store calls that fail, Metadata() unreadable,
      the copy to the dead-letter subject refused, the Ack or Term signal lost. */
  datatype Faults = Faults(fails: set<Write>, unreadable: bool, unpublished: bool, unsent: bool)

  /** How the handling of one delivery ended. */
  datatype Outcome =
    | Stored(sent: bool)
    | Refused(sent: bool)
    | Dead(sent: bool)
    | Unpublished
    | Returned(readable: bool)

  datatype Fate = Pending | Acked | Termed

  /** A message in the stream. `outcomes` records, by delivery number, how each handled delivery ended;
      a delivery that is missing there never ended in the handler. */
  datatype Msg = Msg(subject: Subject, data: Data, delivered: nat, outcomes: map<nat, Outcome>, fate: Fate)

  datatype State = State(msgs: seq<Msg>, log: seq<Write>, dead: seq<nat>)

  const MAX_DELIVER := 10

  // ----- the calls one message needs -----

  datatype Call = Call(write: Write, required: bool)

  function When(b: bool, w: Write, required: bool): seq<Call> { if b then [Call(w, required)] else [] }

  /** The store calls of one telemetry batch from the k-th on. */
  function TelemetryCalls(e: Envelope, k: nat): seq<Call>
    decreases 8 - k
  {
    if k >= 8 then [] else TelemetryCall(e, k) + TelemetryCalls(e, k + 1)
  }

  function TelemetryCall(e: Envelope, k: nat): seq<Call> {
    match k
    case 0 => When(true, SaveIfaceSamples(e.agent, e.interfaces), true)
    case 1 => When(true, ReplaceConnLatest(e.agent, e.connections), true)
    case 2 => When(true, TouchAgent(e.agent), false)
    case 3 => When(e.attrMethod, SetAgentAttrInfo(e.agent), false)
    case 4 => When(e.traffic != [], SaveProcessTraffic(e.agent, e.traffic), true)
    case 5 => When(e.l7 != [], SaveL7(e.agent, e.l7), true)
    case 6 => When(e.dns != [], SaveAgentDNS(e.agent, e.dns), true)
    case _ => When(e.subnets != [], SaveAgentSubnets(e.agent, e.subnets), true)
  }

  function Calls(m: Msg): Option<seq<Call>> {
    match m.subject
    case SubTelemetry =>
      (match m.data.telemetry
       case None => None
       case Some(e) => Some(TelemetryCalls(e, 0)))
    case SubFlows => if m.data.flows == None then None else Some([Call(SaveFlows(m.data.flows.value), true)])
    case SubSyslog => if m.data.syslog == None then None else Some([Call(SaveSyslogEvent(m.data.syslog.value), true)])
    case OtherSubject => None
  }

  /** The message can be understood: its subject is known and its payload decodes. */
  predicate Decodable(m: Msg) {
    match m.subject
    case SubTelemetry => m.data.telemetry.Some?
    case SubFlows => m.data.flows.Some?
    case SubSyslog => m.data.syslog.Some?
    case OtherSubject => false
  }

  /** The writes done when the calls are made in order, up to the first required one that fails. */
  function Written(calls: seq<Call>, fails: set<Write>): seq<Write> {
    if calls == [] then []
    else if calls[0].write !in fails then [calls[0].write] + Written(calls[1..], fails)
    else if calls[0].required then []
    else Written(calls[1..], fails)
  }

  /** No required call fails. */
  predicate AllDone(calls: seq<Call>, fails: set<Write>) {
    calls == [] || ((calls[0].write !in fails || !calls[0].required) && AllDone(calls[1..], fails))
  }

  ghost predicate Within(all: Items, part: Items) { exists a, b :: all == a + part + b }

  /** What a telemetry batch must leave in the store. */
  predicate BatchSaved(log: seq<Write>, e: Envelope) {
    SaveIfaceSamples(e.agent, e.interfaces) in log && ReplaceConnLatest(e.agent, e.connections) in log
    && (e.traffic != [] ==> SaveProcessTraffic(e.agent, e.traffic) in log)
    && (e.l7 != [] ==> SaveL7(e.agent, e.l7) in log)
    && (e.dns != [] ==> SaveAgentDNS(e.agent, e.dns) in log)
    && (e.subnets != [] ==> SaveAgentSubnets(e.agent, e.subnets) in log)
  }

  /** Flow rows may be written together with those of other messages. */
  ghost predicate FlowsSaved(log: seq<Write>, rows: Items) {
    exists w :: w in log && w.SaveFlows? && Within(w.items, rows)
  }

  /** Everything the message must leave in the store is there. */
  ghost predicate InStore(log: seq<Write>, m: Msg) {
    match m.subject
    case SubTelemetry => m.data.telemetry.Some? && BatchSaved(log, m.data.telemetry.value)
    case SubFlows => m.data.flows.Some? && FlowsSaved(log, m.data.flows.value)
    case SubSyslog => m.data.syslog.Some? && SaveSyslogEvent(m.data.syslog.value) in log
    case OtherSubject => false
  }

  lemma OneCall(b: bool, w: Write, required: bool, rest: seq<Call>, fails: set<Write>)
    ensures var calls := When(b, w, required) + rest;
      AllDone(calls, fails) <==> (b && required ==> w !in fails) && AllDone(rest, fails)
    ensures var calls := When(b, w, required) + rest; b && required && w in fails ==> Written(calls, fails) == []
    ensures var calls := When(b, w, required) + rest;
      !(b && required && w in fails) ==>
        Written(calls, fails) == (if b && w !in fails then [w] else []) + Written(rest, fails)
  {
    var calls := When(b, w, required) + rest;
    if b { assert calls[0] == Call(w, required) && calls[1..] == rest; } else { assert calls == rest; }
  }

  /** A batch is done exactly if no required write of a section that is there fails; then all of them, and of the
      optional ones those that succeed, are written in order. */
  lemma {:induction false} TelemetryDone(e: Envelope, fails: set<Write>)
    ensures AllDone(TelemetryCalls(e, 0), fails) <==>
      SaveIfaceSamples(e.agent, e.interfaces) !in fails && ReplaceConnLatest(e.agent, e.connections) !in fails
      && (e.traffic != [] ==> SaveProcessTraffic(e.agent, e.traffic) !in fails)
      && (e.l7 != [] ==> SaveL7(e.agent, e.l7) !in fails)
      && (e.dns != [] ==> SaveAgentDNS(e.agent, e.dns) !in fails)
      && (e.subnets != [] ==> SaveAgentSubnets(e.agent, e.subnets) !in fails)
    ensures AllDone(TelemetryCalls(e, 0), fails) ==>
      Written(TelemetryCalls(e, 0), fails) ==
        [SaveIfaceSamples(e.agent, e.interfaces)] + ([ReplaceConnLatest(e.agent, e.connections)]
        + ((if TouchAgent(e.agent) !in fails then [TouchAgent(e.agent)] else [])
        + ((if e.attrMethod && SetAgentAttrInfo(e.agent) !in fails then [SetAgentAttrInfo(e.agent)] else [])
        + ((if e.traffic != [] then [SaveProcessTraffic(e.agent, e.traffic)] else [])
        + ((if e.l7 != [] then [SaveL7(e.agent, e.l7)] else [])
        + ((if e.dns != [] then [SaveAgentDNS(e.agent, e.dns)] else [])
        + (if e.subnets != [] then [SaveAgentSubnets(e.agent, e.subnets)] else [])))))))
  {
    LaterCalls(e, fails);
    hide AllDone, Written, When;
    OneCall(true, SaveIfaceSamples(e.agent, e.interfaces), true, TelemetryCalls(e, 1), fails);
    OneCall(true, ReplaceConnLatest(e.agent, e.connections), true, TelemetryCalls(e, 2), fails);
    OneCall(true, TouchAgent(e.agent), false, TelemetryCalls(e, 3), fails);
    OneCall(e.attrMethod, SetAgentAttrInfo(e.agent), false, TelemetryCalls(e, 4), fails);
  }

  lemma {:induction false} LaterCalls(e: Envelope, fails: set<Write>)
    ensures AllDone(TelemetryCalls(e, 4), fails) <==>
      (e.traffic != [] ==> SaveProcessTraffic(e.agent, e.traffic) !in fails)
      && (e.l7 != [] ==> SaveL7(e.agent, e.l7) !in fails)
      && (e.dns != [] ==> SaveAgentDNS(e.agent, e.dns) !in fails)
      && (e.subnets != [] ==> SaveAgentSubnets(e.agent, e.subnets) !in fails)
    ensures AllDone(TelemetryCalls(e, 4), fails) ==>
      Written(TelemetryCalls(e, 4), fails) ==
        (if e.traffic != [] then [SaveProcessTraffic(e.agent, e.traffic)] else [])
        + ((if e.l7 != [] then [SaveL7(e.agent, e.l7)] else [])
        + ((if e.dns != [] then [SaveAgentDNS(e.agent, e.dns)] else [])
        + (if e.subnets != [] then [SaveAgentSubnets(e.agent, e.subnets)] else [])))
  {
    assert AllDone([], fails) && Written([], fails) == [];
    hide AllDone, Written, When;
    NoMoreCalls(e);
    OneCall(e.traffic != [], SaveProcessTraffic(e.agent, e.traffic), true, TelemetryCalls(e, 5), fails);
    OneCall(e.l7 != [], SaveL7(e.agent, e.l7), true, TelemetryCalls(e, 6), fails);
    OneCall(e.dns != [], SaveAgentDNS(e.agent, e.dns), true, TelemetryCalls(e, 7), fails);
    OneCall(e.subnets != [], SaveAgentSubnets(e.agent, e.subnets), true, TelemetryCalls(e, 8), fails);
  }

  lemma NoMoreCalls(e: Envelope)
    ensures TelemetryCalls(e, 8) == []
  {}

  /** Calls that are all done leave behind what the message needs. */
  lemma {:induction false} DoneIsStored(m: Msg, log: seq<Write>, fails: set<Write>)
    requires Calls(m).Some? && AllDone(Calls(m).value, fails)
    ensures InStore(log + Written(Calls(m).value, fails), m)
  {
    match m.subject {
      case SubTelemetry =>
        hide AllDone, Written, TelemetryCalls;
        TelemetryDone(m.data.telemetry.value, fails);
      case SubFlows =>
        var rows := m.data.flows.value;
        assert rows == [] + rows + [];
        assert Within(rows, rows);
        assert SaveFlows(rows) in Written(Calls(m).value, fails);
      case SubSyslog =>
        assert SaveSyslogEvent(m.data.syslog.value) in Written(Calls(m).value, fails);
    }
  }

  // ----- one delivery -----

  /** Where retry and deadLetter leave the n-th delivery of a message whose write failed. */
  function Failed(n: nat, f: Faults): Outcome {
    if !f.unreadable && n >= MAX_DELIVER - 1 then
      if f.unpublished then Unpublished else Dead(!f.unsent)
    else Returned(!f.unreadable)
  }

  function NewFate(before: Fate, o: Outcome): Fate {
    if before != Pending then before
    else match o
      case Stored(sent) => if sent then Acked else Pending
      case Refused(sent) => if sent then Termed else Pending
      case Dead(sent) => if sent then Termed else Pending
      case _ => Pending
  }

  /** The state after the n-th delivery of message `id` ended with `o`. */
  function Settle(s: State, id: nat, n: nat, o: Outcome): State
    requires id < |s.msgs|
  {
    var m := s.msgs[id];
    s.(msgs := s.msgs[id := m.(outcomes := m.outcomes[n := o], fate := NewFate(m.fate, o))],
       dead := if o.Dead? then s.dead + [id] else s.dead)
  }

  /** A delivery in a worker's hands: delivered, and not yet handled. */
  predicate InHand(s: State, id: nat, n: nat) {
    id < |s.msgs| && 1 <= n <= s.msgs[id].delivered && n !in s.msgs[id].outcomes
  }

  function Handled(s: State, id: nat, n: nat, f: Faults): State
    requires InHand(s, id, n)
  {
    match Calls(s.msgs[id])
    case None => Settle(s, id, n, Refused(!f.unsent))
    case Some(calls) =>
      var t := s.(log := s.log + Written(calls, f.fails));
      Settle(t, id, n, if AllDone(calls, f.fails) then Stored(!f.unsent) else Failed(n, f))
  }

  /** A decoded flow message waiting to be written with the rest of its batch. */
  datatype Item = Item(id: nat, n: nat, f: Faults)

  predicate AllInHand(s: State, items: seq<Item>) {
    (forall i | 0 <= i < |items| ::
      InHand(s, items[i].id, items[i].n) && s.msgs[items[i].id].subject == SubFlows && Decodable(s.msgs[items[i].id]))
    && forall i, j | 0 <= i < j < |items| :: items[i].id != items[j].id || items[i].n != items[j].n
  }

  function Rows(s: State, items: seq<Item>): Items
    requires AllInHand(s, items)
  {
    if items == [] then []
    else
      var n := |items| - 1;
      Rows(s, items[..n]) + s.msgs[items[n].id].data.flows.value
  }

  function Settled(s: State, it: Item, fails: bool): State
    requires it.id < |s.msgs|
  {
    Settle(s, it.id, it.n, if fails then Failed(it.n, it.f) else Stored(!it.f.unsent))
  }

  function SettleAll(s: State, items: seq<Item>, fails: bool): (t: State)
    requires AllInHand(s, items)
    ensures |t.msgs| == |s.msgs| && t.log == s.log
  {
    if items == [] then s else Settled(SettleAll(s, items[..|items| - 1], fails), items[|items| - 1], fails)
  }

  lemma SettleNone(s: State, items: seq<Item>, fails: bool)
    requires AllInHand(s, items)
    ensures AllInHand(s, items[..0]) && SettleAll(s, items[..0], fails) == s
  {}

  lemma SettleOne(s: State, items: seq<Item>, i: nat, fails: bool)
    requires AllInHand(s, items) && i < |items|
    ensures AllInHand(s, items[..i]) && AllInHand(s, items[..i + 1]) && items[i].id < |s.msgs|
    ensures SettleAll(s, items[..i + 1], fails) == Settled(SettleAll(s, items[..i], fails), items[i], fails)
  {
    hide InHand, Decodable, Settle, Failed;
    assert items[..i + 1][..i] == items[..i];
    InHandAt(s, items, i);
  }

  lemma InHandAt(s: State, items: seq<Item>, i: nat)
    requires AllInHand(s, items) && i < |items|
    ensures items[i].id < |s.msgs| && InHand(s, items[i].id, items[i].n)
    ensures s.msgs[items[i].id].subject == SubFlows && Decodable(s.msgs[items[i].id])
  {}

  /** One SaveFlows for the whole batch; then every message is acked, or every one retried. */
  function Flushed(s: State, items: seq<Item>, fails: bool): State
    requires AllInHand(s, items)
  {
    if items == [] then s
    else SettleAll(if fails then s else s.(log := s.log + [SaveFlows(Rows(s, items))]), items, fails)
  }

  // ----- runs -----

  datatype Event =
    | Publish(subject: Subject, data: Data) | Deliver(id: nat)
    | Handle(item: Item) | Flush(items: seq<Item>, fails: bool)

  predicate Enabled(s: State, e: Event) {
    match e
    case Publish(_, _) => true
    case Deliver(id) => id < |s.msgs| && s.msgs[id].fate == Pending && s.msgs[id].delivered < MAX_DELIVER
    case Handle(it) => InHand(s, it.id, it.n)
    case Flush(items, _) => AllInHand(s, items)
  }

  function Next(s: State, e: Event): State
    requires Enabled(s, e)
  {
    match e
    case Publish(subject, data) => s.(msgs := s.msgs + [Msg(subject, data, 0, map[], Pending)])
    case Deliver(id) => s.(msgs := s.msgs[id := s.msgs[id].(delivered := s.msgs[id].delivered + 1)])
    case Handle(it) => Handled(s, it.id, it.n, it.f)
    case Flush(items, fails) => Flushed(s, items, fails)
  }

  ghost predicate Reaches(s: State, run: seq<Event>, t: State)
    decreases |run|
  {
    if run == [] then t == s else Enabled(s, run[0]) && Reaches(Next(s, run[0]), run[1..], t)
  }

  const START := State([], [], [])

  // ----- what every run keeps -----

  ghost predicate OutcomeOk(log: seq<Write>, m: Msg, n: nat, o: Outcome) {
    match o
    case Stored(_) => InStore(log, m)
    case Refused(_) => !Decodable(m)
    case Dead(_) => Decodable(m) && n >= MAX_DELIVER - 1
    case Unpublished => Decodable(m) && n >= MAX_DELIVER - 1
    case Returned(readable) => Decodable(m) && (readable ==> n < MAX_DELIVER - 1)
  }

  predicate Copied(m: Msg) { exists n | n in m.outcomes :: m.outcomes[n].Dead? }

  ghost predicate FateOk(m: Msg) {
    match m.fate
    case Pending => true
    case Acked => exists n :: n in m.outcomes && m.outcomes[n] == Stored(true)
    case Termed => exists n :: n in m.outcomes && (m.outcomes[n] == Refused(true) || m.outcomes[n] == Dead(true))
  }

  ghost predicate MsgOk(log: seq<Write>, m: Msg) {
    m.delivered <= MAX_DELIVER && FateOk(m)
    && forall n | n in m.outcomes :: 1 <= n <= m.delivered && OutcomeOk(log, m, n, m.outcomes[n])
  }

  ghost predicate Good(s: State) {
    (forall id | 0 <= id < |s.msgs| :: MsgOk(s.log, s.msgs[id]))
    && (forall id | 0 <= id < |s.msgs| :: id in s.dead <==> Copied(s.msgs[id]))
    && forall id | id in s.dead :: id < |s.msgs|
  }

  lemma LogGrows(log: seq<Write>, more: seq<Write>, m: Msg)
    requires MsgOk(log, m)
    ensures MsgOk(log + more, m)
  {
    hide Within;
    forall n | n in m.outcomes ensures OutcomeOk(log + more, m, n, m.outcomes[n]) {
      assert OutcomeOk(log, m, n, m.outcomes[n]);
      if m.outcomes[n].Stored? && m.subject == SubFlows {
        var w :| w in log && w.SaveFlows? && Within(w.items, m.data.flows.value);
        assert w in log + more;
      }
    }
  }

  lemma {:induction false} SettleKeeps(s: State, id: nat, n: nat, o: Outcome)
    requires Good(s) && InHand(s, id, n) && OutcomeOk(s.log, s.msgs[id], n, o)
    ensures Good(Settle(s, id, n, o))
  {
    hide OutcomeOk;
    var m, t := s.msgs[id], Settle(s, id, n, o);
    var m1 := t.msgs[id];
    assert FateOk(m1) by {
      if m.fate == Pending {
        assert n in m1.outcomes;
      } else {
        var k :| k in m.outcomes && (m.fate == Acked ==> m.outcomes[k] == Stored(true))
                 && (m.fate == Termed ==> m.outcomes[k] == Refused(true) || m.outcomes[k] == Dead(true));
        assert k in m1.outcomes && m1.outcomes[k] == m.outcomes[k];
      }
    }
    forall k | k in m1.outcomes ensures 1 <= k <= m1.delivered && OutcomeOk(t.log, m1, k, m1.outcomes[k]) {
      SameMessage(s.log, m, m1, k, m1.outcomes[k]);
    }
    assert Copied(m1) <==> Copied(m) || o.Dead? by {
      if Copied(m) { var k :| k in m.outcomes && m.outcomes[k].Dead?; assert k in m1.outcomes; }
      if o.Dead? { assert n in m1.outcomes; }
    }
  }

  lemma SameMessage(log: seq<Write>, m: Msg, m1: Msg, n: nat, o: Outcome)
    requires m1.subject == m.subject && m1.data == m.data
    ensures OutcomeOk(log, m1, n, o) <==> OutcomeOk(log, m, n, o)
  {}

  lemma LogKeeps(s: State, more: seq<Write>)
    requires Good(s)
    ensures Good(s.(log := s.log + more))
  {
    hide MsgOk, Copied;
    forall id | 0 <= id < |s.msgs| ensures MsgOk(s.log + more, s.msgs[id]) { LogGrows(s.log, more, s.msgs[id]); }
  }

  lemma {:induction false} HandledKeeps(s: State, id: nat, n: nat, f: Faults)
    requires Good(s) && InHand(s, id, n)
    ensures Good(Handled(s, id, n, f))
  {
    assert Calls(s.msgs[id]).Some? <==> Decodable(s.msgs[id]);
    hide Good, Calls, Settle, Decodable, InStore;
    match Calls(s.msgs[id])
    case None => SettleKeeps(s, id, n, Refused(!f.unsent));
    case Some(calls) =>
      var t := s.(log := s.log + Written(calls, f.fails));
      LogKeeps(s, Written(calls, f.fails));
      if AllDone(calls, f.fails) {
        DoneIsStored(s.msgs[id], s.log, f.fails);
        SettleKeeps(t, id, n, Stored(!f.unsent));
      } else {
        SettleKeeps(t, id, n, Failed(n, f));
      }
  }

  /** Every message of a batch finds its rows in the batch's one write. */
  lemma {:induction false} RowsHoldEach(s: State, items: seq<Item>, i: nat)
    requires AllInHand(s, items) && i < |items|
    ensures Within(Rows(s, items), s.msgs[items[i].id].data.flows.value)
  {
    var n := |items| - 1;
    var last := s.msgs[items[n].id].data.flows.value;
    assert AllInHand(s, items[..n]);
    if i == n {
      assert Rows(s, items) == Rows(s, items[..n]) + last + [];
    } else {
      RowsHoldEach(s, items[..n], i);
      var part := s.msgs[items[i].id].data.flows.value;
      var a, b :| Rows(s, items[..n]) == a + part + b;
      assert Rows(s, items) == a + part + (b + last);
    }
  }

  lemma BatchIsStored(s: State, log: seq<Write>, items: seq<Item>, i: nat)
    requires AllInHand(s, items) && i < |items| && SaveFlows(Rows(s, items)) in log
    ensures InStore(log, s.msgs[items[i].id])
  {
    hide Rows;
    var m := s.msgs[items[i].id];
    InHandAt(s, items, i);
    RowsHoldEach(s, items, i);
  }

  /** Settling the first messages of a batch leaves the later ones in hand and the payloads alone. */
  ghost predicate SameButSettled(s: State, t: State, items: seq<Item>) {
    |t.msgs| == |s.msgs| && forall id | 0 <= id < |s.msgs| :: SameMsg(s.msgs[id], t.msgs[id], id, items)
  }

  ghost predicate SameMsg(m: Msg, m1: Msg, id: nat, items: seq<Item>) {
    m1.subject == m.subject && m1.data == m.data && m1.delivered == m.delivered
    && forall n | n in m1.outcomes :: n in m.outcomes || SettledIn(items, id, n)
  }

  predicate SettledIn(items: seq<Item>, id: nat, n: nat) {
    exists i | 0 <= i < |items| :: items[i].id == id && items[i].n == n
  }

  lemma {:induction false} SettleAllKeeps(s: State, items: seq<Item>, fails: bool)
    requires Good(s) && AllInHand(s, items)
    requires !fails ==> forall i | 0 <= i < |items| :: InStore(s.log, s.msgs[items[i].id])
    ensures Good(SettleAll(s, items, fails))
    ensures SameButSettled(s, SettleAll(s, items, fails), items)
  {
    hide Good, Calls, InStore, Settle, Decodable;
    if items == [] { return; }
    var n := |items| - 1;
    var it := items[n];
    var mid := SettleAll(s, items[..n], fails);
    SettleAllKeeps(s, items[..n], fails);
    InHandAt(s, items, n);
    var m, m1 := s.msgs[it.id], mid.msgs[it.id];
    assert SameMsg(m, m1, it.id, items[..n]);
    assert !SettledIn(items[..n], it.id, it.n);
    var o := if fails then Failed(it.n, it.f) else Stored(!it.f.unsent);
    assert OutcomeOk(mid.log, m1, it.n, o) by { SameMessage(s.log, m, m1, it.n, o); }
    SettleKeeps(mid, it.id, it.n, o);
    SettledStep(s, mid, items[..n], it, o);
    assert items == items[..n] + [it];
  }

  lemma SettledStep(s: State, mid: State, items: seq<Item>, it: Item, o: Outcome)
    requires SameButSettled(s, mid, items) && it.id < |s.msgs|
    ensures SameButSettled(s, Settle(mid, it.id, it.n, o), items + [it])
  {
    var t, more := Settle(mid, it.id, it.n, o), items + [it];
    forall id | 0 <= id < |s.msgs| ensures SameMsg(s.msgs[id], t.msgs[id], id, more) {
      assert SameMsg(s.msgs[id], mid.msgs[id], id, items);
      forall n | n in t.msgs[id].outcomes ensures n in s.msgs[id].outcomes || SettledIn(more, id, n) {
        if n in mid.msgs[id].outcomes {
          if n !in s.msgs[id].outcomes {
            var i :| 0 <= i < |items| && items[i].id == id && items[i].n == n;
            assert more[i].id == id && more[i].n == n;
          }
        } else {
          assert more[|items|].id == id && more[|items|].n == n;
        }
      }
    }
  }

  lemma FlushedKeeps(s: State, items: seq<Item>, fails: bool)
    requires Good(s) && AllInHand(s, items)
    ensures Good(Flushed(s, items, fails))
  {
    hide Good, Calls, InStore, Rows, SettleAll;
    if items == [] { return; }
    var t := if fails then s else s.(log := s.log + [SaveFlows(Rows(s, items))]);
    LogKeeps(s, [SaveFlows(Rows(s, items))]);
    if !fails {
      forall i | 0 <= i < |items| ensures InStore(t.log, t.msgs[items[i].id]) { BatchIsStored(s, t.log, items, i); }
    }
    SettleAllKeeps(t, items, fails);
  }

  lemma DeliverKeeps(s: State, id: nat)
    requires Good(s) && Enabled(s, Deliver(id))
    ensures Good(Next(s, Deliver(id)))
  {
    hide OutcomeOk;
    var m, m1 := s.msgs[id], Next(s, Deliver(id)).msgs[id];
    forall n | n in m1.outcomes ensures OutcomeOk(s.log, m1, n, m1.outcomes[n]) {
      SameMessage(s.log, m, m1, n, m1.outcomes[n]);
    }
  }

  lemma PublishKeeps(s: State, subject: Subject, data: Data)
    requires Good(s)
    ensures Good(Next(s, Publish(subject, data)))
  {
    hide OutcomeOk;
  }

  /** Every interleaving of publications, deliveries, handlings and batch writes, with any failures. */
  lemma {:induction false} RunKeeps(s: State, run: seq<Event>, t: State)
    requires Good(s) && Reaches(s, run, t)
    ensures Good(t)
    decreases |run|
  {
    hide Good, Handled, Flushed;
    if run != [] {
      assert Good(Next(s, run[0])) by {
        match run[0] {
          case Publish(subject, data) => PublishKeeps(s, subject, data);
          case Deliver(id) => DeliverKeeps(s, id);
          case Handle(it) => HandledKeeps(s, it.id, it.n, it.f);
          case Flush(items, fails) => FlushedKeeps(s, items, fails);
        }
      }
      RunKeeps(Next(s, run[0]), run[1..], t);
    }
  }

  /** An acked message has everything it requires in the store. */
  lemma AckedIsStored(run: seq<Event>, s: State, id: nat)
    requires Reaches(START, run, s) && id < |s.msgs| && s.msgs[id].fate == Acked
    ensures match s.msgs[id].subject {
      case SubTelemetry =>
        (match s.msgs[id].data.telemetry {
          case None => false
          case Some(e) =>
            SaveIfaceSamples(e.agent, e.interfaces) in s.log && ReplaceConnLatest(e.agent, e.connections) in s.log
            && (e.traffic != [] ==> SaveProcessTraffic(e.agent, e.traffic) in s.log)
            && (e.l7 != [] ==> SaveL7(e.agent, e.l7) in s.log)
            && (e.dns != [] ==> SaveAgentDNS(e.agent, e.dns) in s.log)
            && (e.subnets != [] ==> SaveAgentSubnets(e.agent, e.subnets) in s.log)
        })
      case SubFlows =>
        s.msgs[id].data.flows.Some?
        && exists w, a, b :: w in s.log && w == SaveFlows(a + s.msgs[id].data.flows.value + b)
      case SubSyslog => s.msgs[id].data.syslog.Some? && SaveSyslogEvent(s.msgs[id].data.syslog.value) in s.log
      case OtherSubject => false
    }
  {
    hide Reaches, FlowsSaved;
    RunKeeps(START, run, s);
    var m := s.msgs[id];
    var n :| n in m.outcomes && m.outcomes[n] == Stored(true);
    assert OutcomeOk(s.log, m, n, m.outcomes[n]);
    if m.subject == SubFlows { FlowsAreThere(s.log, m.data.flows.value); }
  }

  lemma FlowsAreThere(log: seq<Write>, rows: Items)
    requires FlowsSaved(log, rows)
    ensures exists w, a, b :: w in log && w == SaveFlows(a + rows + b)
  {
    var w :| w in log && w.SaveFlows? && Within(w.items, rows);
    var a, b :| w.items == a + rows + b;
    assert w in log && w == SaveFlows(a + rows + b);
  }

  /** A termed message cannot be understood, or has its copy in the dead-letter subject. */
  lemma TermedIsBadOrCopied(run: seq<Event>, s: State, id: nat)
    requires Reaches(START, run, s) && id < |s.msgs| && s.msgs[id].fate == Termed
    ensures !Decodable(s.msgs[id]) || id in s.dead
  {
    hide Reaches, Decodable;
    RunKeeps(START, run, s);
    var m := s.msgs[id];
    var n :| n in m.outcomes && (m.outcomes[n] == Refused(true) || m.outcomes[n] == Dead(true));
    assert OutcomeOk(s.log, m, n, m.outcomes[n]);
  }

  /** JetStream will not deliver the message again. */
  predicate Finished(m: Msg) { m.fate != Pending || m.delivered >= MAX_DELIVER }

  predicate EveryDeliveryEnded(m: Msg) { forall n | 1 <= n <= m.delivered :: n in m.outcomes }

  predicate NeverStored(m: Msg) { forall n | n in m.outcomes :: !m.outcomes[n].Stored? }

  /** The n-th delivery ended without a copy because the dead-letter subject refused it or the delivery
      count could not be read. */
  predicate CopyFailed(m: Msg, n: nat) { n in m.outcomes && m.outcomes[n] in {Unpublished, Returned(false)} }

  /** A message that can be understood, was never stored, and whose every delivery ended in the handler,
      is missing from the dead-letter subject exactly when the copy failed at both of its last two deliveries. */
  lemma LostExactlyWhen(run: seq<Event>, s: State, id: nat)
    requires Reaches(START, run, s) && id < |s.msgs| && Decodable(s.msgs[id])
    requires Finished(s.msgs[id]) && EveryDeliveryEnded(s.msgs[id]) && NeverStored(s.msgs[id])
    ensures id !in s.dead <==> CopyFailed(s.msgs[id], MAX_DELIVER - 1) && CopyFailed(s.msgs[id], MAX_DELIVER)
  {
    hide Reaches, Decodable, InStore;
    RunKeeps(START, run, s);
    var m := s.msgs[id];
    assert forall n | n in m.outcomes :: OutcomeOk(s.log, m, n, m.outcomes[n]);
    if m.fate == Pending {
      assert 9 in m.outcomes && 10 in m.outcomes;
    }
  }

  // ----- the worker -----

  lemma WrittenOne(w: Write, required: bool, fails: set<Write>)
    ensures Written([Call(w, required)], fails) == if w in fails then [] else [w]
    ensures AllDone([Call(w, required)], fails) <==> w !in fails || !required
    ensures Written([], fails) == [] && AllDone([], fails)
  {}

  lemma WrittenSplit(a: seq<Call>, b: seq<Call>, fails: set<Write>)
    requires |a| <= 1
    ensures Written(a + b, fails) == Written(a, fails) + if AllDone(a, fails) then Written(b, fails) else []
    ensures AllDone(a + b, fails) <==> AllDone(a, fails) && AllDone(b, fails)
  {
    if a == [] {
      assert a + b == b;
    } else {
      assert a == [a[0]] && (a + b)[0] == a[0] && (a + b)[1..] == b;
      WrittenOne(a[0].write, a[0].required, fails);
    }
  }

  // ----- one fetch -----

  predicate BatchInHand(s: State, batch: seq<Item>) {
    (forall i | 0 <= i < |batch| :: InHand(s, batch[i].id, batch[i].n))
    && forall i, j | 0 <= i < j < |batch| :: batch[i].id != batch[j].id || batch[i].n != batch[j].n
  }

  /** A flow message whose rows wait for the batch's one write. */
  predicate Waits(s: State, it: Item)
    requires it.id < |s.msgs|
  {
    s.msgs[it.id].subject == SubFlows && Decodable(s.msgs[it.id])
  }

  function Waiting(s: State, batch: seq<Item>): (kept: seq<Item>)
    requires forall i | 0 <= i < |batch| :: batch[i].id < |s.msgs|
    ensures forall it | it in kept :: it in batch && it.id < |s.msgs| && Waits(s, it)
  {
    if batch == [] then []
    else
      var it := batch[|batch| - 1];
      Waiting(s, batch[..|batch| - 1]) + if Waits(s, it) then [it] else []
  }

  function Direct(s: State, batch: seq<Item>): seq<Event>
    requires forall i | 0 <= i < |batch| :: batch[i].id < |s.msgs|
  {
    if batch == [] then []
    else
      var it := batch[|batch| - 1];
      Direct(s, batch[..|batch| - 1]) + if Waits(s, it) then [] else [Handle(it)]
  }

  lemma {:induction false} ReachesStep(s: State, run: seq<Event>, t: State, e: Event)
    requires Reaches(s, run, t) && Enabled(t, e)
    ensures Reaches(s, run + [e], Next(t, e))
    decreases |run|
  {
    hide Enabled, Next;
    if run == [] {
      assert (run + [e])[1..] == [];
      assert Reaches(Next(s, e), [], Next(t, e));
    } else {
      ReachesStep(Next(s, run[0]), run[1..], t, e);
      assert (run + [e])[1..] == run[1..] + [e];
    }
  }

  /** Where the worker stands after the first `i` messages of its batch. */
  ghost predicate AtMessage(s: State, t: State, batch: seq<Item>, i: nat, kept: seq<Item>, rows: Items)
    requires i <= |batch| && BatchInHand(s, batch)
  {
    Reaches(s, Direct(s, batch[..i]), t) && kept == Waiting(s, batch[..i])
    && |t.msgs| == |s.msgs| && SameMessages(s, t) && BatchInHand(t, batch[i..]) && AllInHand(t, kept)
    && Apart(kept, batch[i..])
    && rows == Rows(t, kept)
  }

  predicate SameMessages(s: State, t: State)
    requires |t.msgs| == |s.msgs|
  {
    forall id | 0 <= id < |s.msgs| :: t.msgs[id].subject == s.msgs[id].subject && t.msgs[id].data == s.msgs[id].data
  }

  predicate Apart(a: seq<Item>, b: seq<Item>) {
    forall i, j | 0 <= i < |a| && 0 <= j < |b| :: a[i].id != b[j].id || a[i].n != b[j].n
  }

  lemma AtStart(s: State, batch: seq<Item>)
    requires BatchInHand(s, batch)
    ensures AtMessage(s, s, batch, 0, [], [])
  {
    assert batch[..0] == [] && batch[0..] == batch;
  }

  lemma AtKept(s: State, t: State, batch: seq<Item>, i: nat, kept: seq<Item>, rows: Items)
    requires i < |batch| && BatchInHand(s, batch) && AtMessage(s, t, batch, i, kept, rows) && Waits(s, batch[i])
    ensures AtMessage(s, t, batch, i + 1, kept + [batch[i]], rows + s.msgs[batch[i].id].data.flows.value)
  {
    hide Reaches, Direct, Waiting;
    var it, more := batch[i], kept + [batch[i]];
    Next1(s, batch, i);
    assert batch[i..][0] == it && batch[i..][1..] == batch[i + 1..];
    assert AllInHand(t, more) by { WaitsSame(s, t, it); }
    assert more[..|kept|] == kept;
    assert Direct(s, batch[..i]) + [] == Direct(s, batch[..i]);
  }

  lemma Next1(s: State, batch: seq<Item>, i: nat)
    requires i < |batch| && BatchInHand(s, batch)
    ensures Waiting(s, batch[..i + 1]) == Waiting(s, batch[..i]) + if Waits(s, batch[i]) then [batch[i]] else []
    ensures Direct(s, batch[..i + 1]) == Direct(s, batch[..i]) + if Waits(s, batch[i]) then [] else [Handle(batch[i])]
  {
    assert batch[..i + 1][..i] == batch[..i];
  }

  lemma WaitsSame(s: State, t: State, it: Item)
    requires |t.msgs| == |s.msgs| && SameMessages(s, t) && it.id < |s.msgs|
    ensures Waits(s, it) <==> Waits(t, it)
  {}

  lemma AtHandled(s: State, t: State, batch: seq<Item>, i: nat, kept: seq<Item>, rows: Items)
    requires i < |batch| && BatchInHand(s, batch) && AtMessage(s, t, batch, i, kept, rows) && !Waits(s, batch[i])
    ensures InHand(t, batch[i].id, batch[i].n)
    ensures AtMessage(s, Handled(t, batch[i].id, batch[i].n, batch[i].f), batch, i + 1, kept, rows)
  {
    hide Reaches, Direct, Waiting, Calls, Handled, Rows, Waits, InHand;
    var it := batch[i];
    assert forall j | 0 <= j < i :: batch[..i][j].id < |s.msgs| by { InHandIds(s, batch); }
    assert batch[i..][0] == it && batch[i..][1..] == batch[i + 1..];
    var u := Handled(t, it.id, it.n, it.f);
    Next1(s, batch, i);
    ReachesStep(s, Direct(s, batch[..i]), t, Handle(it));
    forall j | 0 <= j < |kept| ensures InHand(u, kept[j].id, kept[j].n) { HandledFrame(t, it, kept[j].id, kept[j].n); }
    var rest := batch[i + 1..];
    forall j | 0 <= j < |rest| ensures InHand(u, rest[j].id, rest[j].n) { HandledFrame(t, it, rest[j].id, rest[j].n); }
    HandledSame(t, it);
    RowsSame(t, u, kept);
  }

  lemma InHandIds(s: State, batch: seq<Item>)
    requires BatchInHand(s, batch)
    ensures forall i | 0 <= i < |batch| :: batch[i].id < |s.msgs|
  {}

  lemma HandledSame(t: State, it: Item)
    requires InHand(t, it.id, it.n)
    ensures var u := Handled(t, it.id, it.n, it.f); |u.msgs| == |t.msgs| && SameMessages(t, u)
  {
    hide Calls, Written, AllDone;
  }

  lemma HandledFrame(t: State, it: Item, id: nat, n: nat)
    requires InHand(t, it.id, it.n) && InHand(t, id, n) && (id != it.id || n != it.n)
    ensures InHand(Handled(t, it.id, it.n, it.f), id, n)
  {
    hide Calls, Written, AllDone;
  }

  lemma {:induction false} RowsSame(t: State, u: State, items: seq<Item>)
    requires |t.msgs| == |u.msgs| && SameMessages(t, u) && AllInHand(t, items)
    requires forall j | 0 <= j < |items| :: InHand(u, items[j].id, items[j].n)
    ensures AllInHand(u, items) && Rows(t, items) == Rows(u, items)
  {
    if items != [] { RowsSame(t, u, items[..|items| - 1]); }
  }

  /** The stream, the consumer's view of it and the store. A failing call is chosen by `Faults`. */
  class StoreWriter {
    var msgs: seq<Msg>
    var log: seq<Write>
    var dead: seq<nat>

    constructor ()
      ensures Value() == START
    { msgs, log, dead := [], [], []; }

    function Value(): State
      reads this
    { State(msgs, log, dead) }

    method Save(w: Write, f: Faults) returns (ok: bool)
      modifies this`log
      ensures ok <==> w !in f.fails
      ensures log == old(log) + if ok then [w] else []
    {
      ok := w !in f.fails;
      if ok { log := log + [w]; }
    }

    method Finish(id: nat, n: nat, o: Outcome)
      requires id < |msgs|
      modifies this
      ensures Value() == Settle(old(Value()), id, n, o)
    {
      msgs := msgs[id := msgs[id].(outcomes := msgs[id].outcomes[n := o], fate := NewFate(msgs[id].fate, o))];
      if o.Dead? { dead := dead + [id]; }
    }

    method DeadLetter(id: nat, n: nat, f: Faults)
      requires id < |msgs|
      modifies this
      ensures Value() == Settle(old(Value()), id, n, if f.unpublished then Unpublished else Dead(!f.unsent))
    {
      if f.unpublished { Finish(id, n, Unpublished); return; }
      Finish(id, n, Dead(!f.unsent));
    }

    method Retry(id: nat, n: nat, f: Faults)
      requires id < |msgs|
      modifies this
      ensures Value() == Settle(old(Value()), id, n, Failed(n, f))
    {
      if !f.unreadable && n >= MAX_DELIVER - 1 { DeadLetter(id, n, f); return; }
      Finish(id, n, Returned(!f.unreadable));
    }

    /** The k-th store call of a telemetry batch; `goal` is what the log is to become. */
    method SaveIf(b: bool, w: Write, required: bool, f: Faults, ghost e: Envelope, ghost k: nat, ghost goal: seq<Write>)
      returns (ok: bool)
      requires k < 8 && TelemetryCall(e, k) == When(b, w, required)
      requires log + Written(TelemetryCalls(e, k), f.fails) == goal
      modifies this`log
      ensures ok ==> log + Written(TelemetryCalls(e, k + 1), f.fails) == goal
      ensures ok ==> (AllDone(TelemetryCalls(e, k), f.fails) <==> AllDone(TelemetryCalls(e, k + 1), f.fails))
      ensures !ok ==> log == goal && !AllDone(TelemetryCalls(e, k), f.fails)
    {
      hide AllDone, Written, TelemetryCall;
      WrittenOne(w, required, f.fails);
      WrittenSplit(When(b, w, required), TelemetryCalls(e, k + 1), f.fails);
      ok := true;
      if b {
        ok := Save(w, f);
        if !required { ok := true; }
      }
    }

    /** The store calls of one telemetry batch, in the source's order; false at the first required one
        that fails. */
    method SaveTelemetry(e: Envelope, f: Faults) returns (ok: bool)
      modifies this`log
      ensures ok <==> AllDone(TelemetryCalls(e, 0), f.fails)
      ensures log == old(log) + Written(TelemetryCalls(e, 0), f.fails)
      ensures ok <==>
        SaveIfaceSamples(e.agent, e.interfaces) !in f.fails && ReplaceConnLatest(e.agent, e.connections) !in f.fails
        && (e.traffic != [] ==> SaveProcessTraffic(e.agent, e.traffic) !in f.fails)
        && (e.l7 != [] ==> SaveL7(e.agent, e.l7) !in f.fails)
        && (e.dns != [] ==> SaveAgentDNS(e.agent, e.dns) !in f.fails)
        && (e.subnets != [] ==> SaveAgentSubnets(e.agent, e.subnets) !in f.fails)
      ensures ok ==> (log == old(log)
        + ([SaveIfaceSamples(e.agent, e.interfaces)] + ([ReplaceConnLatest(e.agent, e.connections)]
        + ((if TouchAgent(e.agent) !in f.fails then [TouchAgent(e.agent)] else [])
        + ((if e.attrMethod && SetAgentAttrInfo(e.agent) !in f.fails then [SetAgentAttrInfo(e.agent)] else [])
        + ((if e.traffic != [] then [SaveProcessTraffic(e.agent, e.traffic)] else [])
        + ((if e.l7 != [] then [SaveL7(e.agent, e.l7)] else [])
        + ((if e.dns != [] then [SaveAgentDNS(e.agent, e.dns)] else [])
        + (if e.subnets != [] then [SaveAgentSubnets(e.agent, e.subnets)] else [])))))))))
    {
      TelemetryDone(e, f.fails);
      hide TelemetryCalls, When;
      ghost var goal := log + Written(TelemetryCalls(e, 0), f.fails);
      NoMoreCalls(e);
      ok := SaveIf(true, SaveIfaceSamples(e.agent, e.interfaces), true, f, e, 0, goal);
      if !ok { return; }
      ok := SaveIf(true, ReplaceConnLatest(e.agent, e.connections), true, f, e, 1, goal);
      if !ok { return; }
      ok := SaveIf(true, TouchAgent(e.agent), false, f, e, 2, goal);
      if !ok { return; }
      ok := SaveIf(e.attrMethod, SetAgentAttrInfo(e.agent), false, f, e, 3, goal);
      if !ok { return; }
      ok := SaveIf(e.traffic != [], SaveProcessTraffic(e.agent, e.traffic), true, f, e, 4, goal);
      if !ok { return; }
      ok := SaveIf(e.l7 != [], SaveL7(e.agent, e.l7), true, f, e, 5, goal);
      if !ok { return; }
      ok := SaveIf(e.dns != [], SaveAgentDNS(e.agent, e.dns), true, f, e, 6, goal);
      if !ok { return; }
      ok := SaveIf(e.subnets != [], SaveAgentSubnets(e.agent, e.subnets), true, f, e, 7, goal);
    }

    method Handle(it: Item)
      requires InHand(Value(), it.id, it.n)
      modifies this
      ensures Value() == Handled(old(Value()), it.id, it.n, it.f)
    {
      hide AllDone, Written, TelemetryCalls, Settle, Failed;
      var id, n, f, m := it.id, it.n, it.f, msgs[it.id];
      var ok := false;
      match m.subject {
        case SubTelemetry =>
          if m.data.telemetry == None { Finish(id, n, Refused(!f.unsent)); return; }
          ok := SaveTelemetry(m.data.telemetry.value, f);
        case SubFlows =>
          if m.data.flows == None { Finish(id, n, Refused(!f.unsent)); return; }
          WrittenOne(SaveFlows(m.data.flows.value), true, f.fails);
          ok := Save(SaveFlows(m.data.flows.value), f);
        case SubSyslog =>
          if m.data.syslog == None { Finish(id, n, Refused(!f.unsent)); return; }
          WrittenOne(SaveSyslogEvent(m.data.syslog.value), true, f.fails);
          ok := Save(SaveSyslogEvent(m.data.syslog.value), f);
        case OtherSubject =>
          Finish(id, n, Refused(!f.unsent));
          return;
      }
      if !ok { Retry(id, n, f); return; }
      Finish(id, n, Stored(!f.unsent));
    }

    method FlushFlows(rows: Items, items: seq<Item>, fails: bool)
      requires AllInHand(Value(), items) && rows == Rows(Value(), items)
      modifies this
      ensures Value() == Flushed(old(Value()), items, fails)
    {
      if |items| == 0 { return; }
      if !fails { log := log + [SaveFlows(rows)]; }
      hide AllInHand, SettleAll, Settle, Failed;
      ghost var s := Value();
      SettleNone(s, items, fails);
      for i := 0 to |items|
        invariant AllInHand(s, items[..i]) && Value() == SettleAll(s, items[..i], fails)
      {
        SettleOne(s, items, i, fails);
        if fails {
          Retry(items[i].id, items[i].n, items[i].f);
        } else {
          Finish(items[i].id, items[i].n, Stored(!items[i].f.unsent));
        }
      }
      assert items[..|items|] == items;
    }

    /** One pull of the worker loop: what does not wait for the batch write is handled at once, then the
        rows are written together. If the context is cancelled before message `cancelAt`, the loop
        returns without writing them. */
    method WorkBatch(batch: seq<Item>, cancelAt: nat, fails: bool)
      requires BatchInHand(Value(), batch)
      modifies this
      ensures cancelAt < |batch| ==> Reaches(old(Value()), Direct(old(Value()), batch[..cancelAt]), Value())
      ensures cancelAt >= |batch| ==>
        Reaches(old(Value()), Direct(old(Value()), batch) + [Flush(Waiting(old(Value()), batch), fails)], Value())
    {
      hide AtMessage, Handled, Flushed, Reaches, Direct, Waiting;
      ghost var s := Value();
      var rows: Items, kept := [], [];
      AtStart(s, batch);
      for i := 0 to |batch|
        invariant i <= cancelAt && AtMessage(s, Value(), batch, i, kept, rows)
      {
        InBatch(s, Value(), batch, i, kept, rows);
        if i == cancelAt { return; }
        var it := batch[i];
        if msgs[it.id].subject == SubFlows && msgs[it.id].data.flows.Some? {
          AtKept(s, Value(), batch, i, kept, rows);
          rows, kept := rows + msgs[it.id].data.flows.value, kept + [it];
        } else {
          AtHandled(s, Value(), batch, i, kept, rows);
          Handle(it);
        }
      }
      InBatch(s, Value(), batch, |batch|, kept, rows);
      assert batch[..|batch|] == batch;
      ReachesStep(s, Direct(s, batch), Value(), Flush(kept, fails));
      FlushFlows(rows, kept, fails);
    }
  }

  lemma InBatch(s: State, t: State, batch: seq<Item>, i: nat, kept: seq<Item>, rows: Items)
    requires i <= |batch| && BatchInHand(s, batch) && AtMessage(s, t, batch, i, kept, rows)
    ensures Reaches(s, Direct(s, batch[..i]), t) && kept == Waiting(s, batch[..i])
    ensures AllInHand(t, kept) && rows == Rows(t, kept)
    ensures i < |batch| ==>
      InHand(t, batch[i].id, batch[i].n) && t.msgs[batch[i].id].subject == s.msgs[batch[i].id].subject
                            && t.msgs[batch[i].id].data == s.msgs[batch[i].id].data
  {
    if i < |batch| { assert batch[i..][0] == batch[i]; }
  }
}
