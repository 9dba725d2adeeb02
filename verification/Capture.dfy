/** The packet counters of the capture engine: internal/capture/engine.go and internal/capture/dns.go. */
module Capture {
  import opened Numbers
  import opened Wrappers

  /** A parsed DNS message: the names asked, whether it is a response, and the addresses answered. */
  datatype Dns = Dns(names: seq<string>, isResp: bool, answers: seq<string>)

  /** A decoded packet with a network layer. */
  datatype Packet = Packet(src: string, dst: string, length: nat, proto: string, sport: nat, dport: nat,
    srcLocal: bool, dstLocal: bool, dns: Option<Dns>) {
    predicate HasPorts() { proto == "TCP" || proto == "UDP" }
  }

  datatype Endpoint = Endpoint(local: bool, bytesIn: nat, bytesOut: nat, packets: nat)
  datatype Port = Port(bytes: nat, packets: nat)
  datatype Bucket = Bucket(ts: int, bytesIn: nat, bytesOut: nat, bytesLocal: nat, packets: nat)
  datatype DnsAgg = DnsAgg(queries: nat, responses: nat)

  const HISTORY_SIZE := 120
  const MAX_DOMAINS := 4096
  const MAX_IPS_PER_HOST := 4

  // ----- sums over maps -----

  ghost function Sum<K(!new)>(m: map<K, nat>): nat {
    if m == map[] then 0 else var k :| k in m; m[k] + Sum(m - {k})
  }

  lemma {:induction false} SumWithout<K(!new)>(m: map<K, nat>, k: K)
    requires k in m
    ensures Sum(m) == m[k] + Sum(m - {k})
    decreases |m|
  {
    var j :| j in m && Sum(m) == m[j] + Sum(m - {j});
    if j != k {
      SumWithout(m - {j}, k);
      SumWithout(m - {k}, j);
      assert m - {j} - {k} == m - {k} - {j};
    }
  }

  function Get<K>(m: map<K, nat>, k: K): nat { if k in m then m[k] else 0 }

  lemma SumUpdate<K(!new)>(m: map<K, nat>, k: K, v: nat)
    ensures Sum(m[k := v]) + Get(m, k) == Sum(m) + v
  {
    SumWithout(m[k := v], k);
    assert m[k := v] - {k} == m - {k};
    if k in m { SumWithout(m, k); } else { assert m - {k} == m; }
  }

  // ----- what the counters stand for -----

  function When(b: bool, n: nat): nat { if b then n else 0 }

  /** Bytes into the local network through `ip`: sent by it from outside, or received by it inside. */
  function InOf(log: seq<Packet>, ip: string): nat {
    if log == [] then 0
    else
      var p := log[|log| - 1];
      InOf(log[..|log| - 1], ip) + When(p.src == ip && !p.srcLocal, p.length)
        + When(p.dst == ip && p.dstLocal, p.length)
  }

  function OutOf(log: seq<Packet>, ip: string): nat {
    if log == [] then 0
    else
      var p := log[|log| - 1];
      OutOf(log[..|log| - 1], ip) + When(p.src == ip && p.srcLocal, p.length)
        + When(p.dst == ip && !p.dstLocal, p.length)
  }

  function SentBy(log: seq<Packet>, ip: string): nat {
    if log == [] then 0 else SentBy(log[..|log| - 1], ip) + When(log[|log| - 1].src == ip, 1)
  }

  predicate Seen(log: seq<Packet>, ip: string) { exists p | p in log :: p.src == ip || p.dst == ip }

  predicate SeenLocal(log: seq<Packet>, ip: string) {
    exists p | p in log :: (p.src == ip && p.srcLocal) || (p.dst == ip && p.dstLocal)
  }

  function PortBytes(log: seq<Packet>, port: nat): nat {
    if log == [] then 0
    else
      var p := log[|log| - 1];
      PortBytes(log[..|log| - 1], port) + When(p.HasPorts() && p.sport == port, p.length)
        + When(p.HasPorts() && p.dport == port, p.length)
  }

  function PortPackets(log: seq<Packet>, port: nat): nat {
    if log == [] then 0
    else
      var p := log[|log| - 1];
      PortPackets(log[..|log| - 1], port) + When(p.HasPorts() && p.sport == port, 1)
        + When(p.HasPorts() && p.dport == port, 1)
  }

  /** Bytes between hosts that are local, or not, at their ends. */
  function Crossing(log: seq<Packet>, srcLocal: bool, dstLocal: bool): nat {
    if log == [] then 0
    else
      var p := log[|log| - 1];
      Crossing(log[..|log| - 1], srcLocal, dstLocal) + When(p.srcLocal == srcLocal && p.dstLocal == dstLocal, p.length)
  }

  function ProtoCount(log: seq<Packet>, proto: string): nat {
    if log == [] then 0 else ProtoCount(log[..|log| - 1], proto) + When(log[|log| - 1].proto == proto, 1)
  }

  function Bytes(log: seq<Packet>): nat { if log == [] then 0 else Bytes(log[..|log| - 1]) + log[|log| - 1].length }

  function TransportBytes(log: seq<Packet>): nat {
    if log == [] then 0 else TransportBytes(log[..|log| - 1]) + When(log[|log| - 1].HasPorts(), log[|log| - 1].length)
  }

  const NEW_ENDPOINT := Endpoint(false, 0, 0, 0)

  function EndpointAt(m: map<string, Endpoint>, ip: string): Endpoint { if ip in m then m[ip] else NEW_ENDPOINT }

  function PortAt(m: map<nat, Port>, port: nat): Port { if port in m then m[port] else Port(0, 0) }

  function AsSource(e: Endpoint, length: nat, local: bool): Endpoint {
    e.(packets := e.packets + 1, local := e.local || local,
       bytesOut := e.bytesOut + When(local, length), bytesIn := e.bytesIn + When(!local, length))
  }

  function AsTarget(e: Endpoint, length: nat, local: bool): Endpoint {
    e.(local := e.local || local, bytesIn := e.bytesIn + When(local, length),
       bytesOut := e.bytesOut + When(!local, length))
  }

  /** One endpoint's counters say what the packets so far mean for it. */
  ghost predicate EndpointOk(m: map<string, Endpoint>, log: seq<Packet>, ip: string) {
    (ip in m <==> Seen(log, ip))
    && EndpointAt(m, ip) == Endpoint(SeenLocal(log, ip), InOf(log, ip), OutOf(log, ip), SentBy(log, ip))
  }

  ghost predicate PortOk(m: map<nat, Port>, log: seq<Packet>, port: nat) {
    PortAt(m, port) == Port(PortBytes(log, port), PortPackets(log, port))
  }

  ghost predicate ProtoOk(m: map<string, nat>, log: seq<Packet>, proto: string) {
    Get(m, proto) == ProtoCount(log, proto)
  }

  // ----- conservation -----

  function EndpointBytes(m: map<string, Endpoint>): map<string, nat> {
    map ip | ip in m :: m[ip].bytesIn + m[ip].bytesOut
  }

  function EndpointPackets(m: map<string, Endpoint>): map<string, nat> { map ip | ip in m :: m[ip].packets }

  function BytesByPort(m: map<nat, Port>): map<nat, nat> { map p | p in m :: m[p].bytes }

  lemma EndpointSums(m: map<string, Endpoint>, ip: string, e: Endpoint)
    ensures Sum(EndpointBytes(m[ip := e])) + EndpointAt(m, ip).bytesIn + EndpointAt(m, ip).bytesOut
         == Sum(EndpointBytes(m)) + e.bytesIn + e.bytesOut
    ensures Sum(EndpointPackets(m[ip := e])) + EndpointAt(m, ip).packets == Sum(EndpointPackets(m)) + e.packets
  {
    SumUpdate(EndpointBytes(m), ip, e.bytesIn + e.bytesOut);
    assert EndpointBytes(m[ip := e]) == EndpointBytes(m)[ip := e.bytesIn + e.bytesOut];
    SumUpdate(EndpointPackets(m), ip, e.packets);
    assert EndpointPackets(m[ip := e]) == EndpointPackets(m)[ip := e.packets];
  }

  lemma PortSums(m: map<nat, Port>, port: nat, p: Port)
    ensures Sum(BytesByPort(m[port := p])) + PortAt(m, port).bytes == Sum(BytesByPort(m)) + p.bytes
  {
    SumUpdate(BytesByPort(m), port, p.bytes);
    assert BytesByPort(m[port := p]) == BytesByPort(m)[port := p.bytes];
  }

  // The tables say what the packets mean, and their sums are conserved: every byte counts at both of its
  // ends, every packet once at its source and once for its protocol.

  ghost predicate EndpointsTally(m: map<string, Endpoint>, log: seq<Packet>) {
    (forall ip :: EndpointOk(m, log, ip))
    && Sum(EndpointBytes(m)) == 2 * Bytes(log) && Sum(EndpointPackets(m)) == |log|
  }

  ghost predicate PortsTally(m: map<nat, Port>, log: seq<Packet>) {
    (forall port :: PortOk(m, log, port)) && Sum(BytesByPort(m)) == 2 * TransportBytes(log)
  }

  ghost predicate ProtosTally(m: map<string, nat>, log: seq<Packet>) {
    (forall proto :: ProtoOk(m, log, proto)) && Sum(m) == |log|
  }

  // ----- names and addresses -----

  function Occurrences(names: seq<string>, name: string): nat {
    if names == [] then 0 else Occurrences(names[..|names| - 1], name) + When(names[|names| - 1] == name, 1)
  }

  /** How often the name was asked in queries, or in responses. */
  function Asked(log: seq<Dns>, name: string, isResp: bool): nat {
    if log == [] then 0
    else
      var d := log[|log| - 1];
      Asked(log[..|log| - 1], name, isResp) + When(d.isResp == isResp, Occurrences(d.names, name))
  }

  function SetOf(items: seq<string>): set<string> { set x | x in items }

  /** The addresses that responses gave for the name. */
  function AnswersFor(log: seq<Dns>, name: string): set<string> {
    if log == [] then {}
    else
      var d := log[|log| - 1];
      AnswersFor(log[..|log| - 1], name) + if d.isResp && name in d.names then SetOf(d.answers) else {}
  }

  /** A name in the table is counted exactly; one that is not was never asked, unless the table is full. */
  predicate CountOk(counts: map<string, DnsAgg>, name: string, queries: nat, responses: nat) {
    if name in counts then counts[name] == DnsAgg(queries, responses)
    else (queries == 0 && responses == 0) || |counts| == MAX_DOMAINS
  }

  /** A tracked name keeps the addresses answered for it: all of them, or four. */
  predicate BindOk(counts: map<string, DnsAgg>, ips: map<string, set<string>>, name: string, answers: set<string>) {
    if name in ips then
      name in counts && ips[name] <= answers && |ips[name]| <= MAX_IPS_PER_HOST
      && (|ips[name]| < MAX_IPS_PER_HOST ==> ips[name] == answers)
    else name !in counts || answers == {}
  }

  ghost predicate Counted(counts: map<string, DnsAgg>, log: seq<Dns>) {
    |counts| <= MAX_DOMAINS && forall n :: CountOk(counts, n, Asked(log, n, false), Asked(log, n, true))
  }

  ghost predicate Bound(counts: map<string, DnsAgg>, ips: map<string, set<string>>, log: seq<Dns>) {
    forall n :: BindOk(counts, ips, n, AnswersFor(log, n))
  }

  class Engine {
    var totalPackets: nat
    var totalBytes: nat
    var protocols: map<string, nat>
    var endpoints: map<string, Endpoint>
    var ports: map<nat, Port>
    var history: seq<Bucket>
    var dnsCounts: map<string, DnsAgg>
    var domainIPs: map<string, set<string>>
    /** All packets so far, and those since the current bucket began. */
    ghost var log: seq<Packet>
    ghost var recent: seq<Packet>
    ghost var dnsLog: seq<Dns>

    constructor ()
      ensures Valid() && log == [] && dnsLog == []
    {
      totalPackets, totalBytes, protocols, endpoints, ports, history := 0, 0, map[], map[], map[], [];
      dnsCounts, domainIPs, log, recent, dnsLog := map[], map[], [], [], [];
      new;
      assert forall n :: CountOk(dnsCounts, n, 0, 0) && BindOk(dnsCounts, domainIPs, n, {});
    }

    ghost predicate Valid()
      reads this
    {
      Tallied(log)
      && |history| <= HISTORY_SIZE && (history != [] ==> BucketOk(history[|history| - 1], recent))
      && Counted(dnsCounts, dnsLog) && Bound(dnsCounts, domainIPs, dnsLog)
    }

    /** The counters stand for these packets. */
    ghost predicate Tallied(packets: seq<Packet>)
      reads `totalPackets, `totalBytes, `protocols, `endpoints, `ports
    {
      totalPackets == |packets| && totalBytes == Bytes(packets)
      && EndpointsTally(endpoints, packets) && PortsTally(ports, packets) && ProtosTally(protocols, packets)
    }

    method AddSource(p: Packet)
      modifies `endpoints
      ensures endpoints == old(endpoints)[p.src := AsSource(EndpointAt(old(endpoints), p.src), p.length, p.srcLocal)]
    {
      if p.src in endpoints {
        var e := endpoints[p.src];
        e := e.(packets := e.packets + 1);
        if p.srcLocal { e := e.(local := true, bytesOut := e.bytesOut + p.length); }
        else { e := e.(bytesIn := e.bytesIn + p.length); }
        endpoints := endpoints[p.src := e];
      } else {
        var e := Endpoint(p.srcLocal, 0, 0, 1);
        if p.srcLocal { e := e.(bytesOut := p.length); } else { e := e.(bytesIn := p.length); }
        endpoints := endpoints[p.src := e];
      }
    }

    method AddTarget(p: Packet)
      modifies `endpoints
      ensures endpoints == old(endpoints)[p.dst := AsTarget(EndpointAt(old(endpoints), p.dst), p.length, p.dstLocal)]
    {
      if p.dst in endpoints {
        var e := endpoints[p.dst];
        if p.dstLocal { e := e.(local := true, bytesIn := e.bytesIn + p.length); }
        else { e := e.(bytesOut := e.bytesOut + p.length); }
        endpoints := endpoints[p.dst := e];
      } else {
        var e := Endpoint(p.dstLocal, 0, 0, 0);
        if p.dstLocal { e := e.(bytesIn := p.length); } else { e := e.(bytesOut := p.length); }
        endpoints := endpoints[p.dst := e];
      }
    }

    method AddPort(port: nat, length: nat)
      modifies `ports
      ensures ports
           == old(ports)[port := Port(PortAt(old(ports), port).bytes + length, PortAt(old(ports), port).packets + 1)]
    {
      var a := if port in ports then ports[port] else Port(0, 0);
      ports := ports[port := Port(a.bytes + length, a.packets + 1)];
    }

    method AddToBucket(p: Packet)
      modifies `history
      ensures SameButLast(old(history), history) && |history| == |old(history)|
      ensures history != [] ==> history[|history| - 1] == InBucket(old(history)[|history| - 1], p)
    {
      var n := |history|;
      if n > 0 {
        var b := history[n - 1];
        if p.srcLocal && p.dstLocal { b := b.(bytesLocal := b.bytesLocal + p.length); }
        else if p.srcLocal { b := b.(bytesOut := b.bytesOut + p.length); }
        else if p.dstLocal { b := b.(bytesIn := b.bytesIn + p.length); }
        else { b := b.(bytesLocal := b.bytesLocal + p.length); }
        history := history[n - 1 := b.(packets := b.packets + 1)];
      }
    }

    method CountNames(d: Dns)
      requires Counted(dnsCounts, dnsLog)
      modifies `dnsCounts
      ensures Counted(dnsCounts, dnsLog + [d]) && FreshNames(old(dnsCounts), dnsCounts, dnsLog)
    {
      hide CountedUpTo, FreshNames, Counted;
      assert CountedUpTo(dnsCounts, dnsLog, d, 0) && FreshNames(dnsCounts, dnsCounts, dnsLog) by {
        CountStart(dnsCounts, dnsLog, d);
      }
      for i := 0 to |d.names|
        invariant CountedUpTo(dnsCounts, dnsLog, d, i) && FreshNames(old(dnsCounts), dnsCounts, dnsLog)
      {
        var name := d.names[i];
        CountStep(old(dnsCounts), dnsCounts, dnsLog, d, i);
        if name in dnsCounts || |dnsCounts| < MAX_DOMAINS {
          var agg := if name in dnsCounts then dnsCounts[name] else DnsAgg(0, 0);
          if d.isResp { agg := agg.(responses := agg.responses + 1); } else { agg := agg.(queries := agg.queries + 1); }
          dnsCounts := dnsCounts[name := agg];
        }
      }
      CountEnd(dnsCounts, dnsLog, d);
    }

    /** Adds addresses up to the limit. */
    method AddAnswers(ips: set<string>, answers: seq<string>) returns (more: set<string>)
      requires |ips| <= MAX_IPS_PER_HOST
      ensures more <= ips + SetOf(answers) && |more| <= MAX_IPS_PER_HOST
      ensures ips <= more && (|more| < MAX_IPS_PER_HOST ==> more == ips + SetOf(answers))
    {
      more := ips;
      for j := 0 to |answers|
        invariant ips <= more <= ips + SetOf(answers[..j]) && |more| <= MAX_IPS_PER_HOST
        invariant |more| < MAX_IPS_PER_HOST ==> more == ips + SetOf(answers[..j])
      {
        assert SetOf(answers[..j]) <= SetOf(answers);
        if |more| >= MAX_IPS_PER_HOST { return; }
        assert answers[..j + 1] == answers[..j] + [answers[j]];
        more := more + {answers[j]};
      }
      assert answers[..|answers|] == answers;
    }

    method BindAnswers(d: Dns)
      requires BoundUpTo(dnsCounts, domainIPs, dnsLog, d, 0)
      modifies `domainIPs
      ensures Bound(dnsCounts, domainIPs, dnsLog + [d])
    {
      hide BoundUpTo, Bound;
      if d.isResp && |d.answers| > 0 {
        for i := 0 to |d.names|
          invariant BoundUpTo(dnsCounts, domainIPs, dnsLog, d, i)
        {
          var name := d.names[i];
          BindAt(dnsCounts, domainIPs, dnsLog, d, i);
          if name in domainIPs || name in dnsCounts {
            var ips := if name in domainIPs then domainIPs[name] else {};
            var more := AddAnswers(ips, d.answers);
            BindStep(dnsCounts, domainIPs, dnsLog, d, i, more);
            domainIPs := domainIPs[name := more];
          } else {
            BindSkip(dnsCounts, domainIPs, dnsLog, d, i);
          }
        }
        BindEnd(dnsCounts, domainIPs, dnsLog, d);
      } else {
        NothingToBind(dnsCounts, domainIPs, dnsLog, d);
      }
    }

    method ApplyDns(d: Dns)
      requires Counted(dnsCounts, dnsLog) && Bound(dnsCounts, domainIPs, dnsLog)
      modifies `dnsCounts, `domainIPs, `dnsLog
      ensures Counted(dnsCounts, dnsLog) && Bound(dnsCounts, domainIPs, dnsLog) && dnsLog == old(dnsLog) + [d]
    {
      hide Counted, Bound, BoundUpTo, FreshNames;
      if |d.names| > 0 {
        ghost var counts := dnsCounts;
        CountNames(d);
        BindStart(counts, dnsCounts, domainIPs, dnsLog, d);
        BindAnswers(d);
      } else {
        CountNothing(dnsCounts, dnsLog, d);
        NothingToBind(dnsCounts, domainIPs, dnsLog, d);
      }
      dnsLog := dnsLog + [d];
    }

    method AddProto(proto: string)
      modifies `protocols
      ensures protocols == old(protocols)[proto := Get(old(protocols), proto) + 1]
    { protocols := protocols[proto := Get(protocols, proto) + 1]; }

    method AddEnds(p: Packet)
      modifies `endpoints
      ensures endpoints == BothEnds(old(endpoints), p)
    {
      hide AsSource, AsTarget, EndpointAt;
      AddSource(p);
      AddTarget(p);
    }

    method AddPorts(p: Packet)
      modifies `ports
      ensures ports == BothPorts(old(ports), p)
    {
      hide PortAt;
      if p.HasPorts() {
        AddPort(p.sport, p.length);
        AddPort(p.dport, p.length);
      }
    }

    method CountPacket(p: Packet)
      requires Tallied(log)
      modifies `totalPackets, `totalBytes, `protocols, `endpoints, `ports
      ensures Tallied(log + [p])
    {
      hide EndpointsTally, PortsTally, ProtosTally, BothEnds, BothPorts, Bytes, Get;
      totalPackets := totalPackets + 1;
      totalBytes := totalBytes + p.length;
      BytesStep(log, p);
      ProtosStep(protocols, log, p);
      AddProto(p.proto);
      EndpointsStep(endpoints, log, p);
      AddEnds(p);
      PortsStep(ports, log, p);
      AddPorts(p);
    }

    /** One packet: whatever its ends are, also when they are the same host or the same port. */
    method Process(p: Packet)
      requires Valid()
      modifies this
      ensures Valid() && log == old(log) + [p]
      ensures dnsLog == old(dnsLog) + if p.dns.Some? then [p.dns.value] else []
      ensures SameButLast(old(history), history)
    {
      hide Tallied, SameButLast, Counted, Bound, InBucket, BucketOk;
      if p.dns.Some? { ApplyDns(p.dns.value); }
      CountPacket(p);
      BucketStep(if history == [] then NO_BUCKET else history[|history| - 1], recent, p);
      AddToBucket(p);
      recent := recent + [p];
      log := log + [p];
    }

    method RollBucket(now: int)
      requires Valid()
      modifies `history, `recent
      ensures Valid() && recent == []
      ensures history
           == (if |old(history)| < HISTORY_SIZE then old(history) else old(history)[1..]) + [Bucket(now, 0, 0, 0, 0)]
    {
      hide Counted, Bound, Tallied;
      history := history + [Bucket(now, 0, 0, 0, 0)];
      if |history| > HISTORY_SIZE { history := history[|history| - HISTORY_SIZE..]; }
      recent := [];
    }
  }

  predicate SameButLast(a: seq<Bucket>, b: seq<Bucket>) { |a| == |b| && forall i | 0 <= i < |a| - 1 :: b[i] == a[i] }

  const NO_BUCKET := Bucket(0, 0, 0, 0, 0)

  lemma BytesStep(log: seq<Packet>, p: Packet)
    ensures Bytes(log + [p]) == Bytes(log) + p.length
  {
    assert (log + [p])[..|log|] == log;
  }

  lemma BucketStep(b: Bucket, recent: seq<Packet>, p: Packet)
    ensures BucketOk(b, recent) ==> BucketOk(InBucket(b, p), recent + [p])
  {
    assert (recent + [p])[..|recent|] == recent;
  }

  lemma ProtosStep(m: map<string, nat>, log: seq<Packet>, p: Packet)
    requires ProtosTally(m, log)
    ensures ProtosTally(m[p.proto := Get(m, p.proto) + 1], log + [p])
  {
    assert (log + [p])[..|log|] == log;
    var t, more := m[p.proto := Get(m, p.proto) + 1], log + [p];
    SumUpdate(m, p.proto, Get(m, p.proto) + 1);
    hide Sum;
    forall proto ensures ProtoOk(t, more, proto) { assert ProtoOk(m, log, proto); }
  }

  function Counted1(m: map<nat, Port>, port: nat, length: nat): map<nat, Port> {
    m[port := Port(PortAt(m, port).bytes + length, PortAt(m, port).packets + 1)]
  }

  function BothPorts(m: map<nat, Port>, p: Packet): map<nat, Port> {
    if p.HasPorts() then Counted1(Counted1(m, p.sport, p.length), p.dport, p.length) else m
  }

  lemma PortsStep(m: map<nat, Port>, log: seq<Packet>, p: Packet)
    requires PortsTally(m, log)
    ensures PortsTally(BothPorts(m, p), log + [p])
  {
    hide Sum, BytesByPort;
    var t, more := BothPorts(m, p), log + [p];
    assert more[..|log|] == log;
    if p.HasPorts() {
      var m1 := Counted1(m, p.sport, p.length);
      PortSums(m, p.sport, m1[p.sport]);
      PortSums(m1, p.dport, t[p.dport]);
    }
    forall port ensures PortOk(t, more, port) { assert PortOk(m, log, port); }
  }

  function BothEnds(m: map<string, Endpoint>, p: Packet): map<string, Endpoint> {
    var m1 := m[p.src := AsSource(EndpointAt(m, p.src), p.length, p.srcLocal)];
    m1[p.dst := AsTarget(EndpointAt(m1, p.dst), p.length, p.dstLocal)]
  }

  lemma EndpointsStep(m: map<string, Endpoint>, log: seq<Packet>, p: Packet)
    requires EndpointsTally(m, log)
    ensures EndpointsTally(BothEnds(m, p), log + [p])
  {
    hide Sum, EndpointBytes, EndpointPackets, BothEnds, Bytes, EndpointOk;
    var t, more := BothEnds(m, p), log + [p];
    BothEndsSums(m, p);
    BytesStep(log, p);
    forall ip ensures EndpointOk(t, more, ip) {
      assert EndpointOk(m, log, ip);
      EndpointStep(m, log, p, ip);
    }
  }

  lemma BothEndsSums(m: map<string, Endpoint>, p: Packet)
    ensures Sum(EndpointBytes(BothEnds(m, p))) == Sum(EndpointBytes(m)) + 2 * p.length
    ensures Sum(EndpointPackets(BothEnds(m, p))) == Sum(EndpointPackets(m)) + 1
  {
    hide Sum, EndpointBytes, EndpointPackets, EndpointAt;
    var e := AsSource(EndpointAt(m, p.src), p.length, p.srcLocal);
    var m1 := m[p.src := e];
    EndpointSums(m, p.src, e);
    EndpointSums(m1, p.dst, AsTarget(EndpointAt(m1, p.dst), p.length, p.dstLocal));
  }

  /** What a packet does to one host's counters. */
  function Ends(e: Endpoint, p: Packet, ip: string): Endpoint {
    var e1 := if p.src == ip then AsSource(e, p.length, p.srcLocal) else e;
    if p.dst == ip then AsTarget(e1, p.length, p.dstLocal) else e1
  }

  lemma EndpointStep(m: map<string, Endpoint>, log: seq<Packet>, p: Packet, ip: string)
    requires EndpointOk(m, log, ip)
    ensures EndpointOk(BothEnds(m, p), log + [p], ip)
  {
    assert EndpointAt(BothEnds(m, p), ip) == Ends(EndpointAt(m, ip), p, ip) by { hide AsSource, AsTarget; }
    SeenStep(log, p, ip);
    TallyStep(log, p, ip);
    hide Seen, SeenLocal, InOf, OutOf, SentBy, BothEnds, AsSource, AsTarget, Ends, When;
    EndsCounters(EndpointAt(m, ip), p, ip);
    assert ip in BothEnds(m, p) <==> ip in m || p.src == ip || p.dst == ip by { EndsKeys(m, p, ip); }
  }

  lemma EndsCounters(e: Endpoint, p: Packet, ip: string)
    ensures Ends(e, p, ip) == Endpoint(
      e.local || (p.src == ip && p.srcLocal) || (p.dst == ip && p.dstLocal),
      e.bytesIn + When(p.src == ip && !p.srcLocal, p.length) + When(p.dst == ip && p.dstLocal, p.length),
      e.bytesOut + When(p.src == ip && p.srcLocal, p.length) + When(p.dst == ip && !p.dstLocal, p.length),
      e.packets + When(p.src == ip, 1))
  {}

  lemma EndsKeys(m: map<string, Endpoint>, p: Packet, ip: string)
    ensures ip in BothEnds(m, p) <==> ip in m || p.src == ip || p.dst == ip
  {}

  lemma TallyStep(log: seq<Packet>, p: Packet, ip: string)
    ensures InOf(log + [p], ip)
         == InOf(log, ip) + When(p.src == ip && !p.srcLocal, p.length) + When(p.dst == ip && p.dstLocal, p.length)
    ensures OutOf(log + [p], ip)
         == OutOf(log, ip) + When(p.src == ip && p.srcLocal, p.length) + When(p.dst == ip && !p.dstLocal, p.length)
    ensures SentBy(log + [p], ip) == SentBy(log, ip) + When(p.src == ip, 1)
  {
    assert (log + [p])[..|log|] == log;
  }

  lemma SeenStep(log: seq<Packet>, p: Packet, ip: string)
    ensures Seen(log + [p], ip) <==> Seen(log, ip) || p.src == ip || p.dst == ip
    ensures SeenLocal(log + [p], ip)
      <==> SeenLocal(log, ip) || (p.src == ip && p.srcLocal) || (p.dst == ip && p.dstLocal)
  {
    assert forall q :: q in log + [p] <==> q in log || q == p;
    assert p in log + [p];
  }

  // ----- the DNS tables, name by name -----

  ghost predicate CountedUpTo(counts: map<string, DnsAgg>, log: seq<Dns>, d: Dns, i: nat)
    requires i <= |d.names|
  {
    |counts| <= MAX_DOMAINS && forall n ::
      CountOk(counts, n, AskedSoFar(log, d, i, n, false), AskedSoFar(log, d, i, n, true))
  }

  /** A name that is new in the table was in no response before. */
  ghost predicate FreshNames(was: map<string, DnsAgg>, counts: map<string, DnsAgg>, log: seq<Dns>) {
    was.Keys <= counts.Keys && (forall n | n in counts :: n in was || Asked(log, n, true) == 0)
  }

  function Tracked(counts: map<string, DnsAgg>, name: string, isResp: bool): map<string, DnsAgg> {
    if name in counts || |counts| < MAX_DOMAINS then
      var agg := if name in counts then counts[name] else DnsAgg(0, 0);
      counts[name := if isResp then agg.(responses := agg.responses + 1) else agg.(queries := agg.queries + 1)]
    else counts
  }

  lemma CountStart(counts: map<string, DnsAgg>, log: seq<Dns>, d: Dns)
    requires Counted(counts, log)
    ensures CountedUpTo(counts, log, d, 0) && FreshNames(counts, counts, log)
  {
    forall n ensures CountOk(counts, n, AskedSoFar(log, d, 0, n, false), AskedSoFar(log, d, 0, n, true)) {
      assert CountOk(counts, n, Asked(log, n, false), Asked(log, n, true));
    }
  }

  lemma CountStep(was: map<string, DnsAgg>, counts: map<string, DnsAgg>, log: seq<Dns>, d: Dns, i: nat)
    requires i < |d.names| && CountedUpTo(counts, log, d, i) && FreshNames(was, counts, log)
    ensures var t := Tracked(counts, d.names[i], d.isResp); CountedUpTo(t, log, d, i + 1) && FreshNames(was, t, log)
  {
    var name, j := d.names[i], i + 1;
    var t := Tracked(counts, name, d.isResp);
    if name in t { KeysAfter(counts, name, t[name]); }
    assert CountOk(counts, name, AskedSoFar(log, d, i, name, false), AskedSoFar(log, d, i, name, true));
    forall n ensures CountOk(t, n, AskedSoFar(log, d, j, n, false), AskedSoFar(log, d, j, n, true)) {
      assert CountOk(counts, n, AskedSoFar(log, d, i, n, false), AskedSoFar(log, d, i, n, true));
      OneMore(log, d, i, n);
      hide AskedSoFar;
      TrackedOk(counts, name, d.isResp, n, AskedSoFar(log, d, i, n, false), AskedSoFar(log, d, i, n, true));
    }
  }

  lemma OneMore(log: seq<Dns>, d: Dns, i: nat, n: string)
    requires i < |d.names|
    ensures AskedSoFar(log, d, i + 1, n, false)
         == AskedSoFar(log, d, i, n, false) + When(!d.isResp && d.names[i] == n, 1)
    ensures AskedSoFar(log, d, i + 1, n, true) == AskedSoFar(log, d, i, n, true) + When(d.isResp && d.names[i] == n, 1)
  {
    assert d.names[..i + 1][..i] == d.names[..i];
  }

  lemma TrackedOk(counts: map<string, DnsAgg>, name: string, isResp: bool, n: string, queries: nat, responses: nat)
    requires CountOk(counts, n, queries, responses) && |counts| <= MAX_DOMAINS
    ensures CountOk(Tracked(counts, name, isResp), n, queries + When(!isResp && name == n, 1),
                    responses + When(isResp && name == n, 1))
  {
    var t := Tracked(counts, name, isResp);
    if name in t { KeysAfter(counts, name, t[name]); }
  }

  lemma CountEnd(counts: map<string, DnsAgg>, log: seq<Dns>, d: Dns)
    requires CountedUpTo(counts, log, d, |d.names|)
    ensures Counted(counts, log + [d])
  {
    assert (log + [d])[..|log|] == log && d.names[..|d.names|] == d.names;
    forall n ensures CountOk(counts, n, Asked(log + [d], n, false), Asked(log + [d], n, true)) {
      assert CountOk(counts, n, AskedSoFar(log, d, |d.names|, n, false), AskedSoFar(log, d, |d.names|, n, true));
    }
  }

  lemma CountNothing(counts: map<string, DnsAgg>, log: seq<Dns>, d: Dns)
    requires d.names == [] && Counted(counts, log)
    ensures Counted(counts, log + [d])
  {
    CountStart(counts, log, d);
    CountEnd(counts, log, d);
  }

  ghost predicate BoundUpTo(counts: map<string, DnsAgg>, ips: map<string, set<string>>, log: seq<Dns>, d: Dns, i: nat)
    requires i <= |d.names|
  {
    forall n :: BindOk(counts, ips, n, AnswersSoFar(log, d, i, n))
  }

  lemma BindStart(was: map<string, DnsAgg>, counts: map<string, DnsAgg>, ips: map<string, set<string>>, log: seq<Dns>,
                  d: Dns)
    requires Bound(was, ips, log) && FreshNames(was, counts, log)
    ensures BoundUpTo(counts, ips, log, d, 0)
  {
    forall n ensures BindOk(counts, ips, n, AnswersSoFar(log, d, 0, n)) {
      assert BindOk(was, ips, n, AnswersFor(log, n));
      if n in counts && n !in was { NeverAnswered(log, n); }
    }
  }

  lemma BindAt(counts: map<string, DnsAgg>, ips: map<string, set<string>>, log: seq<Dns>, d: Dns, i: nat)
    requires i < |d.names| && BoundUpTo(counts, ips, log, d, i)
    ensures BindOk(counts, ips, d.names[i], AnswersSoFar(log, d, i, d.names[i]))
  {}

  lemma BindStep(counts: map<string, DnsAgg>, ips: map<string, set<string>>, log: seq<Dns>, d: Dns, i: nat,
                 more: set<string>)
    requires i < |d.names| && BoundUpTo(counts, ips, log, d, i) && d.isResp
    requires (d.names[i] in ips || d.names[i] in counts)
    requires var was := if d.names[i] in ips then ips[d.names[i]] else {};
      was <= more <= was + SetOf(d.answers) && |more| <= MAX_IPS_PER_HOST
      && (|more| < MAX_IPS_PER_HOST ==> more == was + SetOf(d.answers))
    ensures BoundUpTo(counts, ips[d.names[i] := more], log, d, i + 1)
  {
    hide AnswersFor, AnswersSoFar;
    BindAt(counts, ips, log, d, i);
    var name := d.names[i];
    var was := if name in ips then ips[name] else {};
    SubsetSize(was, more);
    var j := i + 1;
    forall n ensures BindOk(counts, ips[name := more], n, AnswersSoFar(log, d, j, n)) {
      assert BindOk(counts, ips, n, AnswersSoFar(log, d, i, n));
      MoreAnswers(log, d, i, n);
    }
  }

  lemma MoreAnswers(log: seq<Dns>, d: Dns, i: nat, n: string)
    requires i < |d.names|
    ensures AnswersSoFar(log, d, i + 1, n)
         == AnswersSoFar(log, d, i, n) + if d.isResp && d.names[i] == n then SetOf(d.answers) else {}
  {
    assert d.names[..i + 1] == d.names[..i] + [d.names[i]];
  }

  lemma BindSkip(counts: map<string, DnsAgg>, ips: map<string, set<string>>, log: seq<Dns>, d: Dns, i: nat)
    requires i < |d.names| && BoundUpTo(counts, ips, log, d, i) && d.names[i] !in ips && d.names[i] !in counts
    ensures BoundUpTo(counts, ips, log, d, i + 1)
  {
    hide AnswersFor;
    var j := i + 1;
    forall n ensures BindOk(counts, ips, n, AnswersSoFar(log, d, j, n)) {
      assert BindOk(counts, ips, n, AnswersSoFar(log, d, i, n));
      MoreAnswers(log, d, i, n);
    }
  }

  lemma BindEnd(counts: map<string, DnsAgg>, ips: map<string, set<string>>, log: seq<Dns>, d: Dns)
    requires BoundUpTo(counts, ips, log, d, |d.names|)
    ensures Bound(counts, ips, log + [d])
  {
    assert (log + [d])[..|log|] == log && d.names[..|d.names|] == d.names;
    forall n ensures BindOk(counts, ips, n, AnswersFor(log + [d], n)) {
      assert BindOk(counts, ips, n, AnswersSoFar(log, d, |d.names|, n));
    }
  }

  lemma NothingToBind(counts: map<string, DnsAgg>, ips: map<string, set<string>>, log: seq<Dns>, d: Dns)
    requires (d.names == [] && Bound(counts, ips, log))
      || (BoundUpTo(counts, ips, log, d, 0) && !(d.isResp && |d.answers| > 0))
    ensures Bound(counts, ips, log + [d])
  {
    assert (log + [d])[..|log|] == log;
    forall n ensures BindOk(counts, ips, n, AnswersFor(log + [d], n)) {
      if d.names == [] && Bound(counts, ips, log) { assert BindOk(counts, ips, n, AnswersFor(log, n)); }
      else { assert BindOk(counts, ips, n, AnswersSoFar(log, d, 0, n)); }
      assert AnswersFor(log + [d], n) == AnswersFor(log, n);
    }
  }

  function AskedSoFar(log: seq<Dns>, d: Dns, i: nat, name: string, isResp: bool): nat
    requires i <= |d.names|
  {
    Asked(log, name, isResp) + When(d.isResp == isResp, Occurrences(d.names[..i], name))
  }

  function AnswersSoFar(log: seq<Dns>, d: Dns, i: nat, name: string): set<string>
    requires i <= |d.names|
  {
    AnswersFor(log, name) + if d.isResp && name in d.names[..i] then SetOf(d.answers) else {}
  }

  lemma {:induction false} NeverAnswered(log: seq<Dns>, name: string)
    requires Asked(log, name, true) == 0
    ensures AnswersFor(log, name) == {}
  {
    if log != [] {
      NeverAnswered(log[..|log| - 1], name);
      Unnamed(log[|log| - 1].names, name);
    }
  }

  lemma {:induction false} Unnamed(names: seq<string>, name: string)
    ensures Occurrences(names, name) == 0 <==> name !in names
  {
    if names != [] {
      Unnamed(names[..|names| - 1], name);
      assert names == names[..|names| - 1] + [names[|names| - 1]];
    }
  }

  function InBucket(b: Bucket, p: Packet): Bucket {
    b.(packets := b.packets + 1,
       bytesOut := b.bytesOut + When(p.srcLocal && !p.dstLocal, p.length),
       bytesIn := b.bytesIn + When(p.dstLocal && !p.srcLocal, p.length),
       bytesLocal := b.bytesLocal + When(p.srcLocal == p.dstLocal, p.length))
  }

  /** The current bucket holds the packets since it began. */
  ghost predicate BucketOk(b: Bucket, recent: seq<Packet>) {
    b.packets == |recent| && b.bytesIn == Crossing(recent, false, true) && b.bytesOut == Crossing(recent, true, false)
    && b.bytesLocal == Crossing(recent, true, true) + Crossing(recent, false, false)
  }

  lemma KeysAfter(m: map<string, DnsAgg>, k: string, v: DnsAgg)
    ensures |m[k := v]| == |m| + if k in m then 0 else 1
  {
    assert m[k := v].Keys == m.Keys + {k};
    assert |m| == |m.Keys| && |m[k := v]| == |m[k := v].Keys|;
  }

  /** The sums that are conserved and the bounds that hold after any sequence of packets and rolls. */
  lemma Conservation(e: Engine)
    requires e.Valid()
    ensures Sum(EndpointBytes(e.endpoints)) == 2 * e.totalBytes && Sum(EndpointPackets(e.endpoints)) == e.totalPackets
    ensures Sum(e.protocols) == e.totalPackets && Sum(BytesByPort(e.ports)) == 2 * TransportBytes(e.log)
    ensures |e.history| <= HISTORY_SIZE && |e.dnsCounts| <= MAX_DOMAINS && e.domainIPs.Keys <= e.dnsCounts.Keys
    ensures forall n | n in e.domainIPs :: |e.domainIPs[n]| <= MAX_IPS_PER_HOST
  {
    hide Sum, EndpointBytes, EndpointPackets, BytesByPort, Bytes, TransportBytes;
    forall n | n in e.domainIPs ensures n in e.dnsCounts && |e.domainIPs[n]| <= MAX_IPS_PER_HOST {
      assert BindOk(e.dnsCounts, e.domainIPs, n, AnswersFor(e.dnsLog, n));
    }
  }
}
