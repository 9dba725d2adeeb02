/** The sustained-threshold detectors: internal/alert/alert.go and internal/alert/iface.go. */
module Detectors {
  import opened Wrappers

  // ----- runs -----

  /** How many of the last evaluations in a row were over the threshold. */
  function Run(evals: seq<bool>): nat {
    if evals == [] || !evals[|evals| - 1] then 0 else Run(evals[..|evals| - 1]) + 1
  }

  /** The detector fires at the t-th evaluation. */
  predicate FiresAt(evals: seq<bool>, t: nat, need: int) { t < |evals| && Run(evals[..t + 1]) == need }

  /** Evaluations a to b - 1 are over the threshold, and neither neighbour is. */
  predicate MaximalRun(evals: seq<bool>, a: nat, b: nat) {
    a < b <= |evals| && (forall i | a <= i < b :: evals[i]) && (a == 0 || !evals[a - 1]) && (b == |evals| || !evals[b])
  }

  lemma {:induction false} RunInside(evals: seq<bool>, a: nat, t: nat)
    requires a <= t < |evals| && (forall i | a <= i <= t :: evals[i]) && (a == 0 || !evals[a - 1])
    ensures Run(evals[..t + 1]) == t - a + 1
  {
    assert evals[..t + 1][..t] == evals[..t];
    if t > a { RunInside(evals, a, t - 1); }
  }

  /** Exactly once per maximal run that is long enough, at its need-th evaluation, and never in a shorter one. */
  lemma FiresOncePerRun(evals: seq<bool>, a: nat, b: nat, need: int)
    requires MaximalRun(evals, a, b) && need >= 1
    ensures forall t | a <= t < b :: FiresAt(evals, t, need) <==> t == a + need - 1
    ensures (exists t | a <= t < b :: FiresAt(evals, t, need)) <==> b - a >= need
  {
    forall t | a <= t < b ensures FiresAt(evals, t, need) <==> t == a + need - 1 { RunInside(evals, a, t); }
    if b - a >= need { assert FiresAt(evals, a + need - 1, need); }
  }

  /** It fires only inside such runs. */
  lemma FiresOnlyInRuns(evals: seq<bool>, t: nat, need: int)
    requires FiresAt(evals, t, need) && need >= 1
    ensures exists a: nat, b: nat :: MaximalRun(evals, a, b) && a <= t < b
  {
    assert evals[t];
    var a := t;
    while a > 0 && evals[a - 1]
      invariant a <= t && forall i | a <= i <= t :: evals[i]
    { a := a - 1; }
    var b := t + 1;
    while b < |evals| && evals[b]
      invariant t < b <= |evals| && forall i | a <= i < b :: evals[i]
    { b := b + 1; }
    assert MaximalRun(evals, a, b);
  }

  /** What has fired does not depend on later evaluations. */
  lemma FiredForGood(evals: seq<bool>, more: seq<bool>, t: nat, need: int)
    requires t < |evals|
    ensures FiresAt(evals + more, t, need) <==> FiresAt(evals, t, need)
  {
    assert (evals + more)[..t + 1] == evals[..t + 1];
  }

  // ----- configuration and input -----

  datatype BandwidthConfig = BandwidthConfig(enabled: bool, seconds: int, inMbps: real, outMbps: real) {
    function Need(): int { if seconds <= 0 then 10 else seconds }
    predicate OverIn(bps: real) { inMbps > 0.0 && bps / 1000000.0 >= inMbps }
    predicate OverOut(bps: real) { outMbps > 0.0 && bps / 1000000.0 >= outMbps }
  }

  datatype Snapshot = Snapshot(running: bool, bpsIn: real, bpsOut: real)

  datatype Rate = Rate(rxBps: real, txBps: real)

  datatype Agent = Agent(id: int, online: bool, rates: seq<Rate>)

  datatype Direction = In | Out

  datatype Firing = Firing(id: int, dir: Direction)

  function SumRx(rates: seq<Rate>): real {
    if rates == [] then 0.0 else SumRx(rates[..|rates| - 1]) + rates[|rates| - 1].rxBps
  }

  function SumTx(rates: seq<Rate>): real {
    if rates == [] then 0.0 else SumTx(rates[..|rates| - 1]) + rates[|rates| - 1].txBps
  }

  datatype IfaceConfig = IfaceConfig(enabled: bool, warnPct: real, critPct: real, sustainSec: int) {
    predicate Active() { enabled && !(warnPct <= 0.0 && critPct <= 0.0) }
    function Need(): int { if sustainSec < 120 then 1 else sustainSec / 60 }
    function Threshold(): real { if warnPct <= 0.0 then critPct else warnPct }
  }

  datatype Key = Key(device: int, ifIndex: int, rx: bool)

  /** One interface as LatestDeviceIfaces returns it; `skipped` stands for its class. */
  datatype Iface = Iface(ifIndex: int, skipped: bool, speed: int, operStatus: int, rxPct: real, txPct: real)

  /** A device; None is a failed read of its interfaces. */
  datatype Device = Device(id: int, enabled: bool, ifaces: Option<seq<Iface>>)

  datatype Reading = Reading(key: Key, pct: real)

  datatype IfaceFiring = IfaceFiring(key: Key, crit: bool)

  // ----- what has been evaluated -----

  datatype Evals = Evals(ins: seq<bool>, outs: seq<bool>)

  function EvalsOf(m: map<int, Evals>, id: int): Evals { if id in m then m[id] else Evals([], []) }

  /** The evaluations once these agents have been looked at: offline agents are passed over. */
  function Looked(m: map<int, Evals>, agents: seq<Agent>, cfg: BandwidthConfig): map<int, Evals> {
    if agents == [] then m
    else
      var a, before := agents[|agents| - 1], Looked(m, agents[..|agents| - 1], cfg);
      if !a.online then before
      else
        Both(before, a.id, cfg.OverIn(SumRx(a.rates) * 8.0), cfg.OverOut(SumTx(a.rates) * 8.0))
  }

  function Both(m: map<int, Evals>, id: int, overIn: bool, overOut: bool): map<int, Evals> {
    m[id := Evals(EvalsOf(m, id).ins + [overIn], EvalsOf(m, id).outs + [overOut])]
  }

  function AgentFires(m: map<int, Evals>, id: int, need: int): seq<Firing> {
    (if Run(EvalsOf(m, id).ins) == need then [Firing(id, In)] else [])
    + if Run(EvalsOf(m, id).outs) == need then [Firing(id, Out)] else []
  }

  /** What fires on the way: a direction whose run has just reached the needed length. */
  function Fired(m: map<int, Evals>, agents: seq<Agent>, cfg: BandwidthConfig): seq<Firing> {
    if agents == [] then []
    else
      var a, before := agents[|agents| - 1], Fired(m, agents[..|agents| - 1], cfg);
      if !a.online then before
      else
        before + AgentFires(Looked(m, agents, cfg), a.id, cfg.Need())
  }

  function Ids(agents: seq<Agent>): set<int> { set a | a in agents :: a.id }

  function History(m: map<Key, seq<bool>>, k: Key): seq<bool> { if k in m then m[k] else [] }

  function Read(m: map<Key, seq<bool>>, readings: seq<Reading>, cfg: IfaceConfig): map<Key, seq<bool>> {
    if readings == [] then m
    else
      var r, before := readings[|readings| - 1], Read(m, readings[..|readings| - 1], cfg);
      Pushed(before, r.key, r.pct >= cfg.Threshold())
  }

  function Pushed(m: map<Key, seq<bool>>, k: Key, over: bool): map<Key, seq<bool>> { m[k := History(m, k) + [over]] }

  function IfaceFires(m: map<Key, seq<bool>>, r: Reading, cfg: IfaceConfig): seq<IfaceFiring> {
    if Run(History(m, r.key)) == cfg.Need() then [IfaceFiring(r.key, cfg.critPct > 0.0 && r.pct >= cfg.critPct)] else []
  }

  function IfacesFired(m: map<Key, seq<bool>>, readings: seq<Reading>, cfg: IfaceConfig): seq<IfaceFiring> {
    if readings == [] then []
    else
      var r := readings[|readings| - 1];
      IfacesFired(m, readings[..|readings| - 1], cfg) + IfaceFires(Read(m, readings, cfg), r, cfg)
  }

  function Keys(readings: seq<Reading>): set<Key> { set r | r in readings :: r.key }

  /** The readings an evaluation makes: enabled devices that answered, interfaces that are up, known
      speeds and known utilisations. */
  function OfIface(d: int, r: Iface): seq<Reading> {
    if r.skipped || r.speed == 0 || r.operStatus != 1 then []
    else
      (if r.rxPct < 0.0 then [] else [Reading(Key(d, r.ifIndex, true), r.rxPct)])
      + if r.txPct < 0.0 then [] else [Reading(Key(d, r.ifIndex, false), r.txPct)]
  }

  function OfIfaces(d: int, rs: seq<Iface>): seq<Reading> {
    if rs == [] then [] else OfIfaces(d, rs[..|rs| - 1]) + OfIface(d, rs[|rs| - 1])
  }

  function OfDevices(ds: seq<Device>): seq<Reading> {
    if ds == [] then []
    else
      OfDevices(ds[..|ds| - 1]) + OfDevice(ds[|ds| - 1])
  }

  function OfDevice(d: Device): seq<Reading> {
    if d.enabled && d.ifaces.Some? then OfIfaces(d.id, d.ifaces.value) else []
  }

  datatype Counter = Counter(ins: int, outs: int)

  class Manager {
    var bwInCount: int
    var bwOutCount: int
    var agentBw: map<int, Counter>
    var ifaceOver: map<Key, int>
    ghost var own: Evals
    ghost var agents: map<int, Evals>
    ghost var ifaces: map<Key, seq<bool>>

    constructor ()
      ensures Valid() && own == Evals([], []) && agents == map[] && ifaces == map[]
    {
      bwInCount, bwOutCount, agentBw, ifaceOver := 0, 0, map[], map[];
      own, agents, ifaces := Evals([], []), map[], map[];
    }

    /** Every counter is the length of the current run of its evaluations. */
    ghost predicate Valid()
      reads this
    {
      bwInCount == Run(own.ins) && bwOutCount == Run(own.outs)
      && CountsAgents(agentBw, agents) && CountsIfaces(ifaceOver, ifaces)
    }

    /** The hub's own traffic; a disabled rule or a stopped capture is an evaluation below the threshold. */
    method CheckBandwidth(cfg: BandwidthConfig, snap: Snapshot) returns (firedIn: bool, firedOut: bool)
      requires Valid()
      modifies `bwInCount, `bwOutCount, `own
      ensures Valid()
      ensures var on := cfg.enabled && snap.running;
        own == Evals(old(own.ins) + [on && cfg.OverIn(snap.bpsIn)], old(own.outs) + [on && cfg.OverOut(snap.bpsOut)])
      ensures firedIn <==> FiresAt(own.ins, |own.ins| - 1, cfg.Need())
      ensures firedOut <==> FiresAt(own.outs, |own.outs| - 1, cfg.Need())
    {
      ghost var was, on := own, cfg.enabled && snap.running;
      RunStep(own.ins, on && cfg.OverIn(snap.bpsIn));
      RunStep(own.outs, on && cfg.OverOut(snap.bpsOut));
      own := Evals(own.ins + [on && cfg.OverIn(snap.bpsIn)], own.outs + [on && cfg.OverOut(snap.bpsOut)]);
      firedIn, firedOut := false, false;
      if !cfg.enabled || !snap.running {
        bwInCount, bwOutCount := 0, 0;
        return;
      }
      var need := cfg.seconds;
      if need <= 0 { need := 10; }
      if cfg.inMbps > 0.0 && snap.bpsIn / 1000000.0 >= cfg.inMbps {
        bwInCount := bwInCount + 1;
        firedIn := bwInCount == need;
      } else {
        bwInCount := 0;
      }
      if cfg.outMbps > 0.0 && snap.bpsOut / 1000000.0 >= cfg.outMbps {
        bwOutCount := bwOutCount + 1;
        firedOut := bwOutCount == need;
      } else {
        bwOutCount := 0;
      }
    }

    /** This replica does not lead: the hub's own run and the interfaces' runs end, those of agents stay. */
    method StandDown()
      requires Valid()
      modifies `bwInCount, `bwOutCount, `ifaceOver, `own, `ifaces
      ensures Valid() && own == Evals(old(own.ins) + [false], old(own.outs) + [false]) && ifaces == map[]
    {
      RunStep(own.ins, false);
      RunStep(own.outs, false);
      bwInCount, bwOutCount, ifaceOver := 0, 0, map[];
      own, ifaces := Evals(own.ins + [false], own.outs + [false]), map[];
    }

    method AgentRates(a: Agent) returns (rx: real, tx: real)
      ensures rx == SumRx(a.rates) && tx == SumTx(a.rates)
    {
      rx, tx := 0.0, 0.0;
      for i := 0 to |a.rates|
        invariant rx == SumRx(a.rates[..i]) && tx == SumTx(a.rates[..i])
      {
        assert a.rates[..i + 1][..i] == a.rates[..i];
        rx, tx := rx + a.rates[i].rxBps, tx + a.rates[i].txBps;
      }
      assert a.rates[..|a.rates|] == a.rates;
    }

    /** One agent that is online. */
    method CheckAgent(cfg: BandwidthConfig, a: Agent) returns (fired: seq<Firing>)
      requires CountsAgents(agentBw, agents)
      modifies `agentBw, `agents
      ensures CountsAgents(agentBw, agents)
      ensures agents == Both(old(agents), a.id, cfg.OverIn(SumRx(a.rates) * 8.0), cfg.OverOut(SumTx(a.rates) * 8.0))
      ensures fired == AgentFires(agents, a.id, cfg.Need())
    {
      hide CountsAgents, Run, Both, SumRx, SumTx;
      var rx, tx := AgentRates(a);
      var need := cfg.seconds;
      if need <= 0 { need := 10; }
      ghost var overIn, overOut := cfg.OverIn(rx * 8.0), cfg.OverOut(tx * 8.0);
      BothCounts(agentBw, agents, a.id, overIn, overOut);
      agents := Both(agents, a.id, overIn, overOut);
      fired := [];
      var c := if a.id in agentBw then agentBw[a.id] else Counter(0, 0);
      if cfg.inMbps > 0.0 && rx * 8.0 / 1000000.0 >= cfg.inMbps {
        c := c.(ins := c.ins + 1);
        if c.ins == need { fired := fired + [Firing(a.id, In)]; }
      } else {
        c := c.(ins := 0);
      }
      if cfg.outMbps > 0.0 && tx * 8.0 / 1000000.0 >= cfg.outMbps {
        c := c.(outs := c.outs + 1);
        if c.outs == need { fired := fired + [Firing(a.id, Out)]; }
      } else {
        c := c.(outs := 0);
      }
      agentBw := agentBw[a.id := c];
    }

    /** The agents' traffic. A disabled rule evaluates nothing; an offline agent keeps its run; the run of an
        agent that is no longer listed is forgotten. */
    method CheckAgentBandwidth(cfg: BandwidthConfig, list: seq<Agent>) returns (fired: seq<Firing>)
      requires Valid()
      modifies `agentBw, `agents
      ensures Valid()
      ensures !cfg.enabled ==> fired == [] && agents == old(agents)
      ensures cfg.enabled ==> fired == Fired(old(agents), list, cfg)
      ensures cfg.enabled ==> agents == Kept(Looked(old(agents), list, cfg), Ids(list))
    {
      hide CountsAgents, CountsIfaces, Both, AgentFires, Looked, Fired, Ids, Kept;
      fired := [];
      if !cfg.enabled { return; }
      ghost var was := agents;
      var seen: set<int> := {};
      NoneLooked(was, list, cfg);
      for i := 0 to |list|
        invariant CountsAgents(agentBw, agents) && agents == Looked(was, list[..i], cfg)
        invariant fired == Fired(was, list[..i], cfg) && seen == Ids(list[..i])
      {
        LookedStep(was, list, i, cfg);
        seen := seen + {list[i].id};
        if list[i].online {
          var more := CheckAgent(cfg, list[i]);
          fired := fired + more;
        }
      }
      assert list[..|list|] == list;
      KeptCounts(agentBw, agents, seen);
      agentBw := map id | id in agentBw && id in seen :: agentBw[id];
      agents := Kept(agents, seen);
    }

    method CheckReading(cfg: IfaceConfig, r: Reading) returns (fired: seq<IfaceFiring>)
      requires CountsIfaces(ifaceOver, ifaces)
      modifies `ifaceOver, `ifaces
      ensures CountsIfaces(ifaceOver, ifaces)
      ensures ifaces == Pushed(old(ifaces), r.key, r.pct >= cfg.Threshold())
      ensures fired == IfaceFires(ifaces, r, cfg)
    {
      hide CountsIfaces, Run, Pushed, IfaceConfig.Threshold;
      var need := if cfg.sustainSec < 60 then 1 else cfg.sustainSec / 60;
      PushedCounts(ifaceOver, ifaces, r.key, r.pct >= cfg.Threshold());
      ifaces := Pushed(ifaces, r.key, r.pct >= cfg.Threshold());
      fired := [];
      if r.pct < cfg.Threshold() {
        ifaceOver := ifaceOver - {r.key};
        return;
      }
      ifaceOver := ifaceOver[r.key := (if r.key in ifaceOver then ifaceOver[r.key] else 0) + 1];
      if ifaceOver[r.key] != need { return; }
      fired := [IfaceFiring(r.key, cfg.critPct > 0.0 && r.pct >= cfg.critPct)];
    }

    /** One interface, in both directions; `fired` grows by what fires. */
    method CheckIface(cfg: IfaceConfig, d: int, r: Iface, before: seq<IfaceFiring>, ghost was: map<Key, seq<bool>>,
                      ghost done: seq<Reading>)
      returns (fired: seq<IfaceFiring>)
      requires At(cfg, was, done, before)
      modifies `ifaceOver, `ifaces
      ensures At(cfg, was, done + OfIface(d, r), fired)
    {
      hide CountsIfaces, Read, IfacesFired, Pushed, IfaceFires, IfaceConfig.Threshold;
      fired := before;
      assert done + [] == done;
      if r.skipped || r.speed == 0 || r.operStatus != 1 { return; }
      var rx, tx := Reading(Key(d, r.ifIndex, true), r.rxPct), Reading(Key(d, r.ifIndex, false), r.txPct);
      ghost var done1 := done;
      if !(r.rxPct < 0.0) {
        var more := CheckReading(cfg, rx);
        ReadStep(was, done, rx, cfg);
        fired, done1 := fired + more, done + [rx];
      }
      if !(r.txPct < 0.0) {
        var more := CheckReading(cfg, tx);
        ReadStep(was, done1, tx, cfg);
        fired, done1 := fired + more, done1 + [tx];
      }
      assert done1 == done + OfIface(d, r);
    }

    /** One device; the keys evaluated are returned. */
    method CheckDevice(cfg: IfaceConfig, d: Device, before: seq<IfaceFiring>, ghost was: map<Key, seq<bool>>,
                       ghost done: seq<Reading>)
      returns (fired: seq<IfaceFiring>, seen: set<Key>)
      requires At(cfg, was, done, before)
      modifies `ifaceOver, `ifaces
      ensures At(cfg, was, done + OfDevice(d), fired) && seen == Keys(OfDevice(d))
    {
      hide At, OfIface, Keys;
      assert Keys([]) == {} by { NoKeys(); }
      fired, seen := before, {};
      assert done + [] == done;
      if !d.enabled || d.ifaces == None { return; }
      var rs := d.ifaces.value;
      for j := 0 to |rs|
        invariant At(cfg, was, done + OfIfaces(d.id, rs[..j]), fired) && seen == Keys(OfIfaces(d.id, rs[..j]))
      {
        assert rs[..j + 1][..j] == rs[..j];
        fired := CheckIface(cfg, d.id, rs[j], fired, was, done + OfIfaces(d.id, rs[..j]));
        KeysAdd(OfIfaces(d.id, rs[..j]), OfIface(d.id, rs[j]));
        assert done + OfIfaces(d.id, rs[..j]) + OfIface(d.id, rs[j])
             == done + (OfIfaces(d.id, rs[..j]) + OfIface(d.id, rs[j]));
        seen := seen + Keys(OfIface(d.id, rs[j]));
      }
      assert rs[..|rs|] == rs;
    }

    /** These readings have been evaluated. */
    ghost predicate At(cfg: IfaceConfig, was: map<Key, seq<bool>>, done: seq<Reading>, fired: seq<IfaceFiring>)
      reads `ifaceOver, `ifaces
    {
      CountsIfaces(ifaceOver, ifaces) && ifaces == Read(was, done, cfg) && fired == IfacesFired(was, done, cfg)
    }

    /** The interfaces. A switched-off rule ends all runs, a failed device list changes nothing, and an
        interface that was not evaluated has no run afterwards. */
    method CheckIfaceUtil(cfg: IfaceConfig, devices: Option<seq<Device>>) returns (fired: seq<IfaceFiring>)
      requires Valid()
      modifies `ifaceOver, `ifaces
      ensures Valid()
      ensures !cfg.Active() ==> fired == [] && ifaces == map[]
      ensures cfg.Active() && devices == None ==> fired == [] && ifaces == old(ifaces)
      ensures cfg.Active() && devices.Some? ==> fired == IfacesFired(old(ifaces), OfDevices(devices.value), cfg)
      ensures cfg.Active() && devices.Some? ==>
        ifaces == KeptKeys(Read(old(ifaces), OfDevices(devices.value), cfg), Keys(OfDevices(devices.value)))
      ensures cfg.Active() && devices.Some? ==> forall k | k in ifaceOver :: k in Keys(OfDevices(devices.value))
    {
      hide Run, OfDevices, CountsAgents, CountsIfaces, KeptKeys, Read, IfacesFired, Keys;
      fired := [];
      if !cfg.enabled || (cfg.warnPct <= 0.0 && cfg.critPct <= 0.0) {
        NothingCounts();
        ifaceOver := map[];
        ifaces := map[];
        return;
      }
      if devices == None { return; }
      var seen;
      fired, seen := CheckDevices(cfg, devices.value);
      KeptKeysCount(ifaceOver, ifaces, seen);
      ifaceOver := map k | k in ifaceOver && k in seen :: ifaceOver[k];
      ifaces := KeptKeys(ifaces, seen);
    }

    method CheckDevices(cfg: IfaceConfig, ds: seq<Device>) returns (fired: seq<IfaceFiring>, seen: set<Key>)
      requires CountsIfaces(ifaceOver, ifaces)
      modifies `ifaceOver, `ifaces
      ensures At(cfg, old(ifaces), OfDevices(ds), fired) && seen == Keys(OfDevices(ds))
    {
      hide At, OfDevice, Keys;
      assert Keys([]) == {} by { NoKeys(); }
      ghost var was, done := ifaces, [];
      fired, seen := [], {};
      AtStart(cfg);
      for i := 0 to |ds|
        invariant done == OfDevices(ds[..i]) && At(cfg, was, done, fired) && seen == Keys(done)
      {
        assert ds[..i + 1][..i] == ds[..i];
        var keys;
        fired, keys := CheckDevice(cfg, ds[i], fired, was, done);
        KeysAdd(done, OfDevice(ds[i]));
        seen := seen + keys;
        done := done + OfDevice(ds[i]);
      }
      assert ds[..|ds|] == ds;
    }

    lemma AtStart(cfg: IfaceConfig)
      requires CountsIfaces(ifaceOver, ifaces)
      ensures At(cfg, ifaces, [], [])
    {}
  }

  lemma RunStep(evals: seq<bool>, over: bool)
    ensures Run(evals + [over]) == if over then Run(evals) + 1 else 0
    ensures (evals + [over])[..|evals| + 1] == evals + [over]
  {
    assert (evals + [over])[..|evals|] == evals;
  }

  ghost predicate CountsAgents(counters: map<int, Counter>, evals: map<int, Evals>) {
    counters.Keys == evals.Keys && forall id | id in counters ::
      counters[id] == Counter(Run(evals[id].ins), Run(evals[id].outs))
  }

  /** Only interfaces in a run have a counter. */
  ghost predicate CountsIfaces(counters: map<Key, int>, evals: map<Key, seq<bool>>) {
    forall k ::
      Run(History(evals, k)) == (if k in counters then counters[k] else 0) && (k in counters ==> counters[k] > 0)
  }

  lemma NoneLooked(m: map<int, Evals>, list: seq<Agent>, cfg: BandwidthConfig)
    ensures Looked(m, list[..0], cfg) == m && Fired(m, list[..0], cfg) == [] && Ids(list[..0]) == {}
  {}

  lemma LookedStep(m: map<int, Evals>, list: seq<Agent>, i: nat, cfg: BandwidthConfig)
    requires i < |list|
    ensures var a, before, after := list[i], Looked(m, list[..i], cfg), Looked(m, list[..i + 1], cfg);
      after == (if !a.online then before
                else Both(before, a.id, cfg.OverIn(SumRx(a.rates) * 8.0), cfg.OverOut(SumTx(a.rates) * 8.0)))
      && Fired(m, list[..i + 1], cfg)
           == Fired(m, list[..i], cfg) + (if a.online then AgentFires(after, a.id, cfg.Need()) else [])
      && Ids(list[..i + 1]) == Ids(list[..i]) + {a.id}
  {
    hide Both, AgentFires, SumRx, SumTx;
    assert list[..i + 1][..i] == list[..i] && list[..i + 1] == list[..i] + [list[i]];
  }

  function Kept(m: map<int, Evals>, ids: set<int>): map<int, Evals> { map id | id in m && id in ids :: m[id] }

  lemma KeptCounts(counters: map<int, Counter>, evals: map<int, Evals>, ids: set<int>)
    requires CountsAgents(counters, evals)
    ensures CountsAgents(map id | id in counters && id in ids :: counters[id], Kept(evals, ids))
  {}

  lemma BothCounts(counters: map<int, Counter>, m: map<int, Evals>, id: int, overIn: bool, overOut: bool)
    requires CountsAgents(counters, m)
    ensures var c, m1 := if id in counters then counters[id] else Counter(0, 0), Both(m, id, overIn, overOut);
      var c1 := Counter(if overIn then c.ins + 1 else 0, if overOut then c.outs + 1 else 0);
      CountsAgents(counters[id := c1], m1) && Run(EvalsOf(m1, id).ins) == c1.ins && Run(EvalsOf(m1, id).outs) == c1.outs
  {
    RunStep(EvalsOf(m, id).ins, overIn);
    RunStep(EvalsOf(m, id).outs, overOut);
  }

  lemma PushedCounts(counters: map<Key, int>, m: map<Key, seq<bool>>, k: Key, over: bool)
    requires CountsIfaces(counters, m)
    ensures var n := (if k in counters then counters[k] else 0) + 1;
      CountsIfaces(if over then counters[k := n] else counters - {k}, Pushed(m, k, over))
      && Run(History(Pushed(m, k, over), k)) == if over then n else 0
  {
    RunStep(History(m, k), over);
    assert Run(History(m, k)) == if k in counters then counters[k] else 0;
    var m1 := Pushed(m, k, over);
    assert forall j | j != k :: History(m1, j) == History(m, j);
  }

  lemma NothingCounts()
    ensures CountsIfaces(map[], map[])
  {}

  function KeptKeys(m: map<Key, seq<bool>>, keys: set<Key>): map<Key, seq<bool>> { map k | k in m && k in keys :: m[k] }

  lemma KeptKeysCount(counters: map<Key, int>, m: map<Key, seq<bool>>, keys: set<Key>)
    requires CountsIfaces(counters, m)
    ensures CountsIfaces(map k | k in counters && k in keys :: counters[k], KeptKeys(m, keys))
  {
    forall k ensures k in keys ==> History(KeptKeys(m, keys), k) == History(m, k) {}
  }

  lemma NoKeys()
    ensures Keys([]) == {}
  {}

  lemma KeysAdd(a: seq<Reading>, b: seq<Reading>)
    ensures Keys(a + b) == Keys(a) + Keys(b)
  {
    assert forall r :: r in a + b <==> r in a || r in b;
  }

  lemma ReadStep(m: map<Key, seq<bool>>, done: seq<Reading>, r: Reading, cfg: IfaceConfig)
    ensures Read(m, done + [r], cfg) == Pushed(Read(m, done, cfg), r.key, r.pct >= cfg.Threshold())
    ensures IfacesFired(m, done + [r], cfg) == IfacesFired(m, done, cfg) + IfaceFires(Read(m, done + [r], cfg), r, cfg)
  {
    assert (done + [r])[..|done|] == done;
  }

  /** Looking at an online agent fires a direction exactly at the evaluation just made. */
  lemma AgentFiresNow(m: map<int, Evals>, id: int, need: int)
    requires EvalsOf(m, id).ins != [] && EvalsOf(m, id).outs != []
    ensures Firing(id, In) in AgentFires(m, id, need) <==> FiresAt(EvalsOf(m, id).ins, |EvalsOf(m, id).ins| - 1, need)
    ensures Firing(id, Out) in AgentFires(m, id, need)
      <==> FiresAt(EvalsOf(m, id).outs, |EvalsOf(m, id).outs| - 1, need)
  {
    var e := EvalsOf(m, id);
    assert e.ins[..|e.ins|] == e.ins && e.outs[..|e.outs|] == e.outs;
  }

  lemma IfaceFiresNow(m: map<Key, seq<bool>>, r: Reading, cfg: IfaceConfig)
    requires History(m, r.key) != []
    ensures IfaceFires(m, r, cfg) != [] <==> FiresAt(History(m, r.key), |History(m, r.key)| - 1, cfg.Need())
  {
    assert History(m, r.key)[..|History(m, r.key)|] == History(m, r.key);
  }

  /** A counter belongs to an interface whose last evaluation was over the threshold, and says how many were
      in a row. */
  lemma OnlyEvaluatedIfacesCount(m: Manager, k: Key)
    requires m.Valid() && k in m.ifaceOver
    ensures k in m.ifaces && m.ifaces[k] != [] && m.ifaces[k][|m.ifaces[k]| - 1]
    ensures var evals, n := m.ifaces[k], m.ifaceOver[k];
      0 < n <= |evals| && (forall i | |evals| - n <= i < |evals| :: evals[i])
      && (n < |evals| ==> !evals[|evals| - n - 1])
  {
    assert Run(History(m.ifaces, k)) == m.ifaceOver[k] > 0;
    RunIsTail(m.ifaces[k]);
  }

  /** The current run is the longest tail over the threshold. */
  lemma {:induction false} RunIsTail(evals: seq<bool>)
    ensures var n := Run(evals);
      n <= |evals| && (forall i | |evals| - n <= i < |evals| :: evals[i]) && (n < |evals| ==> !evals[|evals| - n - 1])
  {
    if evals != [] && evals[|evals| - 1] { RunIsTail(evals[..|evals| - 1]); }
  }
}
