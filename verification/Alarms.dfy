/** The detectors over whole runs: with a fixed configuration they raise as many alarms as there are runs of
    samples over the threshold that are long enough. */
module Alarms {
  import opened Wrappers
  import opened Detectors

  /** A maximal run over the threshold that lasts at least `need` evaluations begins here. */
  ghost predicate LongFrom(evals: seq<bool>, a: int, need: int) {
    0 <= a < |evals| && exists b: nat :: MaximalRun(evals, a, b) && b - a >= need
  }

  /** The long runs, by their first evaluations. */
  ghost function LongRuns(evals: seq<bool>, need: int): set<int> {
    set a: int | 0 <= a < |evals| && LongFrom(evals, a, need) :: a
  }

  ghost predicate FiresWhen(evals: seq<bool>, t: int, need: int) { 0 <= t < |evals| && FiresAt(evals, t, need) }

  ghost function Times(evals: seq<bool>, need: int): set<int> {
    set t: int | 0 <= t < |evals| && FiresWhen(evals, t, need) :: t
  }

  // ----- one alarm per long run -----

  ghost predicate IsShifted(a: set<int>, b: set<int>, k: int) { forall t :: t in b <==> t - k in a }

  lemma ShiftedLess(a: set<int>, b: set<int>, k: int, x: int)
    requires IsShifted(a, b, k) && x in a
    ensures x + k in b && IsShifted(a - {x}, b - {x + k}, k)
  {
    assert (x + k) - k in a;
  }

  lemma NoneShifted(b: set<int>, k: int)
    requires IsShifted({}, b, k)
    ensures b == {}
  {
    if b != {} { var t := Member(b); }
  }

  lemma Member<T>(a: set<T>) returns (x: T)
    requires a != {}
    ensures x in a
  { x :| x in a; }

  lemma {:induction false} Shifted(a: set<int>, b: set<int>, k: int)
    requires IsShifted(a, b, k)
    ensures |a| == |b|
  {
    hide IsShifted;
    if a == {} {
      NoneShifted(b, k);
    } else {
      var x := Member(a);
      ShiftedLess(a, b, k, x);
      Shifted(a - {x}, b - {x + k}, k);
    }
  }

  /** Each alarm is the need-th evaluation of a long run. */
  lemma AlarmOfRun(evals: seq<bool>, t: int, need: int)
    requires need >= 1
    ensures FiresWhen(evals, t, need) <==> LongFrom(evals, t - (need - 1), need)
  {
    hide Run, MaximalRun, FiresAt;
    if FiresWhen(evals, t, need) {
      FiresOnlyInRuns(evals, t, need);
      var a: nat, b: nat :| MaximalRun(evals, a, b) && a <= t < b;
      FiresOncePerRun(evals, a, b, need);
      InBounds(evals, a, b);
    }
    if LongFrom(evals, t - (need - 1), need) {
      var b: nat :| MaximalRun(evals, t - (need - 1), b) && b - (t - (need - 1)) >= need;
      FiresOncePerRun(evals, t - (need - 1), b, need);
      InBounds(evals, t - (need - 1), b);
    }
  }

  lemma InBounds(evals: seq<bool>, a: nat, b: nat)
    requires MaximalRun(evals, a, b)
    ensures a < b <= |evals|
  {}

  lemma OneAlarmPerLongRun(evals: seq<bool>, need: int)
    requires need >= 1
    ensures |Times(evals, need)| == |LongRuns(evals, need)|
  {
    hide FiresAt;
    forall t ensures t in Times(evals, need) <==> t - (need - 1) in LongRuns(evals, need) {
      AlarmOfRun(evals, t, need);
    }
    hide Times, LongRuns;
    Shifted(LongRuns(evals, need), Times(evals, need), need - 1);
  }

  lemma SameBefore(evals: seq<bool>, over: bool, t: int, need: int)
    requires t < |evals|
    ensures FiresWhen(evals + [over], t, need) <==> FiresWhen(evals, t, need)
  {
    hide FiresAt;
    if 0 <= t { FiredForGood(evals, [over], t, need); }
  }

  lemma AtTheEnd(evals: seq<bool>, over: bool, need: int)
    ensures FiresWhen(evals + [over], |evals|, need) <==> Run(evals + [over]) == need
  {
    hide Run;
    assert (evals + [over])[..|evals| + 1] == evals + [over];
  }

  /** One more evaluation adds an alarm exactly when it completes the run. */
  lemma OneMore(evals: seq<bool>, over: bool, need: int)
    ensures |Times(evals + [over], need)| == |Times(evals, need)| + if Run(evals + [over]) == need then 1 else 0
  {
    hide Run, FiresWhen;
    var n, more := |evals|, evals + [over];
    AtTheEnd(evals, over, need);
    forall t: int | t < n ensures FiresWhen(more, t, need) <==> FiresWhen(evals, t, need) {
      SameBefore(evals, over, t, need);
    }
    assert Times(more, need) == Times(evals, need) + if Run(more) == need then {n} else {};
  }

  // ----- from one run length on -----

  function RunFrom(r: nat, s: seq<bool>): nat {
    if s == [] then r else if s[|s| - 1] then RunFrom(r, s[..|s| - 1]) + 1 else 0
  }

  /** How many alarms these evaluations raise behind a run of length `r`. */
  function Raised(r: nat, s: seq<bool>, need: int): nat {
    if s == [] then 0 else Raised(r, s[..|s| - 1], need) + if RunFrom(r, s) == need then 1 else 0
  }

  lemma {:induction false} Continued(evals: seq<bool>, s: seq<bool>, need: int)
    ensures Run(evals + s) == RunFrom(Run(evals), s)
    ensures |Times(evals + s, need)| == |Times(evals, need)| + Raised(Run(evals), s, need)
  {
    if s == [] {
      assert evals + s == evals;
    } else {
      var init, over := s[..|s| - 1], s[|s| - 1];
      assert s == init + [over] && evals + s == evals + init + [over];
      hide Times;
      Continued(evals, init, need);
      RunStep(evals + init, over);
      OneMore(evals + init, over, need);
    }
  }

  lemma RaisedStep(r: nat, s: seq<bool>, over: bool, need: int)
    ensures RunFrom(r, s + [over]) == if over then RunFrom(r, s) + 1 else 0
    ensures Raised(r, s + [over], need) == Raised(r, s, need) + if RunFrom(r, s + [over]) == need then 1 else 0
  {
    assert (s + [over])[..|s|] == s;
  }

  // ----- the hub -----

  function HubIns(cfg: BandwidthConfig, snaps: seq<Snapshot>): (s: seq<bool>)
    ensures |s| == |snaps|
  {
    seq(|snaps|, i requires 0 <= i < |snaps| => cfg.enabled && snaps[i].running && cfg.OverIn(snaps[i].bpsIn))
  }

  function HubOuts(cfg: BandwidthConfig, snaps: seq<Snapshot>): (s: seq<bool>)
    ensures |s| == |snaps|
  {
    seq(|snaps|, i requires 0 <= i < |snaps| => cfg.enabled && snaps[i].running && cfg.OverOut(snaps[i].bpsOut))
  }

  method WatchHub(m: Manager, cfg: BandwidthConfig, snaps: seq<Snapshot>) returns (ins: nat, outs: nat)
    requires m.Valid() && m.own == Evals([], [])
    modifies m
    ensures m.Valid()
    ensures ins == |LongRuns(HubIns(cfg, snaps), cfg.Need())| && outs == |LongRuns(HubOuts(cfg, snaps), cfg.Need())|
  {
    hide Run, Times, LongRuns, FiresWhen, BandwidthConfig.OverIn, BandwidthConfig.OverOut;
    ins, outs := 0, 0;
    NoTimes(cfg.Need());
    for i := 0 to |snaps|
      invariant m.Valid() && m.own == Evals(HubIns(cfg, snaps[..i]), HubOuts(cfg, snaps[..i]))
      invariant ins == |Times(m.own.ins, cfg.Need())| && outs == |Times(m.own.outs, cfg.Need())|
    {
      ghost var was := m.own;
      var firedIn, firedOut := m.CheckBandwidth(cfg, snaps[i]);
      assert HubIns(cfg, snaps[..i + 1]) == m.own.ins && HubOuts(cfg, snaps[..i + 1]) == m.own.outs;
      OneMore(was.ins, m.own.ins[|was.ins|], cfg.Need());
      OneMore(was.outs, m.own.outs[|was.outs|], cfg.Need());
      assert m.own.ins[..|m.own.ins|] == m.own.ins && m.own.outs[..|m.own.outs|] == m.own.outs;
      if firedIn { ins := ins + 1; }
      if firedOut { outs := outs + 1; }
    }
    assert snaps[..|snaps|] == snaps;
    OneAlarmPerLongRun(m.own.ins, cfg.Need());
    OneAlarmPerLongRun(m.own.outs, cfg.Need());
  }

  lemma NoTimes(need: int)
    ensures |Times([], need)| == 0
  {}

  // ----- agents -----

  predicate Over(cfg: BandwidthConfig, a: Agent, d: Direction) {
    if d.In? then cfg.OverIn(SumRx(a.rates) * 8.0) else cfg.OverOut(SumTx(a.rates) * 8.0)
  }

  function OfDir(e: Evals, d: Direction): seq<bool> { if d.In? then e.ins else e.outs }

  /** The evaluations of one agent in one look at the list; being offline is none. */
  function Looks(cfg: BandwidthConfig, list: seq<Agent>, id: int, d: Direction): seq<bool> {
    if list == [] then []
    else
      var a := list[|list| - 1];
      Looks(cfg, list[..|list| - 1], id, d) + if a.online && a.id == id then [Over(cfg, a, d)] else []
  }

  /** Not being listed ends a run like an evaluation below the threshold. */
  function AgentRound(cfg: BandwidthConfig, list: seq<Agent>, id: int, d: Direction): seq<bool> {
    if id in Ids(list) then Looks(cfg, list, id, d) else [false]
  }

  function AgentSamples(cfg: BandwidthConfig, rounds: seq<seq<Agent>>, id: int, d: Direction): seq<bool> {
    if rounds == [] then []
    else AgentSamples(cfg, rounds[..|rounds| - 1], id, d) + AgentRound(cfg, rounds[|rounds| - 1], id, d)
  }

  lemma AgentFiresCount(m: map<int, Evals>, at: int, id: int, d: Direction, need: int)
    ensures multiset(AgentFires(m, at, need))[Firing(id, d)]
         == if at == id && Run(OfDir(EvalsOf(m, id), d)) == need then 1 else 0
  {
    hide Run;
  }

  /** One look at the list: the history grows by the agent's evaluations, and they raise its alarms. */
  ghost predicate LookCounted(m: map<int, Evals>, cfg: BandwidthConfig, list: seq<Agent>, id: int, d: Direction) {
    var h, s := OfDir(EvalsOf(m, id), d), Looks(cfg, list, id, d);
    OfDir(EvalsOf(Looked(m, list, cfg), id), d) == h + s
    && multiset(Fired(m, list, cfg))[Firing(id, d)] == Raised(Run(h), s, cfg.Need())
  }

  lemma BothGrows(m: map<int, Evals>, cfg: BandwidthConfig, a: Agent, id: int, d: Direction)
    ensures var after := Both(m, a.id, cfg.OverIn(SumRx(a.rates) * 8.0), cfg.OverOut(SumTx(a.rates) * 8.0));
      OfDir(EvalsOf(after, id), d) == OfDir(EvalsOf(m, id), d) + if a.id == id then [Over(cfg, a, d)] else []
  {
    hide SumRx, SumTx, BandwidthConfig.OverIn, BandwidthConfig.OverOut;
    var e := OfDir(EvalsOf(m, id), d);
    assert e + [] == e;
  }

  lemma LookedAtOne(m: map<int, Evals>, cfg: BandwidthConfig, init: seq<Agent>, a: Agent, id: int, d: Direction)
    requires LookCounted(m, cfg, init, id, d)
    ensures LookCounted(m, cfg, init + [a], id, d)
  {
    hide AgentFires, Run, Both, Over, SumRx, SumTx, BandwidthConfig.OverIn, BandwidthConfig.OverOut,
         BandwidthConfig.Need, Raised;
    var list := init + [a];
    assert list[..|init|] == init;
    var h, s := OfDir(EvalsOf(m, id), d), Looks(cfg, init, id, d);
    var before, after := Looked(m, init, cfg), Looked(m, list, cfg);
    if a.online {
      BothGrows(before, cfg, a, id, d);
      AgentFiresCount(after, a.id, id, d, cfg.Need());
      if a.id == id {
        var s1 := s + [Over(cfg, a, d)];
        assert Looks(cfg, list, id, d) == s1 && h + s + [Over(cfg, a, d)] == h + s1;
        RaisedStep(Run(h), s, Over(cfg, a, d), cfg.Need());
        RunOfMore(h, s1);
      } else {
        assert Looks(cfg, list, id, d) == s && h + s + [] == h + s;
      }
    } else {
      assert Looks(cfg, list, id, d) == s;
    }
  }

  lemma RunOfMore(evals: seq<bool>, s: seq<bool>)
    ensures Run(evals + s) == RunFrom(Run(evals), s)
  {
    Continued(evals, s, 1);
  }

  lemma {:induction false} LookCounts(m: map<int, Evals>, cfg: BandwidthConfig, list: seq<Agent>, id: int, d: Direction)
    ensures LookCounted(m, cfg, list, id, d)
  {
    if list == [] {
      NotLooked(m, cfg, id, d);
    } else {
      hide LookCounted;
      var init, a := list[..|list| - 1], list[|list| - 1];
      assert list == init + [a];
      LookCounts(m, cfg, init, id, d);
      LookedAtOne(m, cfg, init, a, id, d);
    }
  }

  lemma NotLooked(m: map<int, Evals>, cfg: BandwidthConfig, id: int, d: Direction)
    ensures LookCounted(m, cfg, [], id, d)
  {
    var h := OfDir(EvalsOf(m, id), d);
    assert h + [] == h;
  }

  /** The manager's history of an agent has the current run of its samples. */
  ghost predicate Follows(m: map<int, Evals>, cfg: BandwidthConfig, rounds: seq<seq<Agent>>, fired: seq<Firing>) {
    forall id: int, d: Direction ::
      Run(OfDir(EvalsOf(m, id), d)) == Run(AgentSamples(cfg, rounds, id, d))
      && multiset(fired)[Firing(id, d)] == |Times(AgentSamples(cfg, rounds, id, d), cfg.Need())|
  }

  lemma NobodyListed(cfg: BandwidthConfig, list: seq<Agent>, id: int, d: Direction)
    requires id !in Ids(list)
    ensures Looks(cfg, list, id, d) == []
  {
    hide Over;
    if list != [] {
      var init := list[..|list| - 1];
      assert list[|list| - 1] in list && forall a | a in init :: a in list;
      NobodyListed(cfg, init, id, d);
    }
  }

  lemma RoundCounts(m: map<int, Evals>, cfg: BandwidthConfig, rounds: seq<seq<Agent>>, list: seq<Agent>,
                    fired: seq<Firing>, id: int, d: Direction)
    requires Follows(m, cfg, rounds, fired)
    ensures var samples := AgentSamples(cfg, rounds, id, d) + AgentRound(cfg, list, id, d);
      Run(OfDir(EvalsOf(Kept(Looked(m, list, cfg), Ids(list)), id), d)) == Run(samples)
      && multiset(fired + Fired(m, list, cfg))[Firing(id, d)] == |Times(samples, cfg.Need())|
  {
    hide Times, Looked, Fired, Looks, Over, Ids, BandwidthConfig.Need;
    var s, h := AgentSamples(cfg, rounds, id, d), OfDir(EvalsOf(m, id), d);
    LookCounts(m, cfg, list, id, d);
    assert Run(h) == Run(s) && multiset(fired)[Firing(id, d)] == |Times(s, cfg.Need())|;
    if id in Ids(list) {
      Continued(h, Looks(cfg, list, id, d), cfg.Need());
      Continued(s, Looks(cfg, list, id, d), cfg.Need());
    } else {
      NobodyListed(cfg, list, id, d);
      RunStep(s, false);
      OneMore(s, false, cfg.Need());
      NeedIsPositive(cfg);
    }
  }

  lemma NeedIsPositive(cfg: BandwidthConfig)
    ensures cfg.Need() >= 1
  {}

  /** The agents' rule over any number of rounds: one alarm per agent, direction and long run. */
  method WatchAgents(m: Manager, cfg: BandwidthConfig, rounds: seq<seq<Agent>>) returns (fired: seq<Firing>)
    requires m.Valid() && m.agents == map[] && cfg.enabled
    modifies m
    ensures m.Valid()
    ensures forall id: int, d: Direction ::
      multiset(fired)[Firing(id, d)] == |LongRuns(AgentSamples(cfg, rounds, id, d), cfg.Need())|
  {
    hide Run, Times, LongRuns, Follows, AgentRound, Looked, Fired, Kept, Ids, BandwidthConfig.Need;
    fired := [];
    NoAgents(cfg);
    for i := 0 to |rounds|
      invariant m.Valid() && Follows(m.agents, cfg, rounds[..i], fired)
    {
      ghost var was, sofar := m.agents, fired;
      var more := m.CheckAgentBandwidth(cfg, rounds[i]);
      fired := fired + more;
      RoundFollows(was, cfg, rounds, i, sofar);
    }
    assert rounds[..|rounds|] == rounds;
    AlarmsFollow(m.agents, cfg, rounds, fired);
  }

  lemma NoAgents(cfg: BandwidthConfig)
    ensures Follows(map[], cfg, [], [])
  {
    NoTimes(cfg.Need());
  }

  lemma RoundFollows(m: map<int, Evals>, cfg: BandwidthConfig, rounds: seq<seq<Agent>>, i: nat, fired: seq<Firing>)
    requires i < |rounds| && Follows(m, cfg, rounds[..i], fired)
    ensures Follows(Kept(Looked(m, rounds[i], cfg), Ids(rounds[i])), cfg, rounds[..i + 1], fired
      + Fired(m, rounds[i], cfg))
  {
    hide Run, Times, AgentRound, Looked, Fired, Kept, Ids, BandwidthConfig.Need, OfDir, EvalsOf;
    assert rounds[..i + 1][..i] == rounds[..i];
    forall id: int, d: Direction
      ensures Run(OfDir(EvalsOf(Kept(Looked(m, rounds[i], cfg), Ids(rounds[i])), id), d))
              == Run(AgentSamples(cfg, rounds[..i + 1], id, d))
      ensures multiset(fired + Fired(m, rounds[i], cfg))[Firing(id, d)]
              == |Times(AgentSamples(cfg, rounds[..i + 1], id, d), cfg.Need())|
    {
      RoundCounts(m, cfg, rounds[..i], rounds[i], fired, id, d);
    }
  }

  lemma AlarmsFollow(m: map<int, Evals>, cfg: BandwidthConfig, rounds: seq<seq<Agent>>, fired: seq<Firing>)
    requires Follows(m, cfg, rounds, fired)
    ensures forall id: int, d: Direction ::
      multiset(fired)[Firing(id, d)] == |LongRuns(AgentSamples(cfg, rounds, id, d), cfg.Need())|
  {
    hide Run, Times, LongRuns, AgentSamples;
    NeedIsPositive(cfg);
    forall id: int, d: Direction
      ensures multiset(fired)[Firing(id, d)] == |LongRuns(AgentSamples(cfg, rounds, id, d), cfg.Need())|
    {
      OneAlarmPerLongRun(AgentSamples(cfg, rounds, id, d), cfg.Need());
    }
  }

  // ----- interfaces -----

  /** The evaluations of one interface and direction in one round. */
  function Values(cfg: IfaceConfig, readings: seq<Reading>, k: Key): seq<bool> {
    if readings == [] then []
    else
      var r := readings[|readings| - 1];
      Values(cfg, readings[..|readings| - 1], k) + if r.key == k then [r.pct >= cfg.Threshold()] else []
  }

  /** A failed device list is no evaluation; not being evaluated when others are ends a run. */
  function IfaceRound(cfg: IfaceConfig, devices: Option<seq<Device>>, k: Key): seq<bool> {
    match devices
    case None => []
    case Some(ds) => if k in Keys(OfDevices(ds)) then Values(cfg, OfDevices(ds), k) else [false]
  }

  function IfaceSamples(cfg: IfaceConfig, rounds: seq<Option<seq<Device>>>, k: Key): seq<bool> {
    if rounds == [] then []
    else IfaceSamples(cfg, rounds[..|rounds| - 1], k) + IfaceRound(cfg, rounds[|rounds| - 1], k)
  }

  function CountOf(fired: seq<IfaceFiring>, k: Key): nat {
    if fired == [] then 0 else CountOf(fired[..|fired| - 1], k) + if fired[|fired| - 1].key == k then 1 else 0
  }

  lemma {:induction false} CountAdds(a: seq<IfaceFiring>, b: seq<IfaceFiring>, k: Key)
    ensures CountOf(a + b, k) == CountOf(a, k) + CountOf(b, k)
  {
    if b == [] {
      assert a + b == a;
    } else {
      assert (a + b)[..|a + b| - 1] == a + b[..|b| - 1];
      CountAdds(a, b[..|b| - 1], k);
    }
  }

  ghost predicate ReadCounted(m: map<Key, seq<bool>>, cfg: IfaceConfig, readings: seq<Reading>, k: Key) {
    var h, s := History(m, k), Values(cfg, readings, k);
    History(Read(m, readings, cfg), k) == h + s
    && CountOf(IfacesFired(m, readings, cfg), k) == Raised(Run(h), s, cfg.Need())
  }

  lemma IfaceFiresCount(m: map<Key, seq<bool>>, r: Reading, cfg: IfaceConfig, k: Key)
    ensures CountOf(IfaceFires(m, r, cfg), k) == if r.key == k && Run(History(m, k)) == cfg.Need() then 1 else 0
  {
    hide Run;
    var fired := IfaceFires(m, r, cfg);
    if fired != [] { assert fired[..0] == []; }
  }

  lemma ReadOne(m: map<Key, seq<bool>>, cfg: IfaceConfig, init: seq<Reading>, r: Reading, k: Key)
    requires ReadCounted(m, cfg, init, k)
    ensures ReadCounted(m, cfg, init + [r], k)
  {
    hide IfaceFires, Run, Read, IfacesFired, Raised, CountOf, IfaceConfig.Threshold, IfaceConfig.Need;
    var readings := init + [r];
    assert readings[..|init|] == init;
    var h, s := History(m, k), Values(cfg, init, k);
    var before, after := Read(m, init, cfg), Read(m, readings, cfg);
    ReadStep(m, init, r, cfg);
    IfaceFiresCount(after, r, cfg, k);
    CountAdds(IfacesFired(m, init, cfg), IfaceFires(after, r, cfg), k);
    if r.key == k {
      var s1 := s + [r.pct >= cfg.Threshold()];
      assert Values(cfg, readings, k) == s1 && h + s + [r.pct >= cfg.Threshold()] == h + s1;
      RaisedStep(Run(h), s, r.pct >= cfg.Threshold(), cfg.Need());
      RunOfMore(h, s1);
    } else {
      assert Values(cfg, readings, k) == s && History(after, k) == History(before, k);
    }
  }

  lemma {:induction false} ReadCounts(m: map<Key, seq<bool>>, cfg: IfaceConfig, readings: seq<Reading>, k: Key)
    ensures ReadCounted(m, cfg, readings, k)
  {
    if readings == [] {
      assert History(m, k) + [] == History(m, k);
    } else {
      hide ReadCounted;
      var init, r := readings[..|readings| - 1], readings[|readings| - 1];
      assert readings == init + [r];
      ReadCounts(m, cfg, init, k);
      ReadOne(m, cfg, init, r, k);
    }
  }

  lemma {:induction false} NotRead(cfg: IfaceConfig, readings: seq<Reading>, k: Key)
    requires k !in Keys(readings)
    ensures Values(cfg, readings, k) == []
  {
    if readings != [] {
      var init := readings[..|readings| - 1];
      assert readings[|readings| - 1] in readings && forall r | r in init :: r in readings;
      NotRead(cfg, init, k);
    }
  }

  ghost predicate KeyFollows(m: map<Key, seq<bool>>, cfg: IfaceConfig, rounds: seq<Option<seq<Device>>>,
                             fired: seq<IfaceFiring>, k: Key)
  {
    Run(History(m, k)) == Run(IfaceSamples(cfg, rounds, k))
    && CountOf(fired, k) == |Times(IfaceSamples(cfg, rounds, k), cfg.Need())|
  }

  lemma KeyRound(m: map<Key, seq<bool>>, cfg: IfaceConfig, rounds: seq<Option<seq<Device>>>, i: nat,
                 fired: seq<IfaceFiring>, k: Key)
    requires i < |rounds| && rounds[i].Some? && KeyFollows(m, cfg, rounds[..i], fired, k)
    ensures var readings := OfDevices(rounds[i].value);
      KeyFollows(KeptKeys(Read(m, readings, cfg), Keys(readings)), cfg, rounds[..i + 1], fired
        + IfacesFired(m, readings, cfg), k)
  {
    hide Times, Read, IfacesFired, Values, Keys, OfDevices, CountOf, IfaceConfig.Need, Run;
    var readings := OfDevices(rounds[i].value);
    var s, h := IfaceSamples(cfg, rounds[..i], k), History(m, k);
    assert rounds[..i + 1][..i] == rounds[..i];
    ReadCounts(m, cfg, readings, k);
    CountAdds(fired, IfacesFired(m, readings, cfg), k);
    if k in Keys(readings) {
      Continued(h, Values(cfg, readings, k), cfg.Need());
      Continued(s, Values(cfg, readings, k), cfg.Need());
    } else {
      NotRead(cfg, readings, k);
      NoRun(cfg);
      RunStep(s, false);
      OneMore(s, false, cfg.Need());
    }
  }

  lemma NoRun(cfg: IfaceConfig)
    ensures cfg.Need() >= 1 && Run([]) == 0 && Raised(0, [], cfg.Need()) == 0
    ensures forall r :: Raised(r, [], cfg.Need()) == 0
  {}

  lemma KeyNoRound(m: map<Key, seq<bool>>, cfg: IfaceConfig, rounds: seq<Option<seq<Device>>>, i: nat,
                   fired: seq<IfaceFiring>, k: Key)
    requires i < |rounds| && rounds[i] == None && KeyFollows(m, cfg, rounds[..i], fired, k)
    ensures KeyFollows(m, cfg, rounds[..i + 1], fired, k)
  {
    hide Times, Run, CountOf, IfaceConfig.Need;
    assert rounds[..i + 1][..i] == rounds[..i];
    var s := IfaceSamples(cfg, rounds[..i], k);
    assert s + [] == s;
  }

  lemma NoIfaces(cfg: IfaceConfig, k: Key)
    ensures KeyFollows(map[], cfg, [], [], k)
  {
    NoTimes(cfg.Need());
  }

  lemma IfaceAlarms(m: map<Key, seq<bool>>, cfg: IfaceConfig, rounds: seq<Option<seq<Device>>>,
                    fired: seq<IfaceFiring>, k: Key)
    requires KeyFollows(m, cfg, rounds, fired, k)
    ensures CountOf(fired, k) == |LongRuns(IfaceSamples(cfg, rounds, k), cfg.Need())|
  {
    hide Times, LongRuns, Run, IfaceSamples, CountOf;
    NoRun(cfg);
    OneAlarmPerLongRun(IfaceSamples(cfg, rounds, k), cfg.Need());
  }

  /** The interfaces' rule over any number of rounds: one alarm per interface, direction and long run. */
  method WatchIfaces(m: Manager, cfg: IfaceConfig, rounds: seq<Option<seq<Device>>>) returns (fired: seq<IfaceFiring>)
    requires m.Valid() && m.ifaces == map[] && cfg.Active()
    modifies m
    ensures m.Valid()
    ensures forall k :: CountOf(fired, k) == |LongRuns(IfaceSamples(cfg, rounds, k), cfg.Need())|
  {
    hide Run, LongRuns, KeyFollows, CountOf, Read, IfacesFired, Keys, KeptKeys, OfDevices, IfaceSamples,
         IfaceConfig.Need, IfaceConfig.Active;
    fired := [];
    forall k ensures KeyFollows(map[], cfg, [], [], k) { NoIfaces(cfg, k); }
    for i := 0 to |rounds|
      invariant m.Valid() && forall k :: KeyFollows(m.ifaces, cfg, rounds[..i], fired, k)
    {
      ghost var was, sofar := m.ifaces, fired;
      var more := m.CheckIfaceUtil(cfg, rounds[i]);
      fired := fired + more;
      assert sofar + [] == sofar;
      ghost var upTo := rounds[..i + 1];
      forall k ensures KeyFollows(m.ifaces, cfg, upTo, fired, k) {
        if rounds[i] == None { KeyNoRound(was, cfg, rounds, i, sofar, k); }
        else { KeyRound(was, cfg, rounds, i, sofar, k); }
      }
    }
    assert rounds[..|rounds|] == rounds;
    forall k ensures CountOf(fired, k) == |LongRuns(IfaceSamples(cfg, rounds, k), cfg.Need())| {
      IfaceAlarms(m.ifaces, cfg, rounds, fired, k);
    }
  }
}
