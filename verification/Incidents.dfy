/** The correlation rules over one agent's alerts: internal/incident/rules.go. */
module Incidents {
  import opened Numbers
  import opened Wrappers

  datatype Alert = Alert(id: int, kind: string, severity: string, ts: int)

  const SUSPICIOUS := {"proc", "port", "target", "ioc", "anomaly", "bw", "iface_util"}

  function SevRank(s: string): int { if s == "crit" then 3 else if s == "warn" then 2 else 1 }

  function MaxSev(a: string, b: string): string { if SevRank(a) >= SevRank(b) then a else b }

  function AbsTs(a: int, b: int): nat { if a > b then a - b else b - a }

  predicate Suspicious(a: Alert) { a.kind in SUSPICIOUS }

  predicate InOrder(cluster: seq<Alert>) { forall i, j | 0 <= i < j < |cluster| :: cluster[i].ts <= cluster[j].ts }

  // ----- rule 5: the largest group -----

  /** Suspicious alerts, named by their places, that span at most `w`. */
  predicate Fits(cluster: seq<Alert>, places: set<nat>, w: int) {
    (forall i | i in places :: i < |cluster| && Suspicious(cluster[i]))
    && forall i, j | i in places && j in places :: cluster[i].ts - cluster[j].ts <= w
  }

  /** `group` lists the alerts at these places in order. */
  predicate Lists(cluster: seq<Alert>, places: seq<nat>, group: seq<Alert>) {
    |places| == |group|
    && (forall k | 0 <= k < |places| :: places[k] < |cluster| && group[k] == cluster[places[k]])
    && forall k, l | 0 <= k < l < |places| :: places[k] < places[l]
  }

  /** A group of suspicious alerts of the cluster, in order, that span at most `w`. */
  ghost predicate FitsWithin(cluster: seq<Alert>, w: int, group: seq<Alert>) {
    exists places :: Lists(cluster, places, group) && Fits(cluster, SetOf(places), w)
  }

  function SetOf(places: seq<nat>): set<nat> { set i | i in places }

  /** The group that starts at `i` once the inner loop has passed the first places. */
  ghost predicate GroupUpTo(cluster: seq<Alert>, i: nat, end: nat, w: int, places: seq<nat>) {
    i < |cluster|
    && (forall p | p in places ::
      i <= p < end && p < |cluster| && Suspicious(cluster[p]) && cluster[p].ts - cluster[i].ts <= w)
    && forall p | i <= p < end && p < |cluster| && Suspicious(cluster[p]) && cluster[p].ts - cluster[i].ts <= w ::
      p in places
  }

  /** The group of all suspicious alerts from place `i` on that are at most `w` later. */
  ghost predicate GroupAt(cluster: seq<Alert>, i: nat, w: int, grp: seq<Alert>) {
    exists places :: Lists(cluster, places, grp) && GroupUpTo(cluster, i, |cluster|, w, places)
  }

  method GroupFrom(cluster: seq<Alert>, i: nat, w: int) returns (grp: seq<Alert>)
    requires i < |cluster| && InOrder(cluster)
    ensures GroupAt(cluster, i, w, grp)
  {
    ghost var places: seq<nat> := [];
    grp := [];
    for j := i to |cluster|
      invariant Lists(cluster, places, grp) && GroupUpTo(cluster, i, j, w, places)
    {
      if Suspicious(cluster[j]) {
        if cluster[j].ts - cluster[i].ts > w {
          assert GroupUpTo(cluster, i, |cluster|, w, places);
          return;
        }
        grp, places := grp + [cluster[j]], places + [j];
      }
    }
  }

  /** A group that starts at `i` fits, and holds every fitting set whose first place is `i`. */
  lemma GroupIsLargest(cluster: seq<Alert>, i: nat, w: int, grp: seq<Alert>)
    requires InOrder(cluster) && i < |cluster| && GroupAt(cluster, i, w, grp)
    ensures FitsWithin(cluster, w, grp)
    ensures forall s: set<nat> | Fits(cluster, s, w) && i in s && (forall p | p in s :: i <= p) :: |s| <= |grp|
  {
    var places :| Lists(cluster, places, grp) && GroupUpTo(cluster, i, |cluster|, w, places);
    GroupFits(cluster, i, w, places);
    hide Fits, GroupUpTo, InOrder;
    forall s: set<nat> | Fits(cluster, s, w) && i in s && (forall p | p in s :: i <= p) ensures |s| <= |grp| {
      GroupHolds(cluster, i, w, places, s);
      SetSizeExact(places);
    }
  }

  lemma GroupFits(cluster: seq<Alert>, i: nat, w: int, places: seq<nat>)
    requires InOrder(cluster) && GroupUpTo(cluster, i, |cluster|, w, places)
    ensures Fits(cluster, SetOf(places), w)
  {}

  lemma GroupHolds(cluster: seq<Alert>, i: nat, w: int, places: seq<nat>, s: set<nat>)
    requires GroupUpTo(cluster, i, |cluster|, w, places) && Fits(cluster, s, w) && i in s && forall p | p in s :: i <= p
    ensures |s| <= |SetOf(places)|
  {
    forall p | p in s ensures p in places { assert cluster[p].ts - cluster[i].ts <= w; }
    hide Fits, GroupUpTo;
    SubsetSize(s, SetOf(places));
  }

  lemma {:induction false} Least(s: set<nat>) returns (i: nat)
    requires s != {}
    ensures i in s && forall p | p in s :: i <= p
  {
    var x :| x in s;
    if s == {x} {
      i := x;
    } else {
      i := Least(s - {x});
      if x < i { i := x; }
      assert forall p | p in s :: p == x || p in s - {x};
    }
  }

  /** A largest set of suspicious alerts that span at most `w`, in order. */
  method ClusterInWindow(cluster: seq<Alert>, w: nat) returns (best: seq<Alert>)
    requires InOrder(cluster)
    ensures FitsWithin(cluster, w, best)
    ensures forall s: set<nat> | Fits(cluster, s, w) :: |s| <= |best|
  {
    best := [];
    assert Lists(cluster, [], best) && Fits(cluster, SetOf([]), w);
    for i := 0 to |cluster|
      invariant FitsWithin(cluster, w, best)
      invariant forall s: set<nat> | Fits(cluster, s, w) && StartsBefore(s, i) :: |s| <= |best|
    {
      if Suspicious(cluster[i]) {
        var grp := GroupFrom(cluster, i, w);
        GroupIsLargest(cluster, i, w, grp);
        if |grp| > |best| { best := grp; }
      }
      forall s: set<nat> | Fits(cluster, s, w) && StartsBefore(s, i + 1) ensures |s| <= |best| {
        if !StartsBefore(s, i) { assert i in s && forall p | p in s :: i <= p; }
      }
    }
    forall s: set<nat> | Fits(cluster, s, w) ensures |s| <= |best| {
      if s != {} {
        var i := Least(s);
        assert StartsBefore(s, |cluster|);
      }
    }
  }

  /** The set has a place before `n`, or none at all. */
  ghost predicate StartsBefore(s: set<nat>, n: nat) { s == {} || exists p :: p in s && p < n }

  // ----- pairs of kinds -----

  predicate Near(a: Alert, anchor: Alert, w: int) { AbsTs(a.ts, anchor.ts) <= w }

  /** More severe, or as severe and newer. */
  predicate Better(a: Alert, b: Alert) {
    SevRank(a.severity) > SevRank(b.severity) || (SevRank(a.severity) == SevRank(b.severity) && a.ts > b.ts)
  }

  /** Around the i-th alert every one of the kinds occurs. */
  predicate AllKindsNear(cluster: seq<Alert>, kinds: set<string>, w: int, i: nat)
    requires i < |cluster|
  {
    cluster[i].kind in kinds && forall k | k in kinds :: KindNear(cluster, k, w, i)
  }

  predicate KindNear(cluster: seq<Alert>, kind: string, w: int, i: nat)
    requires i < |cluster|
  {
    exists a | a in cluster :: a.kind == kind && Near(a, cluster[i], w)
  }

  /** What has been seen around an anchor after the first `n` alerts: for each kind the best one. */
  ghost predicate Seen(cluster: seq<Alert>, kinds: set<string>, w: int, i: nat, n: nat, seen: map<string, Alert>) {
    i < |cluster| && n <= |cluster| && seen.Keys <= kinds && cluster[i].kind in seen
    && (forall k | k in seen :: seen[k].kind == k && seen[k] in cluster && Near(seen[k], cluster[i], w))
    && forall j | 0 <= j < |cluster| && (j < n || j == i)
                  && cluster[j].kind in kinds && Near(cluster[j], cluster[i], w) ::
         cluster[j].kind in seen && !Better(cluster[j], seen[cluster[j].kind])
  }

  method SeenAround(cluster: seq<Alert>, kinds: set<string>, w: nat, i: nat) returns (seen: map<string, Alert>)
    requires i < |cluster| && cluster[i].kind in kinds
    ensures Seen(cluster, kinds, w, i, |cluster|, seen)
  {
    var anchor := cluster[i];
    seen := map[anchor.kind := anchor];
    for j := 0 to |cluster|
      invariant Seen(cluster, kinds, w, i, j, seen)
    {
      var c := cluster[j];
      if j != i && c.kind in kinds && AbsTs(c.ts, anchor.ts) <= w {
        if c.kind !in seen || Better(c, seen[c.kind]) { seen := seen[c.kind := c]; }
      }
    }
  }

  /** One alert of each kind near one anchor: of its kind the most severe there, and the newest of those. */
  ghost predicate Evidence(cluster: seq<Alert>, kinds: set<string>, w: int, evs: seq<Alert>) {
    |evs| == |kinds| && exists i :: EvidenceAt(cluster, kinds, w, i, evs)
  }

  ghost predicate EvidenceAt(cluster: seq<Alert>, kinds: set<string>, w: int, i: int, evs: seq<Alert>) {
    0 <= i < |cluster| && (forall k | k in kinds :: exists e :: e in evs && e.kind == k)
    && forall e | e in evs ::
      e in cluster && e.kind in kinds && Near(e, cluster[i], w) && BestNear(cluster, w, cluster[i], e)
  }

  predicate BestNear(cluster: seq<Alert>, w: int, anchor: Alert, e: Alert) {
    forall a | a in cluster && a.kind == e.kind && Near(a, anchor, w) :: !Better(a, e)
  }

  method ValuesOf(seen: map<string, Alert>) returns (evs: seq<Alert>)
    ensures |evs| == |seen| && (forall e | e in evs :: e in seen.Values) && forall k | k in seen :: seen[k] in evs
  {
    evs := [];
    var left := seen.Keys;
    while left != {}
      invariant left <= seen.Keys && |evs| + |left| == |seen.Keys|
      invariant (forall e | e in evs :: e in seen.Values) && forall k | k in seen && k !in left :: seen[k] in evs
      decreases |left|
    {
      var k :| k in left;
      left := left - {k};
      evs := evs + [seen[k]];
    }
    assert |seen.Keys| == |seen|;
  }

  method Has(cluster: seq<Alert>, kinds: set<string>, w: nat) returns (found: Option<seq<Alert>>)
    ensures found.Some? <==> exists i | 0 <= i < |cluster| :: AllKindsNear(cluster, kinds, w, i)
    ensures found.Some? ==> Evidence(cluster, kinds, w, found.value)
  {
    for i := 0 to |cluster|
      invariant forall j | 0 <= j < i :: !AllKindsNear(cluster, kinds, w, j)
    {
      if cluster[i].kind in kinds {
        var seen := SeenAround(cluster, kinds, w, i);
        SeenMeans(cluster, kinds, w, i, seen);
        if |seen| == |kinds| {
          var evs := ValuesOf(seen);
          SeenIsEvidence(cluster, kinds, w, i, seen, evs);
          return Some(evs);
        }
      }
    }
    return None;
  }

  lemma SeenMeans(cluster: seq<Alert>, kinds: set<string>, w: nat, i: nat, seen: map<string, Alert>)
    requires Seen(cluster, kinds, w, i, |cluster|, seen)
    ensures |seen| == |kinds| <==> AllKindsNear(cluster, kinds, w, i)
  {
    assert |seen.Keys| == |seen|;
    SubsetSize(seen.Keys, kinds);
    forall k | k in kinds ensures k in seen <==> KindNear(cluster, k, w, i) {
      if k in seen { assert seen[k] in cluster; }
    }
    if |seen| == |kinds| {
      forall k | k in kinds ensures KindNear(cluster, k, w, i) { assert k in seen.Keys; }
    }
    if AllKindsNear(cluster, kinds, w, i) { assert kinds == seen.Keys; }
  }

  lemma SeenIsEvidence(cluster: seq<Alert>, kinds: set<string>, w: nat, i: nat, seen: map<string, Alert>,
                       evs: seq<Alert>)
    requires Seen(cluster, kinds, w, i, |cluster|, seen) && |seen| == |kinds| == |evs|
    requires (forall e | e in evs :: e in seen.Values) && forall k | k in seen :: seen[k] in evs
    ensures Evidence(cluster, kinds, w, evs)
  {
    assert |seen.Keys| == |seen|;
    SubsetSize(seen.Keys, kinds);
    forall e | e in evs
      ensures e in cluster && e.kind in kinds && Near(e, cluster[i], w) && BestNear(cluster, w, cluster[i], e)
    {
      assert e.kind in seen && seen[e.kind] == e;
    }
    assert EvidenceAt(cluster, kinds, w, i, evs);
  }

  /** With two kinds the search succeeds exactly when some pair of them lies within the window. */
  predicate Pair(cluster: seq<Alert>, k1: string, k2: string, w: int) {
    exists a, b | a in cluster && b in cluster :: a.kind == k1 && b.kind == k2 && Near(a, b, w)
  }

  lemma TwoKinds(cluster: seq<Alert>, k1: string, k2: string, w: nat)
    requires k1 != k2
    ensures (exists i | 0 <= i < |cluster| :: AllKindsNear(cluster, {k1, k2}, w, i)) <==> Pair(cluster, k1, k2, w)
  {
    if Pair(cluster, k1, k2, w) {
      var a, b :| a in cluster && b in cluster && a.kind == k1 && b.kind == k2 && Near(a, b, w);
      var i :| 0 <= i < |cluster| && cluster[i] == b;
      assert Near(b, b, w) && AllKindsNear(cluster, {k1, k2}, w, i);
    }
    forall i | 0 <= i < |cluster| && AllKindsNear(cluster, {k1, k2}, w, i) ensures Pair(cluster, k1, k2, w) {
      assert KindNear(cluster, k1, w, i) && KindNear(cluster, k2, w, i);
      if cluster[i].kind == k1 {
        var b :| b in cluster && b.kind == k2 && Near(b, cluster[i], w);
        assert Near(cluster[i], b, w);
      } else {
        var a :| a in cluster && a.kind == k1 && Near(a, cluster[i], w);
      }
    }
  }

  // ----- the rules -----

  datatype Match = Match(rule: int, severity: string, risk: int, firstTs: int, lastTs: int, evidence: seq<Alert>)

  function Insert(a: Alert, out: seq<Alert>): seq<Alert> {
    if out == [] || a.ts < out[0].ts then [a] + out else [out[0]] + Insert(a, out[1..])
  }

  /** sort.Slice by time. */
  function SortByTs(evs: seq<Alert>): seq<Alert> { if evs == [] then [] else Insert(evs[0], SortByTs(evs[1..])) }

  lemma PutInFront(a: Alert, rest: seq<Alert>)
    requires InOrder(rest) && (rest == [] || a.ts <= rest[0].ts)
    ensures InOrder([a] + rest)
  {
    forall i | 0 <= i < |rest| ensures a.ts <= rest[i].ts { assert rest[0].ts <= rest[i].ts; }
  }

  lemma TailInOrder(out: seq<Alert>)
    requires InOrder(out) && out != []
    ensures InOrder(out[1..]) && (|out| > 1 ==> out[0].ts <= out[1].ts)
  {}

  lemma {:induction false} InsertSorts(a: Alert, out: seq<Alert>)
    requires InOrder(out)
    ensures var r := Insert(a, out); InOrder(r) && r != [] && (r[0] == a || (out != [] && r[0] == out[0]))
  {
    hide InOrder;
    if out == [] || a.ts < out[0].ts {
      PutInFront(a, out);
    } else {
      TailInOrder(out);
      InsertSorts(a, out[1..]);
      PutInFront(out[0], Insert(a, out[1..]));
    }
  }

  lemma {:induction false} InsertAdds(a: Alert, out: seq<Alert>)
    ensures multiset(Insert(a, out)) == multiset(out) + multiset{a}
  {
    if out != [] {
      InsertAdds(a, out[1..]);
      assert out == [out[0]] + out[1..];
    }
  }

  lemma {:induction false} SortSorts(evs: seq<Alert>)
    ensures InOrder(SortByTs(evs)) && multiset(SortByTs(evs)) == multiset(evs)
  {
    if evs != [] {
      SortSorts(evs[1..]);
      InsertSorts(evs[0], SortByTs(evs[1..]));
      InsertAdds(evs[0], SortByTs(evs[1..]));
      hide InOrder, Insert;
      assert evs == [evs[0]] + evs[1..];
    }
  }

  lemma SortMembers(evs: seq<Alert>)
    ensures InOrder(SortByTs(evs)) && |SortByTs(evs)| == |evs| && forall e :: e in SortByTs(evs) <==> e in evs
  {
    hide SortByTs, InOrder;
    SortSorts(evs);
    var r := SortByTs(evs);
    assert |multiset(r)| == |multiset(evs)|;
    forall e ensures e in r <==> e in evs { assert e in multiset(r) <==> e in multiset(evs); }
  }

  const BASE: map<int, int> := map[1 := 55, 2 := 55, 3 := 40, 4 := 35, 5 := 30]

  /** The places of the critical alerts. */
  function Critical(evs: seq<Alert>): set<int> { set i | 0 <= i < |evs| && evs[i].severity == "crit" }

  /** The published score: rule, severity, five for every alert after the second up to twenty, and five for
      every critical one; never more than 100. */
  function Score(rule: int, sev: string, evs: seq<Alert>): (r: int)
    requires 1 <= rule <= 5
    ensures 0 <= r <= 100
  {
    var base := if rule <= 2 then 55 else if rule == 3 then 40 else if rule == 4 then 35 else 30;
    var severity := if sev == "crit" then 25 else if sev == "warn" then 10 else 0;
    var more := if |evs| <= 2 then 0 else if |evs| >= 6 then 20 else 5 * (|evs| - 2);
    var raw := base + severity + more + 5 * |Critical(evs)|;
    if raw > 100 then 100 else raw
  }

  lemma CriticalStep(evs: seq<Alert>, i: nat)
    requires i < |evs|
    ensures |Critical(evs[..i + 1])| == |Critical(evs[..i])| + if evs[i].severity == "crit" then 1 else 0
  {
    var before := Critical(evs[..i]);
    assert Critical(evs[..i + 1]) == if evs[i].severity == "crit" then before + {i} else before;
  }

  method RiskScore(rule: int, sev: string, evs: seq<Alert>) returns (s: int)
    requires 1 <= rule <= 5
    ensures s == Score(rule, sev, evs)
  {
    s := if rule in BASE then BASE[rule] else 0;
    if sev == "crit" { s := s + 25; } else if sev == "warn" { s := s + 10; }
    var n := |evs| - 2;
    if n > 0 { s := s + if n * 5 < 20 then n * 5 else 20; }
    ghost var start := s;
    assert Critical(evs[..0]) == {};
    for i := 0 to |evs|
      invariant s == start + 5 * |Critical(evs[..i])|
    {
      CriticalStep(evs, i);
      if evs[i].severity == "crit" { s := s + 5; }
    }
    assert evs[..|evs|] == evs;
    if s > 100 { s := 100; }
    if s < 0 { s := 0; }
  }

  /** The highest of the floor and the severities seen. */
  predicate IsHighest(sev: string, least: string, evs: seq<Alert>) {
    SevRank(sev) >= SevRank(least) && (forall e | e in evs :: SevRank(sev) >= SevRank(e.severity))
    && (sev == least || exists e | e in evs :: e.severity == sev)
  }

  method Mk(rule: int, least: string, evs: seq<Alert>) returns (m: Match)
    requires 1 <= rule <= 5 && evs != []
    ensures m.rule == rule && IsMatchOf(m, least, evs)
  {
    hide InOrder, SortByTs;
    var sorted := SortByTs(evs);
    SortMembers(evs);
    var sev := least;
    for i := 0 to |sorted|
      invariant IsHighest(sev, least, sorted[..i])
    {
      HighestStep(sev, least, sorted, i);
      sev := MaxSev(sev, sorted[i].severity);
    }
    assert sorted[..|sorted|] == sorted;
    var risk := RiskScore(rule, sev, sorted);
    m := Match(rule, sev, risk, sorted[0].ts, sorted[|sorted| - 1].ts, sorted);
  }

  lemma HighestStep(sev: string, least: string, evs: seq<Alert>, i: nat)
    requires i < |evs| && IsHighest(sev, least, evs[..i])
    ensures IsHighest(MaxSev(sev, evs[i].severity), least, evs[..i + 1])
  {
    assert evs[..i + 1] == evs[..i] + [evs[i]];
    assert forall e | e in evs[..i] :: e in evs[..i + 1];
    assert evs[i] in evs[..i + 1];
  }

  /** The severity is the highest of the rule's own and its evidence's, and the risk is their score. */
  predicate Rated(m: Match, least: string) {
    1 <= m.rule <= 5 && IsHighest(m.severity, least, m.evidence) && m.risk == Score(m.rule, m.severity, m.evidence)
  }

  /** The match that mk builds: sorted evidence, its first and last time, its severity and risk. */
  predicate IsMatchOf(m: Match, least: string, evs: seq<Alert>) {
    m.evidence == SortByTs(evs) && m.evidence != [] && Rated(m, least)
    && m.firstTs == m.evidence[0].ts && m.lastTs == m.evidence[|m.evidence| - 1].ts
  }

  /** Alerts that are pairwise at most `span` apart ground a match. */
  lemma MatchIsGrounded(m: Match, least: string, evs: seq<Alert>, cluster: seq<Alert>, span: int)
    requires IsMatchOf(m, least, evs) && (forall e | e in evs :: e in cluster)
    requires forall e, f | e in evs && f in evs :: e.ts - f.ts <= span
    ensures Grounded(m, cluster, span)
  {
    SortMembers(evs);
    hide SortByTs;
    var ev := m.evidence;
    forall e | e in ev ensures m.firstTs <= e.ts <= m.lastTs {
      var i :| 0 <= i < |ev| && ev[i] == e;
    }
    assert ev[0] in evs && ev[|ev| - 1] in evs;
  }

  /** When a rule applies. */
  ghost predicate Applies(rule: int, cluster: seq<Alert>, short: int, long: int, min5: int) {
    match rule
    case 1 => Pair(cluster, "proc", "target", short) || Pair(cluster, "proc", "ioc", short)
    case 2 => Pair(cluster, "proc", "port", short)
    case 3 => Pair(cluster, "target", "bw", long) || Pair(cluster, "ioc", "bw", long)
    case 4 => Pair(cluster, "anomaly", "bw", short)
    case 5 => exists s: set<nat> :: Fits(cluster, s, long) && |s| >= min5
    case _ => false
  }

  /** A match is about alerts of the cluster, spans at most `span`, and is as severe as the worst of them. */
  ghost predicate Grounded(m: Match, cluster: seq<Alert>, span: int) {
    (forall e | e in m.evidence ::
      e in cluster && m.firstTs <= e.ts <= m.lastTs && SevRank(m.severity) >= SevRank(e.severity))
    && m.lastTs - m.firstTs <= span && 0 <= m.risk <= 100
  }

  function Span(rule: int, short: int, long: int): int {
    if rule == 5 then long else if rule == 3 then 2 * long else 2 * short
  }

  ghost predicate PairOf(m: Match, cluster: seq<Alert>, k1: string, k2: string, w: int, least: string) {
    Evidence(cluster, {k1, k2}, w, m.evidence) && Rated(m, least)
  }

  /** What each rule shows: one alert of each of its kinds, a new target before a known threat, or a largest
      group; rated from the rule's own severity on. */
  ghost predicate Backed(m: Match, cluster: seq<Alert>, short: int, long: int, min5: int) {
    match m.rule
    case 1 => PairOf(m, cluster, "proc", if Pair(cluster, "proc", "target", short) then "target" else "ioc", short,
                     "crit")
    case 2 => PairOf(m, cluster, "proc", "port", short, "crit")
    case 3 => if Pair(cluster, "target", "bw", long) then PairOf(m, cluster, "target", "bw", long, "warn")
              else PairOf(m, cluster, "ioc", "bw", long, "crit")
    case 4 => PairOf(m, cluster, "anomaly", "bw", short, "warn")
    case 5 => LargestGroup(m.evidence, cluster, long, min5)
      && Rated(m, if |m.evidence| >= min5 + 2 then "crit" else "warn")
    case _ => false
  }

  ghost predicate LargestGroup(evs: seq<Alert>, cluster: seq<Alert>, w: int, min5: int) {
    |evs| >= min5 && (forall e | e in evs :: Suspicious(e)) && forall s: set<nat> | Fits(cluster, s, w) :: |s| <= |evs|
  }

  /** The matches found by the rules before `rule`. */
  ghost predicate Matched(out: seq<Match>, rule: int, cluster: seq<Alert>, short: int, long: int, min5: int) {
    (forall i, j | 0 <= i < j < |out| :: out[i].rule < out[j].rule)
    && (forall m | m in out ::
      1 <= m.rule < rule && Grounded(m, cluster, Span(m.rule, short, long)) && Backed(m, cluster, short, long, min5))
    && forall r | 1 <= r < rule :: Applies(r, cluster, short, long, min5) <==> exists m :: m in out && m.rule == r
  }

  /** One search for a pair of kinds. */
  method HasPair(cluster: seq<Alert>, k1: string, k2: string, w: nat, rule: int, least: string)
    returns (m: Option<Match>)
    requires 1 <= rule <= 5 && k1 != k2
    ensures m.Some? <==> Pair(cluster, k1, k2, w)
    ensures m.Some? ==>
      m.value.rule == rule && Grounded(m.value, cluster, 2 * w) && PairOf(m.value, cluster, k1, k2, w, least)
  {
    TwoKinds(cluster, k1, k2, w);
    var evs := Has(cluster, {k1, k2}, w);
    if evs == None { return None; }
    assert |{k1, k2}| == 2;
    var found := Mk(rule, least, evs.value);
    EvidenceIsClose(cluster, {k1, k2}, w, evs.value);
    MatchIsGrounded(found, least, evs.value, cluster, 2 * w);
    SortedEvidence(cluster, {k1, k2}, w, evs.value);
    return Some(found);
  }

  /** Evidence near one anchor spans at most twice the window. */
  lemma EvidenceIsClose(cluster: seq<Alert>, kinds: set<string>, w: nat, evs: seq<Alert>)
    requires Evidence(cluster, kinds, w, evs)
    ensures (forall e | e in evs :: e in cluster) && forall e, f | e in evs && f in evs :: e.ts - f.ts <= 2 * w
  {
    hide BestNear;
    var i :| EvidenceAt(cluster, kinds, w, i, evs);
    assert forall e | e in evs :: Near(e, cluster[i], w);
  }

  lemma {:induction false} SortedEvidence(cluster: seq<Alert>, kinds: set<string>, w: int, evs: seq<Alert>)
    requires Evidence(cluster, kinds, w, evs)
    ensures Evidence(cluster, kinds, w, SortByTs(evs))
  {
    hide BestNear, SortByTs;
    SortMembers(evs);
    var i :| EvidenceAt(cluster, kinds, w, i, evs);
    assert EvidenceAt(cluster, kinds, w, i, SortByTs(evs));
  }

  lemma {:induction false} MatchedStep(out: seq<Match>, rule: int, m: Option<Match>, cluster: seq<Alert>, short: int,
                                       long: int, min5: int)
    requires 1 <= rule && Matched(out, rule, cluster, short, long, min5)
      && (m.Some? <==> Applies(rule, cluster, short, long, min5))
    requires m.Some? ==>
      m.value.rule == rule && Grounded(m.value, cluster, Span(rule, short, long))
        && Backed(m.value, cluster, short, long, min5)
    ensures Matched(if m.Some? then out + [m.value] else out, rule + 1, cluster, short, long, min5)
  {
    hide Applies, Grounded, Backed;
    var out1 := if m.Some? then out + [m.value] else out;
    forall r | 1 <= r < rule + 1
      ensures Applies(r, cluster, short, long, min5) <==> exists m1 :: m1 in out1 && m1.rule == r
    {
      if r < rule { assert forall m1 :: m1 in out1 && m1.rule == r <==> m1 in out && m1.rule == r; }
      else if m.Some? { assert m.value in out1; }
    }
    forall i, j | 0 <= i < j < |out1| ensures out1[i].rule < out1[j].rule { assert out[i] in out; }
  }

  /** The deterministic rules: rule r is reported, once, exactly when it applies. */
  method MatchRules(cluster: seq<Alert>, short: nat, long: nat, rule5Min: int) returns (out: seq<Match>)
    requires InOrder(cluster) && rule5Min >= 2
    ensures Matched(out, 6, cluster, short, long, rule5Min)
  {
    hide Pair, Grounded, Fits, InOrder, Matched, IsMatchOf, Lists, PairOf, LargestGroup;
    out := [];
    assert Matched(out, 1, cluster, short, long, rule5Min) by { MatchedNone(cluster, short, long, rule5Min); }
    var m := HasPair(cluster, "proc", "target", short, 1, "crit");
    if m == None { m := HasPair(cluster, "proc", "ioc", short, 1, "crit"); }
    MatchedStep(out, 1, m, cluster, short, long, rule5Min);
    if m.Some? { out := out + [m.value]; }
    m := HasPair(cluster, "proc", "port", short, 2, "crit");
    MatchedStep(out, 2, m, cluster, short, long, rule5Min);
    if m.Some? { out := out + [m.value]; }
    m := HasPair(cluster, "target", "bw", long, 3, "warn");
    if m == None { m := HasPair(cluster, "ioc", "bw", long, 3, "crit"); }
    MatchedStep(out, 3, m, cluster, short, long, rule5Min);
    if m.Some? { out := out + [m.value]; }
    m := HasPair(cluster, "anomaly", "bw", short, 4, "warn");
    MatchedStep(out, 4, m, cluster, short, long, rule5Min);
    if m.Some? { out := out + [m.value]; }
    var evs := ClusterInWindow(cluster, long);
    ghost var places: seq<nat> :| Lists(cluster, places, evs) && Fits(cluster, SetOf(places), long);
    GroupMeans(cluster, long, evs, places);
    m := None;
    if |evs| >= rule5Min {
      var five := Mk(5, if |evs| >= rule5Min + 2 then "crit" else "warn", evs);
      MatchIsGrounded(five, if |evs| >= rule5Min + 2 then "crit" else "warn", evs, cluster, long);
      GroupIsBacked(five, if |evs| >= rule5Min + 2 then "crit" else "warn", evs, places, cluster, long, rule5Min);
      m := Some(five);
    }
    MatchedStep(out, 5, m, cluster, short, long, rule5Min);
    if m.Some? { out := out + [m.value]; }
  }

  lemma MatchedNone(cluster: seq<Alert>, short: int, long: int, min5: int)
    ensures Matched([], 1, cluster, short, long, min5)
  {}

  lemma GroupIsBacked(m: Match, least: string, evs: seq<Alert>, places: seq<nat>, cluster: seq<Alert>, w: int,
                      min5: int)
    requires IsMatchOf(m, least, evs) && |evs| >= min5 && Lists(cluster, places, evs) && Fits(cluster, SetOf(places), w)
    requires forall s: set<nat> | Fits(cluster, s, w) :: |s| <= |evs|
    ensures LargestGroup(m.evidence, cluster, w, min5) && |m.evidence| == |evs| && Rated(m, least)
  {
    SortMembers(evs);
    forall e | e in evs ensures Suspicious(e) {
      var k :| 0 <= k < |evs| && evs[k] == e;
      assert places[k] in SetOf(places);
    }
  }

  lemma GroupMeans(cluster: seq<Alert>, w: int, best: seq<Alert>, places: seq<nat>)
    requires Lists(cluster, places, best) && Fits(cluster, SetOf(places), w)
    ensures (forall e | e in best :: e in cluster) && (forall e, f | e in best && f in best :: e.ts - f.ts <= w)
    ensures |SetOf(places)| == |best|
  {
    assert forall k | 0 <= k < |best| :: places[k] in SetOf(places);
    SetSizeExact(places);
  }

  lemma {:induction false} SetSizeExact(places: seq<nat>)
    requires forall k, l | 0 <= k < l < |places| :: places[k] < places[l]
    ensures |SetOf(places)| == |places|
  {
    if places != [] {
      var n := |places| - 1;
      SetSizeExact(places[..n]);
      assert SetOf(places) == SetOf(places[..n]) + {places[n]};
      assert places[n] !in places[..n];
    }
  }
}
