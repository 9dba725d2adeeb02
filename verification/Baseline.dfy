/** The weighted anomaly baseline: internal/alert/anomaly.go, over the reals. */
module Baseline {
  datatype DayBucket = DayBucket(key: string, bucket: int, dayAge: int, n: int, sum: real, sumSq: real)

  datatype Slot = Slot(key: string, bucket: int)

  // Products, squares and quotients are named so that a proof that does not need them can hide them.

  function Times(w: real, x: real): real { w * x }

  function Sq(x: real): real { x * x }

  function Over(x: real, y: real): real
    requires y != 0.0
  {
    x / y
  }

  datatype Acc = Acc(rawN: int, wN: real, wSum: real, wSumSq: real) {
    function Plus(b: DayBucket, w: real): Acc {
      Acc(rawN + b.n, wN + Times(w, b.n as real), wSum + Times(w, b.sum), wSumSq + Times(w, b.sumSq))
    }
  }

  const ZERO := Acc(0, 0.0, 0.0, 0.0)

  datatype BaselineRow = BaselineRow(slot: Slot, n: int, mean: real, m2: real)

  /** 2 to the power of a real, as far as the baseline needs it: positive. */
  ghost predicate Positive(exp2: real -> real) { forall x :: exp2(x) > 0.0 }

  function Weight(dayAge: int, halfLife: real, exp2: real -> real): real {
    if halfLife > 0.0 then exp2(-(dayAge as real) / halfLife) else 1.0
  }

  function SlotOf(b: DayBucket): Slot { Slot(b.key, b.bucket) }

  /** The weighted sums of one slot's buckets. */
  function Total(buckets: seq<DayBucket>, s: Slot, halfLife: real, exp2: real -> real): Acc {
    if buckets == [] then ZERO
    else
      var b := buckets[|buckets| - 1];
      var t := Total(buckets[..|buckets| - 1], s, halfLife, exp2);
      if SlotOf(b) == s then t.Plus(b, Weight(b.dayAge, halfLife, exp2)) else t
  }

  function Variance(a: Acc): real
    requires a.wN > 0.0
  {
    Over(a.wSumSq, a.wN) - Sq(Over(a.wSum, a.wN))
  }

  function RowOf(s: Slot, a: Acc): BaselineRow
    requires a.wN > 0.0
  {
    BaselineRow(s, a.rawN, Over(a.wSum, a.wN), Times(a.rawN as real, if Variance(a) < 0.0 then 0.0 else Variance(a)))
  }

  ghost predicate Occurs(buckets: seq<DayBucket>, s: Slot) { exists b | b in buckets :: SlotOf(b) == s }

  /** `out` holds exactly one row for each slot that occurs with a positive weight. */
  ghost predicate Combined(buckets: seq<DayBucket>, halfLife: real, exp2: real -> real, out: seq<BaselineRow>) {
    (forall i, j | 0 <= i < j < |out| :: out[i].slot != out[j].slot)
    && (forall r | r in out :: Occurs(buckets, r.slot) && Total(buckets, r.slot, halfLife, exp2).wN > 0.0
                               && r == RowOf(r.slot, Total(buckets, r.slot, halfLife, exp2)))
    && forall s | Occurs(buckets, s) && Total(buckets, s, halfLife, exp2).wN > 0.0 ::
         RowOf(s, Total(buckets, s, halfLife, exp2)) in out
  }

  /** The accumulators after the first buckets. */
  ghost predicate Accumulated(byKB: map<Slot, Acc>, buckets: seq<DayBucket>, halfLife: real, exp2: real -> real) {
    forall s ::
      (s in byKB <==> Occurs(buckets, s)) && Total(buckets, s, halfLife, exp2) == if s in byKB then byKB[s] else ZERO
  }

  method CombineBaseline(buckets: seq<DayBucket>, halfLife: real, exp2: real -> real) returns (out: seq<BaselineRow>)
    ensures Combined(buckets, halfLife, exp2, out)
  {
    hide Weight, RowOf, Times, Accumulated;
    var byKB: map<Slot, Acc> := map[];
    assert Accumulated(byKB, buckets[..0], halfLife, exp2) by { NothingYet(buckets, halfLife, exp2); }
    for i := 0 to |buckets|
      invariant Accumulated(byKB, buckets[..i], halfLife, exp2)
    {
      var b := buckets[i];
      var a := if SlotOf(b) in byKB then byKB[SlotOf(b)] else ZERO;
      AccumulatedStep(byKB, buckets, i, halfLife, exp2);
      byKB := byKB[SlotOf(b) := a.Plus(b, Weight(b.dayAge, halfLife, exp2))];
    }
    assert buckets[..|buckets|] == buckets;
    out := RowsOf(byKB);
    RowsCombined(byKB, buckets, halfLife, exp2, out);
  }

  lemma NothingYet(buckets: seq<DayBucket>, halfLife: real, exp2: real -> real)
    ensures Accumulated(map[], buckets[..0], halfLife, exp2)
  {}

  lemma AccumulatedStep(byKB: map<Slot, Acc>, buckets: seq<DayBucket>, i: nat, halfLife: real, exp2: real -> real)
    requires i < |buckets| && Accumulated(byKB, buckets[..i], halfLife, exp2)
    ensures var b := buckets[i];
      var a := if SlotOf(b) in byKB then byKB[SlotOf(b)] else ZERO;
      Accumulated(byKB[SlotOf(b) := a.Plus(b, Weight(b.dayAge, halfLife, exp2))], buckets[..i + 1], halfLife, exp2)
  {
    hide Weight, Occurs, Acc.Plus;
    assert buckets[..i + 1][..i] == buckets[..i];
    OccursStep(buckets, i);
  }

  lemma RowsCombined(byKB: map<Slot, Acc>, buckets: seq<DayBucket>, halfLife: real, exp2: real -> real,
                     out: seq<BaselineRow>)
    requires Accumulated(byKB, buckets, halfLife, exp2) && RowsFor(byKB, byKB.Keys, out)
    ensures Combined(buckets, halfLife, exp2, out)
  {
    hide RowOf, Occurs, Total;
  }

  /** One row for each of these slots that has a positive weight. */
  ghost predicate RowsFor(byKB: map<Slot, Acc>, slots: set<Slot>, out: seq<BaselineRow>) {
    (forall i, j | 0 <= i < j < |out| :: out[i].slot != out[j].slot)
    && (forall r | r in out ::
      r.slot in byKB && r.slot in slots && byKB[r.slot].wN > 0.0 && r == RowOf(r.slot, byKB[r.slot]))
    && forall s | s in byKB && s in slots && byKB[s].wN > 0.0 :: RowOf(s, byKB[s]) in out
  }

  method RowsOf(byKB: map<Slot, Acc>) returns (out: seq<BaselineRow>)
    ensures RowsFor(byKB, byKB.Keys, out)
  {
    hide RowOf;
    out := [];
    var left := byKB.Keys;
    while left != {}
      invariant left <= byKB.Keys && RowsFor(byKB, byKB.Keys - left, out)
      decreases |left|
    {
      var k :| k in left;
      left := left - {k};
      var a := byKB[k];
      if a.wN > 0.0 {
        RowSlot(k, a);
        out := out + [RowOf(k, a)];
      }
    }
  }

  lemma RowSlot(s: Slot, a: Acc)
    requires a.wN > 0.0
    ensures RowOf(s, a).slot == s
  {}

  lemma OccursStep(buckets: seq<DayBucket>, i: nat)
    requires i < |buckets|
    ensures forall s :: Occurs(buckets[..i + 1], s) <==> Occurs(buckets[..i], s) || s == SlotOf(buckets[i])
  {
    assert buckets[..i + 1] == buckets[..i] + [buckets[i]];
    assert buckets[i] in buckets[..i + 1];
  }

  // ----- order -----

  /** Taking one bucket out of the middle takes out just its contribution. */
  lemma {:induction false} TotalWithout(buckets: seq<DayBucket>, i: nat, s: Slot, halfLife: real, exp2: real -> real)
    requires i < |buckets|
    ensures var b, t := buckets[i], Total(buckets[..i] + buckets[i + 1..], s, halfLife, exp2);
      Total(buckets, s, halfLife, exp2) == if SlotOf(b) == s then t.Plus(b, Weight(b.dayAge, halfLife, exp2)) else t
  {
    hide Weight;
    var n := |buckets| - 1;
    var rest := buckets[..i] + buckets[i + 1..];
    if i < n {
      TotalWithout(buckets[..n], i, s, halfLife, exp2);
      assert buckets[..n][..i] + buckets[..n][i + 1..] == rest[..n - 1];
    } else {
      assert rest == buckets[..n];
    }
  }

  /** A rearrangement has the last element somewhere, and rearranges the others around it. */
  lemma FindLast<T>(a: seq<T>, b: seq<T>) returns (i: nat)
    requires a != [] && multiset(a) == multiset(b)
    ensures i < |b| && b[i] == a[|a| - 1] && multiset(a[..|a| - 1]) == multiset(b[..i] + b[i + 1..])
  {
    var n := |a| - 1;
    assert a[n] in multiset(a);
    i :| 0 <= i < |b| && b[i] == a[n];
    var rest := b[..i] + b[i + 1..];
    assert multiset(a) == multiset(a[..n]) + multiset{a[n]} by { assert a == a[..n] + [a[n]]; }
    assert multiset(b) == multiset(rest) + multiset{b[i]} by { assert b == b[..i] + ([b[i]] + b[i + 1..]); }
    assert multiset(rest) == multiset(a) - multiset{a[n]};
  }

  /** The order in which the store returns the buckets does not matter. */
  lemma {:induction false} OrderDoesNotMatter(a: seq<DayBucket>, b: seq<DayBucket>, s: Slot, halfLife: real,
                                              exp2: real -> real)
    requires multiset(a) == multiset(b)
    ensures Total(a, s, halfLife, exp2) == Total(b, s, halfLife, exp2)
    decreases |a|
  {
    hide Weight, SlotOf;
    if a != [] {
      var i := FindLast(a, b);
      OrderDoesNotMatter(a[..|a| - 1], b[..i] + b[i + 1..], s, halfLife, exp2);
      TotalWithout(b, i, s, halfLife, exp2);
    } else {
      assert |b| == |multiset(b)| == 0;
    }
  }

  // ----- older days count less -----

  /** Half of what it is one further up. */
  ghost predicate Doubling(exp2: real -> real) { forall x :: exp2(x - 1.0) == exp2(x) / 2.0 }

  lemma HalfTheWeight(age: int, older: int, halfLife: real, exp2: real -> real)
    requires Doubling(exp2) && halfLife > 0.0 && (older - age) as real == halfLife
    ensures Weight(older, halfLife, exp2) == Weight(age, halfLife, exp2) / 2.0
  {
    LessOne(-(age as real), halfLife);
    assert -(older as real) == -(age as real) - halfLife;
  }

  lemma LessOne(x: real, h: real)
    requires h > 0.0
    ensures (x - h) / h == x / h - 1.0
  {
    var q, r := (x - h) / h, x / h - 1.0;
    assert q * h == x - h == r * h;
    if q > r { ProductIsPositive(q - r, h); }
    if q < r { ProductIsPositive(r - q, h); }
  }

  /** A bucket that is one half-life older adds half as much to each weighted sum of its slot. */
  lemma {:induction false} OlderCountsHalf(buckets: seq<DayBucket>, i: nat, older: int, halfLife: real,
                                           exp2: real -> real)
    requires Doubling(exp2) && i < |buckets| && halfLife > 0.0 && (older - buckets[i].dayAge) as real == halfLife
    ensures var s := SlotOf(buckets[i]);
      var without := Total(buckets[..i] + buckets[i + 1..], s, halfLife, exp2);
      var was := Total(buckets, s, halfLife, exp2);
      var now := Total(buckets[i := buckets[i].(dayAge := older)], s, halfLife, exp2);
      now.rawN == was.rawN && now.wN - without.wN == (was.wN - without.wN) / 2.0
      && now.wSum - without.wSum == (was.wSum - without.wSum) / 2.0
      && now.wSumSq - without.wSumSq == (was.wSumSq - without.wSumSq) / 2.0
  {
    hide Total, Weight;
    var b := buckets[i];
    var after := buckets[i := b.(dayAge := older)];
    TotalWithout(buckets, i, SlotOf(b), halfLife, exp2);
    TotalWithout(after, i, SlotOf(b), halfLife, exp2);
    assert after[..i] == buckets[..i] && after[i + 1..] == buckets[i + 1..];
    HalfTheWeight(b.dayAge, older, halfLife, exp2);
    var w := Weight(b.dayAge, halfLife, exp2);
    HalfTimes(w, b.n as real);
    HalfTimes(w, b.sum);
    HalfTimes(w, b.sumSq);
  }

  lemma HalfTimes(w: real, x: real)
    ensures Times(w / 2.0, x) == Times(w, x) / 2.0
  {}

  // ----- what the numbers mean -----

  /** Sum of squared distances from `m`, from the sums alone. */
  function FromSums(q: real, s: real, n: real, m: real): real { q - 2.0 * m * s + m * m * n }

  lemma FromSumsAdds(q: real, s: real, n: real, q1: real, s1: real, n1: real, m: real)
    ensures FromSums(q + q1, s + s1, n + n1, m) == FromSums(q, s, n, m) + FromSums(q1, s1, n1, m)
  {}

  lemma FromSumsScales(w: real, q: real, s: real, n: real, m: real)
    ensures FromSums(Times(w, q), Times(w, s), Times(w, n), m) == Times(w, FromSums(q, s, n, m))
  {
    assert w * (2.0 * m * s) == 2.0 * m * (w * s);
    assert w * (m * m * n) == m * m * (w * n);
  }

  lemma FromOne(x: real, m: real)
    ensures FromSums(Sq(x), x, 1.0, m) == Sq(x - m)
  {}

  lemma FromSumsAtMean(q: real, s: real, n: real)
    requires n > 0.0
    ensures FromSums(q, s, n, Over(s, n)) == Times(n, Over(q, n) - Sq(Over(s, n)))
  {
    var m, v := s / n, q / n;
    assert m * n == s && v * n == q;
    AtMean(v, m, n);
  }

  lemma AtMean(v: real, m: real, n: real)
    ensures FromSums(v * n, m * n, n, m) == n * (v - m * m)
  {
    assert m * (m * n) == m * m * n;
  }

  function Sum(xs: seq<real>): real { if xs == [] then 0.0 else Sum(xs[..|xs| - 1]) + xs[|xs| - 1] }

  function SumSq(xs: seq<real>): real { if xs == [] then 0.0 else SumSq(xs[..|xs| - 1]) + Sq(xs[|xs| - 1]) }

  /** Sum of the squared distances from `m`. */
  function Spread(xs: seq<real>, m: real): real {
    if xs == [] then 0.0 else Spread(xs[..|xs| - 1], m) + Sq(xs[|xs| - 1] - m)
  }

  /** The bucket sums up these samples. */
  predicate Sums(b: DayBucket, xs: seq<real>) { b.n == |xs| && b.sum == Sum(xs) && b.sumSq == SumSq(xs) }

  /** The weighted spread of one slot's samples. */
  function WeightedSpread(buckets: seq<DayBucket>, samples: seq<seq<real>>, s: Slot, halfLife: real,
                          exp2: real -> real, m: real): real
    requires |samples| == |buckets|
  {
    if buckets == [] then 0.0
    else
      var n := |buckets| - 1;
      WeightedSpread(buckets[..n], samples[..n], s, halfLife, exp2, m)
      + if SlotOf(buckets[n]) == s then Times(Weight(buckets[n].dayAge, halfLife, exp2), Spread(samples[n], m)) else 0.0
  }

  lemma {:induction false} SpreadOfSums(xs: seq<real>, m: real)
    ensures Spread(xs, m) == FromSums(SumSq(xs), Sum(xs), |xs| as real, m)
  {
    hide FromSums, Sq;
    if xs == [] {
      FromNothing(m);
    } else {
      var n := |xs| - 1;
      SpreadOfSums(xs[..n], m);
      FromOne(xs[n], m);
      FromSumsAdds(SumSq(xs[..n]), Sum(xs[..n]), n as real, Sq(xs[n]), xs[n], 1.0, m);
    }
  }

  lemma FromNothing(m: real)
    ensures FromSums(0.0, 0.0, 0.0, m) == 0.0
  {}

  ghost predicate AllSums(buckets: seq<DayBucket>, samples: seq<seq<real>>) {
    |samples| == |buckets| && forall i | 0 <= i < |buckets| :: Sums(buckets[i], samples[i])
  }

  lemma {:induction false} SpreadOfTotals(buckets: seq<DayBucket>, samples: seq<seq<real>>, s: Slot, halfLife: real,
                                          exp2: real -> real, m: real)
    requires AllSums(buckets, samples)
    ensures var t := Total(buckets, s, halfLife, exp2);
      WeightedSpread(buckets, samples, s, halfLife, exp2, m) == FromSums(t.wSumSq, t.wSum, t.wN, m)
  {
    hide FromSums, Spread, Weight;
    if buckets == [] {
      FromNothing(m);
    } else {
      var n := |buckets| - 1;
      SpreadOfTotals(buckets[..n], samples[..n], s, halfLife, exp2, m);
      var b, t := buckets[n], Total(buckets[..n], s, halfLife, exp2);
      assert Sums(b, samples[n]);
      SpreadOfSums(samples[n], m);
      AddBucket(t, b, Weight(b.dayAge, halfLife, exp2), m);
    }
  }

  lemma AddBucket(t: Acc, b: DayBucket, w: real, m: real)
    ensures var u := t.Plus(b, w);
      FromSums(u.wSumSq, u.wSum, u.wN, m)
           == FromSums(t.wSumSq, t.wSum, t.wN, m) + Times(w, FromSums(b.sumSq, b.sum, b.n as real, m))
  {
    hide FromSums, Times;
    FromSumsAdds(t.wSumSq, t.wSum, t.wN, Times(w, b.sumSq), Times(w, b.sum), Times(w, b.n as real), m);
    FromSumsScales(w, b.sumSq, b.sum, b.n as real, m);
  }

  /** The mean and the variance are those of the samples behind the buckets: the squared distances from
      the mean, weighted, add up to the variance times the weight. */
  lemma VarianceIsSpread(buckets: seq<DayBucket>, samples: seq<seq<real>>, s: Slot, halfLife: real, exp2: real -> real)
    requires AllSums(buckets, samples) && Total(buckets, s, halfLife, exp2).wN > 0.0
    ensures var t := Total(buckets, s, halfLife, exp2);
      WeightedSpread(buckets, samples, s, halfLife, exp2, Over(t.wSum, t.wN)) == Times(t.wN, Variance(t))
  {
    hide FromSums, Times, Over, Sq;
    var t := Total(buckets, s, halfLife, exp2);
    SpreadOfTotals(buckets, samples, s, halfLife, exp2, Over(t.wSum, t.wN));
    FromSumsAtMean(t.wSumSq, t.wSum, t.wN);
  }

  // ----- when the variance is not clamped -----

  /** What every bucket of real samples satisfies. */
  predicate CauchySchwarz(n: real, s: real, q: real) { n >= 0.0 && q >= 0.0 && Sq(s) <= n * q }

  lemma ProductIsPositive(x: real, y: real)
    requires x > 0.0 && y > 0.0
    ensures Times(x, y) > 0.0
  {}

  lemma SquareDifference(x: real, y: real)
    ensures Times(x - y, x + y) == Sq(x) - Sq(y)
  {}

  lemma SquareOrder(x: real, y: real)
    requires y >= 0.0 && Sq(x) <= Sq(y)
    ensures x <= y
  {
    if x > y {
      hide Times, Sq;
      SquareDifference(x, y);
      ProductIsPositive(x - y, x + y);
    }
  }

  /** n q1 + n1 q is at least twice s s1. */
  lemma CrossTerm(n: real, s: real, q: real, n1: real, s1: real, q1: real)
    requires CauchySchwarz(n, s, q) && CauchySchwarz(n1, s1, q1)
    ensures 2.0 * (s * s1) <= n * q1 + n1 * q
  {
    var a, b := n * q1, n1 * q;
    ProductOrder(Sq(s), n * q, Sq(s1), n1 * q1);
    assert Sq(s * s1) == Sq(s) * Sq(s1);
    assert (n * q) * (n1 * q1) == a * b;
    assert Sq(a + b) >= 4.0 * (a * b) by { MeanOrder(a, b); }
    assert Sq(2.0 * (s * s1)) == 4.0 * Sq(s * s1);
    SquareOrder(2.0 * (s * s1), a + b);
  }

  lemma MeanOrder(a: real, b: real)
    ensures Sq(a + b) >= 4.0 * (a * b)
  {
    assert Sq(a + b) - 4.0 * (a * b) == Sq(a - b);
  }

  lemma ProductOrder(x: real, y: real, x1: real, y1: real)
    requires 0.0 <= x <= y && 0.0 <= x1 <= y1
    ensures x * x1 <= y * y1
  {
    assert x * x1 <= y * x1 <= y * y1;
  }

  lemma CauchySchwarzAdds(n: real, s: real, q: real, n1: real, s1: real, q1: real)
    requires CauchySchwarz(n, s, q) && CauchySchwarz(n1, s1, q1)
    ensures CauchySchwarz(n + n1, s + s1, q + q1)
  {
    CrossTerm(n, s, q, n1, s1, q1);
    assert Sq(s + s1) == Sq(s) + 2.0 * (s * s1) + Sq(s1);
    assert (n + n1) * (q + q1) == n * q + (n * q1 + n1 * q) + n1 * q1;
  }

  lemma CauchySchwarzScales(w: real, n: real, s: real, q: real)
    requires w >= 0.0 && CauchySchwarz(n, s, q)
    ensures CauchySchwarz(Times(w, n), Times(w, s), Times(w, q))
  {
    assert Sq(w * s) == Sq(w) * Sq(s);
    assert (w * n) * (w * q) == Sq(w) * (n * q);
    ProductOrder(Sq(w), Sq(w), Sq(s), n * q);
  }

  ghost predicate AllCauchySchwarz(buckets: seq<DayBucket>) {
    forall i | 0 <= i < |buckets| :: CauchySchwarz(buckets[i].n as real, buckets[i].sum, buckets[i].sumSq)
  }

  /** If every bucket satisfies it, so does every weighted total. */
  lemma {:induction false} TotalCauchySchwarz(buckets: seq<DayBucket>, s: Slot, halfLife: real, exp2: real -> real)
    requires AllCauchySchwarz(buckets) && Positive(exp2)
    ensures var t := Total(buckets, s, halfLife, exp2); CauchySchwarz(t.wN, t.wSum, t.wSumSq)
  {
    hide CauchySchwarz, Times, Sq;
    if buckets == [] {
      assert CauchySchwarz(0.0, 0.0, 0.0) by { NothingCauchySchwarz(); }
    } else {
      var n := |buckets| - 1;
      TotalCauchySchwarz(buckets[..n], s, halfLife, exp2);
      var b, t := buckets[n], Total(buckets[..n], s, halfLife, exp2);
      var w := Weight(b.dayAge, halfLife, exp2);
      assert CauchySchwarz(b.n as real, b.sum, b.sumSq);
      CauchySchwarzScales(w, b.n as real, b.sum, b.sumSq);
      CauchySchwarzAdds(t.wN, t.wSum, t.wSumSq, Times(w, b.n as real), Times(w, b.sum), Times(w, b.sumSq));
    }
  }

  lemma NothingCauchySchwarz()
    ensures CauchySchwarz(0.0, 0.0, 0.0)
  {}

  /** The variance needs no clamp, so the stored M2 over N is exactly the weighted variance. */
  lemma NoClamp(buckets: seq<DayBucket>, s: Slot, halfLife: real, exp2: real -> real)
    requires AllCauchySchwarz(buckets) && Positive(exp2) && Total(buckets, s, halfLife, exp2).wN > 0.0
    ensures var t := Total(buckets, s, halfLife, exp2);
      Variance(t) >= 0.0 && t.rawN > 0 && Over(RowOf(s, t).m2, t.rawN as real) == Variance(t)
  {
    hide Times, Over, Sq, CauchySchwarz;
    var t := Total(buckets, s, halfLife, exp2);
    TotalCauchySchwarz(buckets, s, halfLife, exp2);
    RawIsPositive(buckets, s, halfLife, exp2);
    VarianceSign(t.wN, t.wSum, t.wSumSq);
    var v, n := Variance(t), t.rawN as real;
    Cancel(n, v);
  }

  lemma Cancel(n: real, v: real)
    requires n > 0.0
    ensures Over(Times(n, v), n) == v
  {}

  lemma VarianceSign(n: real, s: real, q: real)
    requires n > 0.0 && CauchySchwarz(n, s, q)
    ensures Over(q, n) - Sq(Over(s, n)) >= 0.0
  {
    hide Times, Sq;
    var m, v := Over(s, n), Over(q, n);
    ScaledSquare(s, q, n);
    if v < Sq(m) {
      ProductIsPositive(n, n);
      ProductIsPositive(Sq(m) - v, Times(n, n));
    }
  }

  lemma ScaledSquare(s: real, q: real, n: real)
    requires n > 0.0
    ensures Times(Sq(Over(s, n)) - Over(q, n), Times(n, n)) == Sq(s) - n * q
  {
    var m, v := s / n, q / n;
    assert m * n == s && v * n == q;
    assert (m * m - v) * (n * n) == (m * n) * (m * n) - n * (v * n);
  }

  lemma {:induction false} RawIsPositive(buckets: seq<DayBucket>, s: Slot, halfLife: real, exp2: real -> real)
    requires AllCauchySchwarz(buckets) && Positive(exp2)
    ensures var t := Total(buckets, s, halfLife, exp2); t.rawN >= 0 && (t.rawN == 0 ==> t.wN == 0.0)
  {
    if buckets != [] { RawIsPositive(buckets[..|buckets| - 1], s, halfLife, exp2); }
  }

  /** Real samples satisfy it. */
  lemma {:induction false} SamplesCauchySchwarz(xs: seq<real>)
    ensures CauchySchwarz(|xs| as real, Sum(xs), SumSq(xs))
  {
    if xs == [] {
      NothingCauchySchwarz();
    } else {
      hide CauchySchwarz, Sq;
      var n := |xs| - 1;
      SamplesCauchySchwarz(xs[..n]);
      OneSample(xs[n]);
      CauchySchwarzAdds(n as real, Sum(xs[..n]), SumSq(xs[..n]), 1.0, xs[n], Sq(xs[n]));
    }
  }

  lemma OneSample(x: real)
    ensures CauchySchwarz(1.0, x, Sq(x))
  {}

  /** All samples of one slot. */
  function Pooled(buckets: seq<DayBucket>, samples: seq<seq<real>>, s: Slot): seq<real>
    requires |samples| == |buckets|
  {
    if buckets == [] then []
    else
      var n := |buckets| - 1;
      Pooled(buckets[..n], samples[..n], s) + if SlotOf(buckets[n]) == s then samples[n] else []
  }

  lemma {:induction false} SumsApp(xs: seq<real>, ys: seq<real>)
    ensures Sum(xs + ys) == Sum(xs) + Sum(ys) && SumSq(xs + ys) == SumSq(xs) + SumSq(ys)
  {
    hide Sq;
    if ys == [] {
      assert xs + ys == xs;
    } else {
      SumsApp(xs, ys[..|ys| - 1]);
      assert (xs + ys)[..|xs + ys| - 1] == xs + ys[..|ys| - 1];
    }
  }

  lemma {:induction false} PooledSums(buckets: seq<DayBucket>, samples: seq<seq<real>>, s: Slot, halfLife: real,
                                      exp2: real -> real)
    requires AllSums(buckets, samples) && halfLife <= 0.0
    ensures var t, all := Total(buckets, s, halfLife, exp2), Pooled(buckets, samples, s);
      t.rawN == |all| && t.wN == |all| as real && t.wSum == Sum(all) && t.wSumSq == SumSq(all)
  {
    hide Sum, SumSq;
    if buckets == [] {
      assert Sum([]) == 0.0 && SumSq([]) == 0.0 by { NoSums(); }
    } else {
      var n := |buckets| - 1;
      PooledSums(buckets[..n], samples[..n], s, halfLife, exp2);
      assert Sums(buckets[n], samples[n]);
      var all := Pooled(buckets[..n], samples[..n], s);
      SumsApp(all, samples[n]);
      assert all + [] == all;
    }
  }

  lemma NoSums()
    ensures Sum([]) == 0.0 && SumSq([]) == 0.0
  {}

  /** Without a half-life this is plain pooling: N counts all samples of the slot, the mean is theirs, and
      M2 is the sum of their squared distances from it. */
  lemma PlainPooling(buckets: seq<DayBucket>, samples: seq<seq<real>>, s: Slot, halfLife: real, exp2: real -> real)
    requires AllSums(buckets, samples) && halfLife <= 0.0 && Pooled(buckets, samples, s) != []
    ensures var all := Pooled(buckets, samples, s);
      var mean := Over(Sum(all), |all| as real);
      Total(buckets, s, halfLife, exp2).wN > 0.0
      && RowOf(s, Total(buckets, s, halfLife, exp2)) == BaselineRow(s, |all|, mean, Spread(all, mean))
  {
    hide Times, Over, Sq, FromSums, Sum, SumSq, Spread, CauchySchwarz, Total, Pooled;
    var all := Pooled(buckets, samples, s);
    var n := |all| as real;
    PooledSums(buckets, samples, s, halfLife, exp2);
    SamplesCauchySchwarz(all);
    VarianceSign(n, Sum(all), SumSq(all));
    SpreadOfSums(all, Over(Sum(all), n));
    FromSumsAtMean(SumSq(all), Sum(all), n);
  }
}
