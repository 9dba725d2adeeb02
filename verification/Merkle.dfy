/** Merkle roots of internal/compliance/merkle.go. The hash is a parameter: a function from byte
    strings to 32-byte digests, of which only this is ever assumed: no two of the strings that are
    actually hashed collide. */
module Merkle {

  type byte = x: int | 0 <= x < 256
  type Bytes = seq<byte>
  type Digest = b: Bytes | |b| == 32 witness seq(32, i => 0)
  type NodeHash = Bytes -> Digest

  /** The next layer; a last node without a partner is paired with itself. */
  function Layer(h: NodeHash, level: seq<Bytes>): (next: seq<Bytes>)
    ensures |next| == (|level| + 1) / 2
  {
    if level == [] then []
    else if |level| == 1 then [h(level[0] + level[0])]
    else [h(level[0] + level[1])] + Layer(h, level[2..])
  }

  /** The root; of an empty list it is empty (the source's nil), of a single leaf the leaf itself. */
  function Root(h: NodeHash, level: seq<Bytes>): Bytes
    decreases |level|
  {
    if level == [] then [] else if |level| == 1 then level[0] else Root(h, Layer(h, level))
  }

  lemma PairTurn(h: NodeHash, level: seq<Bytes>, next: seq<Bytes>, i: nat)
    requires i + 2 <= |level|
    ensures next + Layer(h, level[i..]) == next + [h(level[i] + level[i + 1])] + Layer(h, level[i + 2..])
  {
    assert level[i..][2..] == level[i + 2..];
  }

  method NextLevel(h: NodeHash, level: seq<Bytes>) returns (next: seq<Bytes>)
    requires |level| % 2 == 0
    ensures next == Layer(h, level)
  {
    hide Layer;
    next := [];
    var i := 0;
    ghost var goal := Layer(h, level);
    assert level[0..] == level && [] + goal == goal;
    while i < |level|
      invariant i % 2 == 0 && i <= |level|
      invariant goal == next + Layer(h, level[i..])
    {
      PairTurn(h, level, next, i);
      next := next + [h(level[i] + level[i + 1])];
      i := i + 2;
    }
    EmptyLayer(h, level[i..]);
  }

  lemma EmptyLayer(h: NodeHash, level: seq<Bytes>)
    requires |level| == 0
    ensures Layer(h, level) == []
  {}

  method MerkleRoot(h: NodeHash, hashes: seq<Bytes>) returns (root: Bytes)
    ensures root == Root(h, hashes)
  {
    hide Layer;
    if |hashes| == 0 { return []; }
    var level := hashes;
    while |level| > 1
      invariant |level| >= 1 && Root(h, hashes) == Root(h, level)
      decreases |level|
    {
      ghost var whole := level;
      if |level| % 2 == 1 {
        level := level + [level[|level| - 1]];
        LayerOfPadded(h, whole);
      }
      level := NextLevel(h, level);
    }
    return level[0];
  }

  /** Repeating the last node of an odd layer changes nothing above it. */
  lemma {:induction false} LayerOfPadded(h: NodeHash, level: seq<Bytes>)
    requires |level| % 2 == 1
    ensures Layer(h, level + [level[|level| - 1]]) == Layer(h, level)
  {
    var padded := level + [level[|level| - 1]];
    if |level| == 1 {
      assert padded == [level[0], level[0]] && padded[2..] == [];
    } else {
      LayerOfPadded(h, level[2..]);
      assert padded[2..] == level[2..] + [level[2..][|level| - 3]];
    }
  }

  /** So an odd list of three or more shares its root with the list that repeats its last leaf:
      the root alone does not fix the number of leaves. */
  lemma {:induction false} RepeatedLeaf(h: NodeHash, leaves: seq<Bytes>)
    requires |leaves| % 2 == 1 && |leaves| >= 3
    ensures Root(h, leaves + [leaves[|leaves| - 1]]) == Root(h, leaves)
  {
    LayerOfPadded(h, leaves);
  }

  /** The smallest trees: no leaf, one, two, and three, of which the last is paired with itself. */
  lemma SmallTrees(h: NodeHash, a: Bytes, b: Bytes, c: Bytes)
    ensures Root(h, []) == [] && Root(h, [a]) == a && Root(h, [a, b]) == h(a + b)
    ensures Root(h, [a, b, c]) == h(h(a + b) + h(c + c))
  {
    assert [a, b][2..] == [] && [a, b, c][2..] == [c];
    assert Layer(h, [c]) == [h(c + c)] && Layer(h, []) == [];
    assert Layer(h, [a, b]) == [h(a + b)];
    var x: Bytes, y: Bytes := h(a + b), h(c + c);
    assert Layer(h, [a, b, c]) == [x, y];
    assert [x, y][2..] == [] && Layer(h, [x, y]) == [h(x + y)];
    RootStep(h, [a, b, c]);
    RootStep(h, [x, y]);
    RootOfOne(h, h(x + y));
  }

  // ----- binding -----

  /** The strings hashed to make one layer, and to make the root. */
  ghost function LayerInputs(level: seq<Bytes>): set<Bytes> {
    if level == [] then {}
    else if |level| == 1 then {level[0] + level[0]}
    else {level[0] + level[1]} + LayerInputs(level[2..])
  }

  ghost function Inputs(h: NodeHash, level: seq<Bytes>): set<Bytes>
    decreases |level|
  {
    if |level| <= 1 then {} else LayerInputs(level) + Inputs(h, Layer(h, level))
  }

  ghost predicate CollisionFree(h: NodeHash, inputs: set<Bytes>) {
    forall x, y | x in inputs && y in inputs && h(x) == h(y) :: x == y
  }

  lemma Fewer(h: NodeHash, inputs: set<Bytes>, some: set<Bytes>)
    requires CollisionFree(h, inputs) && some <= inputs
    ensures CollisionFree(h, some)
  {}

  lemma Same(h: NodeHash, inputs: set<Bytes>, x: Bytes, y: Bytes)
    requires CollisionFree(h, inputs) && x in inputs && y in inputs && h(x) == h(y)
    ensures x == y
  {}

  /** The strings hashed above the first layer are among those hashed for the whole list. */
  lemma InputsOf(h: NodeHash, a: seq<Bytes>)
    ensures |a| > 1 ==> Inputs(h, a) == LayerInputs(a) + Inputs(h, Layer(h, a))
  {}

  predicate Leaves(level: seq<Bytes>) { forall x | x in level :: |x| == 32 }

  lemma {:induction false} LayerLeaves(h: NodeHash, level: seq<Bytes>)
    ensures Leaves(Layer(h, level))
  {
    if |level| > 1 { LayerLeaves(h, level[2..]); }
  }

  lemma HalvesFix(a: Bytes, b: Bytes, c: Bytes, d: Bytes)
    requires (|a| == |c| || (|a| == |b| && |c| <= |a| && |d| <= |a|)) && a + b == c + d
    ensures a == c && b == d
  {
    assert |a + b| == |a| + |b| && |c + d| == |c| + |d|;
    assert (a + b)[..|a|] == a && (c + d)[..|c|] == c;
    assert (a + b)[|a|..] == b && (c + d)[|c|..] == d;
  }

  /** What another party puts in the place of digests may be shorter, as the root of an empty list is. */
  predicate AtMostLeaves(level: seq<Bytes>) { forall x | x in level :: |x| <= 32 }

  lemma {:induction false} LayerBinding(h: NodeHash, a: seq<Bytes>, b: seq<Bytes>)
    requires |a| == |b| && Leaves(a) && AtMostLeaves(b)
    requires CollisionFree(h, LayerInputs(a) + LayerInputs(b))
    requires Layer(h, a) == Layer(h, b)
    ensures a == b
  {
    hide CollisionFree, Layer, LayerInputs;
    forall k | 0 <= k < |a| ensures a[k] == b[k] {
      var i := k / 2;
      PairAt(h, a, i);
      PairAt(h, b, i);
      Same(h, LayerInputs(a) + LayerInputs(b), Pair(a, i), Pair(b, i));
      var j := if 2 * i + 1 < |a| then 2 * i + 1 else 2 * i;
      assert a[2 * i] in a && a[j] in a && b[2 * i] in b && b[j] in b;
      HalvesFix(a[2 * i], a[j], b[2 * i], b[j]);
    }
  }

  /** Binding: lists of equally many digests with the same root are the same list. */
  lemma {:induction false} RootBinding(h: NodeHash, a: seq<Bytes>, b: seq<Bytes>)
    requires |a| == |b| && Leaves(a) && AtMostLeaves(b)
    requires CollisionFree(h, Inputs(h, a) + Inputs(h, b))
    requires Root(h, a) == Root(h, b)
    ensures a == b
    decreases |a|
  {
    if |a| == 1 {
      assert a == [a[0]] && b == [b[0]];
    } else if |a| > 1 {
      LayerLeaves(h, a);
      LayerLeaves(h, b);
      RootBinding(h, Layer(h, a), Layer(h, b));
      LayerBinding(h, a, b);
    }
  }

  // ----- one leaf more -----

  /** No hashed string with the digest `r` starts with `r` itself. */
  ghost predicate NoLoop(h: NodeHash, inputs: set<Bytes>, r: Bytes) {
    forall x | x in inputs && |x| >= 32 && h(x) == r :: x[..32] != r
  }

  /** A list of even length grows by one leaf: so does the layer above it. */
  lemma {:induction false} LayerOfEvenGrown(h: NodeHash, a: seq<Bytes>, y: Bytes)
    requires |a| % 2 == 0
    ensures Layer(h, a + [y]) == Layer(h, a) + [h(y + y)]
    ensures y + y in LayerInputs(a + [y])
  {
    var b := a + [y];
    if a == [] {
      assert b == [y];
    } else {
      LayerOfEvenGrown(h, a[2..], y);
      assert b[2..] == a[2..] + [y];
    }
  }

  /** A list of odd length grows by one leaf: only the last node above it changes. */
  lemma {:induction false} LayerOfOddGrown(h: NodeHash, a: seq<Bytes>, y: Bytes, z: Bytes)
    requires |a| % 2 == 0
    ensures Layer(h, a + [z]) == Layer(h, a) + [h(z + z)]
    ensures Layer(h, a + [z] + [y]) == Layer(h, a) + [h(z + y)]
    ensures z + z in LayerInputs(a + [z]) && z + y in LayerInputs(a + [z] + [y])
  {
    LayerOfEvenGrown(h, a, z);
    var b := a + [z] + [y];
    if a == [] {
      assert b == [z, y] && b[2..] == [];
    } else {
      LayerOfOddGrown(h, a[2..], y, z);
      assert b[2..] == a[2..] + [z] + [y];
    }
  }

  /** What the i-th node of the next layer hashes. */
  function Pair(level: seq<Bytes>, i: nat): Bytes
    requires 2 * i < |level|
  {
    level[2 * i] + level[if 2 * i + 1 < |level| then 2 * i + 1 else 2 * i]
  }

  lemma {:induction false} PairAt(h: NodeHash, level: seq<Bytes>, i: nat)
    requires 2 * i < |level|
    ensures Pair(level, i) in LayerInputs(level) && Layer(h, level)[i] == h(Pair(level, i))
  {
    if i > 0 {
      PairAt(h, level[2..], i - 1);
    }
  }

  lemma GrownSingle(h: NodeHash, x: Bytes, y: Bytes)
    requires |x| == 32 && NoLoop(h, Inputs(h, [x] + [y]), x)
    ensures Root(h, [x]) != Root(h, [x] + [y])
  {
    var b := [x] + [y];
    assert b[2..] == [];
    assert Layer(h, b) == [h(x + y)];
    assert x + y in LayerInputs(b);
    assert (x + y)[..32] == x;
  }

  lemma LastOf(s: seq<Bytes>, x: Bytes, y: Bytes)
    requires s + [x] == s + [y]
    ensures x == y
  {
    assert (s + [x])[|s|] == x && (s + [y])[|s|] == y;
  }

  lemma {:induction false} OddLayersDiffer(h: NodeHash, init: seq<Bytes>, z: Bytes, y: Bytes)
    requires |init| % 2 == 0 && y != z && |y| == |z|
    requires CollisionFree(h, LayerInputs(init + [z]) + LayerInputs(init + [z] + [y]))
    ensures Layer(h, init + [z]) != Layer(h, init + [z] + [y])
  {
    hide Layer, LayerInputs, CollisionFree;
    LayerOfOddGrown(h, init, y, z);
    if h(z + z) == h(z + y) {
      Same(h, LayerInputs(init + [z]) + LayerInputs(init + [z] + [y]), z + z, z + y);
      HalvesFix(z, z, z, y);
    } else if Layer(h, init + [z]) == Layer(h, init + [z] + [y]) {
      LastOf(Layer(h, init), h(z + z), h(z + y));
    }
  }

  lemma RootOfOne(h: NodeHash, x: Bytes)
    ensures Root(h, [x]) == x
  {}

  lemma RootStep(h: NodeHash, a: seq<Bytes>)
    requires |a| > 1
    ensures Root(h, a) == Root(h, Layer(h, a))
  {}

  lemma {:induction false} GrownOdd(h: NodeHash, init: seq<Bytes>, z: Bytes, y: Bytes)
    requires |init| % 2 == 0 && init != [] && Leaves(init + [z]) && |y| == |z| && y != z
    requires CollisionFree(h, Inputs(h, init + [z]) + Inputs(h, init + [z] + [y]))
    ensures Root(h, init + [z]) != Root(h, init + [z] + [y])
  {
    hide Layer, LayerInputs, CollisionFree, Inputs, Root, Leaves;
    var a := init + [z];
    var b := a + [y];
    var inputs := Inputs(h, a) + Inputs(h, b);
    InputsOf(h, a);
    InputsOf(h, b);
    RootStep(h, a);
    RootStep(h, b);
    Fewer(h, inputs, LayerInputs(a) + LayerInputs(b));
    OddLayersDiffer(h, init, z, y);
    LayerLeaves(h, a);
    LayerLeaves(h, b);
    Fewer(h, inputs, Inputs(h, Layer(h, a)) + Inputs(h, Layer(h, b)));
    assert |Layer(h, a)| == |Layer(h, b)|;
    if Root(h, a) == Root(h, b) {
      RootBinding(h, Layer(h, a), Layer(h, b));
    }
  }

  /** The new node is new in its layer as well. */
  lemma {:induction false} GrownNode(h: NodeHash, a: seq<Bytes>, y: Bytes, i: nat)
    requires |a| % 2 == 0 && 2 * i < |a| && Leaves(a) && |y| == 32 && y !in a
    requires CollisionFree(h, LayerInputs(a) + LayerInputs(a + [y]))
    ensures Layer(h, a)[i] != h(y + y)
  {
    hide Layer, LayerInputs, CollisionFree;
    var b := a + [y];
    PairAt(h, a, i);
    LayerOfEvenGrown(h, a, y);
    var l, r := a[2 * i], a[2 * i + 1];
    assert Pair(a, i) == l + r && l in a;
    if Layer(h, a)[i] == h(y + y) {
      Same(h, LayerInputs(a) + LayerInputs(b), l + r, y + y);
      HalvesFix(l, r, y, y);
    }
  }

  /** A leaf that is not in the list yet always changes the root, unless the root loops back to itself. */
  lemma {:induction false} GrownRoot(h: NodeHash, a: seq<Bytes>, y: Bytes)
    requires a != [] && Leaves(a) && |y| == 32 && y !in a
    requires CollisionFree(h, Inputs(h, a) + Inputs(h, a + [y]))
    requires NoLoop(h, Inputs(h, a + [y]), Root(h, a))
    ensures Root(h, a) != Root(h, a + [y])
    decreases |a|
  {
    hide LayerInputs, CollisionFree, Inputs, NoLoop, Root;
    var n, b := |a|, a + [y];
    var inputs := Inputs(h, a) + Inputs(h, b);
    if n == 1 {
      assert a == [a[0]] && a[0] in a;
      RootOfOne(h, a[0]);
      GrownSingle(h, a[0], y);
    } else if n % 2 == 1 {
      var init, z := a[..n - 1], a[n - 1];
      assert a == init + [z] && z in a;
      GrownOdd(h, init, z, y);
    } else {
      InputsOf(h, a);
      InputsOf(h, b);
      RootStep(h, a);
      RootStep(h, b);
      LayerOfEvenGrown(h, a, y);
      LayerLeaves(h, a);
      Fewer(h, inputs, LayerInputs(a) + LayerInputs(b));
      Fewer(h, inputs, Inputs(h, Layer(h, a)) + Inputs(h, Layer(h, b)));
      NoLoopSub(h, Inputs(h, b), Inputs(h, Layer(h, b)), Root(h, a));
      forall i: nat | i < |Layer(h, a)| ensures Layer(h, a)[i] != h(y + y) {
        GrownNode(h, a, y, i);
      }
      hide Layer;
      GrownRoot(h, Layer(h, a), h(y + y));
    }
  }

  lemma NoLoopSub(h: NodeHash, inputs: set<Bytes>, some: set<Bytes>, r: Bytes)
    requires NoLoop(h, inputs, r) && some <= inputs
    ensures NoLoop(h, some, r)
  {}

  // ----- the left edge of a tree -----

  /** `y` was hashed from `x` and something to its right. */
  ghost predicate Above(h: NodeHash, inputs: set<Bytes>, x: Bytes, y: Bytes) {
    exists w | w in inputs :: |w| >= 32 && w[..32] == x && y == h(w)
  }

  ghost predicate Climbs(h: NodeHash, inputs: set<Bytes>, path: seq<Bytes>) {
    path != [] && forall i, j | 0 <= i && j == i + 1 < |path| :: Above(h, inputs, path[i], path[j])
  }

  /** No hashed string has the digest `x`. */
  ghost predicate Fresh(h: NodeHash, inputs: set<Bytes>, x: Bytes) { forall w | w in inputs :: h(w) != x }

  lemma ClimbsFront(h: NodeHash, inputs: set<Bytes>, path: seq<Bytes>)
    requires Climbs(h, inputs, path) && |path| > 1
    ensures Climbs(h, inputs, path[..|path| - 1]) && Above(h, inputs, path[|path| - 2], path[|path| - 1])
  {
    hide Above;
    var init := path[..|path| - 1];
    forall i, j | 0 <= i && j == i + 1 < |init| ensures Above(h, inputs, init[i], init[j]) {
      assert init[i] == path[i] && init[j] == path[j];
    }
  }

  lemma ClimbsOn(h: NodeHash, inputs: set<Bytes>, path: seq<Bytes>, y: Bytes)
    requires Climbs(h, inputs, path) && Above(h, inputs, path[|path| - 1], y)
    ensures Climbs(h, inputs, path + [y])
  {
    hide Above;
    var on := path + [y];
    forall i, j | 0 <= i && j == i + 1 < |on| ensures Above(h, inputs, on[i], on[j]) {
      assert on[i] == path[i] && (j < |path| ==> on[j] == path[j]);
    }
  }

  /** Two climbs from digests of something else to the same node are the same. */
  lemma {:induction false} PathsMeet(h: NodeHash, inputs: set<Bytes>, p: seq<Bytes>, q: seq<Bytes>)
    requires Climbs(h, inputs, p) && Climbs(h, inputs, q) && CollisionFree(h, inputs)
    requires Fresh(h, inputs, p[0]) && Fresh(h, inputs, q[0]) && p[|p| - 1] == q[|q| - 1]
    ensures p == q
    decreases |p|
  {
    assert p != [] && q != [];
    hide Climbs;
    if |p| > 1 { ClimbsFront(h, inputs, p); }
    if |q| > 1 { ClimbsFront(h, inputs, q); }
    if |p| > 1 && |q| > 1 {
      hide Fresh;
      PathsMeet(h, inputs, p[..|p| - 1], q[..|q| - 1]);
      assert p == p[..|p| - 1] + [p[|p| - 1]] && q == q[..|q| - 1] + [q[|q| - 1]];
    } else if |p| == 1 && |q| == 1 {
      assert p == [p[0]] && q == [q[0]];
    }
  }

  /** The nodes on the left edge, from the first leaf to the root. */
  function LeftEdge(h: NodeHash, level: seq<Bytes>): (path: seq<Bytes>)
    requires level != []
    ensures path != [] && path[0] == level[0] && path[|path| - 1] == Root(h, level)
    decreases |level|
  {
    if |level| == 1 then [level[0]] else [level[0]] + LeftEdge(h, Layer(h, level))
  }

  lemma {:induction false} LeftEdgeClimbs(h: NodeHash, level: seq<Bytes>, inputs: set<Bytes>)
    requires level != [] && Leaves(level) && Inputs(h, level) <= inputs
    ensures Climbs(h, inputs, LeftEdge(h, level))
    decreases |level|
  {
    if |level| > 1 {
      var next := Layer(h, level);
      LayerLeaves(h, level);
      LeftEdgeClimbs(h, next, inputs);
      PairAt(h, level, 0);
      assert level[0] in level && Pair(level, 0)[..32] == level[0];
      assert Above(h, inputs, level[0], next[0]);
      hide Layer, Inputs, Above;
      var path, up := LeftEdge(h, level), LeftEdge(h, next);
      forall i, j | 0 <= i && j == i + 1 < |path| ensures Above(h, inputs, path[i], path[j]) {
        assert path[j] == up[i];
        if i > 0 { assert path[i] == up[i - 1]; }
      }
    }
  }

  /** Lists whose first leaves are different digests of something else have different roots. */
  lemma DifferentRoots(h: NodeHash, a: seq<Bytes>, b: seq<Bytes>, inputs: set<Bytes>)
    requires a != [] && b != [] && Leaves(a) && Leaves(b) && a[0] != b[0]
    requires Inputs(h, a) <= inputs && Inputs(h, b) <= inputs && CollisionFree(h, inputs)
    requires Fresh(h, inputs, a[0]) && Fresh(h, inputs, b[0])
    ensures Root(h, a) != Root(h, b)
  {
    hide Inputs, CollisionFree, Fresh, Climbs, Root;
    LeftEdgeClimbs(h, a, inputs);
    LeftEdgeClimbs(h, b, inputs);
    if Root(h, a) == Root(h, b) { PathsMeet(h, inputs, LeftEdge(h, a), LeftEdge(h, b)); }
  }

  // ----- lists of any lengths -----

  ghost predicate AllDifferent(level: seq<Bytes>) { forall i, j | 0 <= i < j < |level| :: level[i] != level[j] }

  /** Nodes of different leaves are different. */
  lemma {:induction false} LayerDiffers(h: NodeHash, level: seq<Bytes>, inputs: set<Bytes>)
    requires AllDifferent(level) && Leaves(level) && LayerInputs(level) <= inputs && CollisionFree(h, inputs)
    ensures AllDifferent(Layer(h, level))
  {
    hide CollisionFree, Layer, LayerInputs;
    var next := Layer(h, level);
    forall i, j | 0 <= i < j < |next| ensures next[i] != next[j] {
      PairAt(h, level, i);
      PairAt(h, level, j);
      assert level[2 * i] in level && level[2 * j] in level;
      assert Pair(level, i)[..32] == level[2 * i] && Pair(level, j)[..32] == level[2 * j];
      if next[i] == next[j] { Same(h, inputs, Pair(level, i), Pair(level, j)); }
    }
  }

  /** A list of odd length shares its layer only with the list that repeats its last leaf. */
  lemma {:induction false} OddLayer(h: NodeHash, a: seq<Bytes>, b: seq<Bytes>, inputs: set<Bytes>)
    requires |a| % 2 == 1 && |b| == |a| + 1 && Leaves(a) && Leaves(b) && Layer(h, a) == Layer(h, b)
    requires LayerInputs(a) <= inputs && LayerInputs(b) <= inputs && CollisionFree(h, inputs)
    ensures b[|b| - 2] == b[|b| - 1]
  {
    hide CollisionFree, Layer, LayerInputs;
    var i, z := |a| / 2, a[|a| - 1];
    PairAt(h, a, i);
    PairAt(h, b, i);
    Same(h, inputs, Pair(a, i), Pair(b, i));
    assert a[2 * i] == z && b[2 * i] in b && z in a;
    HalvesFix(z, z, b[2 * i], b[2 * i + 1]);
  }

  /** Lists of different digests whose trees are equally high and have the same root are the same. */
  lemma {:induction false} SameHeight(h: NodeHash, a: seq<Bytes>, b: seq<Bytes>, inputs: set<Bytes>)
    requires a != [] && b != [] && Leaves(a) && Leaves(b) && AllDifferent(a) && AllDifferent(b)
    requires Inputs(h, a) <= inputs && Inputs(h, b) <= inputs && CollisionFree(h, inputs)
    requires |LeftEdge(h, a)| == |LeftEdge(h, b)| && Root(h, a) == Root(h, b)
    ensures a == b
    decreases |a|
  {
    InputsOf(h, a);
    InputsOf(h, b);
    hide CollisionFree, Layer, LayerInputs, Inputs, AllDifferent;
    if |a| == 1 {
      assert a == [a[0]] && b == [b[0]];
    } else {
      var next, other := Layer(h, a), Layer(h, b);
      LayerLeaves(h, a);
      LayerLeaves(h, b);
      LayerDiffers(h, a, inputs);
      LayerDiffers(h, b, inputs);
      SameHeight(h, next, other, inputs);
      SameLayer(h, a, b, inputs);
    }
  }

  lemma SameLayer(h: NodeHash, a: seq<Bytes>, b: seq<Bytes>, inputs: set<Bytes>)
    requires Leaves(a) && Leaves(b) && AllDifferent(a) && AllDifferent(b) && Layer(h, a) == Layer(h, b)
    requires LayerInputs(a) <= inputs && LayerInputs(b) <= inputs && CollisionFree(h, inputs)
    ensures a == b
  {
    hide CollisionFree, Layer, LayerInputs;
    if |a| < |b| {
      OddLayer(h, a, b, inputs);
    } else if |b| < |a| {
      OddLayer(h, b, a, inputs);
    } else {
      Fewer(h, inputs, LayerInputs(a) + LayerInputs(b));
      LayerBinding(h, a, b);
    }
  }

  /** Lists of any lengths with the same root are the same, if their digests are all different, their first
      ones are no nodes and nothing hashed collides. */
  lemma RootFixesList(h: NodeHash, a: seq<Bytes>, b: seq<Bytes>, inputs: set<Bytes>)
    requires a != [] && b != [] && Leaves(a) && Leaves(b) && AllDifferent(a) && AllDifferent(b)
    requires Inputs(h, a) <= inputs && Inputs(h, b) <= inputs && CollisionFree(h, inputs)
    requires Fresh(h, inputs, a[0]) && Fresh(h, inputs, b[0])
    requires Root(h, a) == Root(h, b)
    ensures a == b
  {
    hide Inputs, CollisionFree, Fresh, Climbs, Root, AllDifferent;
    LeftEdgeClimbs(h, a, inputs);
    LeftEdgeClimbs(h, b, inputs);
    PathsMeet(h, inputs, LeftEdge(h, a), LeftEdge(h, b));
    SameHeight(h, a, b, inputs);
  }

  lemma {:induction false} JoinedClimbs(h: NodeHash, inputs: set<Bytes>, p: seq<Bytes>, q: seq<Bytes>)
    requires Climbs(h, inputs, p) && Climbs(h, inputs, q) && p[|p| - 1] == q[0]
    ensures Climbs(h, inputs, p + q[1..])
  {
    hide Above;
    var on := p + q[1..];
    forall i, j | 0 <= i && j == i + 1 < |on| ensures Above(h, inputs, on[i], on[j]) {
      if j < |p| { assert on[i] == p[i] && on[j] == p[j]; }
      else {
        var k, l := i - |p| + 1, j - |p| + 1;
        assert on[i] == q[k] && on[j] == q[l];
      }
    }
  }

  /** A node that is climbed to from the digest of something else does not loop back to itself. */
  lemma NoLoopAtTop(h: NodeHash, inputs: set<Bytes>, p: seq<Bytes>)
    requires Climbs(h, inputs, p) && Fresh(h, inputs, p[0]) && CollisionFree(h, inputs)
    ensures NoLoop(h, inputs, p[|p| - 1])
  {
    var r := p[|p| - 1];
    hide Climbs, CollisionFree, Fresh;
    if !NoLoop(h, inputs, r) {
      assert Above(h, inputs, r, r);
      ClimbsOn(h, inputs, p, r);
      PathsMeet(h, inputs, p, p + [r]);
    }
  }

  /** The same for a list whose first leaf is itself the root of another list. */
  lemma NoLoopOverTrees(h: NodeHash, inputs: set<Bytes>, below: seq<Bytes>, above: seq<Bytes>)
    requires below != [] && above != [] && Leaves(below) && Leaves(above) && above[0] == Root(h, below)
    requires Inputs(h, below) <= inputs && Inputs(h, above) <= inputs
    requires CollisionFree(h, inputs) && Fresh(h, inputs, below[0])
    ensures NoLoop(h, inputs, Root(h, above))
  {
    hide Inputs, CollisionFree, Fresh, Climbs, Root, NoLoop;
    LeftEdgeClimbs(h, below, inputs);
    LeftEdgeClimbs(h, above, inputs);
    var p, q := LeftEdge(h, below), LeftEdge(h, above);
    JoinedClimbs(h, inputs, p, q);
    NoLoopAtTop(h, inputs, p + q[1..]);
  }
}
