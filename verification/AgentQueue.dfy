/** The agent's offline queue and hub failover: internal/agent/agent.go. */
module AgentQueue {
  import opened Numbers

  /** A batch is named by its place in the order of Send calls. */
  type Batch = nat

  const MAX_QUEUED := 100

  /** The i-th hub tried, starting from hub `start`. */
  function Nth(start: nat, i: nat, n: nat): nat
    requires n > 0
  {
    (start + i) % n
  }

  /** Trying `n` hubs in turn reaches every one of them. */
  lemma EveryHubIsTried(start: nat, n: nat, h: nat)
    requires h < n
    ensures exists i: nat | i < n :: Nth(start, i, n) == h
  {
    var i := (h - start) % n;
    Quotient(start + i, n, -((h - start) / n), h);
    assert Nth(start, i, n) == h;
  }

  /** Some hub of the pool takes the post. */
  predicate Accepted(accepts: set<nat>, n: nat) { exists h | 0 <= h < n :: h in accepts }

  /** The batches whose posts failed, in order. */
  function Failed(queue: seq<Batch>, posts: seq<set<nat>>, n: nat): (kept: seq<Batch>)
    requires |queue| <= |posts|
    ensures |kept| <= |queue|
  {
    if queue == [] then []
    else
      var k := |queue| - 1;
      Failed(queue[..k], posts, n) + if Accepted(posts[k], n) then [] else [queue[k]]
  }

  function Posted(queue: seq<Batch>, posts: seq<set<nat>>, n: nat): seq<Batch>
    requires |queue| <= |posts|
  {
    if queue == [] then []
    else
      var k := |queue| - 1;
      Posted(queue[..k], posts, n) + if Accepted(posts[k], n) then [queue[k]] else []
  }

  function Count(log: seq<Batch>, b: Batch): nat {
    if log == [] then 0 else Count(log[..|log| - 1], b) + if log[|log| - 1] == b then 1 else 0
  }

  lemma {:induction false} CountApp(a: seq<Batch>, c: seq<Batch>, b: Batch)
    ensures Count(a + c, b) == Count(a, b) + Count(c, b)
  {
    if c == [] {
      assert a + c == a;
    } else {
      CountApp(a, c[..|c| - 1], b);
      assert (a + c)[..|a + c| - 1] == a + c[..|c| - 1];
    }
  }

  lemma {:induction false} Partition(queue: seq<Batch>, posts: seq<set<nat>>, n: nat, b: Batch)
    requires |queue| <= |posts|
    ensures Count(queue, b) == Count(Posted(queue, posts, n), b) + Count(Failed(queue, posts, n), b)
  {
    hide Accepted;
    if queue != [] {
      var k := |queue| - 1;
      Partition(queue[..k], posts, n, b);
      CountApp(Posted(queue[..k], posts, n), [queue[k]], b);
      CountApp(Failed(queue[..k], posts, n), [queue[k]], b);
      assert Count([queue[k]], b) == if queue[k] == b then 1 else 0;
      assert Posted(queue[..k], posts, n) + [] == Posted(queue[..k], posts, n);
      assert Failed(queue[..k], posts, n) + [] == Failed(queue[..k], posts, n);
    }
  }

  predicate Increasing(q: seq<Batch>) { forall i, j | 0 <= i < j < |q| :: q[i] < q[j] }

  lemma {:induction false} FailedKeepsOrder(queue: seq<Batch>, posts: seq<set<nat>>, n: nat)
    requires |queue| <= |posts| && Increasing(queue)
    ensures Increasing(Failed(queue, posts, n)) && forall b | b in Failed(queue, posts, n) :: b in queue
  {
    hide Accepted;
    if queue != [] {
      var k := |queue| - 1;
      FailedKeepsOrder(queue[..k], posts, n);
      var kept := Failed(queue[..k], posts, n);
      forall i | 0 <= i < |kept| ensures kept[i] < queue[k] { assert kept[i] in queue[..k]; }
    }
  }

  ghost predicate Ledger(delivered: seq<Batch>, file: seq<Batch>, lost: seq<Batch>, sent: nat) {
    forall b: Batch :: Count(delivered, b) + Count(file, b) + Count(lost, b) == if b < sent then 1 else 0
  }

  /** After a Send: `posted` left the queue, `kept` did not, and the first `over` of the rest are dropped. */
  lemma LedgerStep(delivered: seq<Batch>, file: seq<Batch>, lost: seq<Batch>, sent: nat,
                   posts: seq<set<nat>>, n: nat, over: nat)
    requires Ledger(delivered, file, lost, sent) && |file| <= |posts| && over <= |Failed(file, posts, n)| + 1
    ensures var posted, kept := Posted(file, posts, n), Failed(file, posts, n);
      Ledger(delivered + posted + [sent], kept, lost, sent + 1)
      && Ledger(delivered + posted, (kept + [sent])[over..], lost + (kept + [sent])[..over], sent + 1)
  {
    var posted, kept := Posted(file, posts, n), Failed(file, posts, n);
    var waiting := kept + [sent];
    hide Posted, Failed, Count;
    forall b: Batch
      ensures Count(delivered + posted + [sent], b) + Count(kept, b) + Count(lost, b) == if b < sent + 1 then 1 else 0
      ensures Count(delivered + posted, b) + Count(waiting[over..], b) + Count(lost + waiting[..over], b)
           == if b < sent + 1 then 1 else 0
    {
      Partition(file, posts, n, b);
      CountApp(delivered, posted, b);
      CountApp(delivered + posted, [sent], b);
      CountApp(kept, [sent], b);
      CountApp(lost, waiting[..over], b);
      CountApp(waiting[..over], waiting[over..], b);
      assert waiting == waiting[..over] + waiting[over..];
      CountOne(sent, b);
    }
  }

  lemma CountOne(x: Batch, b: Batch)
    ensures Count([x], b) == if x == b then 1 else 0
  {}

  predicate Older(lost: seq<Batch>, file: seq<Batch>) {
    forall i, j | 0 <= i < |lost| && 0 <= j < |file| :: lost[i] < file[j]
  }

  predicate Below(log: seq<Batch>, n: nat) { forall i | 0 <= i < |log| :: log[i] < n }

  lemma OrderStep(file: seq<Batch>, lost: seq<Batch>, sent: nat, kept: seq<Batch>, over: nat)
    requires Older(lost, file) && Below(file, sent) && Below(lost, sent)
    requires Increasing(kept) && (forall b | b in kept :: b in file) && over <= |kept| + 1
    ensures Older(lost, kept) && Below(kept, sent + 1) && Below(lost, sent + 1)
    ensures var waiting := kept + [sent]; Increasing(waiting[over..]) && Older(lost + waiting[..over], waiting[over..])
                                          && Below(waiting[over..], sent + 1) && Below(lost + waiting[..over], sent + 1)
  {
    forall j | 0 <= j < |kept| ensures kept[j] < sent && forall i | 0 <= i < |lost| :: lost[i] < kept[j] {
      assert kept[j] in file;
      var k :| 0 <= k < |file| && file[k] == kept[j];
    }
  }

  /** `h` is the first hub, from `start` on, that accepts. */
  ghost predicate FirstHub(start: nat, h: nat, n: nat, accepts: set<nat>)
    requires n > 0
  {
    h in accepts && exists i: nat ::
      i < n && h == Nth(start, i, n) && forall j: nat | j < i :: Nth(start, j, n) !in accepts
  }

  class Client {
    const hubs: nat
    var hubIdx: nat
    var file: seq<Batch>
    var dropped: nat
    ghost var sent: nat
    ghost var delivered: seq<Batch>
    ghost var lost: seq<Batch>

    /** An empty pool still holds one, empty, URL. */
    constructor (hubs: nat)
      ensures Valid() && sent == 0
    {
      this.hubs := if hubs == 0 then 1 else hubs;
      hubIdx, file, dropped := 0, [], 0;
      sent, delivered, lost := 0, [], [];
    }

    /** Every batch handed to Send is in exactly one place, once; the queue is bounded and in order of
        submission; what was dropped is older than everything queued. */
    ghost predicate Valid()
      reads this
    {
      hubs > 0 && Ledger(delivered, file, lost, sent) && Increasing(file) && |file| <= MAX_QUEUED
      && Below(file, sent) && Below(lost, sent) && Older(lost, file) && dropped == |lost|
    }

    /** Runs the post against the hubs from the active one on, and sticks to the first that takes it. */
    method WithFailover(accepts: set<nat>) returns (ok: bool)
      requires hubs > 0
      modifies this`hubIdx
      ensures ok <==> Accepted(accepts, hubs)
      ensures ok ==> FirstHub(old(hubIdx), hubIdx, hubs, accepts)
      ensures !ok ==> hubIdx == old(hubIdx)
    {
      for i := 0 to hubs
        invariant hubIdx == old(hubIdx)
        invariant forall j: nat | j < i :: Nth(hubIdx, j, hubs) !in accepts
      {
        var idx := Nth(hubIdx, i, hubs);
        if idx in accepts {
          hubIdx := idx;
          return true;
        }
      }
      forall h | 0 <= h < hubs ensures h !in accepts { EveryHubIsTried(hubIdx, hubs, h); }
      return false;
    }

    /** The drain of a loaded queue: failed batches are moved to the front of the same array. */
    method Drain(queue: array<Batch>, posts: seq<set<nat>>) returns (k: nat)
      requires hubs > 0 && queue.Length <= |posts|
      modifies queue, this`hubIdx
      ensures k <= queue.Length && queue[..k] == Failed(old(queue[..]), posts, hubs)
    {
      hide Accepted;
      k := 0;
      ghost var was := queue[..];
      for i := 0 to queue.Length
        invariant k <= i && queue[..k] == Failed(was[..i], posts, hubs) && queue[i..] == was[i..]
      {
        assert was[..i + 1][..i] == was[..i] && queue[i] == queue[i..][0] == was[i];
        var q := queue[i];
        var ok := WithFailover(posts[i]);
        if !ok {
          queue[k] := q;
          k := k + 1;
          assert queue[..k] == queue[..k - 1] + [q];
        }
        assert queue[i + 1..] == was[i..][1..];
      }
      assert was[..|was|] == was;
    }

    /** Send the next batch; `posts` says which hubs accept each post made, first those of the queue, then
        that of the batch itself. */
    method Send(batch: Batch, posts: seq<set<nat>>) returns (ok: bool)
      requires Valid() && |posts| == |file| + 1 && batch == sent
      modifies this
      ensures Valid() && sent == old(sent) + 1
      ensures ok <==> Accepted(posts[|posts| - 1], hubs)
      ensures delivered == old(delivered) + Posted(old(file), posts, hubs) + if ok then [batch] else []
      ensures var waiting := Failed(old(file), posts, hubs) + if ok then [] else [batch];
        var over := if |waiting| > MAX_QUEUED then |waiting| - MAX_QUEUED else 0;
        file == waiting[over..] && lost == old(lost) + waiting[..over]
    {
      hide Accepted, Ledger, Failed, Posted, Older, Below, Increasing;
      ghost var was := file;
      var queue := file;
      if |queue| > 0 {
        var a := new Batch[|queue|](i requires 0 <= i < |queue| => queue[i]);
        assert a[..] == queue;
        var k := Drain(a, posts);
        queue := a[..k];
        file := queue;
      }
      assert queue == Failed(was, posts, hubs);
      FailedKeepsOrder(was, posts, hubs);
      ghost var over := if |queue| + 1 > MAX_QUEUED then |queue| + 1 - MAX_QUEUED else 0;
      LedgerStep(delivered, was, lost, sent, posts, hubs, over);
      OrderStep(was, lost, sent, queue, over);
      delivered := delivered + Posted(was, posts, hubs);
      ok := WithFailover(posts[|posts| - 1]);
      sent := sent + 1;
      if ok {
        delivered := delivered + [batch];
      } else {
        queue := queue + [batch];
        assert queue[0..] == queue && lost + queue[..0] == lost;
        if |queue| > MAX_QUEUED {
          var drop := |queue| - MAX_QUEUED;
          dropped := dropped + drop;
          lost := lost + queue[..drop];
          queue := queue[drop..];
        }
        file := queue;
      }
    }
  }

}
