/** The flow collector's reader, workers and pooled buffers: internal/flows/nfv5.go. */
module Collector {
  import opened Wire

  datatype Datagram = Datagram(peer: Host, bytes: seq<byte>)

  /** The reader: about to take a buffer, holding an empty one, holding a datagram, or gone. */
  datatype Reader = Fresh | Holding(p: nat) | Full(p: nat) | Gone

  /** A worker: waiting for the channel, holding a datagram to process, holding a processed buffer, or gone. */
  datatype Worker = Waiting | Busy(p: nat) | Done(p: nat) | Exited

  /** The channel's capacity. */
  const DEPTH := 4096

  /** Buffers are numbered in the order they are allocated. `lost` holds those the garbage collector
      took from the pool. */
  datatype State = State(
    mem: map<nat, Datagram>, pool: set<nat>, lost: set<nat>,
    reader: Reader, chan: seq<nat>, workers: seq<Worker>,
    connOpen: bool, returned: bool,
    read: seq<Datagram>, processed: seq<Datagram>, dropped: seq<Datagram>)

  datatype Step =
    | Get(p: nat) | Read(d: Datagram) | ReadError | Send | Drop
    | Receive(i: nat) | Process(i: nat) | Put(i: nat) | Exit(i: nat)
    | CollectGarbage(p: nat) | CloseConn | CloseReturns

  predicate AllAre(ws: seq<Worker>, w: Worker) { forall i | 0 <= i < |ws| :: ws[i] == w }

  predicate Initial(s: State) {
    s.mem == map[] && s.pool == {} && s.lost == {} && s.reader == Fresh && s.chan == []
    && |s.workers| > 0 && AllAre(s.workers, Waiting)
    && s.connOpen && !s.returned && s.read == [] && s.processed == [] && s.dropped == []
  }

  function At(mem: map<nat, Datagram>, p: nat): Datagram {
    if p in mem then mem[p] else Datagram(NoHost, [])
  }

  /** The reader closes the channel as it leaves, so `range` ends when it is gone and the channel is
      drained. Any read error, not only the one from Close, ends the reader. */
  predicate Enabled(s: State, e: Step) {
    match e
    case Get(p) => s.reader == Fresh && (p in s.pool || p !in s.mem)
    case Read(_) => s.reader.Holding? && s.connOpen
    case ReadError => s.reader.Holding?
    case Send => s.reader.Full? && |s.chan| < DEPTH
    case Drop => s.reader.Full? && |s.chan| >= DEPTH
    case Receive(i) => i < |s.workers| && s.workers[i] == Waiting && s.chan != []
    case Process(i) => i < |s.workers| && s.workers[i].Busy?
    case Put(i) => i < |s.workers| && s.workers[i].Done?
    case Exit(i) => i < |s.workers| && s.workers[i] == Waiting && s.chan == [] && s.reader == Gone
    case CollectGarbage(p) => p in s.pool
    case CloseConn => true
    case CloseReturns => !s.connOpen && s.reader == Gone && AllAre(s.workers, Exited)
  }

  function Next(s: State, e: Step): State
    requires Enabled(s, e)
  {
    match e
    case Get(p) =>
      s.(reader := Holding(p), pool := s.pool - {p}, mem := if p in s.mem then s.mem else s.mem[p := At(s.mem, p)])
    case Read(d) => s.(reader := Full(s.reader.p), mem := s.mem[s.reader.p := d], read := s.read + [d])
    case ReadError => s.(reader := Gone, pool := s.pool + {s.reader.p})
    case Send => s.(reader := Fresh, chan := s.chan + [s.reader.p])
    case Drop => s.(reader := Fresh, pool := s.pool + {s.reader.p}, dropped := s.dropped + [At(s.mem, s.reader.p)])
    case Receive(i) => s.(workers := s.workers[i := Busy(s.chan[0])], chan := s.chan[1..])
    case Process(i) =>
      s.(workers := s.workers[i := Done(s.workers[i].p)], processed := s.processed + [At(s.mem, s.workers[i].p)])
    case Put(i) => s.(workers := s.workers[i := Waiting], pool := s.pool + {s.workers[i].p})
    case Exit(i) => s.(workers := s.workers[i := Exited])
    case CollectGarbage(p) => s.(pool := s.pool - {p}, lost := s.lost + {p})
    case CloseConn => s.(connOpen := false)
    case CloseReturns => s.(returned := true)
  }

  /** The states a run passes through, if each of its steps is enabled. */
  ghost predicate Reaches(s: State, run: seq<Step>, t: State)
    decreases |run|
  {
    if run == [] then t == s else Enabled(s, run[0]) && Reaches(Next(s, run[0]), run[1..], t)
  }

  // ----- who holds what -----

  function One(b: bool): nat { if b then 1 else 0 }

  function HeldByReader(r: Reader, p: nat): nat { One((r.Holding? || r.Full?) && r.p == p) }

  function HeldByOne(w: Worker, p: nat): nat { One((w.Busy? || w.Done?) && w.p == p) }

  function HeldBy(ws: seq<Worker>, p: nat): nat {
    if ws == [] then 0 else HeldBy(ws[..|ws| - 1], p) + HeldByOne(ws[|ws| - 1], p)
  }

  function Places(chan: seq<nat>, p: nat): nat {
    if chan == [] then 0 else Places(chan[..|chan| - 1], p) + One(chan[|chan| - 1] == p)
  }

  /** How many owners buffer `p` has. */
  function Owners(s: State, p: nat): nat {
    One(p in s.pool) + One(p in s.lost) + Places(s.chan, p) + HeldByReader(s.reader, p) + HeldBy(s.workers, p)
  }

  function Count(log: seq<Datagram>, d: Datagram): nat {
    if log == [] then 0 else Count(log[..|log| - 1], d) + One(log[|log| - 1] == d)
  }

  function Queued(mem: map<nat, Datagram>, chan: seq<nat>, d: Datagram): nat {
    if chan == [] then 0 else Queued(mem, chan[..|chan| - 1], d) + One(At(mem, chan[|chan| - 1]) == d)
  }

  function LoadOfOne(mem: map<nat, Datagram>, w: Worker, d: Datagram): nat { One(w.Busy? && At(mem, w.p) == d) }

  function LoadOf(mem: map<nat, Datagram>, ws: seq<Worker>, d: Datagram): nat {
    if ws == [] then 0 else LoadOf(mem, ws[..|ws| - 1], d) + LoadOfOne(mem, ws[|ws| - 1], d)
  }

  /** How often datagram `d` is in flight, as the buffers hold it now. */
  function InFlight(s: State, d: Datagram): nat {
    Queued(s.mem, s.chan, d) + One(s.reader.Full? && At(s.mem, s.reader.p) == d) + LoadOf(s.mem, s.workers, d)
  }

  /** Exactly one owner: the pool, the channel, the reader, one worker, or the garbage collector. */
  ghost predicate OneOwner(s: State) { forall p: nat :: Owners(s, p) == One(p in s.mem) }

  predicate Balanced(s: State, d: Datagram) {
    Count(s.read, d) == Count(s.processed, d) + Count(s.dropped, d) + InFlight(s, d)
  }

  /** Nothing read is lost, invented or overwritten. */
  ghost predicate Conserved(s: State) { forall d :: Balanced(s, d) }

  ghost predicate Orderly(s: State) {
    |s.workers| > 0 && |s.chan| <= DEPTH
    && (forall i | 0 <= i < |s.workers| && s.workers[i] == Exited :: s.chan == [] && s.reader == Gone)
    && (s.returned ==> !s.connOpen && s.reader == Gone && AllAre(s.workers, Exited))
  }

  ghost predicate Inv(s: State) { OneOwner(s) && Conserved(s) && Orderly(s) }

  // ----- one step -----

  /** A worker that changes: what it held goes, what it holds comes. */
  lemma {:induction false} Swapped(mem: map<nat, Datagram>, ws: seq<Worker>, i: nat, w: Worker, p: nat, d: Datagram)
    requires i < |ws|
    ensures HeldBy(ws[i := w], p) + HeldByOne(ws[i], p) == HeldBy(ws, p) + HeldByOne(w, p)
    ensures LoadOf(mem, ws[i := w], d) + LoadOfOne(mem, ws[i], d) == LoadOf(mem, ws, d) + LoadOfOne(mem, w, d)
  {
    hide HeldByOne, LoadOfOne;
    var n := |ws| - 1;
    if i < n {
      Swapped(mem, ws[..n], i, w, p, d);
      assert ws[i := w][..n] == ws[..n][i := w];
    } else {
      assert ws[i := w][..n] == ws[..n];
    }
  }

  lemma {:induction false} TakeFirst(mem: map<nat, Datagram>, chan: seq<nat>, p: nat, d: Datagram)
    requires chan != []
    ensures Queued(mem, chan, d) == Queued(mem, chan[1..], d) + One(At(mem, chan[0]) == d)
    ensures Places(chan, p) == Places(chan[1..], p) + One(chan[0] == p)
  {
    hide One, At;
    var n := |chan| - 1;
    if n > 0 {
      TakeFirst(mem, chan[..n], p, d);
      assert chan[..n][1..] == chan[1..][..n - 1];
    }
  }

  lemma PutLast(mem: map<nat, Datagram>, chan: seq<nat>, q: nat, p: nat, d: Datagram)
    ensures Queued(mem, chan + [q], d) == Queued(mem, chan, d) + One(At(mem, q) == d)
    ensures Places(chan + [q], p) == Places(chan, p) + One(q == p)
  {
    assert (chan + [q])[..|chan|] == chan;
  }

  lemma Logged(log: seq<Datagram>, e: Datagram, d: Datagram)
    ensures Count(log + [e], d) == Count(log, d) + One(e == d)
  {
    assert (log + [e])[..|log|] == log;
  }

  /** Writing a buffer that is neither queued nor being processed changes no datagram in flight. */
  lemma {:induction false} WriteQueued(mem: map<nat, Datagram>, chan: seq<nat>, p: nat, v: Datagram, d: Datagram)
    requires Places(chan, p) == 0
    ensures Queued(mem[p := v], chan, d) == Queued(mem, chan, d)
  {
    if chan != [] { WriteQueued(mem, chan[..|chan| - 1], p, v, d); }
  }

  lemma {:induction false} WriteLoad(mem: map<nat, Datagram>, ws: seq<Worker>, p: nat, v: Datagram, d: Datagram)
    requires HeldBy(ws, p) == 0
    ensures LoadOf(mem[p := v], ws, d) == LoadOf(mem, ws, d)
  {
    if ws != [] { WriteLoad(mem, ws[..|ws| - 1], p, v, d); }
  }

  /** What a step does to the owners of one buffer and to the tally of one datagram. */
  ghost predicate Counts(s: State, p: nat, d: Datagram) { Owners(s, p) == One(p in s.mem) && Balanced(s, d) }

  lemma TakeCounts(s: State, e: Step, p: nat, d: Datagram)
    requires OneOwner(s) && Counts(s, p, d) && Enabled(s, e) && (e.Get? || e.Read?)
    ensures Counts(Next(s, e), p, d)
  {
    hide HeldBy, LoadOf, Queued, Places, Count;
    var q := if e.Get? then e.p else s.reader.p;
    var v := if e.Get? then At(s.mem, q) else e.d;
    assert Owners(s, q) == One(q in s.mem);
    WriteQueued(s.mem, s.chan, q, v, d);
    WriteLoad(s.mem, s.workers, q, v, d);
    Logged(s.read, v, d);
    if e.Get? && q in s.mem { assert s.mem[q := v] == s.mem; }
  }

  lemma ReaderCounts(s: State, e: Step, p: nat, d: Datagram)
    requires OneOwner(s) && Counts(s, p, d) && Enabled(s, e) && (e.ReadError? || e.Send? || e.Drop?)
    ensures Counts(Next(s, e), p, d)
  {
    hide HeldBy, LoadOf, Queued, Places, Count;
    assert Owners(s, s.reader.p) == One(s.reader.p in s.mem);
    PutLast(s.mem, s.chan, s.reader.p, p, d);
    Logged(s.dropped, At(s.mem, s.reader.p), d);
  }

  lemma WorkerCounts(s: State, e: Step, p: nat, d: Datagram)
    requires OneOwner(s) && Counts(s, p, d) && Enabled(s, e) && (e.Receive? || e.Process? || e.Put? || e.Exit?)
    ensures Counts(Next(s, e), p, d)
  {
    hide HeldBy, LoadOf, Queued, Places, Count, OneOwner, At, HeldByReader;
    var w := s.workers[e.i];
    Swapped(s.mem, s.workers, e.i, Next(s, e).workers[e.i], p, d);
    match e {
      case Receive(_) => TakeFirst(s.mem, s.chan, p, d);
      case Process(_) => Logged(s.processed, At(s.mem, w.p), d);
      case Put(i) => HeldSome(s.workers, i, w.p); assert Owners(s, w.p) == One(w.p in s.mem) by { OwnerOf(s, w.p); }
      case Exit(_) =>
    }
  }

  lemma OwnerOf(s: State, p: nat)
    requires OneOwner(s)
    ensures Owners(s, p) == One(p in s.mem)
  {}

  lemma {:induction false} HeldSome(ws: seq<Worker>, i: nat, p: nat)
    requires i < |ws| && HeldByOne(ws[i], p) == 1
    ensures HeldBy(ws, p) >= 1
  {
    if i < |ws| - 1 { HeldSome(ws[..|ws| - 1], i, p); }
  }

  lemma OtherCounts(s: State, e: Step, p: nat, d: Datagram)
    requires Counts(s, p, d) && Enabled(s, e) && (e.CollectGarbage? || e.CloseConn? || e.CloseReturns?)
    ensures Counts(Next(s, e), p, d)
  {
    hide HeldBy, LoadOf, Queued, Places, Count;
  }

  lemma StepIsOrderly(s: State, e: Step)
    requires Orderly(s) && Enabled(s, e)
    ensures Orderly(Next(s, e))
  {
    var t := Next(s, e);
    forall i | 0 <= i < |t.workers| && t.workers[i] == Exited ensures t.chan == [] && t.reader == Gone {
      if s.workers[i] != Exited { assert e.Exit?; }
    }
  }

  lemma StepKeeps(s: State, e: Step)
    requires Inv(s) && Enabled(s, e)
    ensures Inv(Next(s, e))
  {
    hide Next, Enabled, Owners, Balanced, Orderly;
    var t := Next(s, e);
    StepIsOrderly(s, e);
    forall p: nat, d ensures Counts(t, p, d) {
      OwnerOf(s, p);
      assert Counts(s, p, d);
      match e {
        case Get(_) => TakeCounts(s, e, p, d);
        case Read(_) => TakeCounts(s, e, p, d);
        case ReadError => ReaderCounts(s, e, p, d);
        case Send => ReaderCounts(s, e, p, d);
        case Drop => ReaderCounts(s, e, p, d);
        case CollectGarbage(_) => OtherCounts(s, e, p, d);
        case CloseConn => OtherCounts(s, e, p, d);
        case CloseReturns => OtherCounts(s, e, p, d);
        case _ => WorkerCounts(s, e, p, d);
      }
    }
    forall p: nat ensures Owners(t, p) == One(p in t.mem) { assert Counts(t, p, Datagram(NoHost, [])); }
    forall d ensures Balanced(t, d) { assert Counts(t, 0, d); }
  }

  // ----- whole runs -----

  lemma {:induction false} InitialCounts(ws: seq<Worker>, p: nat, d: Datagram)
    requires AllAre(ws, Waiting)
    ensures HeldBy(ws, p) == 0 && LoadOf(map[], ws, d) == 0
  {
    if ws != [] { InitialCounts(ws[..|ws| - 1], p, d); }
  }

  lemma InitialInv(s: State)
    requires Initial(s)
    ensures Inv(s)
  {
    forall p: nat ensures Owners(s, p) == 0 { InitialCounts(s.workers, p, Datagram(NoHost, [])); }
    forall d ensures Balanced(s, d) { InitialCounts(s.workers, 0, d); }
  }

  /** In every state of every run each buffer has exactly one owner, and the datagrams read are those
      processed, those dropped because the channel was full, and those in flight, unchanged. */
  lemma {:induction false} RunKeeps(s: State, run: seq<Step>, t: State)
    requires Inv(s) && Reaches(s, run, t)
    ensures Inv(t)
    decreases |run|
  {
    hide Next, Enabled, Inv;
    if run != [] {
      StepKeeps(s, run[0]);
      RunKeeps(Next(s, run[0]), run[1..], t);
    }
  }

  /** When Close returns nothing is in flight: everything read was processed or counted as dropped,
      and every buffer is back in the pool. */
  lemma ClosedIsEmpty(s: State, run: seq<Step>, t: State)
    requires Initial(s) && Reaches(s, run, t) && t.returned
    ensures forall d :: InFlight(t, d) == 0 && Count(t.read, d) == Count(t.processed, d) + Count(t.dropped, d)
    ensures forall p | p in t.mem :: p in t.pool || p in t.lost
  {
    hide Reaches, Next, Enabled, Initial, HeldBy, LoadOf;
    InitialInv(s);
    RunKeeps(s, run, t);
    assert t.chan == [] by { assert t.workers[0] == Exited; }
    forall p: nat, d ensures HeldBy(t.workers, p) == 0 && LoadOf(t.mem, t.workers, d) == 0 {
      ExitedHoldNothing(t.mem, t.workers, p, d);
    }
    forall d ensures InFlight(t, d) == 0 && Count(t.read, d) == Count(t.processed, d) + Count(t.dropped, d) {
      assert Balanced(t, d);
      assert HeldBy(t.workers, 0) == 0 && LoadOf(t.mem, t.workers, d) == 0;
    }
    forall p | p in t.mem ensures p in t.pool || p in t.lost {
      OwnerOf(t, p);
      assert HeldBy(t.workers, p) == 0 && LoadOf(t.mem, t.workers, Datagram(NoHost, [])) == 0;
    }
  }

  lemma {:induction false} ExitedHoldNothing(mem: map<nat, Datagram>, ws: seq<Worker>, p: nat, d: Datagram)
    requires AllAre(ws, Exited)
    ensures HeldBy(ws, p) == 0 && LoadOf(mem, ws, d) == 0
  {
    if ws != [] { ExitedHoldNothing(mem, ws[..|ws| - 1], p, d); }
  }

  // ----- Close returns -----

  function WorkLeft(w: Worker): nat {
    match w case Waiting => 1 case Busy(_) => 3 case Done(_) => 2 case Exited => 0
  }

  function WorkersLeft(ws: seq<Worker>): nat {
    if ws == [] then 0 else WorkersLeft(ws[..|ws| - 1]) + WorkLeft(ws[|ws| - 1])
  }

  function ReaderLeft(r: Reader): nat {
    match r case Fresh => 2 case Holding(_) => 1 case Full(_) => 6 case Gone => 0
  }

  /** Steps left, at most, once the connection is closed. */
  function Left(s: State): nat { ReaderLeft(s.reader) + 3 * |s.chan| + WorkersLeft(s.workers) }

  lemma {:induction false} WorkersLeftSwap(ws: seq<Worker>, i: nat, w: Worker)
    requires i < |ws|
    ensures WorkersLeft(ws[i := w]) + WorkLeft(ws[i]) == WorkersLeft(ws) + WorkLeft(w)
  {
    hide WorkLeft;
    var n := |ws| - 1;
    if i < n {
      WorkersLeftSwap(ws[..n], i, w);
      assert ws[i := w][..n] == ws[..n][i := w];
    } else {
      assert ws[i := w][..n] == ws[..n];
    }
  }

  /** Once the connection is closed every step of the reader or a worker uses up some of what is left,
      no step adds to it, and as long as Close cannot return yet one of them is possible. So Close
      returns after finitely many steps, whatever the interleaving. */
  lemma CloseReturnsSoon(s: State, e: Step)
    requires Orderly(s) && !s.connOpen && Enabled(s, e)
    ensures Left(Next(s, e)) < Left(s) || e.CollectGarbage? || e.CloseConn? || e.CloseReturns?
    ensures Left(Next(s, e)) <= Left(s)
  {
    hide WorkersLeft;
    if e.Receive? || e.Process? || e.Put? || e.Exit? { WorkersLeftSwap(s.workers, e.i, Next(s, e).workers[e.i]); }
  }

  lemma SomeStepIsPossible(s: State)
    requires Orderly(s) && !s.connOpen
    ensures Enabled(s, CloseReturns)
         || exists e :: Enabled(s, e) && !e.CollectGarbage? && !e.CloseConn? && !e.CloseReturns?
  {
    if s.reader == Fresh {
      var p := NewBuffer(s.mem.Keys);
      assert Enabled(s, Get(p));
    } else if s.reader.Holding? {
      assert Enabled(s, ReadError);
    } else if s.reader.Full? {
      assert Enabled(s, if |s.chan| < DEPTH then Send else Drop);
    } else if !AllAre(s.workers, Exited) {
      var i :| 0 <= i < |s.workers| && s.workers[i] != Exited;
      if s.workers[i].Busy? { assert Enabled(s, Process(i)); }
      else if s.workers[i].Done? { assert Enabled(s, Put(i)); }
      else if s.chan == [] { assert Enabled(s, Exit(i)); }
      else { assert Enabled(s, Receive(i)); }
    }
  }

  lemma {:induction false} NewBuffer(used: set<nat>) returns (p: nat)
    ensures p !in used
  {
    p := 0;
    ghost var below := used;
    while p in used
      invariant below == (set q | q in used && q >= p)
      decreases |below|
    {
      assert p in below;
      below := below - {p};
      p := p + 1;
    }
  }
}
