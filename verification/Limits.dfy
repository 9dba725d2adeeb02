/** The two rate limiters: failed logins (internal/server/auth.go) and AI triage (internal/ai/triage.go). */
module Limits {
  import opened Wrappers

  const SECOND := 1_000_000_000

  // ----- how many times fit in a window -----

  predicate NotAfter(log: seq<int>, t: int) { forall i | 0 <= i < |log| :: log[i] <= t }

  lemma Weaken(log: seq<int>, t: int, later: int)
    requires NotAfter(log, t) && t <= later
    ensures NotAfter(log, later)
  {}

  predicate Sorted(log: seq<int>) { forall i, j | 0 <= i < j < |log| :: log[i] <= log[j] }

  /** Times that are k or more places apart are at least `width` apart. */
  predicate Spaced(log: seq<int>, k: nat, width: int) {
    forall i, j | 0 <= i < |log| && i + k <= j < |log| :: log[j] >= log[i] + width
  }

  /** How many of the times lie in the half-open window from `a`. */
  function InWindow(log: seq<int>, a: int, width: int): nat {
    if log == [] then 0
    else InWindow(log[..|log| - 1], a, width) + if a <= log[|log| - 1] < a + width then 1 else 0
  }

  lemma {:induction false} AtMostLength(log: seq<int>, a: int, width: int)
    ensures InWindow(log, a, width) <= |log|
  {
    if log != [] { AtMostLength(log[..|log| - 1], a, width); }
  }

  /** Times before the window add nothing. */
  lemma {:induction false} SkipEarlier(log: seq<int>, m: nat, a: int, width: int)
    requires m <= |log| && forall i | 0 <= i < m :: log[i] < a
    ensures InWindow(log, a, width) == InWindow(log[m..], a, width)
  {
    var n := |log| - 1;
    if m == |log| {
      if log != [] {
        SkipEarlier(log[..n], n, a, width);
        assert log[..n][n..] == [];
      }
    } else {
      SkipEarlier(log[..n], m, a, width);
      assert log[m..][..|log[m..]| - 1] == log[..n][m..];
    }
  }

  /** Spaced times: at most `k` fit in any half-open window. */
  lemma {:induction false} SpacedFit(log: seq<int>, k: nat, width: int, a: int)
    requires Sorted(log) && Spaced(log, k, width) && k > 0
    ensures InWindow(log, a, width) <= k
  {
    if log == [] { return; }
    var n := |log| - 1;
    if !(a <= log[n] < a + width) || n < k {
      if n < k { AtMostLength(log, a, width); } else { SpacedFit(log[..n], k, width, a); }
    } else {
      var m := n + 1 - k;
      forall i | 0 <= i < m ensures log[i] < a { assert log[m - 1] + width <= log[n]; }
      SkipEarlier(log, m, a, width);
      AtMostLength(log[m..], a, width);
    }
  }

  // ----- failed logins -----

  const MAX_ATTEMPTS := 5
  const ATTEMPT_WINDOW := 60 * SECOND

  /** `block` is None for Go's zero time. */
  datatype AttemptLog = AttemptLog(count: int, reset: int, block: Option<int>)

  /** The clock readings of one attempt: against the block, against the reset, for a new reset, for a new
      entry or the failure itself, and for a new block. */
  datatype Clock = Clock(block: int, since: int, reset: int, failure: int, until: int) {
    predicate After(t: int) { t <= block <= since <= reset <= failure <= until }
  }

  datatype LoginResult = Accepted | Rejected | Blocked

  /** One address's entry against the times of its failures since its last success. */
  ghost predicate Consistent(e: Option<AttemptLog>, log: seq<int>, now: int) {
    Sorted(log) && Spaced(log, 2 * MAX_ATTEMPTS - 1, ATTEMPT_WINDOW)
    && NotAfter(log, now)
    && match e
       case None => log == []
       case Some(l) =>
         var n := |log|;
         0 <= l.count < MAX_ATTEMPTS && l.count <= n && l.reset <= now
         // the failure before those counted, and the one MAX_ATTEMPTS before them
         && (n > l.count ==> log[n - l.count - 1] <= l.reset || Gone(log[n - l.count - 1], l.block))
         && (n >= l.count + MAX_ATTEMPTS ==>
               log[n - l.count - MAX_ATTEMPTS] + ATTEMPT_WINDOW <= l.reset
                 || Gone(log[n - l.count - MAX_ATTEMPTS], l.block))
  }

  /** The block that has to pass before the next failure ends a full window after time `t`. */
  predicate Gone(t: int, block: Option<int>) { block.Some? && t + ATTEMPT_WINDOW <= block.value }

  function Entry(attempts: map<string, AttemptLog>, ip: string): Option<AttemptLog> {
    if ip in attempts then Some(attempts[ip]) else None
  }

  function Failures(failures: map<string, seq<int>>, ip: string): seq<int> {
    if ip in failures then failures[ip] else []
  }

  predicate IsBlocked(e: Option<AttemptLog>, t: Clock) {
    e.Some? && e.value.block.Some? && t.block < e.value.block.value
  }

  /** The entry after the check: counted from scratch if its window has passed. */
  function Refreshed(l: AttemptLog, t: Clock): AttemptLog {
    if t.since - l.reset > ATTEMPT_WINDOW then l.(count := 0, reset := t.reset) else l
  }

  function Recorded(e: Option<AttemptLog>, t: Clock): AttemptLog {
    var l := if e.Some? then e.value else AttemptLog(0, t.failure, None);
    if l.count + 1 >= MAX_ATTEMPTS then l.(block := Some(t.until + ATTEMPT_WINDOW), count := 0)
    else l.(count := l.count + 1)
  }

  lemma Later(e: Option<AttemptLog>, log: seq<int>, now: int, later: int)
    requires Consistent(e, log, now) && now <= later
    ensures Consistent(e, log, later)
  {}

  /** The entry after a failed login that was not blocked. */
  function AfterFailure(e: Option<AttemptLog>, t: Clock): AttemptLog {
    Recorded(if e.Some? then Some(Refreshed(e.value, t)) else None, t)
  }

  lemma NoFailures(now: int)
    ensures Consistent(None, [], now)
  {}

  /** The check never refuses because of the count: a full count has already been turned into a block. */
  lemma RefreshKeeps(e: Option<AttemptLog>, log: seq<int>, t: Clock, now: int)
    requires Consistent(e, log, now) && t.After(now) && !IsBlocked(e, t)
    ensures e.Some? ==> Refreshed(e.value, t).count < MAX_ATTEMPTS && Refreshed(e.value, t).block == e.value.block
    ensures e.Some? ==> Consistent(Some(Refreshed(e.value, t)), log, t.reset)
    ensures e.None? ==> Consistent(None, log, t.reset)
  {
    hide Spaced;
    if e.Some? {
      var l, n := e.value, |log|;
      if n >= MAX_ATTEMPTS && l.count < n {
        assert log[n - MAX_ATTEMPTS] <= log[n - l.count - 1];
      }
    }
  }

  lemma AppendTime(log: seq<int>, x: int, k: nat, width: int)
    requires Sorted(log) && Spaced(log, k, width) && NotAfter(log, x) && k > 0
    requires |log| >= k ==> log[|log| - k] + width <= x
    ensures Sorted(log + [x]) && Spaced(log + [x], k, width) && NotAfter(log + [x], x)
  {
    forall i | 0 <= i && i + k <= |log| ensures log[i] + width <= x { assert log[i] <= log[|log| - k]; }
  }

  lemma FailureKeeps(e: Option<AttemptLog>, log: seq<int>, t: Clock)
    requires Consistent(e, log, t.reset) && t.reset <= t.failure <= t.until && !IsBlocked(e, t) && t.block <= t.failure
    ensures Consistent(Some(Recorded(e, t)), log + [t.failure], t.until)
  {
    hide Spaced;
    var n, k := |log|, 2 * MAX_ATTEMPTS - 1;
    if n >= k { assert log[n - k] <= log[n - e.value.count - MAX_ATTEMPTS]; }
    AppendTime(log, t.failure, k, ATTEMPT_WINDOW);
    hide Sorted;
  }

  class AuthManager {
    var attempts: map<string, AttemptLog>
    ghost var failures: map<string, seq<int>>
    ghost var now: int

    constructor (start: int)
      ensures Valid() && now == start && attempts == map[]
    { attempts, failures, now := map[], map[], start; }

    ghost predicate Valid()
      reads this
    {
      forall ip :: Consistent(Entry(attempts, ip), Failures(failures, ip), now)
    }

    method AllowAttempt(ip: string, t: Clock) returns (ok: bool)
      modifies this`attempts
      ensures ok <==> !IsBlocked(Entry(old(attempts), ip), t)
                      && (ip in old(attempts) ==> Refreshed(old(attempts)[ip], t).count < MAX_ATTEMPTS)
      ensures attempts == if ip !in old(attempts) || IsBlocked(Entry(old(attempts), ip), t) then old(attempts)
                          else old(attempts)[ip := Refreshed(old(attempts)[ip], t)]
    {
      if ip !in attempts { return true; }
      var l := attempts[ip];
      if l.block.Some? && t.block < l.block.value { return false; }
      if t.since - l.reset > ATTEMPT_WINDOW { l := l.(count := 0, reset := t.reset); }
      attempts := attempts[ip := l];
      return l.count < MAX_ATTEMPTS;
    }

    method RecordFailure(ip: string, t: Clock)
      modifies this`attempts
      ensures attempts == old(attempts)[ip := Recorded(Entry(old(attempts), ip), t)]
    {
      var l := if ip in attempts then attempts[ip] else AttemptLog(0, t.failure, None);
      l := l.(count := l.count + 1);
      if l.count >= MAX_ATTEMPTS { l := l.(block := Some(t.until + ATTEMPT_WINDOW), count := 0); }
      attempts := attempts[ip := l];
    }

    /** Login and LoginUser, as far as the limiter goes; `good` says whether the credentials are right.
        An address is refused exactly while its block lasts, and other addresses are not touched. */
    method Login(ip: string, good: bool, t: Clock) returns (r: LoginResult)
      requires Valid() && t.After(now)
      modifies this
      ensures Valid() && now == t.until
      ensures r == Blocked <==> IsBlocked(Entry(old(attempts), ip), t)
      ensures r == Accepted ==> good && failures == old(failures)[ip := []]
      ensures r == Rejected ==> !good && failures == old(failures)[ip := Failures(old(failures), ip) + [t.failure]]
                                && attempts == old(attempts)[ip := AfterFailure(Entry(old(attempts), ip), t)]
      ensures r == Blocked ==> failures == old(failures)
      ensures forall other | other != ip :: Entry(attempts, other) == Entry(old(attempts), other)
    {
      hide Consistent, Recorded, Refreshed;
      ghost var was, logs, now0 := attempts, failures, now;
      ghost var e0, log := Entry(attempts, ip), Failures(failures, ip);
      var allowed := AllowAttempt(ip, t);
      now := t.until;
      if !IsBlocked(e0, t) {
        RefreshKeeps(e0, log, t, now0);
        FailureKeeps(Entry(attempts, ip), log, t);
      }
      NoFailures(now);
      if !allowed {
        r := Blocked;
      } else if !good {
        RecordFailure(ip, t);
        failures := failures[ip := log + [t.failure]];
        r := Rejected;
      } else {
        attempts := attempts - {ip};
        failures := failures[ip := []];
        r := Accepted;
      }
      forall other ensures Consistent(Entry(attempts, other), Failures(failures, other), now) {
        if other != ip || r == Blocked { Later(Entry(was, other), Failures(logs, other), now0, now); }
      }
    }
  }

  /** One address records at most 2 * MAX_ATTEMPTS - 1 failures in any half-open window without a success. */
  lemma FailuresAreLimited(m: AuthManager, ip: string, a: int)
    requires m.Valid()
    ensures InWindow(Failures(m.failures, ip), a, ATTEMPT_WINDOW) <= 2 * MAX_ATTEMPTS - 1
  {
    assert Consistent(Entry(m.attempts, ip), Failures(m.failures, ip), m.now);
    SpacedFit(Failures(m.failures, ip), 2 * MAX_ATTEMPTS - 1, ATTEMPT_WINDOW, a);
  }

  /** The entry after `k` failures at time `x`; None if one of them is blocked instead. */
  function FailMany(e: Option<AttemptLog>, x: int, k: nat): Option<AttemptLog>
    decreases k
  {
    if k == 0 then e
    else
      var t := Clock(x, x, x, x, x);
      if IsBlocked(e, t) then None else FailMany(Some(AfterFailure(e, t)), x, k - 1)
  }

  function Times(x: int, k: nat): (times: seq<int>)
    ensures |times| == k && forall i | 0 <= i < k :: times[i] == x
  {
    seq(k, i => x)
  }

  /** ... and that many are possible: five failures block the address for a window; at the very end of the
      block the old window has not yet passed, so four more count there, and a moment later five more. */
  lemma NineFit()
    ensures var w := ATTEMPT_WINDOW;
      FailMany(FailMany(FailMany(None, 0, MAX_ATTEMPTS), w, MAX_ATTEMPTS - 1), w + 1, MAX_ATTEMPTS).Some?
      && InWindow(Times(0, 5) + Times(w, 4) + Times(w + 1, 5), w, w) == 2 * MAX_ATTEMPTS - 1
  {
    var w := ATTEMPT_WINDOW;
    assert FailMany(None, 0, 5) == Some(AttemptLog(0, 0, Some(w)));
    assert FailMany(Some(AttemptLog(0, 0, Some(w))), w, 4) == Some(AttemptLog(4, 0, Some(w)));
    assert FailMany(Some(AttemptLog(4, 0, Some(w))), w + 1, 5) == Some(AttemptLog(0, w + 1, Some(2 * w + 1)));
    var times := Times(0, 5) + Times(w, 4) + Times(w + 1, 5);
    SkipEarlier(times, 5, w, w);
    AllIn(times[5..], w, w);
  }

  lemma {:induction false} AllIn(log: seq<int>, a: int, width: int)
    requires forall i | 0 <= i < |log| :: a <= log[i] < a + width
    ensures InWindow(log, a, width) == |log|
  {
    if log != [] { AllIn(log[..|log| - 1], a, width); }
  }

  // ----- triage -----

  const HOUR := 3600 * SECOND

  function Recent(log: seq<int>, cut: int): (kept: seq<int>)
    ensures |kept| <= |log|
  {
    if log == [] then []
    else Recent(log[..|log| - 1], cut) + if log[|log| - 1] > cut then [log[|log| - 1]] else []
  }

  function Past(log: seq<int>, cut: int): (past: seq<int>)
    ensures NotAfter(past, cut)
  {
    if log == [] then []
    else Past(log[..|log| - 1], cut) + if log[|log| - 1] <= cut then [log[|log| - 1]] else []
  }

  lemma {:induction false} NoneRecent(log: seq<int>, cut: int)
    requires NotAfter(log, cut)
    ensures Recent(log, cut) == []
  {
    if log != [] { NoneRecent(log[..|log| - 1], cut); }
  }

  /** The recent times of a sorted log are its tail. */
  lemma {:induction false} RecentIsTail(log: seq<int>, cut: int)
    requires Sorted(log)
    ensures log == Past(log, cut) + Recent(log, cut)
  {
    if log != [] {
      var n := |log| - 1;
      SortedInit(log);
      hide Sorted, NotAfter;
      RecentIsTail(log[..n], cut);
      assert log == log[..n] + [log[n]];
      if log[n] <= cut {
        Weaken(log[..n], log[n], cut);
        NoneRecent(log[..n], cut);
      }
    }
  }

  lemma SortedInit(log: seq<int>)
    requires Sorted(log) && log != []
    ensures Sorted(log[..|log| - 1]) && NotAfter(log[..|log| - 1], log[|log| - 1])
  {}

  /** What an earlier cut dropped is not recent now. */
  lemma {:induction false} RecentSkips(gone: seq<int>, log: seq<int>, cut: int)
    requires NotAfter(gone, cut)
    ensures Recent(gone + log, cut) == Recent(log, cut)
  {
    if log == [] {
      NoneRecent(gone, cut);
      assert gone + log == gone;
    } else {
      RecentSkips(gone, log[..|log| - 1], cut);
      assert (gone + log)[..|gone + log| - 1] == gone + log[..|log| - 1];
    }
  }

  class Triager {
    const maxPerHr: nat
    var window: array<int>
    var len: nat
    /** The admissions no longer in the window, and the time. */
    ghost var gone: seq<int>
    ghost var now: int

    /** Every admission so far. */
    ghost function Log(): seq<int>
      requires len <= window.Length
      reads this, window
    {
      gone + window[..len]
    }

    constructor (maxPerHour: int, start: int)
      ensures Valid() && fresh(window) && maxPerHr == if maxPerHour <= 0 then 10 else maxPerHour
    {
      maxPerHr := if maxPerHour <= 0 then 10 else maxPerHour;
      window := new int[0];
      len, gone, now := 0, [], start;
    }

    ghost predicate Valid()
      reads this, window
    {
      maxPerHr > 0 && len <= window.Length
      && Sorted(Log()) && Spaced(Log(), maxPerHr, HOUR) && NotAfter(Log(), now) && NotAfter(gone, now - HOUR)
    }

    /** The loop that moves the recent times to the front of the same array. */
    method KeepRecent(cut: int)
      requires len <= window.Length
      modifies `len, window
      ensures len <= window.Length && window[..len] == Recent(old(window[..len]), cut)
    {
      var n, k := len, 0;
      ghost var was := window[..n];
      for i := 0 to n
        invariant n <= window.Length && k <= i
        invariant window[..k] == Recent(was[..i], cut) && window[i..n] == was[i..]
      {
        assert was[..i + 1][..i] == was[..i] && window[i] == window[i..n][0] == was[i];
        var ts := window[i];
        if ts > cut {
          window[k] := ts;
          k := k + 1;
          assert window[..k] == window[..k - 1] + [ts];
        }
        assert window[i + 1..n] == was[i..][1..];
      }
      assert was[..n] == was;
      len := k;
    }

    /** Go's append: in place while there is room, else into a larger array. */
    method Append(ts: int)
      requires len <= window.Length
      modifies `len, `window, window
      ensures len == old(len) + 1 <= window.Length && (window == old(window) || fresh(window))
      ensures window[..len] == old(window[..len]) + [ts]
    {
      ghost var was := window[..len];
      if len == window.Length {
        var more := new int[2 * len + 1];
        for i := 0 to len
          invariant len == |was| && window == old(window) && window[..len] == was && more[..i] == was[..i]
        {
          more[i] := window[i];
          assert more[..i + 1] == was[..i] + [was[i]];
        }
        assert was[..len] == was;
        window := more;
      }
      window[len] := ts;
      len := len + 1;
      assert window[..len] == was + [ts];
    }

    /** `t0` and `t1` are its two clock readings. It refuses only when that many were admitted in the last
        hour. */
    method Allow(t0: int, t1: int) returns (ok: bool)
      requires Valid() && now <= t0 <= t1
      modifies this, window
      ensures Valid() && now == t1 && (window == old(window) || fresh(window))
      ensures ok <==> |Recent(old(Log()), t0 - HOUR)| < maxPerHr
      ensures Log() == if ok then old(Log()) + [t1] else old(Log())
    {
      hide Recent, Past, Spaced, Sorted, NotAfter;
      ghost var all, was := Log(), window[..len];
      var cut := t0 - HOUR;
      Weaken(all, now, t1);
      Weaken(gone, now - HOUR, cut);
      RecentSkips(gone, was, cut);
      TailSorted(gone, was);
      RecentIsTail(was, cut);
      KeepRecent(cut);
      now := t1;
      NotAfterBoth(gone, Past(was, cut), cut);
      gone := gone + Past(was, cut);
      Weaken(gone, cut, t1 - HOUR);
      assert Log() == all;
      if len >= maxPerHr { return false; }
      LastOnes(gone, window[..len], maxPerHr, t1 - HOUR);
      AppendTime(all, t1, maxPerHr, HOUR);
      Append(t1);
      assert Log() == all + [t1];
      return true;
    }
  }

  lemma TailSorted(a: seq<int>, b: seq<int>)
    requires Sorted(a + b)
    ensures Sorted(b)
  {
    forall i, j | 0 <= i < j < |b| ensures b[i] <= b[j] { assert (a + b)[|a| + i] == b[i] && (a + b)[|a| + j] == b[j]; }
  }

  lemma NotAfterBoth(a: seq<int>, b: seq<int>, t: int)
    requires NotAfter(a, t) && NotAfter(b, t)
    ensures NotAfter(a + b, t)
  {}

  /** With fewer than `k` recent times, the k-th last is a past one. */
  lemma LastOnes(gone: seq<int>, recent: seq<int>, k: nat, cut: int)
    requires NotAfter(gone, cut) && |recent| < k
    ensures var all := gone + recent; |all| >= k ==> all[|all| - k] <= cut
  {}

  /** At most `maxPerHr` admissions in any half-open hour. */
  lemma AdmissionsAreLimited(t: Triager, a: int)
    requires t.Valid()
    ensures InWindow(t.Log(), a, HOUR) <= t.maxPerHr
  {
    SpacedFit(t.Log(), t.maxPerHr, HOUR, a);
  }
}
