/** The streaming <think> filter of internal/ai/openai.go and its whole-string
    counterpart of internal/ai/ai.go. Letter case is folded over ASCII. */
module ThinkFilter {
  import opened Text

  const OPEN := "<think>"
  const CLOSE := "</think>"

  /** `tag` (given in lower case) occurs in `s` at position `i`, in any letter case. */
  predicate TagAt(s: string, tag: string, i: nat) {
    i + |tag| <= |s| && forall j | 0 <= j < |tag| :: Lower(s[i + j]) == tag[j]
  }

  /** The last `k` characters of `s` are the first `k` characters of `tag`, in any letter case. */
  predicate SuffixBegins(s: string, tag: string, k: nat) {
    k <= |s| && k <= |tag| && forall j | 0 <= j < k :: Lower(s[|s| - k + j]) == tag[j]
  }

  /** `k` is the length of the longest suffix of `s` that a later chunk could complete to `tag`. */
  ghost predicate LongestHeld(s: string, tag: string, k: nat) {
    k < |tag| && SuffixBegins(s, tag, k)
    && forall k' | k < k' < |tag| :: !SuffixBegins(s, tag, k')
  }

  /** The reference meaning: one pass over the uncut text, deciding at each
      position only whether a tag starts there. */
  function Scan(s: string, inside: bool): string
    decreases |s|
  {
    if s == "" then ""
    else if inside then
      if TagAt(s, CLOSE, 0) then Scan(s[|CLOSE|..], false) else Scan(s[1..], true)
    else
      if TagAt(s, OPEN, 0) then Scan(s[|OPEN|..], true) else [s[0]] + Scan(s[1..], false)
  }

  function TagFor(inside: bool): string { if inside then CLOSE else OPEN }

  // ----- search primitives -----

  function IndexFrom(s: string, tag: string, from: nat): (r: int)
    requires from <= |s|
    ensures r < 0 ==> forall i: nat | from <= i :: i <= |s| ==> !TagAt(s, tag, i)
    ensures r >= 0 ==> from <= r && TagAt(s, tag, r) && forall i: nat | from <= i < r :: !TagAt(s, tag, i)
    decreases |s| - from
  {
    if TagAt(s, tag, from) then from
    else if from == |s| then -1
    else IndexFrom(s, tag, from + 1)
  }

  /** The first position of `tag` in `s` whatever the letter case, or -1. */
  function IndexFold(s: string, tag: string): (r: int)
    ensures r < 0 ==> forall i: nat :: !TagAt(s, tag, i)
    ensures r >= 0 ==> TagAt(s, tag, r) && forall i: nat | i < r :: !TagAt(s, tag, i)
  {
    IndexFrom(s, tag, 0)
  }

  method PartialSuffixLen(s: string, tag: string) returns (k: nat)
    requires tag != ""
    ensures LongestHeld(s, tag, k)
  {
    var max := |tag| - 1;
    if |s| < max { max := |s|; }
    k := max;
    while k > 0
      invariant k <= max
      invariant forall k' | k < k' < |tag| :: !SuffixBegins(s, tag, k')
    {
      if SuffixBegins(s, tag, k) { return; }
      k := k - 1;
    }
  }

  // ----- the scan over a prefix without tags -----

  /** A tag in `a + b` that starts inside `a` lies in `a` or runs over its end. */
  lemma TagSplits(a: string, b: string, tag: string, i: nat)
    requires TagAt(a + b, tag, i) && i < |a|
    ensures if i + |tag| <= |a| then TagAt(a, tag, i) else SuffixBegins(a, tag, |a| - i)
  {
    var k := if i + |tag| <= |a| then |tag| else |a| - i;
    forall j | 0 <= j < k ensures Lower(a[i + j]) == tag[j] {
      assert (a + b)[i + j] == a[i + j];
    }
  }

  lemma TagShifts(t: string, tag: string, n: nat, i: nat)
    requires n <= |t|
    ensures TagAt(t[n..], tag, i) == TagAt(t, tag, n + i)
  {
    if n + i + |tag| <= |t| {
      forall j | 0 <= j < |tag| ensures Lower(t[n..][i + j]) == tag[j] <==> Lower(t[n + i + j]) == tag[j] {}
    }
  }

  lemma ScanStep(t: string, inside: bool)
    requires t != "" && !TagAt(t, TagFor(inside), 0)
    ensures Scan(t, inside) == (if inside then "" else [t[0]]) + Scan(t[1..], inside)
  {}

  lemma ScanNothing(inside: bool)
    ensures Scan("", inside) == ""
  {}

  lemma ScanTag(t: string, inside: bool)
    requires TagAt(t, TagFor(inside), 0)
    ensures Scan(t, inside) == Scan(t[|TagFor(inside)|..], !inside)
  {}

  lemma {:induction false} ScanOverUntagged(t: string, inside: bool, n: nat)
    requires n <= |t|
    requires forall i: nat | i < n :: !TagAt(t, TagFor(inside), i)
    ensures Scan(t, inside) == (if inside then "" else t[..n]) + Scan(t[n..], inside)
  {
    hide Scan, TagAt;
    if n == 0 {
      assert t[0..] == t && t[..0] == "";
    } else {
      var u := t[1..];
      forall i: nat | i < n - 1 ensures !TagAt(u, TagFor(inside), i) {
        TagShifts(t, TagFor(inside), 1, i);
      }
      ScanOverUntagged(u, inside, n - 1);
      assert u[n - 1..] == t[n..];
      ScanStep(t, inside);
      if !inside {
        assert t[..n] == [t[0]] + u[..n - 1];
        assert [t[0]] + (u[..n - 1] + Scan(t[n..], false)) == t[..n] + Scan(t[n..], false);
      }
    }
  }

  /** No tag can start before the held suffix, whatever text follows. */
  lemma NoTagBeforeHeld(s: string, tag: string, keep: nat, rest: string, i: nat)
    requires LongestHeld(s, tag, keep)
    requires forall p: nat :: !TagAt(s, tag, p)
    requires i + keep < |s|
    ensures !TagAt(s + rest, tag, i)
  {
    if TagAt(s + rest, tag, i) {
      TagSplits(s, rest, tag, i);
    }
  }

  /** Text without a whole tag is decided up to the longest held suffix. */
  lemma ScanToHeld(s: string, inside: bool, keep: nat, rest: string)
    requires LongestHeld(s, TagFor(inside), keep)
    requires forall p: nat :: !TagAt(s, TagFor(inside), p)
    ensures Scan(s + rest, inside)
         == (if inside then "" else s[..|s| - keep]) + Scan(s[|s| - keep..] + rest, inside)
  {
    var n := |s| - keep;
    forall i: nat | i < n ensures !TagAt(s + rest, TagFor(inside), i) {
      NoTagBeforeHeld(s, TagFor(inside), keep, rest, i);
    }
    ScanOverUntagged(s + rest, inside, n);
    assert (s + rest)[..n] == s[..n];
    assert (s + rest)[n..] == s[n..] + rest;
  }

  /** A whole tag found at its first position `p` switches the scan. */
  lemma ScanToTag(s: string, inside: bool, p: nat, rest: string)
    requires TagAt(s, TagFor(inside), p)
    requires forall i: nat | i < p :: !TagAt(s, TagFor(inside), i)
    ensures Scan(s + rest, inside)
         == (if inside then "" else s[..p]) + Scan(s[p + |TagFor(inside)|..] + rest, !inside)
  {
    hide Scan, TagAt;
    var tag, t := TagFor(inside), s + rest;
    TagMoves(s, rest, tag, p);
    ScanOverUntagged(t, inside, p);
    ScanTag(t[p..], inside);
  }

  lemma TagMoves(s: string, rest: string, tag: string, p: nat)
    requires TagAt(s, tag, p) && forall i: nat | i < p :: !TagAt(s, tag, i)
    ensures forall i: nat | i < p :: !TagAt(s + rest, tag, i)
    ensures TagAt((s + rest)[p..], tag, 0) && p + |tag| <= |s|
    ensures (s + rest)[..p] == s[..p] && (s + rest)[p..][|tag|..] == s[p + |tag|..] + rest
  {
    forall i: nat | i < p ensures !TagAt(s + rest, tag, i) {
      if TagAt(s + rest, tag, i) { TagSplits(s, rest, tag, i); }
    }
    var u := (s + rest)[p..];
    forall j | 0 <= j < |tag| ensures Lower(u[j]) == tag[j] { assert u[j] == s[p + j]; }
  }

  /** What flushThinkStream returns for the carry is its scan: a carry never holds a whole tag. */
  lemma ScanOfHeld(held: string, inside: bool)
    requires |held| < |TagFor(inside)|
    ensures Scan(held, inside) == if inside then "" else held
  {
    forall i: nat | i < |held| ensures !TagAt(held, TagFor(inside), i) {}
    ScanOverUntagged(held, inside, |held|);
    assert held[..|held|] == held;
  }

  /** The held text cannot be released earlier: one continuation makes all of it vanish. */
  lemma {:induction false} HeldIsNeeded(held: string, inside: bool)
    requires |held| < |TagFor(inside)| && SuffixBegins(held, TagFor(inside), |held|)
    ensures exists rest :: Scan(held + rest, inside) == ""
  {
    if inside {
      ScanOfHeld(held, true);
      assert held + "" == held;
    } else {
      hide Scan, TagAt, SuffixBegins, ToLower;
      var rest := OPEN[|held|..];
      OpenIsLower();
      Completes(held, OPEN);
      assert (held + rest)[|OPEN|..] == "";
      ScanTag(held + rest, false);
      ScanNothing(true);
    }
  }

  lemma OpenIsLower()
    ensures ToLower(OPEN) == OPEN
  {}

  lemma Completes(held: string, tag: string)
    requires |held| <= |tag| && SuffixBegins(held, tag, |held|) && ToLower(tag) == tag
    ensures TagAt(held + tag[|held|..], tag, 0)
  {
    var t := held + tag[|held|..];
    forall j | 0 <= j < |tag| ensures Lower(t[j]) == tag[j] {
      if j < |held| { assert t[j] == held[|held| - |held| + j]; } else { assert t[j] == tag[j] == ToLower(tag)[j]; }
    }
  }

  // ----- one call and one turn of its loop -----

  /** Whatever text follows, the scan from (`s0`, `in0`) is `out` and then the scan from (`s`, `inside`). */
  ghost predicate Accounts(s0: string, in0: bool, out: string, s: string, inside: bool) {
    forall rest :: AccountsFor(s0, in0, out, s, inside, rest)
  }

  ghost predicate AccountsFor(s0: string, in0: bool, out: string, s: string, inside: bool, rest: string) {
    Scan(s0 + rest, in0) == out + Scan(s + rest, inside)
  }

  /** Some continuation adds nothing to `out`. */
  ghost predicate Prompt(s0: string, in0: bool, out: string) {
    exists rest :: Scan(s0 + rest, in0) == out
  }

  lemma Start(s: string, inside: bool)
    ensures Accounts(s, inside, "", s, inside)
  {
    forall rest ensures AccountsFor(s, inside, "", s, inside, rest) {}
  }

  /** One turn of the loop, which crosses a whole tag. */
  lemma Switch(s0: string, in0: bool, out: string, s: string, inside: bool, p: nat)
    requires Accounts(s0, in0, out, s, inside)
    requires TagAt(s, TagFor(inside), p)
    requires forall i: nat | i < p :: !TagAt(s, TagFor(inside), i)
    ensures Accounts(s0, in0, if inside then out else out + s[..p], s[p + |TagFor(inside)|..], !inside)
  {
    var out' := if inside then out else out + s[..p];
    var s' := s[p + |TagFor(inside)|..];
    var outside := !inside;
    forall rest ensures AccountsFor(s0, in0, out', s', outside, rest) {
      assert AccountsFor(s0, in0, out, s, inside, rest);
      ScanToTag(s, inside, p, rest);
      assert out + (s[..p] + Scan(s' + rest, !inside)) == (out + s[..p]) + Scan(s' + rest, !inside);
    }
  }

  /** The last turn: no whole tag is left and `keep` characters go to the carry. */
  lemma Hold(s0: string, in0: bool, out: string, s: string, inside: bool, keep: nat)
    requires Accounts(s0, in0, out, s, inside)
    requires LongestHeld(s, TagFor(inside), keep)
    requires forall p: nat :: !TagAt(s, TagFor(inside), p)
    ensures Accounts(s0, in0, if inside then out else out + s[..|s| - keep], s[|s| - keep..], inside)
    ensures SuffixBegins(s[|s| - keep..], TagFor(inside), keep)
    ensures Prompt(s0, in0, if inside then out else out + s[..|s| - keep])
  {
    var out' := if inside then out else out + s[..|s| - keep];
    var held := s[|s| - keep..];
    forall rest ensures AccountsFor(s0, in0, out', held, inside, rest) {
      assert AccountsFor(s0, in0, out, s, inside, rest);
      ScanToHeld(s, inside, keep, rest);
      assert out + (s[..|s| - keep] + Scan(held + rest, inside)) == (out + s[..|s| - keep]) + Scan(held + rest, inside);
    }
    HeldIsNeeded(held, inside);
    var rest :| Scan(held + rest, inside) == "";
    assert AccountsFor(s0, in0, out', held, inside, rest);
  }

  /** Filtering two chunks one after the other accounts for their concatenation. */
  lemma Chain(t: string, out: string, held: string, inside: bool,
              piece: string, out1: string, held1: string, inside1: bool)
    requires Accounts(t, false, out, held, inside)
    requires Accounts(held + piece, inside, out1, held1, inside1)
    ensures Accounts(t + piece, false, out + out1, held1, inside1)
  {
    forall rest ensures AccountsFor(t + piece, false, out + out1, held1, inside1, rest) {
      assert AccountsFor(t, false, out, held, inside, piece + rest);
      assert AccountsFor(held + piece, inside, out1, held1, inside1, rest);
      assert (t + piece) + rest == t + (piece + rest);
      assert held + (piece + rest) == (held + piece) + rest;
      assert out + (out1 + Scan(held1 + rest, inside1)) == (out + out1) + Scan(held1 + rest, inside1);
    }
  }

  // ----- the filter -----

  /** The strings.Builder the filter carries from chunk to chunk. */
  class Builder {
    var s: string

    constructor ()
      ensures s == ""
    { s := ""; }

    method WriteString(t: string)
      modifies this
      ensures s == old(s) + t
    { s := s + t; }

    method Reset()
      modifies this
      ensures s == ""
    { s := ""; }
  }

  method FilterThinkStream(piece: string, inThink: bool, buf: Builder) returns (out: string, stillIn: bool)
    modifies buf
    // whatever follows, the text seen so far means: what is emitted now, then the carry
    ensures Accounts(old(buf.s) + piece, inThink, out, buf.s, stillIn)
    // the carry is a proper beginning of the awaited tag, so it can be flushed
    ensures |buf.s| < |TagFor(stillIn)| && SuffixBegins(buf.s, TagFor(stillIn), |buf.s|)
    // nothing that is already decided is held back
    ensures Prompt(old(buf.s) + piece, inThink, out)
  {
    buf.WriteString(piece);
    var s := buf.s;
    ghost var s0 := s;
    out := "";
    stillIn := inThink;
    Start(s0, inThink);
    while true
      invariant s0 == old(buf.s) + piece
      invariant Accounts(s0, inThink, out, s, stillIn)
      decreases |s|
    {
      ghost var out0, sBefore, inBefore := out, s, stillIn;
      if stillIn {
        var end := IndexFold(s, CLOSE);
        if end < 0 {
          var keep := PartialSuffixLen(s, CLOSE);
          buf.Reset();
          buf.WriteString(s[|s| - keep..]);
          assert buf.s == s[|s| - keep..];
          Hold(s0, inThink, out0, s, true, keep);
          return out, true;
        }
        s := s[end + |CLOSE|..];
        stillIn := false;
        Switch(s0, inThink, out0, sBefore, inBefore, end);
        continue;
      }
      var start := IndexFold(s, OPEN);
      if start < 0 {
        var keep := PartialSuffixLen(s, OPEN);
        out := out + s[..|s| - keep];
        buf.Reset();
        buf.WriteString(s[|s| - keep..]);
        assert buf.s == s[|s| - keep..];
        Hold(s0, inThink, out0, s, false, keep);
        return out, false;
      }
      out := out + s[..start];
      s := s[start + |OPEN|..];
      stillIn := true;
      Switch(s0, inThink, out0, sBefore, inBefore, start);
    }
  }

  method FlushThinkStream(inThink: bool, buf: Builder) returns (out: string)
    requires |buf.s| < |TagFor(inThink)|
    modifies buf
    ensures buf.s == "" && out == Scan(old(buf.s), inThink)
  {
    ScanOfHeld(buf.s, inThink);
    var s := buf.s;
    buf.Reset();
    if inThink { return ""; }
    return s;
  }

  function Concat(ss: seq<string>): string {
    if ss == [] then "" else Concat(ss[..|ss| - 1]) + ss[|ss| - 1]
  }

  lemma ConcatAppend(ss: seq<string>, s: string)
    ensures Concat(ss + [s]) == Concat(ss) + s
  {
    assert (ss + [s])[..|ss|] == ss;
  }

  lemma ConcatNothing()
    ensures Concat([]) == ""
  {}

  lemma {:induction false} AtTheEnd(s0: string, in0: bool, out: string, s: string, inside: bool)
    requires Accounts(s0, in0, out, s, inside)
    ensures Scan(s0, in0) == out + Scan(s, inside)
  {
    assert AccountsFor(s0, in0, out, s, inside, "");
    assert s0 + "" == s0 && s + "" == s;
  }

  /** The stream loop: every chunk through the filter, then the flush. For any way
      of cutting a text into pieces the emitted pieces make up its scan. */
  method StreamFiltered(pieces: seq<string>) returns (emitted: seq<string>)
    ensures |emitted| == |pieces| + 1
    ensures Concat(emitted) == Scan(Concat(pieces), false)
  {
    hide Accounts, Concat, Scan;
    var buf := new Builder();
    var inThink := false;
    emitted := [];
    Start("", false);
    assert Concat([]) == "" by { ConcatNothing(); }
    assert pieces[..0] == [];
    for i := 0 to |pieces|
      invariant |emitted| == i
      invariant |buf.s| < |TagFor(inThink)|
      invariant Accounts(Concat(pieces[..i]), false, Concat(emitted), buf.s, inThink)
    {
      ghost var e0, b0, in0 := emitted, buf.s, inThink;
      var out, stillIn := FilterThinkStream(pieces[i], inThink, buf);
      inThink := stillIn;
      emitted := emitted + [out];
      ConcatAppend(e0, out);
      ConcatAppend(pieces[..i], pieces[i]);
      assert pieces[..i + 1] == pieces[..i] + [pieces[i]];
      Chain(Concat(pieces[..i]), Concat(e0), b0, in0, pieces[i], out, buf.s, inThink);
    }
    assert pieces[..|pieces|] == pieces;
    AtTheEnd(Concat(pieces), false, Concat(emitted), buf.s, inThink);
    var last := FlushThinkStream(inThink, buf);
    ConcatAppend(emitted, last);
    emitted := emitted + [last];
  }

  /** Two cuttings of one text emit the same text. */
  method StreamTwice(a: seq<string>, b: seq<string>) returns (ea: seq<string>, eb: seq<string>)
    requires Concat(a) == Concat(b)
    ensures Concat(ea) == Concat(eb)
  {
    ea := StreamFiltered(a);
    eb := StreamFiltered(b);
  }
}
