/** stripThink of internal/ai/ai.go: the whole-string removal used for answers
    that are not streamed. */
module ThinkStrip {
  import opened Text
  import opened ThinkFilter

  ghost predicate Untagged(s: string) { forall i: nat :: !TagAt(s, OPEN, i) }

  function TrimSuffix(s: string, suffix: string): (r: string)
    ensures r <= s
  {
    if |suffix| <= |s| && s[|s| - |suffix|..] == suffix then s[..|s| - |suffix|] else s
  }

  lemma UntaggedPart(s: string, a: nat, b: nat)
    requires a <= b <= |s| && forall i: nat | a <= i && i + |OPEN| <= b :: !TagAt(s, OPEN, i)
    ensures Untagged(s[a..b])
  {
    var u := s[a..b];
    forall i: nat ensures !TagAt(u, OPEN, i) {
      if TagAt(u, OPEN, i) {
        assert forall j | 0 <= j < |OPEN| :: Lower(u[i + j]) == OPEN[j] <==> Lower(s[a + i + j]) == OPEN[j];
        assert TagAt(s, OPEN, a + i);
      }
    }
  }

  lemma TrimKeepsUntagged(s: string)
    requires Untagged(s)
    ensures Untagged(TrimSpace(s))
  {
    UntaggedPart(s, SkipSpace(s, 0), DropSpace(s, SkipSpace(s, 0), |s|));
  }

  /** The text with its first closed block taken out again and again, up to an opening tag that is not closed. */
  function Stripped(t: string): string
    decreases |t|
  {
    var start := IndexFold(t, OPEN);
    if start < 0 then TrimSpace(t)
    else
      var end := IndexFold(t[start..], CLOSE);
      if end < 0 then TrimSpace(TrimSuffix(t[..start], CLOSE))
      else Stripped(t[..start] + t[start + end + |CLOSE|..])
  }

  lemma StrippedTurn(t: string)
    ensures var start := IndexFold(t, OPEN);
      Stripped(t) ==
        if start < 0 then TrimSpace(t)
        else
          var end := IndexFold(t[start..], CLOSE);
          if end < 0 then TrimSpace(TrimSuffix(t[..start], CLOSE))
          else Stripped(t[..start] + t[start + end + |CLOSE|..])
  {
    hide TagAt, TrimSpace, TrimSuffix;
  }

  /** Removing blocks always ends, and what comes out is trimmed and holds no opening tag. */
  method StripThink(s: string) returns (r: string)
    ensures Trimmed(r) && Untagged(r)
    // a text with nothing to remove only loses its surrounding spaces
    ensures Untagged(s) ==> r == TrimSpace(s)
    ensures r == Stripped(s)
  {
    hide Stripped, TrimSuffix;
    var t := s;
    while true
      invariant Untagged(s) ==> t == s
      invariant Stripped(t) == Stripped(s)
      decreases |t|
    {
      StrippedTurn(t);
      var start := IndexFold(t, OPEN);
      if start < 0 { break; }
      var end := IndexFold(t[start..], CLOSE);
      if end < 0 {
        var head := TrimSuffix(t[..start], CLOSE);
        assert head == t[0..|head|];
        UntaggedPart(t, 0, |head|);
        TrimKeepsUntagged(head);
        return TrimSpace(head);
      }
      t := t[..start] + t[start + end + |CLOSE|..];
    }
    TrimKeepsUntagged(t);
    r := TrimSpace(t);
  }

  /** A second pass changes nothing. */
  method StripTwice(s: string) returns (once: string, twice: string)
    ensures once == twice
  {
    once := StripThink(s);
    twice := StripThink(once);
  }

  // ----- what survives -----

  /** A closed block, its tags in any letter case. */
  datatype Block = Block(open: string, body: string, close: string) {
    predicate Ok() {
      |open| == |OPEN| && TagAt(open, OPEN, 0) && |close| == |CLOSE| && TagAt(close, CLOSE, 0) && '<' !in body
    }

    function Text(): string { open + body + close }
  }

  /** Blocks, each with the plain text behind it. */
  function Mixed(blocks: seq<Block>, pieces: seq<string>): string
    requires |pieces| == |blocks|
  {
    if blocks == [] then "" else blocks[0].Text() + (pieces[0] + Mixed(blocks[1..], pieces[1..]))
  }

  function Joined(pieces: seq<string>): string { if pieces == [] then "" else pieces[0] + Joined(pieces[1..]) }

  predicate Plain(s: string) { '<' !in s }

  /** Nothing, or a block that is opened and never closed. */
  ghost predicate OpenEnd(s: string) { s == "" || (TagAt(s, OPEN, 0) && forall i: nat :: !TagAt(s, CLOSE, i)) }

  lemma TagStarts(s: string, tag: string, i: nat)
    requires tag in {OPEN, CLOSE} && i < |s| && s[i] != '<'
    ensures !TagAt(s, tag, i)
  {
    assert Lower(s[i]) != '<' == tag[0];
  }

  lemma IndexIs(s: string, tag: string, p: nat)
    requires TagAt(s, tag, p) && forall i: nat | i < p :: !TagAt(s, tag, i)
    ensures IndexFold(s, tag) == p
  {}

  /** Inside a block no closing tag comes before its own. */
  lemma BlockCloses(b: Block, rest: string)
    requires b.Ok()
    ensures TagAt(b.Text() + rest, OPEN, 0) && IndexFold(b.Text() + rest, CLOSE) == |b.open + b.body|
    ensures (b.Text() + rest)[|b.Text()|..] == rest
  {
    var t, n := b.Text() + rest, |b.open + b.body|;
    forall j | 0 <= j < |OPEN| ensures Lower(t[j]) == OPEN[j] { assert t[j] == b.open[j]; }
    forall j | 0 <= j < |CLOSE| ensures Lower(t[n + j]) == CLOSE[j] { assert t[n + j] == b.close[j]; }
    forall i: nat | i < n ensures !TagAt(t, CLOSE, i) {
      if i == 0 {
        assert Lower(t[1]) == OPEN[1] != CLOSE[1];
      } else {
        if i < |OPEN| { assert Lower(t[i]) == OPEN[i] != '<'; } else { assert t[i] == b.body[i - |OPEN|]; }
        TagStarts(t, CLOSE, i);
      }
    }
    IndexIs(t, CLOSE, n);
  }

  lemma BlockLength(b: Block)
    requires b.Ok()
    ensures |b.Text()| == |b.open + b.body| + |CLOSE|
  {}

  lemma OpensAfter(first: string, rest: string)
    requires Plain(first) && TagAt(rest, OPEN, 0)
    ensures IndexFold(first + rest, OPEN) == |first|
    ensures (first + rest)[..|first|] == first && (first + rest)[|first|..] == rest
  {
    var t := first + rest;
    forall j | 0 <= j < |OPEN| ensures Lower(t[|first| + j]) == OPEN[j] { assert t[|first| + j] == rest[j]; }
    forall i: nat | i < |first| ensures !TagAt(t, OPEN, i) { TagStarts(t, OPEN, i); }
    IndexIs(t, OPEN, |first|);
  }

  /** Everything outside the blocks survives, in order, up to the outer spaces. */
  lemma {:induction false} OutsideSurvives(first: string, blocks: seq<Block>, pieces: seq<string>, end: string)
    requires |pieces| == |blocks| && Plain(first) && OpenEnd(end)
    requires (forall b | b in blocks :: b.Ok()) && forall q | q in pieces :: Plain(q)
    ensures Stripped(first + (Mixed(blocks, pieces) + end)) == TrimSpace(first + Joined(pieces))
    decreases |blocks|
  {
    hide TagAt, TrimSpace, IndexFold, Block.Ok, Block.Text, Stripped;
    if blocks != [] {
      var b, q := blocks[0], pieces[0];
      var later := Mixed(blocks[1..], pieces[1..]) + end;
      assert b in blocks && q in pieces;
      BlockCloses(b, q + later);
      BlockLength(b);
      OpensAfter(first, b.Text() + (q + later));
      TakenOut(first, b.Text(), q + later);
      OutsideSurvives(first + q, blocks[1..], pieces[1..], end);
      OneBlock(first, b.Text(), q, Mixed(blocks[1..], pieces[1..]), end);
      assert first + q + Joined(pieces[1..]) == first + Joined(pieces);
    } else {
      assert first + (Mixed(blocks, pieces) + end) == first + end && first + Joined(pieces) == first;
      LastPiece(first, end);
    }
  }

  lemma OneBlock(first: string, block: string, piece: string, more: string, end: string)
    ensures first + (block + (piece + more) + end) == first + (block + (piece + (more + end)))
    ensures first + (piece + (more + end)) == first + piece + (more + end)
  {
    assert block + (piece + more) + end == block + (piece + (more + end));
  }

  lemma TakenOut(first: string, block: string, rest: string)
    requires |block| >= |CLOSE| && IndexFold(first + (block + rest), OPEN) == |first|
    requires IndexFold(block + rest, CLOSE) == |block| - |CLOSE|
    ensures Stripped(first + (block + rest)) == Stripped(first + rest)
  {
    hide TagAt, TrimSpace, IndexFold, Stripped, TrimSuffix;
    var t := first + (block + rest);
    StrippedTurn(t);
    assert t[|first|..] == block + rest && t[..|first|] == first;
    assert t[|first| + |block|..] == rest;
  }

  lemma LastPiece(first: string, end: string)
    requires Plain(first) && OpenEnd(end)
    ensures Stripped(first + end) == TrimSpace(first)
  {
    if end == "" {
      assert first + end == first;
      forall i: nat ensures !TagAt(first, OPEN, i) { if i < |first| { TagStarts(first, OPEN, i); } }
    } else {
      OpensAfter(first, end);
      if |CLOSE| <= |first| { assert first[|first| - |CLOSE|..][0] in first; }
    }
  }

  /** On such texts the streamed answer is the same, up to the outer spaces. */
  lemma {:induction false} StreamKeepsOutside(first: string, blocks: seq<Block>, pieces: seq<string>, end: string)
    requires |pieces| == |blocks| && Plain(first) && OpenEnd(end)
    requires (forall b | b in blocks :: b.Ok()) && forall q | q in pieces :: Plain(q)
    ensures Scan(first + (Mixed(blocks, pieces) + end), false) == first + Joined(pieces)
    decreases |blocks|
  {
    hide TagAt, Scan, IndexFold, Block.Ok;
    var t := first + (Mixed(blocks, pieces) + end);
    if blocks != [] {
      var b, rest := blocks[0], pieces[0] + (Mixed(blocks[1..], pieces[1..]) + end);
      assert Mixed(blocks, pieces) + end == b.Text() + rest;
      assert b in blocks && pieces[0] in pieces;
      BlockCloses(b, rest);
      OpensAfter(first, b.Text() + rest);
      ScanOverUntagged(t, false, |first|);
      ScanBlock(b, rest);
      StreamKeepsOutside(pieces[0], blocks[1..], pieces[1..], end);
    } else {
      assert t == first + end && Joined(pieces) == "";
      ScanLast(first, end);
    }
  }

  lemma ScanBlock(b: Block, rest: string)
    requires b.Ok()
    ensures Scan(b.Text() + rest, false) == Scan(rest, false)
  {
    hide Scan;
    BlockCloses(b, rest);
    var t := b.Text() + rest;
    var u, n := t[|OPEN|..], |b.body|;
    ScanTag(t, false);
    forall i: nat | i < n ensures !TagAt(u, CLOSE, i) { TagShifts(t, CLOSE, |OPEN|, i); }
    ScanOverUntagged(u, true, n);
    TagShifts(t, CLOSE, |OPEN| + n, 0);
    assert u[n..] == t[|OPEN| + n..];
    ScanTag(u[n..], true);
    assert u[n..][|CLOSE|..] == rest;
  }

  lemma ScanLast(first: string, end: string)
    requires Plain(first) && OpenEnd(end)
    ensures Scan(first + end, false) == first
  {
    hide Scan;
    var t := first + end;
    forall i: nat | i < |first| ensures !TagAt(t, OPEN, i) { TagStarts(t, OPEN, i); }
    ScanOverUntagged(t, false, |first|);
    assert t[..|first|] == first && t[|first|..] == end;
    ScanNothing(false);
    ScanNothing(true);
    if end != "" {
      ScanTag(end, false);
      var u := end[|OPEN|..];
      forall i: nat | i < |u| ensures !TagAt(u, CLOSE, i) { TagShifts(end, CLOSE, |OPEN|, i); }
      ScanOverUntagged(u, true, |u|);
      assert u[|u|..] == "";
    }
  }
}
