/** The server name in a TLS ClientHello: internal/agent/l7.go; section 4.1.2 of RFC 8446 and section 3
    of RFC 6066. */
module Sni {
  import opened Wire
  import opened Text

  // ----- host names -----

  /** strings.LastIndexByte, counting from one; zero if absent. */
  function AfterLast(h: string, c: char): (n: nat)
    ensures n <= |h| && (n > 0 ==> h[n - 1] == c) && forall i | n <= i < |h| :: h[i] != c
  {
    if h == "" then 0 else if h[|h| - 1] == c then |h| else AfterLast(h[..|h| - 1], c)
  }

  predicate HasAny(h: string, chars: set<char>) { exists c | c in h :: c in chars }

  function TrimLeft(h: string, chars: set<char>): string {
    if h != "" && h[0] in chars then TrimLeft(h[1..], chars) else h
  }

  function TrimRight(h: string, chars: set<char>): string {
    if h != "" && h[|h| - 1] in chars then TrimRight(h[..|h| - 1], chars) else h
  }

  /** Lower case without the port and the brackets; empty unless it could be a host name or an address. */
  function SanitizeHost(name: string): (r: string)
    ensures r == "" || (|r| <= 253 && HasAny(r, {'.', ':'}) && !HasAny(r, {' ', '\t', '\r', '\n', '/', '\\'}))
  {
    var h := ToLower(TrimSpace(name));
    var n := AfterLast(h, ':');
    var host := if n > 1 && ']' !in h[n - 1..] then h[..n - 1] else h;
    var bare := TrimRight(TrimLeft(host, {'[', ']'}), {'[', ']'});
    if bare == "" || |bare| > 253 || HasAny(bare, {' ', '\t', '\r', '\n', '/', '\\'}) then ""
    else if !HasAny(bare, {'.', ':'}) then ""
    else bare
  }

  function TextOf(b: seq<byte>): string { seq(|b|, i requires 0 <= i < |b| => b[i] as char) }

  // ----- the parser -----

  /** The first host name of a server_name extension's data. */
  function NameIn(sn: seq<byte>): string {
    if |sn| < 5 || sn[2] != 0 || 5 + Be16(sn, 3) > |sn| then ""
    else SanitizeHost(TextOf(sn[5..5 + Be16(sn, 3)]))
  }

  /** What the extensions from `off` on yield. */
  function Scan(hs: seq<byte>, off: nat, end: nat): string
    requires end <= |hs|
    decreases |hs| - off
  {
    if off + 4 > end then ""
    else
      var next := off + 4 + Be16(hs, off + 2);
      if next > |hs| then ""
      else if Be16(hs, off) == 0 then NameIn(hs[off + 4..next])
      else Scan(hs, next, end)
  }

  /** Where the extensions start in a handshake body, past their total length, if the body gets that far. */
  function ExtStart(hs: seq<byte>): (n: nat)
    ensures n <= |hs|
  {
    if 34 >= |hs| then 0
    else
      var a: nat := hs[34] as int + 35;
      if a + 2 > |hs| then 0
      else
        var b: nat := a + 2 + Be16(hs, a);
        if b + 1 > |hs| then 0
        else
          var c: nat := b + 1 + hs[b];
          if c + 2 > |hs| then 0 else c + 2
  }

  function Min(a: nat, b: nat): nat { if a < b then a else b }

  function Sni(p: seq<byte>): string {
    if |p| < 43 || p[0] != 0x16 || p[5] != 1 then ""
    else
      var hs := p[9..];
      var off := ExtStart(hs);
      if off < 2 then "" else Scan(hs, off, Min(off + Be16(hs, off - 2), |hs|))
  }

  method TlsSni(p: seq<byte>) returns (host: string)
    ensures host == Sni(p)
  {
    hide SanitizeHost, Be16, TextOf;
    if |p| < 43 || p[0] != 0x16 { return ""; }
    var rec := p[5..];
    if |rec| < 38 || rec[0] != 1 { return ""; }
    var hs := rec[4..];
    assert hs == p[9..];
    var off: nat := 34;
    if off >= |hs| { return ""; }
    off := off + 1 + hs[off];
    if off + 2 > |hs| { return ""; }
    off := off + 2 + Be16(hs, off);
    if off + 1 > |hs| { return ""; }
    off := off + 1 + hs[off];
    if off + 2 > |hs| { return ""; }
    var extTotal: nat := Be16(hs, off);
    off := off + 2;
    var end := off + extTotal;
    if end > |hs| { end := |hs|; }
    assert Sni(p) == Scan(hs, off, end);
    while off + 4 <= end
      invariant end <= |hs| && Sni(p) == Scan(hs, off, end)
      decreases |hs| - off
    {
      var extType, extLen := Be16(hs, off), Be16(hs, off + 2);
      off := off + 4;
      if off + extLen > |hs| { return ""; }
      if extType == 0 {
        var sn := hs[off..off + extLen];
        if |sn| < 5 || sn[2] != 0 { return ""; }
        var nameLen := Be16(sn, 3);
        if 5 + nameLen > |sn| { return ""; }
        return SanitizeHost(TextOf(sn[5..5 + nameLen]));
      }
      off := off + extLen;
    }
    return "";
  }

  // ----- a capture that cuts the record short -----

  lemma SamePrefix(b: seq<byte>, k: nat, off: nat)
    requires off + 2 <= k <= |b|
    ensures Be16(b[..k], off) == Be16(b, off)
  {}

  lemma {:induction false} ScanOfPrefix(hs: seq<byte>, k: nat, off: nat, end: nat, end1: nat)
    requires end1 <= k <= |hs| && end1 <= end <= |hs|
    ensures Scan(hs[..k], off, end1) == "" || Scan(hs[..k], off, end1) == Scan(hs, off, end)
    decreases |hs| - off
  {
    hide NameIn;
    if off + 4 <= end1 {
      SamePrefix(hs, k, off);
      SamePrefix(hs, k, off + 2);
      var next := off + 4 + Be16(hs, off + 2);
      if next <= k {
        if Be16(hs, off) == 0 {
          assert hs[..k][off + 4..next] == hs[off + 4..next];
        } else {
          ScanOfPrefix(hs, k, next, end, end1);
        }
      }
    }
  }

  lemma ExtStartOfPrefix(hs: seq<byte>, k: nat)
    requires k <= |hs|
    ensures ExtStart(hs[..k]) == if ExtStart(hs) <= k then ExtStart(hs) else 0
  {}

  /** Whatever the bytes are: cutting them short never yields another name, only none. */
  lemma PrefixYieldsSameOrNothing(p: seq<byte>, k: nat)
    requires k <= |p|
    ensures Sni(p[..k]) == "" || Sni(p[..k]) == Sni(p)
  {
    hide Scan, ExtStart;
    if k >= 43 && p[0] == 0x16 && p[5] == 1 {
      var hs := p[9..];
      assert p[..k][9..] == hs[..k - 9];
      ExtStartOfPrefix(hs, k - 9);
      var off := ExtStart(hs);
      if 2 <= off <= k - 9 {
        SamePrefix(hs, k - 9, off - 2);
        var total := Be16(hs, off - 2);
        ScanOfPrefix(hs, k - 9, off, Min(off + total, |hs|), Min(off + total, k - 9));
      }
    }
  }

  // ----- a well-formed ClientHello -----

  datatype Ext = Ext(kind: u16, data: seq<byte>)

  datatype Hello = Hello(recordVersion: seq<byte>, recordLength: u16, length: seq<byte>, version: seq<byte>,
                         random: seq<byte>,
    session: seq<byte>, suites: seq<byte>, compression: seq<byte>,
    before: seq<Ext>, name: seq<byte>, moreNames: seq<byte>, after: seq<Ext>)

  function PutExt(e: Ext): seq<byte> { Put16(e.kind) + Put16(|e.data|) + e.data }

  function PutExts(es: seq<Ext>): seq<byte> { if es == [] then [] else PutExt(es[0]) + PutExts(es[1..]) }

  /** The server_name extension: a list of names, the first of type host_name. */
  function NameExt(h: Hello): Ext {
    Ext(0, Put16(3 + |h.name| + |h.moreNames|) + [0] + Put16(|h.name|) + h.name + h.moreNames)
  }

  function Extensions(h: Hello): seq<byte> { PutExts(h.before) + PutExt(NameExt(h)) + PutExts(h.after) }

  /** Field widths and vector bounds; no server_name extension comes earlier. */
  predicate WellFormed(h: Hello) {
    |h.recordVersion| == 2 && |h.length| == 3 && |h.version| == 2 && |h.random| == 32
    && |h.session| < 0x100 && |h.suites| < 0x1_0000 && |h.compression| < 0x100
    && (forall e | e in h.before :: e.kind != 0 && |e.data| < 0x1_0000)
    && |NameExt(h).data| < 0x1_0000 && |Extensions(h)| < 0x1_0000
  }

  function One(n: nat): seq<byte> { [n % 0x100] }

  function Head(h: Hello): seq<byte> {
    h.version + h.random + One(|h.session|) + h.session + Put16(|h.suites|) + h.suites + One(|h.compression|)
      + h.compression
  }

  function Body(h: Hello): seq<byte> { Head(h) + Put16(|Extensions(h)|) + Extensions(h) }

  function Print(h: Hello): seq<byte> {
    [0x16] + h.recordVersion + Put16(h.recordLength) + [1] + h.length + Body(h)
  }

  /** The end of the server_name extension. */
  function NameEnd(h: Hello): nat { 9 + |Head(h)| + 2 + |PutExts(h.before)| + |PutExt(NameExt(h))| }

  lemma At16(pre: seq<byte>, n: nat, post: seq<byte>)
    requires n < 0x1_0000
    ensures Be16(pre + Put16(n) + post, |pre|) == n
  {
    var b := pre + Put16(n) + post;
    assert b[|pre|] == Put16(n)[0] && b[|pre| + 1] == Put16(n)[1];
  }

  lemma At8(pre: seq<byte>, n: nat, post: seq<byte>)
    requires n < 0x100
    ensures (pre + One(n) + post)[|pre|] == n
  {}

  lemma ExtStartOfHead(h: Hello, tail: seq<byte>)
    requires WellFormed(h) && |tail| >= 2
    ensures ExtStart(Head(h) + tail) == |Head(h)| + 2
  {
    hide Put16, Be16, One, Extensions, NameExt, PutExts;
    var f := Head(h) + tail;
    var a := h.version + h.random;
    var b := a + One(|h.session|) + h.session;
    var c := b + Put16(|h.suites|) + h.suites;
    At8(a, |h.session|, h.session + Put16(|h.suites|) + h.suites + One(|h.compression|) + h.compression + tail);
    assert f == a + One(|h.session|)
      + (h.session + Put16(|h.suites|) + h.suites + One(|h.compression|) + h.compression + tail);
    At16(b, |h.suites|, h.suites + One(|h.compression|) + h.compression + tail);
    assert f == b + Put16(|h.suites|) + (h.suites + One(|h.compression|) + h.compression + tail);
    At8(c, |h.compression|, h.compression + tail);
    assert f == c + One(|h.compression|) + (h.compression + tail);
    OneByte(|h.session|);
    OneByte(|h.compression|);
  }

  lemma OneByte(n: nat)
    ensures |One(n)| == 1
  {}

  /** The header of an extension that stands at `off`. */
  lemma ExtAt(hs: seq<byte>, off: nat, e: Ext, rest: seq<byte>)
    requires off <= |hs| && hs[off..] == PutExt(e) + rest && |e.data| < 0x1_0000
    ensures off + 4 + |e.data| <= |hs| && Be16(hs, off) == e.kind && Be16(hs, off + 2) == |e.data|
    ensures hs[off + 4..off + 4 + |e.data|] == e.data && hs[off + 4 + |e.data|..] == rest
  {
    var t := hs[off..];
    At16([], e.kind, Put16(|e.data|) + e.data + rest);
    assert t == [] + Put16(e.kind) + (Put16(|e.data|) + e.data + rest);
    At16(Put16(e.kind), |e.data|, e.data + rest);
    assert t == Put16(e.kind) + Put16(|e.data|) + (e.data + rest);
    assert Be16(hs, off) == Be16(t, 0) && Be16(hs, off + 2) == Be16(t, 2);
    assert t == Put16(e.kind) + Put16(|e.data|) + e.data + rest;
    assert hs[off + 4..off + 4 + |e.data|] == t[4..4 + |e.data|];
    assert hs[off + 4 + |e.data|..] == t[4 + |e.data|..];
  }

  /** Extensions of other kinds are passed over, and the name after them is found. */
  lemma {:induction false} NameIsFound(hs: seq<byte>, off: nat, end: nat, es: seq<Ext>, n: Ext, rest: seq<byte>)
    requires off <= end <= |hs| && hs[off..] == PutExts(es) + PutExt(n) + rest
    requires off + |PutExts(es)| + |PutExt(n)| <= end
    requires (forall e | e in es :: e.kind != 0 && |e.data| < 0x1_0000) && n.kind == 0 && |n.data| < 0x1_0000
    ensures Scan(hs, off, end) == NameIn(n.data)
    decreases |es|
  {
    hide NameIn, Put16, Be16;
    if es == [] {
      assert hs[off..] == PutExt(n) + rest;
      ExtAt(hs, off, n, rest);
    } else {
      var e := es[0];
      var more := PutExts(es[1..]) + PutExt(n) + rest;
      assert hs[off..] == PutExt(e) + more;
      ExtAt(hs, off, e, more);
      NameIsFound(hs, off + 4 + |e.data|, end, es[1..], n, rest);
    }
  }

  /** ... but not if the bytes end before it does. */
  lemma {:induction false} NameIsCut(full: seq<byte>, m: nat, off: nat, end: nat, es: seq<Ext>, n: Ext, rest: seq<byte>)
    requires off <= |full| && end <= m <= |full| && full[off..] == PutExts(es) + PutExt(n) + rest
    requires m < off + |PutExts(es)| + |PutExt(n)|
    requires (forall e | e in es :: e.kind != 0 && |e.data| < 0x1_0000) && n.kind == 0 && |n.data| < 0x1_0000
    ensures Scan(full[..m], off, end) == ""
    decreases |es|
  {
    hide NameIn, Put16;
    if off + 4 <= end {
      SamePrefix(full, m, off);
      SamePrefix(full, m, off + 2);
      hide Be16;
      if es == [] {
        assert full[off..] == PutExt(n) + rest;
        ExtAt(full, off, n, rest);
      } else {
        var e := es[0];
        var more := PutExts(es[1..]) + PutExt(n) + rest;
        assert full[off..] == PutExt(e) + more;
        ExtAt(full, off, e, more);
        if off + 4 + |e.data| <= m { NameIsCut(full, m, off + 4 + |e.data|, end, es[1..], n, rest); }
      }
    }
  }

  lemma {:induction false} NameData(h: Hello)
    requires |NameExt(h).data| < 0x1_0000
    ensures NameIn(NameExt(h).data) == SanitizeHost(TextOf(h.name))
  {
    hide SanitizeHost, TextOf;
    var pre := Put16(3 + |h.name| + |h.moreNames|) + [0];
    At16(pre, |h.name|, h.name + h.moreNames);
    var data := NameExt(h).data;
    assert data == pre + Put16(|h.name|) + (h.name + h.moreNames);
    assert data[5..5 + |h.name|] == h.name;
  }

  lemma HeadLength(h: Hello)
    requires WellFormed(h)
    ensures |Head(h)| >= 38 && |Print(h)| == 9 + |Body(h)|
  {}

  /** The fixed part of a cut handshake body. */
  lemma {:induction false} StartRead(h: Hello, rest: seq<byte>, m: nat)
    requires WellFormed(h) && m <= |Body(h) + rest|
    ensures var hs, off := (Body(h) + rest)[..m], |Head(h)| + 2;
      ExtStart(hs) == (if off <= m then off else 0) && (off <= m ==> Be16(hs, off - 2) == |Extensions(h)|)
  {
    hide ExtStart, Put16, Head, Extensions;
    var full, exts := Body(h) + rest, Extensions(h) + rest;
    assert full == Head(h) + (Put16(|Extensions(h)|) + exts);
    ExtStartOfHead(h, Put16(|Extensions(h)|) + exts);
    ExtStartOfPrefix(full, m);
    if |Head(h)| + 2 <= m {
      At16(Head(h), |Extensions(h)|, exts);
      assert full == Head(h) + Put16(|Extensions(h)|) + exts;
      SamePrefix(full, m, |Head(h)|);
    }
  }

  /** Its extensions. */
  lemma {:induction false} NameRead(h: Hello, rest: seq<byte>, m: nat)
    requires WellFormed(h) && |Head(h)| + 2 <= m <= |Body(h) + rest|
    ensures var off := |Head(h)| + 2;
      Scan((Body(h) + rest)[..m], off, Min(off + |Extensions(h)|, m))
      == if m + 9 >= NameEnd(h) then SanitizeHost(TextOf(h.name)) else ""
  {
    hide Scan, NameIn, SanitizeHost, Put16, PutExts, Head, PutExt;
    var full, off, after := Body(h) + rest, |Head(h)| + 2, PutExts(h.after) + rest;
    var hs, end := full[..m], Min(off + |Extensions(h)|, m);
    assert full[off..] == Extensions(h) + rest;
    assert full[off..] == PutExts(h.before) + PutExt(NameExt(h)) + after;
    if m + 9 < NameEnd(h) {
      NameIsCut(full, m, off, end, h.before, NameExt(h), after);
    } else {
      NameData(h);
      var left := m - off - |PutExts(h.before)| - |PutExt(NameExt(h))|;
      assert hs[off..] == full[off..][..m - off];
      assert hs[off..] == PutExts(h.before) + PutExt(NameExt(h)) + after[..left];
      NameIsFound(hs, off, end, h.before, NameExt(h), after[..left]);
    }
  }

  /** A well-formed ClientHello, followed by anything and cut anywhere, yields its name exactly when the
      cut leaves the server_name extension whole, whatever extensions come before or after. */
  lemma {:induction false} HelloRead(h: Hello, rest: seq<byte>, k: nat)
    requires WellFormed(h) && k <= |Print(h) + rest|
    ensures Sni((Print(h) + rest)[..k]) == if k >= NameEnd(h) then SanitizeHost(TextOf(h.name)) else ""
  {
    hide Scan, ExtStart, SanitizeHost, TextOf, Put16, PutExts, Head, PutExt, Body, WellFormed;
    HeadLength(h);
    if k >= 43 {
      var q := (Print(h) + rest)[..k];
      assert q[9..] == (Body(h) + rest)[..k - 9] && q[0] == 0x16 && q[5] == 1 by { RecordOf(h, rest, k); }
      StartRead(h, rest, k - 9);
      if |Head(h)| + 2 <= k - 9 { NameRead(h, rest, k - 9); }
    }
  }

  lemma RecordOf(h: Hello, rest: seq<byte>, k: nat)
    requires WellFormed(h) && 9 <= k <= |Print(h) + rest|
    ensures var q := (Print(h) + rest)[..k]; q[9..] == (Body(h) + rest)[..k - 9] && q[0] == 0x16 && q[5] == 1
  {
    hide Body, Put16, Extensions;
  }
}
