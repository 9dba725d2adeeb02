/** Bytes in network order, and the flow row every decoder of internal/flows produces. */
module Wire {
  import opened Text

  type byte = x: int | 0 <= x < 256
  type u16 = x: int | 0 <= x < 0x1_0000
  type u32 = x: int | 0 <= x < 0x1_0000_0000
  type u64 = x: int | 0 <= x < 0x1_0000_0000_0000_0000

  const TWO64 := 0x1_0000_0000_0000_0000

  function Be16(b: seq<byte>, off: nat): u16
    requires off + 2 <= |b|
  {
    var hi: int := b[off];
    hi * 0x100 + b[off + 1]
  }

  function Be32(b: seq<byte>, off: nat): u32
    requires off + 4 <= |b|
  {
    Be16(b, off) * 0x1_0000 + Be16(b, off + 2)
  }

  /** PutUint16(uint16(n)): a length that does not fit is truncated. */
  function Put16(n: nat): (b: seq<byte>)
    ensures |b| == 2 && Be16(b, 0) == n % 0x1_0000
  {
    [n / 0x100 % 0x100, n % 0x100]
  }

  lemma HalvesOf(n: nat)
    ensures n / 0x1_0000 % 0x1_0000 * 0x1_0000 + n % 0x1_0000 == n % 0x1_0000_0000
  {
    var q, r := n / 0x1_0000, n % 0x1_0000;
    var a, b := q / 0x1_0000, q % 0x1_0000;
    assert n == a * 0x1_0000_0000 + (b * 0x1_0000 + r);
  }

  function Put32(n: nat): (b: seq<byte>)
    ensures |b| == 4 && Be32(b, 0) == n % 0x1_0000_0000
  {
    var hi, lo := Put16(n / 0x1_0000), Put16(n % 0x1_0000);
    HalvesOf(n);
    assert Be16(hi + lo, 0) == Be16(hi, 0) && Be16(hi + lo, 2) == Be16(lo, 0);
    hi + lo
  }

  /** The number a byte string spells in network order, unbounded. */
  function BeVal(b: seq<byte>): nat {
    if b == [] then 0 else BeVal(b[..|b| - 1]) * 0x100 + b[|b| - 1]
  }

  lemma BeVal1(b: seq<byte>)
    requires |b| == 1
    ensures BeVal(b) == b[0]
  {}

  lemma BeVal2(b: seq<byte>)
    requires |b| == 2
    ensures BeVal(b) == Be16(b, 0)
  {
    BeVal1(b[..1]);
  }

  lemma BeVal4(b: seq<byte>)
    requires |b| == 4
    ensures BeVal(b) == Be32(b, 0)
  {
    BeVal2(b[..2]);
    assert b[..3][..2] == b[..2];
    assert BeVal(b[..3]) == BeVal(b[..2]) * 0x100 + b[2];
  }

  lemma MulMono(a: nat, b: nat, k: nat)
    requires a <= b
    ensures a * k <= b * k
  {}

  function AsInt64(n: u64): int { if n < 0x8000_0000_0000_0000 then n else n - TWO64 }

  // ----- rows -----

  /** The printed form of net.IP: a 16-byte address that maps an IPv4 one prints as that one. */
  datatype Host = NoHost | Host(ip: seq<byte>)

  const MAPPED: seq<byte> := [0, 0, 0, 0, 0, 0, 0, 0, 0, 0, 255, 255]

  function Printed(ip: seq<byte>): Host {
    if |ip| == 16 && ip[..12] == MAPPED then Host(ip[12..]) else Host(ip)
  }

  datatype Row = Row(ts: int, device: string, src: Host, dst: Host, srcPort: u16, dstPort: u16,
                     proto: string, packets: u64, octets: u64)

  function ProtoName(n: byte): string {
    if n == 1 then "icmp" else if n == 6 then "tcp" else if n == 17 then "udp" else "proto-" + Digits(n)
  }

  /** Different protocol numbers never print alike. */
  lemma ProtoNameInjective(m: byte, n: byte)
    requires ProtoName(m) == ProtoName(n)
    ensures m == n
  {
    if m !in {1, 6, 17} && n !in {1, 6, 17} {
      assert ProtoName(m)[6..] == Digits(m) && ProtoName(n)[6..] == Digits(n);
      DigitsInjective(m, n);
    }
  }

  method BeUint(b: seq<byte>) returns (n: u64)
    ensures n == BeVal(b) % TWO64
  {
    n := 0;
    for i := 0 to |b|
      invariant n == BeVal(b[..i]) % TWO64
    {
      assert b[..i + 1][..i] == b[..i];
      ModStep(BeVal(b[..i]), b[i]);
      n := (n * 0x100 + b[i]) % TWO64;
    }
    assert b[..|b|] == b;
  }

  lemma ModStep(x: nat, d: nat)
    ensures (x % TWO64 * 0x100 + d) % TWO64 == (x * 0x100 + d) % TWO64
  {
    var q, r := x / TWO64, x % TWO64;
    assert x * 0x100 + d == q * 0x100 * TWO64 + (r * 0x100 + d);
    AddMultiple(r * 0x100 + d, q * 0x100);
  }

  lemma AddMultiple(a: nat, k: nat)
    ensures (k * TWO64 + a) % TWO64 == a % TWO64
  {}
}
