/**
 The policy for source URLs: address classes by prefix, allowlists, and redirects.
 */
module SourceUrl {
  import opened Base
  import opened Seqs

  // ---------------------------------------------------------------------------
  // Prefix arithmetic, for any width.
  // ---------------------------------------------------------------------------

  function Pow2(n: nat): (r: nat)
    ensures r > 0
  {
    if n == 0 then 1 else 2 * Pow2(n - 1)
  }

  /** Bitwise conjunction. */
  function And(a: nat, b: nat): nat {
    if a == 0 || b == 0 then 0 else 2 * And(a / 2, b / 2) + if a % 2 == 1 && b % 2 == 1 then 1 else 0
  }

  /** `MAX.checked_shl(width - prefix).unwrap_or(0)`. */
  function Mask(width: nat, prefix: nat): nat
    requires prefix <= width
  {
    var shift := width - prefix;
    Pow2MonotoneFor(shift, width);
    if shift >= width then 0 else Pow2(width) - Pow2(shift)
  }

  /** The source's test: the two addresses agree under the mask. */
  predicate PrefixMatch(width: nat, address: nat, network: nat, prefix: nat)
    requires prefix <= width
  {
    And(address, Mask(width, prefix)) == And(network, Mask(width, prefix))
  }

  /** The aligned block of the network address. */
  function BlockStart(width: nat, network: nat, prefix: nat): int
    requires prefix <= width
  {
    network - network % Pow2(width - prefix)
  }

  lemma {:induction false} Pow2MonotoneFor(m: nat, n: nat)
    requires m <= n
    ensures Pow2(m) <= Pow2(n)
  {
    if m < n {
      Pow2MonotoneFor(m, n - 1);
    }
  }

  lemma {:induction false} Multiples(x: int, k: nat, d: nat)
    ensures (x + k) * d == x * d + k * d && k * d >= 0
  {
  }

  lemma {:induction false} MultiplesApart(x: int, y: int, d: nat)
    ensures x < y ==> x * d + d <= y * d
  {
    if x < y {
      Multiples(x, 1, d);
      Multiples(x + 1, y - x - 1, d);
    }
  }

  /** A quotient and a remainder determine each other. */
  lemma {:induction false} ModUnique(a: nat, d: nat, q: nat, r: nat)
    requires d > 0 && a == q * d + r && r < d
    ensures a % d == r && a / d == q
  {
    var k, m := a / d, a % d;
    assert a == k * d + m;
    MultiplesApart(k, q, d);
    MultiplesApart(q, k, d);
  }

  lemma {:induction false} HalfMod(a: nat, d: nat)
    requires d > 0
    ensures a % (2 * d) == 2 * (a / 2 % d) + a % 2
  {
    var h := a / 2;
    var q, r := h / d, h % d;
    assert h == q * d + r;
    assert a == 2 * h + a % 2;
    assert a == q * (2 * d) + (2 * r + a % 2) by {
      assert 2 * (q * d) == q * (2 * d);
    }
    ModUnique(a, 2 * d, q, 2 * r + a % 2);
  }

  lemma {:induction false} AndOnes(a: nat, width: nat)
    requires a < Pow2(width)
    ensures And(a, Pow2(width) - 1) == a
  {
    if a != 0 {
      AndOnes(a / 2, width - 1);
      assert (Pow2(width) - 1) / 2 == Pow2(width - 1) - 1;
      assert (Pow2(width) - 1) % 2 == 1;
    }
  }

  /** Masking clears the low bits. */
  lemma {:induction false} AndMask(a: nat, width: nat, shift: nat)
    requires a < Pow2(width) && shift <= width
    ensures Pow2(shift) <= Pow2(width) && And(a, Pow2(width) - Pow2(shift)) == a - a % Pow2(shift)
  {
    Pow2MonotoneFor(shift, width);
    if shift == 0 {
      AndOnes(a, width);
    } else {
      AndMask(a / 2, width - 1, shift - 1);
      HalfMask(a, Pow2(width - 1), Pow2(shift - 1));
    }
  }

  lemma {:induction false} HalfMask(a: nat, w: nat, s: nat)
    requires 0 < s <= w && And(a / 2, w - s) == a / 2 - a / 2 % s
    ensures And(a, 2 * w - 2 * s) == a - a % (2 * s)
  {
    HalfMod(a, s);
    AndEven(a, w - s);
    assert a == 2 * (a / 2) + a % 2;
  }

  lemma {:induction false} AndEven(a: nat, m: nat)
    ensures And(a, 2 * m) == 2 * And(a / 2, m)
  {
    if a != 0 && m != 0 {
      assert (2 * m) / 2 == m && (2 * m) % 2 == 0;
    }
  }

  lemma {:induction false} AndWithMask(width: nat, a: nat, prefix: nat)
    requires prefix <= width && a < Pow2(width)
    ensures And(a, Mask(width, prefix)) == a - a % Pow2(width - prefix)
  {
    AndMask(a, width, width - prefix);
  }

  lemma {:induction false} SameBlock(a: nat, b: nat, d: nat)
    requires d > 0
    ensures a - a % d == b - b % d <==> b - b % d <= a < b - b % d + d
  {
    var p, q := a / d, b / d;
    assert a == p * d + a % d && b == q * d + b % d;
    if b - b % d <= a < b - b % d + d {
      ModUnique(a, d, q, a - q * d);
    }
  }

  /** Matching a prefix is membership in the aligned block of 2^(width - prefix) addresses,
      for every width and every prefix length from 0 to the width. */
  lemma {:induction false} PrefixMatchIsBlock(width: nat, address: nat, network: nat, prefix: nat)
    requires prefix <= width && address < Pow2(width) && network < Pow2(width)
    ensures PrefixMatch(width, address, network, prefix) <==>
              var start := BlockStart(width, network, prefix);
              start <= address < start + Pow2(width - prefix)
  {
    AndWithMask(width, address, prefix);
    AndWithMask(width, network, prefix);
    SameBlock(address, network, Pow2(width - prefix));
  }

  /** Two blocks are nested or disjoint. */
  lemma {:induction false} BlocksNest(width: nat, a: nat, x: nat, p: nat, y: nat, q: nat)
    requires p <= q <= width && a < Pow2(width) && x < Pow2(width) && y < Pow2(width)
    requires PrefixMatch(width, a, x, p) && PrefixMatch(width, a, y, q)
    ensures forall b: nat :: b < Pow2(width) && PrefixMatch(width, b, y, q) ==> PrefixMatch(width, b, x, p)
  {
    forall b: nat | b < Pow2(width) && PrefixMatch(width, b, y, q) ensures PrefixMatch(width, b, x, p) {
      AndWithMask(width, a, p);
      AndWithMask(width, b, p);
      AndWithMask(width, a, q);
      AndWithMask(width, b, q);
      AndWithMask(width, x, p);
      AndWithMask(width, y, q);
      Pow2Splits(width - q, q - p);
      CoarserBlock(a, b, Pow2(width - q), Pow2(q - p));
    }
  }

  lemma {:induction false} Pow2Splits(m: nat, n: nat)
    ensures Pow2(m + n) == Pow2(m) * Pow2(n)
  {
    if n > 0 {
      Pow2Splits(m, n - 1);
      assert Pow2(m) * (2 * Pow2(n - 1)) == 2 * (Pow2(m) * Pow2(n - 1));
    }
  }

  lemma {:induction false} CoarserBlock(a: nat, b: nat, d: nat, k: nat)
    requires d > 0 && k > 0 && a - a % d == b - b % d
    ensures d * k > 0 && a - a % (d * k) == b - b % (d * k)
  {
    assert d * k > 0;
    QuotientEqual(a, b, d);
    NestedQuotient(a, d, k);
    NestedQuotient(b, d, k);
    assert a == (d * k) * (a / (d * k)) + a % (d * k);
    assert b == (d * k) * (b / (d * k)) + b % (d * k);
  }

  lemma {:induction false} QuotientEqual(a: nat, b: nat, d: nat)
    requires d > 0 && a - a % d == b - b % d
    ensures a / d == b / d
  {
    var p, q := a / d, b / d;
    assert a == p * d + a % d && b == q * d + b % d;
    MultiplesApart(p, q, d);
    MultiplesApart(q, p, d);
  }

  lemma {:induction false} NestedQuotient(a: nat, d: nat, k: nat)
    requires d > 0 && k > 0
    ensures d * k > 0 && a / (d * k) == a / d / k
  {
    var q, r := a / d, a % d;
    var u, v := q / k, q % k;
    Regroup(q, d, k, u, v);
    assert a == q * d + r;
    ModUnique(a, d * k, u, v * d + r);
  }

  lemma {:induction false} Regroup(q: nat, d: nat, k: nat, u: nat, v: nat)
    requires d > 0 && q == u * k + v && v < k
    ensures d * k > 0 && q * d == u * (d * k) + v * d && v * d + d <= d * k
  {
    assert q * d == (u * k) * d + v * d;
    assert (u * k) * d == u * (d * k);
    MultiplesApart(v, k, d);
    assert k * d == d * k;
  }

  // ---------------------------------------------------------------------------
  // Addresses.
  // ---------------------------------------------------------------------------

  type Byte = n: nat | n < 0x100
  type Segment = n: nat | n < 0x1_0000

  datatype Ipv4 = Ipv4(a: Byte, b: Byte, c: Byte, d: Byte)

  datatype Ipv6 = Ipv6(s0: Segment, s1: Segment, s2: Segment, s3: Segment, s4: Segment, s5: Segment, s6: Segment,
                       s7: Segment)

  datatype Ip = V4(v4: Ipv4) | V6(v6: Ipv6)

  function Value4(ip: Ipv4): nat {
    ip.a * 0x100_0000 + ip.b * 0x1_0000 + ip.c * 0x100 + ip.d
  }

  /** The upper and the lower half of an address. */
  function Half(x: Segment, y: Segment, z: Segment, w: Segment): nat {
    x * 0x1_0000_0000_0000 + y * 0x1_0000_0000 + z * 0x1_0000 + w
  }

  function Value6(ip: Ipv6): nat {
    Half(ip.s0, ip.s1, ip.s2, ip.s3) * 0x1_0000_0000_0000_0000 + Half(ip.s4, ip.s5, ip.s6, ip.s7)
  }

  datatype Block4 = Block4(network: Ipv4, prefix: nat)

  datatype Block6 = Block6(network: Ipv6, prefix: nat)

  /** `ipv4_in` and `ipv6_in`. */
  predicate Ipv4In(ip: Ipv4, block: Block4) {
    block.prefix <= 32 && PrefixMatch(32, Value4(ip), Value4(block.network), block.prefix)
  }

  predicate Ipv6In(ip: Ipv6, block: Block6) {
    block.prefix <= 128 && PrefixMatch(128, Value6(ip), Value6(block.network), block.prefix)
  }

  predicate Ipv4InAny(ip: Ipv4, blocks: seq<Block4>) {
    exists b :: b in blocks && Ipv4In(ip, b)
  }

  predicate Ipv6InAny(ip: Ipv6, blocks: seq<Block6>) {
    exists b :: b in blocks && Ipv6In(ip, b)
  }

  /** The blocks the source tests by mask. */
  const SPECIAL: seq<Block4> := [
    Block4(Ipv4(0, 0, 0, 0), 8), Block4(Ipv4(100, 64, 0, 0), 10), Block4(Ipv4(192, 0, 0, 0), 24),
    Block4(Ipv4(192, 88, 99, 0), 24), Block4(Ipv4(198, 18, 0, 0), 15), Block4(Ipv4(240, 0, 0, 0), 4)]

  const GLOBAL_UNICAST: seq<Block6> := [Block6(Ipv6(0x2000, 0, 0, 0, 0, 0, 0, 0), 3)]

  const SPECIAL_UNICAST: seq<Block6> := [
    Block6(Ipv6(0x2001, 0, 0, 0, 0, 0, 0, 0), 23), Block6(Ipv6(0x2001, 0x0db8, 0, 0, 0, 0, 0, 0), 32),
    Block6(Ipv6(0x2002, 0, 0, 0, 0, 0, 0, 0), 16)]

  // The classes of the standard library, by octets and segments.

  predicate Private(ip: Ipv4) {
    ip.a == 10 || (ip.a == 172 && 16 <= ip.b <= 31) || (ip.a == 192 && ip.b == 168)
  }

  predicate Documentation(ip: Ipv4) {
    || (ip.a == 192 && ip.b == 0 && ip.c == 2)
    || (ip.a == 198 && ip.b == 51 && ip.c == 100)
    || (ip.a == 203 && ip.b == 0 && ip.c == 113)
  }

  predicate Multicast4(ip: Ipv4) {
    224 <= ip.a <= 239
  }

  predicate PublicIpv4(ip: Ipv4) {
    !( || ip == Ipv4(0, 0, 0, 0)
       || ip.a == 127
       || Private(ip)
       || (ip.a == 169 && ip.b == 254)
       || Multicast4(ip)
       || ip == Ipv4(255, 255, 255, 255)
       || Documentation(ip)
       || Ipv4InAny(ip, SPECIAL))
  }

  predicate PublicIpv6(ip: Ipv6) {
    Ipv6InAny(ip, GLOBAL_UNICAST) && !Ipv6InAny(ip, SPECIAL_UNICAST)
  }

  function MappedIpv4(ip: Ipv6): Option<Ipv4> {
    if ip.s0 == 0 && ip.s1 == 0 && ip.s2 == 0 && ip.s3 == 0 && ip.s4 == 0 && ip.s5 == 0xffff
    then Some(Ipv4(ip.s6 / 0x100, ip.s6 % 0x100, ip.s7 / 0x100, ip.s7 % 0x100))
    else None
  }

  predicate PublicIp(ip: Ip) {
    match ip
    case V4(v4) => PublicIpv4(v4)
    case V6(v6) => if MappedIpv4(v6).Some? then PublicIpv4(MappedIpv4(v6).value) else PublicIpv6(v6)
  }

  predicate Metadata4(ip: Ipv4) {
    || ip == Ipv4(169, 254, 169, 254) || ip == Ipv4(169, 254, 170, 2)
    || ip == Ipv4(169, 254, 170, 23) || ip == Ipv4(100, 100, 100, 200)
  }

  predicate MetadataIp(ip: Ip) {
    match ip
    case V4(v4) => Metadata4(v4)
    case V6(v6) =>
      || v6 == Ipv6(0xfd00, 0x0ec2, 0, 0, 0, 0, 0, 0x0254)
      || (MappedIpv4(v6).Some? && Metadata4(MappedIpv4(v6).value))
  }

  predicate NeverAllowed4(ip: Ipv4) {
    Metadata4(ip) || ip == Ipv4(0, 0, 0, 0) || Multicast4(ip) || ip == Ipv4(255, 255, 255, 255)
  }

  predicate NeverAllowed(ip: Ip) {
    match ip
    case V4(v4) => NeverAllowed4(v4)
    case V6(v6) =>
      || MetadataIp(ip)
      || v6 == Ipv6(0, 0, 0, 0, 0, 0, 0, 0)
      || v6.s0 / 0x100 == 0xff
      || (MappedIpv4(v6).Some? && NeverAllowed4(MappedIpv4(v6).value))
  }

  // ---------------------------------------------------------------------------
  // The blocks that are not public.
  // ---------------------------------------------------------------------------

  lemma {:induction false} Pow2Values()
    ensures Pow2(8) == 0x100 && Pow2(16) == 0x1_0000 && Pow2(17) == 0x2_0000 && Pow2(20) == 0x10_0000
    ensures Pow2(22) == 0x40_0000 && Pow2(24) == 0x100_0000 && Pow2(28) == 0x1000_0000 && Pow2(32) == 0x1_0000_0000
  {
    Pow2Splits(8, 8);
    Pow2Splits(16, 1);
    Pow2Splits(16, 4);
    Pow2Splits(16, 6);
    Pow2Splits(16, 8);
    Pow2Splits(24, 4);
    Pow2Splits(16, 16);
  }

  /** A block given by an aligned address is an interval. */
  lemma {:induction false} AlignedBlock(ip: Ipv4, b: Block4, start: nat, size: nat)
    requires b.prefix <= 32 && size == Pow2(32 - b.prefix) && start == Value4(b.network) && start % size == 0
    ensures Ipv4In(ip, b) <==> start <= Value4(ip) < start + size
  {
    Pow2Values();
    PrefixMatchIsBlock(32, Value4(ip), Value4(b.network), b.prefix);
  }

  lemma {:induction false} Block8(ip: Ipv4, b: Block4)
    requires b.prefix == 8 && b.network.b == 0 && b.network.c == 0 && b.network.d == 0
    ensures Ipv4In(ip, b) <==> ip.a == b.network.a
  {
    Pow2Values();
    AlignedBlock(ip, b, b.network.a * 0x100_0000, 0x100_0000);
  }

  lemma {:induction false} Block4Wide(ip: Ipv4, b: Block4, k: nat)
    requires b.prefix == 4 && b.network.a == 16 * k && b.network.b == 0 && b.network.c == 0 && b.network.d == 0
    ensures Ipv4In(ip, b) <==> b.network.a <= ip.a < b.network.a + 16
  {
    Pow2Values();
    AlignedBlock(ip, b, k * 0x1000_0000, 0x1000_0000);
  }

  /** An interval test on an address, as a test on its first two octets. */
  lemma {:induction false} TwoOctets(ip: Ipv4, first: Byte, low: Byte, count: nat)
    requires low + count <= 0x100
    ensures var start := first * 0x100_0000 + low * 0x1_0000;
            start <= Value4(ip) < start + count * 0x1_0000 <==> ip.a == first && low <= ip.b < low + count
  {
    var x, tail := ip.a * 0x100 + ip.b, ip.c * 0x100 + ip.d;
    assert Value4(ip) == x * 0x1_0000 + tail && tail < 0x1_0000;
    InRange(x, tail, first * 0x100 + low, count);
    DigitRange(ip.a, ip.b, first, low, count);
  }

  lemma {:induction false} InRange(x: nat, tail: nat, y: nat, count: nat)
    requires tail < 0x1_0000
    ensures y * 0x1_0000 <= x * 0x1_0000 + tail < y * 0x1_0000 + count * 0x1_0000 <==> y <= x < y + count
  {
  }

  lemma {:induction false} DigitRange(a: Byte, b: Byte, first: Byte, low: Byte, count: nat)
    requires low + count <= 0x100
    ensures first * 0x100 + low <= a * 0x100 + b < first * 0x100 + low + count <==> a == first && low <= b < low + count
  {
  }

  /** A network of two octets is aligned when its second octet is. */
  lemma {:induction false} TwoOctetStart(n: Ipv4, count: nat)
    requires n.c == 0 && n.d == 0
    requires (count == 64 && n.b == 64) || (count == 16 && n.b == 16) || (count == 2 && n.b == 18) || count == 1
    ensures Value4(n) == n.a * 0x100_0000 + n.b * 0x1_0000 && Value4(n) % (count * 0x1_0000) == 0
  {
    var k := if count == 64 then n.a * 4 + 1 else if count == 16 then n.a * 16 + 1
             else if count == 2 then n.a * 128 + 9 else n.a * 256 + n.b;
    assert Value4(n) == k * (count * 0x1_0000);
    ModUnique(Value4(n), count * 0x1_0000, k, 0);
  }

  lemma {:induction false} Block10(ip: Ipv4, b: Block4)
    requires b.prefix == 10 && b.network.b == 64 && b.network.c == 0 && b.network.d == 0
    ensures Ipv4In(ip, b) <==> ip.a == b.network.a && 64 <= ip.b < 128
  {
    Pow2Values();
    TwoOctetStart(b.network, 64);
    AlignedBlock(ip, b, Value4(b.network), 0x40_0000);
    TwoOctets(ip, b.network.a, b.network.b, 64);
  }

  lemma {:induction false} Block12(ip: Ipv4, b: Block4)
    requires b.prefix == 12 && b.network.b == 16 && b.network.c == 0 && b.network.d == 0
    ensures Ipv4In(ip, b) <==> ip.a == b.network.a && 16 <= ip.b < 32
  {
    Pow2Values();
    TwoOctetStart(b.network, 16);
    AlignedBlock(ip, b, Value4(b.network), 0x10_0000);
    TwoOctets(ip, b.network.a, b.network.b, 16);
  }

  lemma {:induction false} Block15(ip: Ipv4, b: Block4)
    requires b.prefix == 15 && b.network.b == 18 && b.network.c == 0 && b.network.d == 0
    ensures Ipv4In(ip, b) <==> ip.a == b.network.a && 18 <= ip.b < 20
  {
    Pow2Values();
    TwoOctetStart(b.network, 2);
    AlignedBlock(ip, b, Value4(b.network), 0x2_0000);
    TwoOctets(ip, b.network.a, b.network.b, 2);
  }

  lemma {:induction false} Block16(ip: Ipv4, b: Block4)
    requires b.prefix == 16 && b.network.c == 0 && b.network.d == 0
    ensures Ipv4In(ip, b) <==> ip.a == b.network.a && ip.b == b.network.b
  {
    Pow2Values();
    TwoOctetStart(b.network, 1);
    AlignedBlock(ip, b, Value4(b.network), 0x1_0000);
    TwoOctets(ip, b.network.a, b.network.b, 1);
  }

  lemma {:induction false} Block24(ip: Ipv4, b: Block4)
    requires b.prefix == 24 && b.network.d == 0
    ensures Ipv4In(ip, b) <==> ip.a == b.network.a && ip.b == b.network.b && ip.c == b.network.c
  {
    Pow2Values();
    var start := b.network.a * 0x100_0000 + b.network.b * 0x1_0000 + b.network.c * 0x100;
    assert start == (b.network.a * 0x1_0000 + b.network.b * 0x100 + b.network.c) * 0x100;
    AlignedBlock(ip, b, start, 0x100);
    SameHead(ip, b.network);
  }

  lemma {:induction false} SameHead(ip: Ipv4, n: Ipv4)
    requires n.d == 0
    ensures Value4(n) <= Value4(ip) < Value4(n) + 0x100 <==> ip.a == n.a && ip.b == n.b && ip.c == n.c
  {
    var x, y := ip.a * 0x100 + ip.b, n.a * 0x100 + n.b;
    SameDigits(ip.a, ip.b, n.a, n.b);
    SameDigits(x, ip.c, y, n.c);
    assert Value4(ip) == (x * 0x100 + ip.c) * 0x100 + ip.d;
    assert Value4(n) == (y * 0x100 + n.c) * 0x100;
    SameQuotient(x * 0x100 + ip.c, ip.d, y * 0x100 + n.c);
  }

  lemma {:induction false} SameDigits(x: nat, c: Byte, y: nat, d: Byte)
    ensures x * 0x100 + c == y * 0x100 + d <==> x == y && c == d
  {
  }

  lemma {:induction false} SameQuotient(x: nat, c: Byte, y: nat)
    ensures y * 0x100 <= x * 0x100 + c < y * 0x100 + 0x100 <==> x == y
  {
  }

  /** Every address block that is not public. */
  const RESERVED: seq<Block4> := [
    Block4(Ipv4(0, 0, 0, 0), 8), Block4(Ipv4(10, 0, 0, 0), 8), Block4(Ipv4(127, 0, 0, 0), 8),
    Block4(Ipv4(100, 64, 0, 0), 10), Block4(Ipv4(172, 16, 0, 0), 12), Block4(Ipv4(198, 18, 0, 0), 15),
    Block4(Ipv4(169, 254, 0, 0), 16), Block4(Ipv4(192, 168, 0, 0), 16),
    Block4(Ipv4(192, 0, 0, 0), 24), Block4(Ipv4(192, 0, 2, 0), 24), Block4(Ipv4(192, 88, 99, 0), 24),
    Block4(Ipv4(198, 51, 100, 0), 24), Block4(Ipv4(203, 0, 113, 0), 24),
    Block4(Ipv4(224, 0, 0, 0), 4), Block4(Ipv4(240, 0, 0, 0), 4)]

  /** What membership in a block says about the octets. */
  predicate Octets(ip: Ipv4, b: Block4) {
    match b.prefix
    case 4 => b.network.a <= ip.a < b.network.a + 16
    case 8 => ip.a == b.network.a
    case 10 => ip.a == b.network.a && 64 <= ip.b < 128
    case 12 => ip.a == b.network.a && 16 <= ip.b < 32
    case 15 => ip.a == b.network.a && 18 <= ip.b < 20
    case 16 => ip.a == b.network.a && ip.b == b.network.b
    case _ => ip.a == b.network.a && ip.b == b.network.b && ip.c == b.network.c
  }

  predicate Aligned(b: Block4) {
    && b.network.d == 0
    && match b.prefix
       case 4 => (b.network.a == 224 || b.network.a == 240) && b.network.b == 0 && b.network.c == 0
       case 8 => b.network.b == 0 && b.network.c == 0
       case 10 => b.network.b == 64 && b.network.c == 0
       case 12 => b.network.b == 16 && b.network.c == 0
       case 15 => b.network.b == 18 && b.network.c == 0
       case 16 => b.network.c == 0
       case n => n == 24
  }

  lemma {:induction false} BlockOctets(ip: Ipv4, b: Block4)
    requires Aligned(b)
    ensures Ipv4In(ip, b) <==> Octets(ip, b)
  {
    match b.prefix
    case 4 => Block4Wide(ip, b, if b.network.a == 224 then 14 else 15);
    case 8 => Block8(ip, b);
    case 10 => Block10(ip, b);
    case 12 => Block12(ip, b);
    case 15 => Block15(ip, b);
    case 16 => Block16(ip, b);
    case _ => Block24(ip, b);
  }

  predicate OctetsInAny(ip: Ipv4, blocks: seq<Block4>) {
    exists b :: b in blocks && Octets(ip, b)
  }

  lemma {:induction false} BlocksOctets(ip: Ipv4, blocks: seq<Block4>)
    requires forall b :: b in blocks ==> Aligned(b)
    ensures Ipv4InAny(ip, blocks) <==> OctetsInAny(ip, blocks)
  {
    forall b | b in blocks ensures Ipv4In(ip, b) <==> Octets(ip, b) {
      BlockOctets(ip, b);
    }
  }

  lemma {:induction false} TablesAligned()
    ensures forall b :: b in SPECIAL ==> Aligned(b)
    ensures forall b :: b in RESERVED ==> Aligned(b)
  {
  }

  /** The octets the source tests one by one, outside the mask tests. */
  predicate TestedOctets(ip: Ipv4) {
    ip.a == 127 || Private(ip) || (ip.a == 169 && ip.b == 254) || Multicast4(ip) || Documentation(ip)
  }

  lemma {:induction false} SpecialIsReserved(b: Block4)
    requires b in SPECIAL
    ensures b in RESERVED
  {
  }

  lemma {:induction false} ReservedIsTested(ip: Ipv4, b: Block4)
    requires b in RESERVED && b !in SPECIAL && Octets(ip, b)
    ensures TestedOctets(ip)
  {
  }

  lemma {:induction false} ReservedOctets(ip: Ipv4, special: seq<Block4>, reserved: seq<Block4>)
    requires special == SPECIAL && reserved == RESERVED
    ensures OctetsInAny(ip, reserved) <==> TestedOctets(ip) || OctetsInAny(ip, special)
  {
    if b :| b in special && Octets(ip, b) {
      SpecialIsReserved(b);
    }
    if TestedOctets(ip) {
      var b := TestedBlock(ip);
    }
    if b :| b in reserved && Octets(ip, b) {
      if b !in special {
        ReservedIsTested(ip, b);
      }
    }
  }

  lemma {:induction false} TestedBlock(ip: Ipv4) returns (b: Block4)
    requires TestedOctets(ip)
    ensures b in RESERVED && Octets(ip, b)
  {
    b := if ip.a == 127 then RESERVED[2]
         else if ip.a == 10 then RESERVED[1]
         else if ip.a == 172 then RESERVED[4]
         else if ip.a == 169 then RESERVED[6]
         else if ip.a == 192 && ip.b == 168 then RESERVED[7]
         else if ip.a == 192 then RESERVED[9]
         else if ip.a == 198 then RESERVED[11]
         else if ip.a == 203 then RESERVED[12]
         else RESERVED[13];
  }

  lemma {:induction false} EdgesAreSpecial(ip: Ipv4)
    requires ip.a == 0 || ip.a == 255
    ensures OctetsInAny(ip, SPECIAL)
  {
    var b := if ip.a == 0 then SPECIAL[0] else SPECIAL[5];
    assert b in SPECIAL && Octets(ip, b);
  }

  /** Octet tests and mask tests together: an IPv4 address is public exactly when it lies in
      none of the fifteen reserved blocks. */
  lemma {:induction false} PublicIsUnreserved(ip: Ipv4, reserved: seq<Block4>)
    requires reserved == RESERVED
    ensures PublicIpv4(ip) <==> !Ipv4InAny(ip, reserved)
  {
    TablesAligned();
    BlocksOctets(ip, SPECIAL);
    BlocksOctets(ip, reserved);
    ReservedOctets(ip, SPECIAL, reserved);
    if ip.a == 0 || ip.a == 255 {
      EdgesAreSpecial(ip);
    }
  }

  // ---------------------------------------------------------------------------
  // Public IPv6 addresses, by segments.
  // ---------------------------------------------------------------------------

  const S96: nat := 0x1_0000_0000_0000_0000_0000_0000
  const S112: nat := 0x1_0000_0000_0000_0000_0000_0000_0000

  lemma {:induction false} Pow2Wide()
    ensures Pow2(96) == S96 && Pow2(105) == 0x200 * S96 && Pow2(112) == S112
    ensures Pow2(125) == 0x2000 * S112 && Pow2(128) == 0x1_0000 * S112
  {
    Pow2Values();
    Pow2Splits(32, 32);
    Pow2Splits(64, 32);
    Pow2Splits(1, 8);
    Pow2Splits(96, 9);
    Pow2Splits(96, 16);
    Pow2Splits(8, 5);
    Pow2Splits(112, 13);
    Pow2Splits(112, 16);
    assert Pow2(5) == 32 && Pow2(1) == 2;
  }

  /** What follows the first two segments. */
  function Tail(ip: Ipv6): nat {
    (ip.s2 * 0x1_0000 + ip.s3) * 0x1_0000_0000_0000_0000 + Half(ip.s4, ip.s5, ip.s6, ip.s7)
  }

  lemma {:induction false} HeadAndTail(ip: Ipv6)
    ensures Value6(ip) == ip.s0 * S112 + ip.s1 * S96 + Tail(ip) && Tail(ip) < S96
  {
  }

  lemma {:induction false} SameQuotientIff(a: nat, b: nat, d: nat)
    requires d > 0
    ensures a - a % d == b - b % d <==> a / d == b / d
  {
    assert a == a / d * d + a % d && b == b / d * d + b % d;
    if a - a % d == b - b % d {
      QuotientEqual(a, b, d);
    }
  }

  /** Matching a prefix is agreeing on what is left of it. */
  lemma {:induction false} PrefixMatchIsQuotient(width: nat, address: nat, network: nat, prefix: nat, size: nat)
    requires prefix <= width && address < Pow2(width) && network < Pow2(width) && size == Pow2(width - prefix)
    ensures PrefixMatch(width, address, network, prefix) <==> address / size == network / size
  {
    AndWithMask(width, address, prefix);
    AndWithMask(width, network, prefix);
    SameQuotientIff(address, network, size);
  }

  lemma {:induction false} Below128(ip: Ipv6)
    ensures Value6(ip) < Pow2(128)
  {
    Pow2Wide();
    HeadAndTail(ip);
  }

  lemma {:induction false} Ipv6InIsQuotient(ip: Ipv6, b: Block6, size: nat)
    requires b.prefix <= 128 && size == Pow2(128 - b.prefix)
    ensures Ipv6In(ip, b) <==> Value6(ip) / size == Value6(b.network) / size
  {
    Below128(ip);
    Below128(b.network);
    PrefixMatchIsQuotient(128, Value6(ip), Value6(b.network), b.prefix, size);
  }

  /** The first two segments, as one number. */
  function Lead(ip: Ipv6): nat {
    ip.s0 * 0x1_0000 + ip.s1
  }

  lemma {:induction false} LeadIsQuotient(ip: Ipv6)
    ensures Value6(ip) / S96 == Lead(ip)
  {
    HeadAndTail(ip);
    ModUnique(Value6(ip), S96, Lead(ip), Tail(ip));
  }

  /** For prefixes up to 32, only the first two segments are compared. */
  lemma {:induction false} LeadDecides(ip: Ipv6, b: Block6, k: nat, size: nat)
    requires b.prefix <= 128 && k > 0 && size == S96 * k == Pow2(128 - b.prefix)
    ensures Ipv6In(ip, b) <==> Lead(ip) / k == Lead(b.network) / k
  {
    Ipv6InIsQuotient(ip, b, size);
    LeadIsQuotient(ip);
    LeadIsQuotient(b.network);
    NestedQuotient(Value6(ip), S96, k);
    NestedQuotient(Value6(b.network), S96, k);
  }

  /** What a prefix leaves out of the first two segments. */
  function LeadDivisor(prefix: nat): nat {
    if prefix == 3 then 0x2000_0000 else if prefix == 16 then 0x1_0000 else if prefix == 23 then 0x200 else 1
  }

  lemma {:induction false} Sizes(prefix: nat) returns (k: nat, size: nat)
    requires prefix == 3 || prefix == 16 || prefix == 23 || prefix == 32
    ensures k
         == (if prefix == 3 then 0x2000_0000 else if prefix == 16 then 0x1_0000 else if prefix == 23 then 0x200 else 1)
    ensures size == S96 * k == Pow2(128 - prefix)
  {
    Pow2Wide();
    k := LeadDivisor(prefix);
    size := S96 * k;
  }

  lemma {:induction false} LeadSplits(x: Segment, y: Segment)
    ensures (x * 0x1_0000 + y) / 0x1_0000 == x
    ensures (x * 0x1_0000 + y) / 0x200 == x * 0x80 + y / 0x200
  {
  }

  /** What membership in one of the tested blocks says about the segments. */
  predicate Segments(ip: Ipv6, b: Block6) {
    match b.prefix
    case 3 => 0x2000 <= ip.s0 < 0x4000
    case 16 => ip.s0 == b.network.s0
    case 23 => ip.s0 == b.network.s0 && ip.s1 < 0x200
    case _ => ip.s0 == b.network.s0 && ip.s1 == b.network.s1
  }

  predicate Tested(b: Block6) {
    match b.prefix
    case 3 => b.network.s0 == 0x2000
    case 16 => true
    case 23 => b.network.s1 == 0
    case n => n == 32
  }

  lemma {:induction false} BlockSegments(ip: Ipv6, b: Block6)
    requires Tested(b)
    ensures Ipv6In(ip, b) <==> Segments(ip, b)
  {
    var k, size := Sizes(b.prefix);
    LeadDecides(ip, b, k, size);
    SegmentsByLead(ip, b, k);
  }

  lemma {:induction false} LeadByFirst(x: Segment, y: Segment)
    ensures (x * 0x1_0000 + y) / 0x2000_0000 == 1 <==> 0x2000 <= x < 0x4000
  {
  }

  lemma {:induction false} LeadByHalf(x: Segment, y: Segment, z: Segment)
    ensures (x * 0x1_0000 + y) / 0x200 == z * 0x80 <==> x == z && y < 0x200
  {
    LeadSplits(x, y);
  }

  lemma {:induction false} SegmentsByLead(ip: Ipv6, b: Block6, k: nat)
    requires Tested(b) && k == LeadDivisor(b.prefix)
    ensures Lead(ip) / k == Lead(b.network) / k <==> Segments(ip, b)
  {
    match b.prefix
    case 3 =>
      LeadByFirst(ip.s0, ip.s1);
      LeadByFirst(b.network.s0, b.network.s1);
    case 16 =>
      LeadSplits(ip.s0, ip.s1);
      LeadSplits(b.network.s0, b.network.s1);
    case 23 =>
      LeadByHalf(ip.s0, ip.s1, b.network.s0);
      LeadByHalf(b.network.s0, 0, b.network.s0);
    case _ =>
  }

  lemma {:induction false} BlocksSegments(ip: Ipv6, blocks: seq<Block6>)
    requires forall b :: b in blocks ==> Tested(b)
    ensures Ipv6InAny(ip, blocks) <==> exists b :: b in blocks && Segments(ip, b)
  {
    forall b | b in blocks ensures Ipv6In(ip, b) <==> Segments(ip, b) {
      BlockSegments(ip, b);
    }
  }

  lemma {:induction false} GlobalSegments(ip: Ipv6)
    ensures Ipv6InAny(ip, GLOBAL_UNICAST) <==> 0x2000 <= ip.s0 <= 0x3fff
  {
    BlocksSegments(ip, GLOBAL_UNICAST);
    assert GLOBAL_UNICAST[0] in GLOBAL_UNICAST;
  }

  predicate SpecialLead(ip: Ipv6) {
    ip.s0 == 0x2002 || (ip.s0 == 0x2001 && (ip.s1 < 0x200 || ip.s1 == 0x0db8))
  }

  lemma {:induction false} SpecialBlock(ip: Ipv6, b: Block6)
    requires b in SPECIAL_UNICAST
    ensures Tested(b) && (Segments(ip, b) ==> SpecialLead(ip))
  {
  }

  lemma {:induction false} BlockOfSpecial(ip: Ipv6) returns (b: Block6)
    requires SpecialLead(ip)
    ensures b in SPECIAL_UNICAST && Segments(ip, b)
  {
    b := SPECIAL_UNICAST[if ip.s0 == 0x2002 then 2 else if ip.s1 < 0x200 then 0 else 1];
  }

  lemma {:induction false} SpecialSegments(ip: Ipv6, blocks: seq<Block6>)
    requires blocks == SPECIAL_UNICAST
    ensures Ipv6InAny(ip, blocks) <==> SpecialLead(ip)
  {
    forall b | b in blocks ensures Tested(b) && (Segments(ip, b) ==> SpecialLead(ip)) {
      SpecialBlock(ip, b);
    }
    BlocksSegments(ip, blocks);
    if SpecialLead(ip) {
      var b := BlockOfSpecial(ip);
    }
  }

  /** An IPv6 address is public exactly when its first segment is global unicast and it is neither
      6to4, nor a protocol assignment, nor documentation. */
  lemma {:induction false} PublicIpv6BySegments(ip: Ipv6)
    ensures PublicIpv6(ip) <==> 0x2000 <= ip.s0 <= 0x3fff && !SpecialLead(ip)
  {
    GlobalSegments(ip);
    SpecialSegments(ip, SPECIAL_UNICAST);
  }

  // ---------------------------------------------------------------------------
  // IPv4-mapped addresses (section 2.5.5.2 of RFC 4291).
  // ---------------------------------------------------------------------------

  function Embed(ip: Ipv4): Ipv6 {
    Ipv6(0, 0, 0, 0, 0, 0xffff, ip.a * 0x100 + ip.b, ip.c * 0x100 + ip.d)
  }

  lemma {:induction false} SplitSegment(x: Byte, y: Byte)
    ensures (x * 0x100 + y) / 0x100 == x && (x * 0x100 + y) % 0x100 == y
  {
  }

  /** Embedding and unmapping undo each other. */
  lemma {:induction false} MappedIffEmbedded(ip: Ipv4, x: Ipv6)
    ensures MappedIpv4(x) == Some(ip) <==> x == Embed(ip)
  {
    SplitSegment(ip.a, ip.b);
    SplitSegment(ip.c, ip.d);
    if MappedIpv4(x) == Some(ip) {
      assert x.s6 == ip.a * 0x100 + ip.b && x.s7 == ip.c * 0x100 + ip.d;
    }
  }

  datatype Network = Net4(block4: Block4) | Net6(block6: Block6)

  predicate Contains(n: Network, ip: Ip) {
    match n
    case Net4(block) => ip.V4? && Ipv4In(ip.v4, block)
    case Net6(block) => ip.V6? && Ipv6In(ip.v6, block)
  }

  datatype Policy = Policy(hosts: set<string>, ips: set<Ip>, networks: seq<Network>)

  predicate Listed(policy: Policy, ip: Ip) {
    ip in policy.ips || exists n :: n in policy.networks && Contains(n, ip)
  }

  predicate IpAllowed(policy: Policy, ip: Ip, hostAllowed: bool) {
    !NeverAllowed(ip) && (PublicIp(ip) || hostAllowed || Listed(policy, ip))
  }

  /** Which IPv4 addresses may be reached: no metadata service, no unspecified, multicast or broadcast
      address, and otherwise a public one or one that the host or the allowlist admits. */
  lemma {:induction false} Ipv4AllowedIff(policy: Policy, ip: Ipv4, hostAllowed: bool)
    ensures IpAllowed(policy, V4(ip), hostAllowed) <==>
              && !(ip.a == 169 && ip.b == 254 && ip.c == 169 && ip.d == 254)
              && !(ip.a == 169 && ip.b == 254 && ip.c == 170 && (ip.d == 2 || ip.d == 23))
              && !(ip.a == 100 && ip.b == 100 && ip.c == 100 && ip.d == 200)
              && !(ip.a == 0 && ip.b == 0 && ip.c == 0 && ip.d == 0)
              && !(224 <= ip.a <= 239)
              && !(ip.a == 255 && ip.b == 255 && ip.c == 255 && ip.d == 255)
              && (PublicIpv4(ip) || hostAllowed || Listed(policy, V4(ip)))
  {
  }

  /** Which IPv6 addresses may be reached: those that map an IPv4 address by its class, and otherwise no
      metadata service, no unspecified or multicast address, and a public one or one that is admitted. */
  lemma {:induction false} Ipv6AllowedIff(policy: Policy, ip: Ipv6, hostAllowed: bool)
    ensures MappedIpv4(ip).None? ==>
              (IpAllowed(policy, V6(ip), hostAllowed) <==>
               && !(ip.s0 == 0xfd00 && ip.s1 == 0x0ec2 && ip.s2 == 0 && ip.s3 == 0
                    && ip.s4 == 0 && ip.s5 == 0 && ip.s6 == 0 && ip.s7 == 0x0254)
               && ip != Ipv6(0, 0, 0, 0, 0, 0, 0, 0) && !(0xff00 <= ip.s0 <= 0xffff)
               && (PublicIpv6(ip) || hostAllowed || Listed(policy, V6(ip))))
    ensures MappedIpv4(ip).Some? ==>
              (IpAllowed(policy, V6(ip), hostAllowed) <==>
               && !NeverAllowed(V4(MappedIpv4(ip).value))
               && (PublicIpv4(MappedIpv4(ip).value) || hostAllowed || Listed(policy, V6(ip))))
  {
    assert ip == Ipv6(ip.s0, ip.s1, ip.s2, ip.s3, ip.s4, ip.s5, ip.s6, ip.s7);
    assert ip.s0 / 0x100 == 0xff <==> 0xff00 <= ip.s0 <= 0xffff;
  }

  /** A mapped address is classified as the address it embeds. */
  lemma {:induction false} MappedIsClassifiedAsEmbedded(ip: Ipv4)
    ensures PublicIp(V6(Embed(ip))) == PublicIp(V4(ip))
    ensures MetadataIp(V6(Embed(ip))) == MetadataIp(V4(ip))
    ensures NeverAllowed(V6(Embed(ip))) == NeverAllowed(V4(ip))
  {
    MappedIffEmbedded(ip, Embed(ip));
    var x := Embed(ip);
    assert x.s0 == 0 && x.s5 == 0xffff;
    assert x.s0 / 0x100 == 0;
  }

  /** The allowlist is the one place where the two forms may part: they are treated alike
      exactly when the answer is fixed without it or it lists both or neither. */
  lemma {:induction false} MappedIsAllowedAlikeIff(policy: Policy, ip: Ipv4, hostAllowed: bool)
    ensures IpAllowed(policy, V6(Embed(ip)), hostAllowed) == IpAllowed(policy, V4(ip), hostAllowed) <==>
              || NeverAllowed(V4(ip)) || PublicIp(V4(ip)) || hostAllowed
              || Listed(policy, V4(ip)) == Listed(policy, V6(Embed(ip)))
  {
    MappedIsClassifiedAsEmbedded(ip);
  }

  /** The parting is real: listing any address that needs the list allows it and still refuses
      its mapped form. */
  lemma {:induction false} ListingMissesMappedForm(ip: Ipv4)
    requires !PublicIpv4(ip) && !NeverAllowed4(ip)
    ensures var policy := Policy({}, {V4(ip)}, []);
            IpAllowed(policy, V4(ip), false) && !IpAllowed(policy, V6(Embed(ip)), false)
  {
    MappedIsClassifiedAsEmbedded(ip);
    var policy := Policy({}, {V4(ip)}, []);
    assert V4(ip) in policy.ips;
  }

  /** For one, 10.0.0.1. */
  lemma {:induction false} ListedPrivateAddress()
    ensures var policy := Policy({}, {V4(Ipv4(10, 0, 0, 1))}, []);
            && IpAllowed(policy, V4(Ipv4(10, 0, 0, 1)), false)
            && !IpAllowed(policy, V6(Ipv6(0, 0, 0, 0, 0, 0xffff, 0x0a00, 0x0001)), false)
  {
    var ip := Ipv4(10, 0, 0, 1);
    ListingMissesMappedForm(ip);
    assert Embed(ip) == Ipv6(0, 0, 0, 0, 0, 0xffff, 0x0a00, 0x0001);
  }

  // ---------------------------------------------------------------------------
  // URLs and redirects.
  // ---------------------------------------------------------------------------

  /** A parsed host: its normalized name, and the address when the name is one. */
  datatype Host = Host(name: string, ip: Option<Ip>)

  datatype Url = Url(
    scheme: string,
    username: string,
    password: Option<string>,
    host: Option<Host>,
    port: Option<nat>,
    path: string,
    query: Option<string>,
    fragment: Option<string>)

  predicate EndsWith(s: string, suffix: string) {
    |suffix| <= |s| && s[|s| - |suffix|..] == suffix
  }

  predicate LocalHostname(host: string) {
    || host == "localhost" || EndsWith(host, ".localhost") || EndsWith(host, ".local") || EndsWith(host, ".internal")
    || EndsWith(host, ".home") || EndsWith(host, ".lan") || '.' !in host
  }

  predicate MetadataHostname(host: string) {
    || host == "metadata.google.internal" || host == "metadata.aws.internal"
    || host == "instance-data.ec2.internal" || host == "metadata.azure.internal"
  }

  predicate HostAdmitted(policy: Policy, host: Host) {
    && !MetadataHostname(host.name)
    && (if host.ip.Some? then IpAllowed(policy, host.ip.value, false)
        else !LocalHostname(host.name) || host.name in policy.hosts)
  }

  predicate RequestUrlOk(policy: Policy, url: Url) {
    && (url.scheme == "http" || url.scheme == "https")
    && url.host.Some? && url.username == "" && url.password.None? && url.port != Some(0)
    && HostAdmitted(policy, url.host.value)
    && url.fragment.None?
  }

  /** A request goes out exactly to an http or https URL without credentials, fragment or port 0, whose
      host is no metadata service and is an allowed address or a name that is public or listed. */
  lemma {:induction false} RequestUrlIff(policy: Policy, url: Url)
    ensures RequestUrlOk(policy, url) <==>
              && url.scheme in ["http", "https"] && url.username == [] && url.password == None
              && url.fragment == None && url.port != Some(0) && url.host != None
              && var host := url.host.value;
              && host.name !in ["metadata.google.internal", "metadata.aws.internal", "instance-data.ec2.internal",
                                "metadata.azure.internal"]
              && (host.ip.Some? ==> IpAllowed(policy, host.ip.value, false))
              && (host.ip.None? ==> PublicName(host.name) || host.name in policy.hosts)
  {
    if url.host.Some? {
      PublicNameIff(url.host.value.name);
    }
  }

  /** A name of several labels whose last label is not one of the local ones. */
  ghost predicate PublicName(name: string) {
    && (exists i :: 0 <= i < |name| && name[i] == '.')
    && forall zone: string, head: string :: zone in LOCAL_ZONES ==> name != head + zone
  }

  const LOCAL_ZONES: set<string> := {".localhost", ".local", ".internal", ".home", ".lan"}

  lemma {:induction false} EndsWithIff(s: string, suffix: string)
    ensures EndsWith(s, suffix) <==> exists head: string :: s == head + suffix
  {
    if EndsWith(s, suffix) {
      assert s == s[..|s| - |suffix|] + suffix;
    }
  }

  lemma {:induction false} PublicNameIff(name: string)
    ensures PublicName(name) <==> !LocalHostname(name)
  {
    EndsWithIff(name, ".localhost");
    EndsWithIff(name, ".local");
    EndsWithIff(name, ".internal");
    EndsWithIff(name, ".home");
    EndsWithIff(name, ".lan");
    var host := "localhost";
    assert '.' !in host;
    if '.' in name && !LocalHostname(name) {
      forall zone: string, head: string | zone in LOCAL_ZONES ensures name != head + zone {
        EndsWithIff(name, zone);
      }
    }
    if PublicName(name) {
      forall zone | zone in LOCAL_ZONES ensures !EndsWith(name, zone) {
        EndsWithIff(name, zone);
      }
    }
  }

  function KnownPort(url: Url): Option<nat> {
    if url.port.Some? then url.port
    else if url.scheme == "http" then Some(80)
    else if url.scheme == "https" then Some(443)
    else None
  }

  function HostName(url: Url): Option<string> {
    if url.host.Some? then Some(url.host.value.name) else None
  }

  predicate SameOrigin(l: Url, r: Url) {
    l.scheme == r.scheme && HostName(l) == HostName(r) && KnownPort(l) == KnownPort(r)
  }

  /** An http URL without a port has port 80, an https URL 443. */
  lemma {:induction false} SameOriginIff(l: Url, r: Url)
    requires l.scheme in ["http", "https"] && l.host.Some? && r.host.Some?
    ensures SameOrigin(l, r) <==>
              && r.scheme == l.scheme && r.host.value.name == l.host.value.name
              && var default := if l.scheme == "http" then 80 else 443;
              && (l.port.Some? && r.port.Some? ==> l.port == r.port)
              && (l.port.Some? && r.port.None? ==> l.port.value == default)
              && (l.port.None? && r.port.Some? ==> r.port.value == default)
  {
  }

  const MAX_REDIRECTS: nat := 5

  /** The decision on one redirect, given the URLs visited so far, the first one included. */
  predicate Follows(policy: Policy, previous: seq<Url>, next: Url) {
    !( || |previous| > MAX_REDIRECTS
       || next in previous
       || (previous == [] || !SameOrigin(previous[0], next))
       || !RequestUrlOk(policy, next))
  }

  /** A chain of URLs, each but the first reached by a redirect that was followed. */
  ghost predicate FollowedRun(policy: Policy, visited: seq<Url>) {
    visited != [] && forall i :: 1 <= i < |visited| ==> Follows(policy, visited[..i], visited[i])
  }

  /** Every followed run makes at most five hops, never visits a URL twice, stays on the
      first URL's origin and passes the request check at every hop. */
  lemma {:induction false} RedirectRunIsBounded(policy: Policy, visited: seq<Url>)
    requires FollowedRun(policy, visited)
    ensures |visited| - 1 <= 5
    ensures NoDuplicates(visited)
    ensures forall i, j :: 0 <= i < |visited| && 0 <= j < |visited| ==> SameOrigin(visited[i], visited[j])
    ensures forall i :: 1 <= i < |visited| ==> RequestUrlOk(policy, visited[i])
  {
    var last := |visited| - 1;
    if last >= 1 {
      assert Follows(policy, visited[..last], visited[last]);
    }
    forall i, j | 0 <= i < j < |visited| ensures visited[i] != visited[j] {
      assert Follows(policy, visited[..j], visited[j]);
      assert visited[..j][i] == visited[i];
    }
    forall i | 0 <= i < |visited| ensures SameOrigin(visited[0], visited[i]) {
      if i > 0 {
        assert Follows(policy, visited[..i], visited[i]);
      }
    }
  }

  /** Six visited URLs on one origin, all admissible, are a run: the bound is reached. */
  lemma {:induction false} RedirectBoundIsTight(policy: Policy, visited: seq<Url>)
    requires 1 <= |visited| <= 6 && NoDuplicates(visited)
    requires forall i :: 1 <= i < |visited| ==> SameOrigin(visited[0], visited[i]) && RequestUrlOk(policy, visited[i])
    ensures FollowedRun(policy, visited)
  {
    forall i | 1 <= i < |visited| ensures Follows(policy, visited[..i], visited[i]) {
      assert visited[i] !in visited[..i];
    }
  }
}
