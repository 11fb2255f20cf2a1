/** daemon/ipalloc/allocator.go: the next free IPv4 address of a prefix. */
module Allocator {
  import opened Wrappers
  import opened Text
  import Origin

  datatype AllocError = BadPrefix | OnlyIpv4 | BadReserved | SubnetExhausted

  // ----- powers of two --------------------------------------------------------

  function Pow2(n: nat): (p: nat)
    ensures p >= 1
  {
    if n == 0 then 1 else 2 * Pow2(n - 1)
  }

  lemma {:induction false} Pow2Add(m: nat, n: nat)
    ensures Pow2(m + n) == Pow2(m) * Pow2(n)
  {
    if m == 0 {
    } else {
      Pow2Add(m - 1, n);
    }
  }

  lemma Pow2Bytes()
    ensures Pow2(8) == 0x100 && Pow2(16) == 0x1_0000 && Pow2(24) == 0x100_0000 && Pow2(32) == 0x1_0000_0000
  {
    assert Pow2(8) == 0x100;
    Pow2Add(8, 8);
    Pow2Add(16, 8);
    Pow2Add(16, 16);
  }

  // ----- addresses and prefixes -----------------------------------------------

  type Ipv4 = Origin.Ipv4

  /** What `netip.ParsePrefix` yields. */
  datatype Prefix = Prefix4(addr: Ipv4, bits4: Bits4) | Prefix6(addr6: Origin.Ipv6, bits6: Bits6)
  type Bits4 = b: int | 0 <= b <= 32
  type Bits6 = b: int | 0 <= b <= 128
  type PrefixParser = string -> Option<Prefix>

  /** `Addr.String` of an IPv6 address, which always shows a colon. */
  type Show6 = f: (Origin.Ipv6, string) -> string | forall v, z :: ':' in f(v, z) witness (v, z) => ":"

  function Size(bits: Bits4): nat { Pow2(32 - bits) }

  /** Prefix.Masked. */
  function Network(addr: Ipv4, bits: Bits4): (n: Ipv4)
    ensures n <= addr
  {
    DivMod(addr, Size(bits));
    addr - addr % Size(bits)
  }

  /** The last address of the prefix (section 3.1 of RFC 4632). */
  function Broadcast(addr: Ipv4, bits: Bits4): int {
    Network(addr, bits) + Size(bits) - 1
  }

  lemma DivMod(n: nat, m: nat)
    requires m > 0
    ensures n == n / m * m + n % m && 0 <= n % m < m && n % m <= n && n / m >= 0
  {
    assert n / m >= 0;
    assert n / m * m >= 0;
  }

  function Octet(n: Ipv4, q: nat): (o: nat)
    requires q < 4
    ensures o < 256
  {
    match q
    case 0 => n % 256
    case 1 => n / 0x100 % 256
    case 2 => n / 0x1_0000 % 256
    case _ => n / 0x100_0000
  }

  /** `Addr.String` of an IPv4 address. */
  function Dotted(n: Ipv4): string {
    Decimal(Octet(n, 3)) + ['.']
      + (Decimal(Octet(n, 2)) + ['.'] + (Decimal(Octet(n, 1)) + ['.'] + Decimal(Octet(n, 0))))
  }

  lemma DecimalPlain(n: nat)
    ensures '.' !in Decimal(n) && ':' !in Decimal(n)
  {
    DecimalRoundTrip(n);
  }

  lemma DottedPlain(n: Ipv4)
    ensures ':' !in Dotted(n)
  {
    DecimalPlain(Octet(n, 0));
    DecimalPlain(Octet(n, 1));
    DecimalPlain(Octet(n, 2));
    DecimalPlain(Octet(n, 3));
  }

  lemma CutDecimal(m: nat, n: nat, x: string, y: string)
    requires Decimal(m) + ['.'] + x == Decimal(n) + ['.'] + y
    ensures m == n && x == y
  {
    DecimalPlain(m);
    DecimalPlain(n);
    CutAt(Decimal(m), '.', x);
    CutAt(Decimal(n), '.', y);
    DecimalInjective(m, n);
  }

  function ValueOf(b: seq<nat>): nat
    requires |b| == 4
  {
    b[0] * 0x100_0000 + b[1] * 0x1_0000 + b[2] * 0x100 + b[3]
  }

  function Octets(n: Ipv4): seq<nat> { [Octet(n, 3), Octet(n, 2), Octet(n, 1), Octet(n, 0)] }

  lemma OctetsSum(n: Ipv4)
    ensures ValueOf(Octets(n)) == n
  {
    var a, b, c := n / 0x100, n / 0x1_0000, n / 0x100_0000;
    assert n == a * 0x100 + n % 0x100;
    assert b == a / 0x100 && a == b * 0x100 + a % 0x100;
    assert c == b / 0x100 && b == c * 0x100 + b % 0x100;
  }

  /** Distinct addresses print differently. */
  lemma DottedInjective(m: Ipv4, n: Ipv4)
    requires Dotted(m) == Dotted(n)
    ensures m == n
  {
    var x1 := Decimal(Octet(m, 1)) + ['.'] + Decimal(Octet(m, 0));
    var y1 := Decimal(Octet(n, 1)) + ['.'] + Decimal(Octet(n, 0));
    CutDecimal(Octet(m, 3), Octet(n, 3), Decimal(Octet(m, 2)) + ['.'] + x1, Decimal(Octet(n, 2)) + ['.'] + y1);
    CutDecimal(Octet(m, 2), Octet(n, 2), x1, y1);
    CutDecimal(Octet(m, 1), Octet(n, 1), Decimal(Octet(m, 0)), Decimal(Octet(n, 0)));
    DecimalInjective(Octet(m, 0), Octet(n, 0));
    OctetsSum(m);
    OctetsSum(n);
  }

  // ----- reading addresses ----------------------------------------------------

  /** A decimal number below 256 without leading zeros. */
  predicate DecimalByte(s: string) { AllDigits(s) && NoLeadingZero(s) && DigitsValue(s) < 256 }

  /** The text is the address in dotted decimal: four numbers between dots, the most significant first
      (section 3.2.2 of RFC 3986). */
  predicate ReadsAs(text: string, n: int) {
    var p := Split(text, '.');
    && |p| == 4 && DecimalByte(p[0]) && DecimalByte(p[1]) && DecimalByte(p[2]) && DecimalByte(p[3])
    && n == DigitsValue(p[0]) * 0x100_0000 + DigitsValue(p[1]) * 0x1_0000 + DigitsValue(p[2]) * 0x100
            + DigitsValue(p[3])
  }

  lemma SplitDotted(a: string, b: string, c: string, d: string)
    requires '.' !in a && '.' !in b && '.' !in c && '.' !in d
    ensures Split(a + ['.'] + (b + ['.'] + (c + ['.'] + d)), '.') == [a, b, c, d]
  {
    SplitConcat(a, '.', b + ['.'] + (c + ['.'] + d));
    SplitConcat(b, '.', c + ['.'] + d);
    SplitConcat(c, '.', d);
    SplitWhole(a, '.');
    SplitWhole(b, '.');
    SplitWhole(c, '.');
    SplitWhole(d, '.');
  }

  lemma UnsplitDotted(a: string, b: string, c: string, d: string)
    ensures Unsplit([a, b, c, d], '.') == a + ['.'] + (b + ['.'] + (c + ['.'] + d))
  {
    var all := [a, b, c, d];
    assert all[1..] == [b, c, d] && [b, c, d][1..] == [c, d] && [c, d][1..] == [d];
    assert Unsplit([c, d], '.') == c + ['.'] + d;
    assert Unsplit([b, c, d], '.') == b + ['.'] + (c + ['.'] + d);
  }

  lemma OctetIsByte(n: Ipv4, q: nat)
    requires q < 4
    ensures DecimalByte(Decimal(Octet(n, q))) && DigitsValue(Decimal(Octet(n, q))) == Octet(n, q)
    ensures '.' !in Decimal(Octet(n, q))
  {
    DecimalRoundTrip(Octet(n, q));
    DecimalHasNoLeadingZero(Octet(n, q));
    DecimalPlain(Octet(n, q));
  }

  lemma DottedReads(n: Ipv4)
    ensures ReadsAs(Dotted(n), n)
  {
    OctetIsByte(n, 0);
    OctetIsByte(n, 1);
    OctetIsByte(n, 2);
    OctetIsByte(n, 3);
    SplitDotted(Decimal(Octet(n, 3)), Decimal(Octet(n, 2)), Decimal(Octet(n, 1)), Decimal(Octet(n, 0)));
    OctetsSum(n);
  }

  lemma OctetsOf(n: Ipv4, a: nat, b: nat, c: nat, d: nat)
    requires a < 256 && b < 256 && c < 256 && d < 256 && n == a * 0x100_0000 + b * 0x1_0000 + c * 0x100 + d
    ensures Octet(n, 3) == a && Octet(n, 2) == b && Octet(n, 1) == c && Octet(n, 0) == d
  {
    assert n / 0x100 == a * 0x1_0000 + b * 0x100 + c;
    assert n / 0x1_0000 == a * 0x100 + b;
  }

  /** The text of an address is the one text that reads as the address. */
  lemma DottedIff(text: string, n: Ipv4)
    ensures text == Dotted(n) <==> ReadsAs(text, n)
  {
    DottedReads(n);
    if ReadsAs(text, n) {
      var p := Split(text, '.');
      OctetsOf(n, DigitsValue(p[0]), DigitsValue(p[1]), DigitsValue(p[2]), DigitsValue(p[3]));
      DecimalOfDigits(p[0]);
      DecimalOfDigits(p[1]);
      DecimalOfDigits(p[2]);
      DecimalOfDigits(p[3]);
      SplitInverse(text, '.');
      UnsplitDotted(p[0], p[1], p[2], p[3]);
      assert p == [p[0], p[1], p[2], p[3]];
    }
  }

  // ----- the broadcast loop ---------------------------------------------------

  /** `b |= 1 << j` on one byte. */
  function SetBit(b: nat, j: nat): nat {
    if b / Pow2(j) % 2 == 0 then b + Pow2(j) else b
  }

  /** The low `i` bits of a byte whose low `j >= i` bits are clear. */
  lemma SetNextBit(octet: nat, i: nat)
    requires i < 8 && octet % Pow2(i + 1) == 0
    ensures SetBit(octet + Pow2(i) - 1, i) == octet + Pow2(i + 1) - 1
  {
    var p := Pow2(i);
    var k := octet / Pow2(i + 1);
    assert octet == k * (2 * p);
    assert octet + p - 1 == (2 * k) * p + (p - 1);
    DivUnique(octet + p - 1, p, 2 * k, p - 1);
  }

  lemma DivUnique(n: nat, m: nat, k: nat, r: nat)
    requires m > 0 && n == k * m + r && r < m
    ensures n / m == k && n % m == r
  {
    DivMod(n, m);
    var d := n / m - k;
    assert d * m == r - n % m;
    AtLeastOnce(d, m);
  }

  lemma AtLeastOnce(d: int, m: nat)
    ensures d >= 1 ==> d * m >= m
    ensures d <= -1 ==> d * m <= 0 - m
  {
    if d >= 1 {
      assert (d - 1) * m >= 0;
    } else if d <= -1 {
      assert (-d - 1) * m >= 0;
    }
  }

  /** A multiple of a power of two is a multiple of every smaller one. */
  lemma {:induction false} SmallerPower(n: nat, i: nat, j: nat)
    requires i <= j && n % Pow2(j) == 0
    ensures n % Pow2(i) == 0
  {
    Pow2Add(i, j - i);
    DivMod(n, Pow2(j));
    var k := n / Pow2(j) * Pow2(j - i);
    assert n == k * Pow2(i);
    DivUnique(n, Pow2(i), k, 0);
  }

  lemma OctetIsShift(n: Ipv4, q: nat)
    requires q < 4
    ensures Octet(n, q) == n / Pow2(8 * q) % 256
  {
    Pow2Bytes();
    assert Pow2(0) == 1;
    assert q == 0 || q == 1 || q == 2 || q == 3;
  }

  lemma ShiftMultiple(n: nat, w: nat, p: nat)
    requires w > 0 && p > 0 && w * p > 0 && n % (w * p) == 0
    ensures n / w % p == 0
  {
    DivMod(n, w * p);
    var k := n / (w * p);
    assert n == k * (w * p) == (k * p) * w;
    DivUnique(n, w, k * p, 0);
    DivUnique(k * p, p, k, 0);
  }

  lemma ByteMultiple(x: nat, p: nat, rest: nat)
    requires p > 0 && p * rest == 256 && x % p == 0
    ensures x % 256 % p == 0
  {
    DivMod(x, p);
    DivMod(x, 256);
    var m := x / p - x / 256 * rest;
    assert x % 256 == m * p;
    AtLeastOnce(m, p);
    DivUnique(x % 256, p, m, 0);
  }

  /** The clear low bits of an address, seen in one of its bytes. */
  lemma OctetMultiple(n: Ipv4, host: nat, q: nat, j: nat)
    requires n % Pow2(host) == 0 && q < 4 && j < 8 && 8 * q + j + 1 <= host
    ensures Octet(n, q) % Pow2(j + 1) == 0
  {
    var w, p, rest := Pow2(8 * q), Pow2(j + 1), Pow2(7 - j);
    SmallerPower(n, 8 * q + (j + 1), host);
    Pow2Add(8 * q, j + 1);
    ShiftMultiple(n, w, p);
    DivMod(n, w);
    Pow2Add(j + 1, 7 - j);
    assert p * rest == 256 by { Pow2Bytes(); }
    ByteMultiple(n / w, p, rest);
    OctetIsShift(n, q);
  }

  /** How many of the low `i` bits of the address lie in byte `q`, counted from the right. */
  function BitsIn(q: nat, i: nat): nat {
    if i <= 8 * q then 0 else if i >= 8 * q + 8 then 8 else i - 8 * q
  }

  /** Byte `q` once the low `i` bits of the address are set. */
  function Filled(n: Ipv4, q: nat, i: nat): nat
    requires q < 4
  {
    Octet(n, q) + Pow2(BitsIn(q, i)) - 1
  }

  lemma Pow2Shift(r: nat)
    ensures Pow2(8 + r) == 0x100 * Pow2(r) && Pow2(16 + r) == 0x1_0000 * Pow2(r) && Pow2(24 + r) == 0x100_0000 * Pow2(r)
  {
    Pow2Bytes();
    Pow2Add(8, r);
    Pow2Add(16, r);
    Pow2Add(24, r);
  }

  lemma PartSum(i: nat)
    requires i <= 32
    ensures (Pow2(BitsIn(3, i)) - 1) * 0x100_0000 + (Pow2(BitsIn(2, i)) - 1) * 0x1_0000
      + (Pow2(BitsIn(1, i)) - 1) * 0x100
          + (Pow2(BitsIn(0, i)) - 1) == Pow2(i) - 1
  {
    assert Pow2(0) == 1 && Pow2(8) == 0x100 by { Pow2Bytes(); }
    var q := if i <= 8 then 0 else if i <= 16 then 1 else if i <= 24 then 2 else 3;
    Pow2Shift(i - 8 * q);
  }

  lemma FilledSum(n: Ipv4, i: nat)
    requires i <= 32
    ensures ValueOf([Filled(n, 3, i), Filled(n, 2, i), Filled(n, 1, i), Filled(n, 0, i)]) == n + Pow2(i) - 1
  {
    OctetsSum(n);
    PartSum(i);
  }

  /** Byte `q` after the loop has set one more bit. */
  function NextFilled(n: Ipv4, q: nat, i: nat): nat
    requires q < 4
  {
    if q == i / 8 then SetBit(Filled(n, q, i), i % 8) else Filled(n, q, i)
  }

  lemma FillStep(n: Ipv4, host: nat, i: nat, q: nat)
    requires n % Pow2(host) == 0 && i < host <= 32 && q < 4
    ensures Filled(n, q, i + 1) == NextFilled(n, q, i)
  {
    if q == i / 8 {
      OctetMultiple(n, host, q, i % 8);
      SetNextBit(Octet(n, q), i % 8);
    }
  }

  ghost predicate AllFilled(b: seq<nat>, n: Ipv4, i: nat) {
    |b| == 4 && b[0] == Filled(n, 3, i) && b[1] == Filled(n, 2, i) && b[2] == Filled(n, 1, i) && b[3] == Filled(n, 0, i)
  }

  lemma FillSteps(b: seq<nat>, n: Ipv4, host: nat, i: nat, idx: nat, v: nat)
    requires AllFilled(b, n, i) && n % Pow2(host) == 0 && i < host <= 32
    requires idx == 3 - i / 8 && v == SetBit(b[idx], i % 8)
    ensures AllFilled(b[idx := v], n, i + 1)
  {
    FillStep(n, host, i, 0);
    FillStep(n, host, i, 1);
    FillStep(n, host, i, 2);
    FillStep(n, host, i, 3);
  }

  lemma NetworkAligned(addr: Ipv4, bits: Bits4)
    ensures Network(addr, bits) % Size(bits) == 0
  {
    var s := Size(bits);
    DivMod(addr, s);
    DivUnique(Network(addr, bits), s, addr / s, 0);
  }

  lemma BroadcastFits(addr: Ipv4, bits: Bits4)
    ensures Broadcast(addr, bits) < 0x1_0000_0000
  {
    var s, p := Size(bits), Pow2(bits);
    assert s * p == 0x1_0000_0000 by { Pow2Add(32 - bits, bits); Pow2Bytes(); }
    DivMod(addr, s);
    var d := addr / s - p + 1;
    AtLeastOnce(d, s);
    Distribute(addr / s, p, s);
  }

  /** The prefix is the 2^(32 - bits) addresses that begin at an aligned one and hold `addr`. */
  lemma PrefixRange(addr: Ipv4, bits: Bits4)
    ensures Network(addr, bits) <= addr <= Broadcast(addr, bits) < 0x1_0000_0000
    ensures Network(addr, bits) % Size(bits) == 0 && Broadcast(addr, bits) + 1 - Network(addr, bits) == Size(bits)
    ensures Size(bits) * Pow2(bits) == 0x1_0000_0000
  {
    NetworkAligned(addr, bits);
    BroadcastFits(addr, bits);
    DivMod(addr, Size(bits));
    Pow2Add(32 - bits, bits);
    Pow2Bytes();
  }

  lemma Distribute(a: nat, b: nat, m: nat)
    ensures (a - b + 1) * m == a * m - m * b + m
  {
  }

  lemma BytesOfBroadcast(b: seq<nat>, addr: Ipv4, bits: Bits4)
    requires AllFilled(b, Network(addr, bits), 32 - bits)
    ensures b[0] * 0x100_0000 + b[1] * 0x1_0000 + b[2] * 0x100 + b[3] == Broadcast(addr, bits) < 0x1_0000_0000
  {
    NetworkAligned(addr, bits);
    FilledSum(Network(addr, bits), 32 - bits);
    BroadcastFits(addr, bits);
  }

  /** `lastAddr`. */
  method LastAddr(addr: Ipv4, bits: Bits4) returns (last: Ipv4)
    ensures last == Broadcast(addr, bits)
  {
    var n := Network(addr, bits);
    NetworkAligned(addr, bits);
    var bytes := new nat[4](i requires 0 <= i < 4 => Octet(n, 3 - i));
    var hostBits := 32 - bits;
    for i := 0 to hostBits
      invariant AllFilled(bytes[..], n, i)
    {
      var idx := 3 - i / 8;
      var byte := SetBit(bytes[idx], i % 8);
      FillSteps(bytes[..], n, hostBits, i, idx, byte);
      ghost var next := bytes[..][idx := byte];
      bytes[idx] := byte;
      assert bytes[..] == next;
    }
    BytesOfBroadcast(bytes[..], addr, bits);
    last := ValueOf([bytes[0], bytes[1], bytes[2], bytes[3]]);
  }

  // ----- allocation -----------------------------------------------------------

  const LAST_IPV4: Ipv4 := 0xffff_ffff
  const INVALID := "invalid IP"

  function AddrString(show6: Show6, a: Origin.Addr): string {
    match a
    case V4(v) => Dotted(v)
    case V6(v, z) => show6(v, z)
  }

  /** `Addr.Next`: no address follows the last one, nor the invalid one. */
  function Next(a: Option<Ipv4>): Option<Ipv4> {
    if a.Some? && a.value != LAST_IPV4 then Some(a.value + 1) else None
  }

  /** `Addr.Less` orders the invalid address before every IPv4 address. */
  predicate Less(a: Option<Ipv4>, b: Ipv4) { a.None? || a.value < b }

  /** How many addresses are left to try. */
  function Distance(a: Option<Ipv4>, b: Ipv4): nat {
    if a.Some? && a.value < b then b - a.value else 0
  }

  lemma NextIsCloser(a: Option<Ipv4>, b: Ipv4)
    requires a.Some? && Less(a, b)
    ensures Next(a) == Some(a.value + 1) && Distance(Next(a), b) < Distance(a, b)
  {
  }

  function CandidateString(a: Option<Ipv4>): string {
    if a.Some? then Dotted(a.value) else INVALID
  }

  predicate BadReservation(parse: Origin.Parser, r: string) { r != "" && parse(r).None? }

  predicate Names(parse: Origin.Parser, r: string, n: Ipv4) { r != "" && parse(r) == Some(Origin.V4(n)) }

  /** Some entry of the reserved list names the address. */
  predicate Reserves(parse: Origin.Parser, reserved: seq<string>, n: Ipv4) {
    exists i :: 0 <= i < |reserved| && Names(parse, reserved[i], n)
  }

  /** Strictly between two addresses, not taken, not reserved. */
  ghost predicate FreeBetween(parse: Origin.Parser, low: int, high: int, taken: set<string>, reserved: seq<string>,
                              n: Ipv4) {
    low < n < high && Dotted(n) !in taken && !Reserves(parse, reserved, n)
  }

  /** Free between network and broadcast (section 3.2.1.3 of RFC 1122). */
  ghost predicate Free(parse: Origin.Parser, addr: Ipv4, bits: Bits4, taken: set<string>, reserved: seq<string>,
                       n: Ipv4) {
    FreeBetween(parse, Network(addr, bits), Broadcast(addr, bits), taken, reserved, n)
  }

  ghost predicate LeastFree(parse: Origin.Parser, addr: Ipv4, bits: Bits4, taken: set<string>, reserved: seq<string>,
                            n: Ipv4) {
    && Free(parse, addr, bits, taken, reserved, n)
    && forall m: Ipv4 :: m < n ==> !Free(parse, addr, bits, taken, reserved, m)
  }

  ghost predicate NoneFree(parse: Origin.Parser, addr: Ipv4, bits: Bits4, taken: set<string>, reserved: seq<string>) {
    forall n: Ipv4 :: !Free(parse, addr, bits, taken, reserved, n)
  }

  /** The one prefix whose network address has no successor. */
  predicate Overflows(p: Prefix) { p == Prefix4(LAST_IPV4, 32) }

  lemma NetworkIsLast(addr: Ipv4, bits: Bits4)
    ensures Network(addr, bits) == LAST_IPV4 <==> Overflows(Prefix4(addr, bits))
  {
    NetworkAligned(addr, bits);
    if bits < 32 {
      SmallerPower(Network(addr, bits), 1, 32 - bits);
      assert Pow2(1) == 2;
    } else {
      assert Size(bits) == 1;
    }
  }

  method ReservedSet(parse: Origin.Parser, show6: Show6, reserved: seq<string>) returns (r: Option<set<string>>)
    ensures r.None? <==> exists i :: 0 <= i < |reserved| && BadReservation(parse, reserved[i])
    ensures r.Some? ==> INVALID !in r.value && forall n: Ipv4 :: Dotted(n) in r.value <==> Reserves(parse, reserved, n)
  {
    var found: set<string> := {};
    for i := 0 to |reserved|
      invariant forall j :: 0 <= j < i ==> !BadReservation(parse, reserved[j])
      invariant INVALID !in found
      invariant forall n: Ipv4 :: Dotted(n) in found <==> Reserves(parse, reserved[..i], n)
    {
      OneMoreReserved(parse, reserved, i);
      if reserved[i] == "" { continue; }
      var a := parse(reserved[i]);
      if a.None? { return None; }
      var text := AddrString(show6, a.value);
      AddrTexts(show6, a.value);
      found := found + {text};
    }
    assert reserved[..|reserved|] == reserved;
    return Some(found);
  }

  lemma OneMoreReserved(parse: Origin.Parser, reserved: seq<string>, i: nat)
    requires i < |reserved|
    ensures forall n: Ipv4 ::
      Reserves(parse, reserved[..i + 1], n) <==> Reserves(parse, reserved[..i], n) || Names(parse, reserved[i], n)
  {
    var less, more := reserved[..i], reserved[..i + 1];
    forall n: Ipv4
      ensures Reserves(parse, more, n) <==> Reserves(parse, less, n) || Names(parse, reserved[i], n)
    {
      if Reserves(parse, less, n) {
        var j :| 0 <= j < |less| && Names(parse, less[j], n);
        assert more[j] == less[j];
      }
      if Reserves(parse, more, n) {
        var j :| 0 <= j < |more| && Names(parse, more[j], n);
        assert j < i ==> less[j] == more[j];
      }
      assert more[i] == reserved[i];
    }
  }

  /** An address text is never that of the invalid address, and only equal addresses share one. */
  lemma AddrTexts(show6: Show6, a: Origin.Addr)
    ensures AddrString(show6, a) != INVALID
    ensures forall n: Ipv4 :: AddrString(show6, a) == Dotted(n) <==> a == Origin.V4(n)
  {
    forall n: Ipv4 ensures AddrString(show6, a) == Dotted(n) <==> a == Origin.V4(n) {
      DottedPlain(n);
      if a.V4? && Dotted(a.value) == Dotted(n) { DottedInjective(a.value, n); }
    }
    if a.V4? { DottedStart(a.value); }
  }

  lemma DottedStart(n: Ipv4)
    ensures Dotted(n) != "" && Dotted(n)[0] != 'i'
  {
    DecimalRoundTrip(Octet(n, 3));
    var d := Decimal(Octet(n, 3));
    assert IsDigit(d[0]) && Dotted(n)[0] == d[0];
  }

  /** `Allocate`: the least free address of the prefix, or an error if and only if there is none. For
      255.255.255.255/32 alone the search starts at the invalid address and returns its text; were
      that text taken, the search there would not end, so it must not be. */
  method Allocate(parsePrefix: PrefixParser, parse: Origin.Parser, show6: Show6, cidr: string, taken: set<string>,
                  reserved: seq<string>)
    returns (r: Result<string, AllocError>)
    requires parsePrefix(cidr).Some? && Overflows(parsePrefix(cidr).value) ==> INVALID !in taken
    ensures match parsePrefix(cidr)
      case None => r == Failure(BadPrefix)
      case Some(Prefix6(_, _)) => r == Failure(OnlyIpv4)
      case Some(Prefix4(addr, bits)) =>
        if exists i :: 0 <= i < |reserved| && BadReservation(parse, reserved[i]) then r == Failure(BadReserved)
        else if Overflows(Prefix4(addr, bits)) then r == Success(INVALID)
        else match r
          case Failure(e) => e == SubnetExhausted && NoneFree(parse, addr, bits, taken, reserved)
          case Success(text) => exists n: Ipv4 :: LeastFree(parse, addr, bits, taken, reserved, n) && ReadsAs(text, n)
  {
    var prefix := parsePrefix(cidr);
    if prefix.None? { return Failure(BadPrefix); }
    if prefix.value.Prefix6? { return Failure(OnlyIpv4); }
    var Prefix4(addr, bits) := prefix.value;
    var reservedSet := ReservedSet(parse, show6, reserved);
    if reservedSet.None? { return Failure(BadReserved); }
    NetworkIsLast(addr, bits);
    var broadcast := LastAddr(addr, bits);
    r := Search(parse, Network(addr, bits), broadcast, taken, reserved, reservedSet.value);
    forall n: Ipv4 ensures ReadsAs(Dotted(n), n) { DottedReads(n); }
  }

  /** The scan upwards from the address after `network`. */
  method Search(parse: Origin.Parser, network: Ipv4, broadcast: Ipv4, taken: set<string>, ghost reserved: seq<string>,
                reservedSet: set<string>)
    returns (r: Result<string, AllocError>)
    requires network == LAST_IPV4 ==> INVALID !in taken
    requires INVALID !in reservedSet && forall n: Ipv4 :: Dotted(n) in reservedSet <==> Reserves(parse, reserved, n)
    ensures
      if network == LAST_IPV4 then r == Success(INVALID)
      else match r
        case Failure(e) =>
          e == SubnetExhausted && forall n: Ipv4 :: !FreeBetween(parse, network, broadcast, taken, reserved, n)
        case Success(text) =>
          exists n: Ipv4 ::
            && text == Dotted(n) && FreeBetween(parse, network, broadcast, taken, reserved, n)
            && forall m: Ipv4 :: m < n ==> !FreeBetween(parse, network, broadcast, taken, reserved, m)
  {
    var candidate: Option<Ipv4> := Next(Some(network));
    while Less(candidate, broadcast)
      invariant candidate.None? <==> network == LAST_IPV4
      invariant candidate.Some? ==> candidate.value > network
      invariant candidate.Some? ==>
        forall m: Ipv4 :: m < candidate.value ==> !FreeBetween(parse, network, broadcast, taken, reserved, m)
      decreases Distance(candidate, broadcast)
    {
      var key := CandidateString(candidate);
      if key in taken {
        NextIsCloser(candidate, broadcast);
        candidate := Next(candidate);
        continue;
      }
      if key in reservedSet {
        NextIsCloser(candidate, broadcast);
        candidate := Next(candidate);
        continue;
      }
      assert candidate.Some? ==> FreeBetween(parse, network, broadcast, taken, reserved, candidate.value);
      return Success(key);
    }
    return Failure(SubnetExhausted);
  }

  // ----- membership -----------------------------------------------------------

  /** `Prefix.Contains`: same family, no zone, same leading bits. */
  predicate Contains(p: Prefix, a: Origin.Addr) {
    match (p, a)
    case (Prefix4(addr, bits), V4(n)) => n / Size(bits) == addr / Size(bits)
    case (Prefix6(addr, bits), V6(n, zone)) => zone == "" && n / Pow2(128 - bits) == addr / Pow2(128 - bits)
    case _ => false
  }

  /** `IsInPrefix`: None when either text does not parse. */
  function IsInPrefix(parsePrefix: PrefixParser, parse: Origin.Parser, cidr: string, ip: string): Option<bool> {
    if parsePrefix(cidr).None? || parse(ip).None? then None
    else Some(Contains(parsePrefix(cidr).value, parse(ip).value))
  }

  /** The leading bits agree exactly from the network address to the broadcast address. */
  lemma ContainsIsRange(addr: Ipv4, bits: Bits4, n: Ipv4)
    ensures Contains(Prefix4(addr, bits), Origin.V4(n)) <==> Network(addr, bits) <= n <= Broadcast(addr, bits)
  {
    var s := Size(bits);
    DivMod(addr, s);
    DivMod(n, s);
    var d := n / s - addr / s;
    AtLeastOnce(d, s);
    DistributeMinus(n / s, addr / s, s);
  }

  lemma DistributeMinus(a: nat, b: nat, m: nat)
    ensures (a - b) * m == a * m - b * m
  {
  }
}
