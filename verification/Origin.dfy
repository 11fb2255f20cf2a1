/** Service origins: shared/origin/origin.go. `netip.ParseAddr` is foreign code, so every member
    that needs it takes it as the parameter `parse`. */
module Origin {
  import opened Wrappers
  import opened Text

  // ----- addresses ------------------------------------------------------------

  type Ipv4 = n: int | 0 <= n < 0x1_0000_0000
  type Ipv6 = n: int | 0 <= n < 0x1_0000_0000_0000_0000_0000_0000_0000_0000

  datatype Addr = V4(value: Ipv4) | V6(value6: Ipv6, zone: string)

  type Parser = string -> Option<Addr>

  /** An IPv4-mapped IPv6 address becomes its IPv4 address. */
  function Unmap(a: Addr): Addr {
    if a.V6? && a.value6 / 0x1_0000_0000 == 0xffff then V4(a.value6 % 0x1_0000_0000) else a
  }

  predicate IsLoopback(a: Addr) {
    match Unmap(a)
    case V4(v) => v / 0x100_0000 == 127
    case V6(v, _) => v == 1
  }

  predicate IsLinkLocal(a: Addr) {
    match Unmap(a)
    case V4(v) => v / 0x1_0000 == 0xA9FE || v / 0x100 == 0xE0_0000
    case V6(v, _) =>
      var top := v / 0x1_0000_0000_0000_0000_0000_0000_0000;
      top / 64 == 0x3FA || (top / 256 == 0xFF && top % 16 == 2)
  }

  predicate IsUnspecified(a: Addr) {
    a == V4(0) || a == V6(0, "")
  }

  predicate IsMulticast(a: Addr) {
    match Unmap(a)
    case V4(v) => v / 0x1000_0000 == 0xE
    case V6(v, _) => v / 0x1_0000_0000_0000_0000_0000_0000_0000_00 == 0xFF
  }

  predicate SafeBackendAddr(a: Addr) {
    !IsLoopback(a) && !IsLinkLocal(a) && !IsUnspecified(a) && !IsMulticast(a)
  }

  predicate SafeBackendIp(parse: Parser, ip: string) {
    parse(ip).Some? && SafeBackendAddr(parse(ip).value)
  }

  /** The addresses no backend may have, as ranges: 127.0.0.0/8, 169.254.0.0/16, 224.0.0.0/4 and 0.0.0.0
      (sections 3.2.1.3 of RFC 1122, 2.1 of RFC 3927 and 4 of RFC 5771), and ::1, ::, fe80::/10 and
      ff00::/8 (section 2.4 of RFC 4291). An IPv4-mapped IPv6 address is refused like the IPv4 address
      it stands for, but for ::ffff:0.0.0.0, and :: only without a zone. */
  predicate InRange4(v: int) {
    0x7F00_0000 <= v <= 0x7FFF_FFFF || 0xA9FE_0000 <= v <= 0xA9FE_FFFF || 0xE000_0000 <= v <= 0xEFFF_FFFF
  }

  predicate Forbidden(a: Addr) {
    match a
    case V4(v) => InRange4(v) || v == 0
    case V6(v, zone) =>
      || v == 1 || (v == 0 && zone == "")
      || 0xFE80_0000_0000_0000_0000_0000_0000_0000 <= v <= 0xFEBF_FFFF_FFFF_FFFF_FFFF_FFFF_FFFF_FFFF
      || 0xFF00_0000_0000_0000_0000_0000_0000_0000 <= v
      || (0xFFFF_0000_0000 <= v <= 0xFFFF_FFFF_FFFF && InRange4(v - 0xFFFF_0000_0000))
  }

  lemma UnmapRange(v: Ipv6, zone: string)
    ensures Unmap(V6(v, zone))
         == if 0xFFFF_0000_0000 <= v <= 0xFFFF_FFFF_FFFF then V4(v - 0xFFFF_0000_0000) else V6(v, zone)
  {
  }

  /** An address is safe exactly when it lies in none of these ranges. */
  lemma SafeIffNotForbidden(a: Addr)
    ensures SafeBackendAddr(a) <==> !Forbidden(a)
  {
    if a.V6? { UnmapRange(a.value6, a.zone); }
  }

  predicate SafeText(parse: Parser, text: string) { parse(text).Some? && !Forbidden(parse(text).value) }

  lemma SafeTextIff(parse: Parser, text: string)
    ensures SafeBackendIp(parse, text) <==> SafeText(parse, text)
  {
    if parse(text).Some? { SafeIffNotForbidden(parse(text).value); }
  }

  // ----- specs ----------------------------------------------------------------

  datatype Spec = Spec(kind: string, value: string, network: string)

  predicate ValidKind(kind: string) {
    kind == "host" || kind == "container" || kind == "ip" || kind == "hostname"
  }

  /** `origin.Validate`: None is any of its errors. */
  function Validate(parse: Parser, s: Spec): Option<Spec> {
    var n := Spec(Lower(TrimSpace(s.kind)), TrimSpace(s.value), TrimSpace(s.network));
    if !ValidKind(n.kind) then None
    else if n.network != "" && n.kind != "container" then None
    else if n.kind == "host" then (if n.value != "" then None else Some(n))
    else if n.value == "" then None
    else if n.kind == "ip" && !SafeBackendIp(parse, n.value) then None
    else Some(n)
  }

  /** What `Validate` accepts without changing: what the store keeps. */
  predicate Validated(parse: Parser, s: Spec) { Validate(parse, s) == Some(s) }

  /** What a spec must look like, kind by kind. */
  predicate Acceptable(parse: Parser, n: Spec) {
    || (n.kind == "host" && n.value == "" && n.network == "")
    || (n.kind == "container" && n.value != "")
    || (n.kind == "hostname" && n.value != "" && n.network == "")
    || (n.kind == "ip" && n.value != "" && n.network == "" && SafeText(parse, n.value))
  }

  /** Blanks around the parts and capitals in the kind do not matter; beyond that a spec is accepted
      exactly when its kind allows it. */
  lemma ValidateIff(parse: Parser, s: Spec)
    ensures var n := Spec(Lower(TrimSpace(s.kind)), TrimSpace(s.value), TrimSpace(s.network));
      Validate(parse, s) == if Acceptable(parse, n) then Some(n) else None
  {
    SafeTextIff(parse, TrimSpace(s.value));
  }

  lemma ValidateIdempotent(parse: Parser, s: Spec)
    requires Validate(parse, s).Some?
    ensures Validated(parse, Validate(parse, s).value)
  {
    var kind := TrimSpace(s.kind);
    LowerIdempotent(kind);
    assert Trimmed(Lower(kind));
  }

  /** A container origin whose parts carry no outer blanks is accepted as it stands. */
  lemma ContainerAccepted(parse: Parser, s: Spec)
    requires s.kind == "container" && s.value != "" && Trimmed(s.value) && Trimmed(s.network)
    ensures Validated(parse, s)
  {
    ContainerIsNormal();
  }

  lemma ContainerIsNormal()
    ensures Lower(TrimSpace("container")) == "container"
  {
    var kind := "container";
    assert Trimmed(kind);
    LowerFixed(kind);
  }

  // ----- cache keys -----------------------------------------------------------

  const NUL: char := '\U{0000}'

  function CacheKey(s: Spec): string {
    s.kind + [NUL] + s.value + [NUL] + s.network
  }

  /** The key behind the kind. */
  function KeyTail(s: Spec): string { s.value + [NUL] + s.network }

  /** The text can be cut at the NUL byte at `i` into a value and a network that are accepted as they stand. */
  predicate CutsAt(w: string, i: int) {
    0 < i < |w| && w[i] == NUL && Trimmed(w[..i]) && Trimmed(w[i + 1..])
  }

  /** A container origin whose key can be cut at another place than its own. */
  predicate Ambiguous(s: Spec) {
    s.kind == "container" && exists i :: 0 < i < |KeyTail(s)| && CutsAt(KeyTail(s), i) && i != |s.value|
  }

  lemma ValidatedShape(parse: Parser, s: Spec)
    requires Validated(parse, s)
    ensures ValidKind(s.kind) && Trimmed(s.value) && Trimmed(s.network)
    ensures if s.kind == "container" then s.value != "" else s.network == ""
  {
  }

  lemma SameKeySameKind(a: Spec, b: Spec)
    requires ValidKind(a.kind) && ValidKind(b.kind) && CacheKey(a) == CacheKey(b)
    ensures a.kind == b.kind && KeyTail(a) == KeyTail(b)
  {
    CutKind(a);
    CutKind(b);
  }

  lemma CutKind(s: Spec)
    requires ValidKind(s.kind)
    ensures Cut(CacheKey(s), NUL) == Some((s.kind, KeyTail(s)))
  {
    assert NUL !in s.kind;
    CutAt(s.kind, NUL, KeyTail(s));
    assert s.kind + [NUL] + KeyTail(s) == CacheKey(s);
  }

  lemma TailCutsAtValue(s: Spec)
    ensures KeyTail(s)[..|s.value|] == s.value && KeyTail(s)[|s.value|] == NUL
      && KeyTail(s)[|s.value| + 1..] == s.network
  {
  }

  /** Accepted specs that share a key are equal unless the key can be cut in another place. */
  lemma SameKeySameSpec(parse: Parser, a: Spec, b: Spec)
    requires Validated(parse, a) && Validated(parse, b) && CacheKey(a) == CacheKey(b) && !Ambiguous(a)
    ensures a == b
  {
    ValidatedShape(parse, a);
    ValidatedShape(parse, b);
    SameKeySameKind(a, b);
    EqualTails(a, b);
  }

  lemma EqualTails(a: Spec, b: Spec)
    requires a.kind == b.kind && KeyTail(a) == KeyTail(b) && !Ambiguous(a)
    requires if b.kind == "container" then b.value != "" else a.network == "" && b.network == ""
    requires Trimmed(b.value) && Trimmed(b.network)
    ensures a == b
  {
    TailCutsAtValue(a);
    TailCutsAtValue(b);
    if a.kind == "container" {
      assert CutsAt(KeyTail(a), |b.value|);
    }
  }

  lemma SameTailSameKey(a: Spec, b: Spec)
    requires a.kind == b.kind && KeyTail(a) == KeyTail(b)
    ensures CacheKey(a) == CacheKey(b)
  {
    forall s | s == a || s == b ensures CacheKey(s) == s.kind + [NUL] + KeyTail(s) {
      assert s.kind + [NUL] + s.value + [NUL] + s.network == s.kind + [NUL] + (s.value + [NUL] + s.network);
    }
  }

  lemma OtherCut(a: Spec, i: int) returns (b: Spec)
    requires a.kind == "container" && CutsAt(KeyTail(a), i) && i != |a.value|
    ensures b.kind == a.kind && b.value != "" && Trimmed(b.value) && Trimmed(b.network)
    ensures b != a && CacheKey(b) == CacheKey(a)
  {
    var w := KeyTail(a);
    b := a.(value := w[..i], network := w[i + 1..]);
    assert |b.value| == i && KeyTail(b) == w;
    SameTailSameKey(a, b);
  }

  /** Exactly which accepted specs share their key with another accepted spec. */
  lemma CacheKeySharedIff(parse: Parser, a: Spec)
    requires Validated(parse, a)
    ensures (exists b :: Validated(parse, b) && b != a && CacheKey(b) == CacheKey(a)) <==> Ambiguous(a)
  {
    if b :| Validated(parse, b) && b != a && CacheKey(b) == CacheKey(a) {
      if !Ambiguous(a) { SameKeySameSpec(parse, a, b); }
    }
    if Ambiguous(a) {
      var i :| CutsAt(KeyTail(a), i) && i != |a.value|;
      var b := OtherCut(a, i);
      ContainerAccepted(parse, b);
    }
  }

  predicate NulFree(s: Spec) { NUL !in s.kind && NUL !in s.value && NUL !in s.network }

  /** Specs whose three parts hold no NUL byte never share a cache entry. */
  lemma CacheKeyInjective(a: Spec, b: Spec)
    requires NulFree(a) && NulFree(b) && CacheKey(a) == CacheKey(b)
    ensures a == b
  {
    forall s | s == a || s == b
      ensures Cut(CacheKey(s), NUL) == Some((s.kind, s.value + [NUL] + s.network))
      ensures Cut(s.value + [NUL] + s.network, NUL) == Some((s.value, s.network))
    {
      CutAt(s.kind, NUL, s.value + [NUL] + s.network);
      assert s.kind + [NUL] + (s.value + [NUL] + s.network) == CacheKey(s);
      CutAt(s.value, NUL, s.network);
    }
  }

  /** Without that condition they can: two accepted container specs with one cache key. */
  lemma CacheKeyCollision(parse: Parser)
    ensures exists a, b :: Validated(parse, a) && Validated(parse, b) && a != b && CacheKey(a) == CacheKey(b)
  {
    var a := Spec("container", ['x', NUL, 'y'], "z");
    var b := Spec("container", "x", ['y', NUL, 'z']);
    assert CacheKey(a) == CacheKey(b);
    assert a.value[0] == 'x' && b.value[0] == 'x';
    ContainerAccepted(parse, a);
    ContainerAccepted(parse, b);
  }
}
