/** Peer-to-peer packets: daemon/wg/relay.go. */
module RelayModel {
  import opened Wrappers
  import opened Schema
  import opened Keys
  import opened PolicyIndex
  import opened Resolver
  import opened Refinement
  import opened Allocator
  import Origin

  type Packet = seq<byte>

  datatype Relay = Relay(daemonIp: Origin.Addr, clients: Prefix)

  function AddrAt(packet: Packet, at: nat): Ipv4
    requires at + 4 <= |packet|
  {
    ValueOf([packet[at], packet[at + 1], packet[at + 2], packet[at + 3]])
  }

  /** The source and destination fields (section 3.1 of RFC 791). */
  function ParseIpv4(packet: Packet): Option<(Ipv4, Ipv4)> {
    if |packet| < 20 then None else Some((AddrAt(packet, 12), AddrAt(packet, 16)))
  }

  predicate IsIpv4(packet: Packet) { |packet| >= 20 && packet[0] / 16 == 4 }

  /** A field of four bytes in network order. */
  function Field(packet: Packet, at: nat): (n: Ipv4)
    requires at + 4 <= |packet|
  {
    var a: int, b: int, c: int, d: int := packet[at], packet[at + 1], packet[at + 2], packet[at + 3];
    a * 0x100_0000 + b * 0x1_0000 + c * 0x100 + d
  }

  /** The address lies between the network and the broadcast address of the clients. */
  predicate InClientRange(relay: Relay, n: Ipv4) {
    relay.clients.Prefix4? &&
    Network(relay.clients.addr, relay.clients.bits4) <= n <= Broadcast(relay.clients.addr, relay.clients.bits4)
  }

  /** The two ends, as the index knows them, may talk. */
  ghost predicate EndsMayTalk(idx: Index, src: Ipv4, dst: Ipv4) {
    exists a, b :: ReadsAs(a, src) && ReadsAs(b, dst) && DecidePeer(idx, a, b).decision == Allow
  }

  /** The relay takes the packet: it goes to a client address other than the daemon's own. */
  predicate Takes(relay: Relay, packet: Packet) {
    IsIpv4(packet) && relay.daemonIp != Origin.V4(AddrAt(packet, 16))
      && Contains(relay.clients, Origin.V4(AddrAt(packet, 16)))
  }

  /** The packet is passed on. */
  ghost predicate Injects(relay: Relay, idx: Index, packet: Packet) {
    Takes(relay, packet) &&
    var src, dst := AddrAt(packet, 12), AddrAt(packet, 16);
    src != dst && DecidePeer(idx, Dotted(src), Dotted(dst)).decision == Allow
  }

  /** `Handle`: whether the packet was taken from the daemon's own stack, and whether it was injected. */
  method Handle(relay: Relay, idx: Index, packet: Packet) returns (taken: bool, injected: bool)
    ensures taken == Takes(relay, packet) && injected == Injects(relay, idx, packet)
    ensures taken <==>
      && |packet| >= 20 && packet[0] / 16 == 4
      && relay.daemonIp != Origin.V4(Field(packet, 16)) && InClientRange(relay, Field(packet, 16))
    ensures injected <==>
      taken && Field(packet, 12) != Field(packet, 16) && EndsMayTalk(idx, Field(packet, 12), Field(packet, 16))
    ensures |packet| >= 20 && relay.daemonIp == Origin.V4(Field(packet, 16)) ==> !taken && !injected
  {
    if |packet| >= 20 {
      TakenRange(relay, packet);
      TakenEnds(idx, AddrAt(packet, 12), AddrAt(packet, 16));
    }
    if |packet| < 20 { return false, false; }
    if packet[0] / 16 != 4 { return false, false; }
    var ends := ParseIpv4(packet);
    if ends.None? { return false, false; }
    var (src, dst) := ends.value;
    if Origin.V4(dst) == relay.daemonIp { return false, false; }
    if !Contains(relay.clients, Origin.V4(dst)) { return false, false; }
    if src == dst { return true, false; }
    if Dotted(dst) !in idx.peerByIp { return true, false; }
    var v := CheckPeer(idx, Dotted(src), Dotted(dst));
    if v.decision != Allow { return true, false; }
    return true, true;
  }

  lemma TakenRange(relay: Relay, packet: Packet)
    requires |packet| >= 20
    ensures AddrAt(packet, 12) == Field(packet, 12) && AddrAt(packet, 16) == Field(packet, 16)
    ensures Contains(relay.clients, Origin.V4(AddrAt(packet, 16))) <==> InClientRange(relay, Field(packet, 16))
  {
    if relay.clients.Prefix4? {
      ContainsIsRange(relay.clients.addr, relay.clients.bits4, AddrAt(packet, 16));
    }
  }

  lemma TakenEnds(idx: Index, src: Ipv4, dst: Ipv4)
    ensures EndsMayTalk(idx, src, dst) <==> DecidePeer(idx, Dotted(src), Dotted(dst)).decision == Allow
  {
    DottedIff(Dotted(src), src);
    DottedIff(Dotted(dst), dst);
    forall a, b | ReadsAs(a, src) && ReadsAs(b, dst) ensures a == Dotted(src) && b == Dotted(dst) {
      DottedIff(a, src);
      DottedIff(b, dst);
    }
  }

  // ----- the way back ---------------------------------------------------------

  /** The same packet with its addresses swapped. */
  function Swapped(packet: Packet): Packet
    requires |packet| >= 20
  {
    packet[..12] + packet[16..20] + packet[12..16] + packet[20..]
  }

  /** No rule speaks about the pair, in this direction. */
  ghost predicate NoExplicitRule(idx: Index, a: string, b: string) {
    a in idx.peerByIp && b in idx.peerByIp ==>
      Explicit(idx.rules, UserRefs(idx, idx.peerByIp[a].id), UserRefs(idx, idx.peerByIp[b].id)).None?
  }

  lemma SwappedAddresses(packet: Packet)
    requires IsIpv4(packet)
    ensures IsIpv4(Swapped(packet))
    ensures AddrAt(Swapped(packet), 12) == AddrAt(packet, 16) && AddrAt(Swapped(packet), 16) == AddrAt(packet, 12)
  {
    var s := Swapped(packet);
    assert s[0] == packet[0];
    assert s[12] == packet[16] && s[13] == packet[17] && s[14] == packet[18] && s[15] == packet[19];
    assert s[16] == packet[12] && s[17] == packet[13] && s[18] == packet[14] && s[19] == packet[15];
  }

  /** Without an explicit rule in either direction, LAN traffic between two client addresses passes
      one way exactly when it passes the other, on every index ever published. */
  lemma RelaySymmetric(relay: Relay, idx: Index, packet: Packet)
    requires Coherent(idx) && IsIpv4(packet)
    requires var src, dst := AddrAt(packet, 12), AddrAt(packet, 16);
      && Contains(relay.clients, Origin.V4(src)) && Contains(relay.clients, Origin.V4(dst))
      && relay.daemonIp != Origin.V4(src) && relay.daemonIp != Origin.V4(dst)
      && NoExplicitRule(idx, Dotted(src), Dotted(dst)) && NoExplicitRule(idx, Dotted(dst), Dotted(src))
    ensures Injects(relay, idx, packet) <==> Injects(relay, idx, Swapped(packet))
  {
    SwappedAddresses(packet);
    var a, b := Dotted(AddrAt(packet, 12)), Dotted(AddrAt(packet, 16));
    if a in idx.peerByIp && b in idx.peerByIp {
      SharesLanSymmetric(idx, idx.peerByIp[a].id, idx.peerByIp[b].id);
    }
  }

  /** On an up-to-date index the relay passes exactly the packets to clients that the tables allow. */
  lemma RelayFollowsTables(relay: Relay, idx: Index, t: Tables, packet: Packet)
    requires Consistent(t) && Reflects(idx, t) && |packet| >= 20
    ensures var src, dst := Field(packet, 12), Field(packet, 16);
      Injects(relay, idx, packet) <==>
        && packet[0] / 16 == 4 && relay.daemonIp != Origin.V4(dst) && InClientRange(relay, dst) && src != dst
        && TableAllowsPeer(t, Dotted(src), Dotted(dst))
  {
    TakenRange(relay, packet);
    IndexRefinesPeers(idx, t, Dotted(AddrAt(packet, 12)), Dotted(AddrAt(packet, 16)));
  }
}
