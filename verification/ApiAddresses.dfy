/** How the handlers settle an address: `createUser` of daemon/api/users.go and the same choice in
    `createService` of daemon/api/services.go. */
module ApiAddresses {
  import opened Wrappers
  import opened Schema
  import opened StoreSpec
  import opened Allocator
  import Origin

  datatype AddressError = NotInSubnet | NoAddress

  datatype Net = Net(parsePrefix: PrefixParser, parse: Origin.Parser, show6: Show6, subnet: string,
                     reserved: seq<string>)

  function TakenUserIps(t: Tables): set<string> { set id | id in t.users :: t.users[id].ip }

  function TakenServiceIps(t: Tables): set<string> { set id | id in t.services :: t.services[id].ip }

  /** The one search that would not end. */
  predicate SearchEnds(net: Net, taken: set<string>) {
    net.parsePrefix(net.subnet).Some? && Overflows(net.parsePrefix(net.subnet).value) ==> INVALID !in taken
  }

  /** The address is the least free one of the subnet. */
  ghost predicate LeastFreeIn(net: Net, taken: set<string>, n: Ipv4) {
    match net.parsePrefix(net.subnet)
    case Some(Prefix4(addr, bits)) => LeastFree(net.parse, addr, bits, taken, net.reserved, n)
    case _ => false
  }

  predicate Overflowing(net: Net) {
    net.parsePrefix(net.subnet).Some? && Overflows(net.parsePrefix(net.subnet).value)
  }

  ghost predicate ReservationsParse(net: Net) {
    forall i :: 0 <= i < |net.reserved| ==> !BadReservation(net.parse, net.reserved[i])
  }

  /** The address picked when none is asked for. */
  ghost predicate Picked(net: Net, taken: set<string>, ip: string) {
    && ReservationsParse(net)
    && if Overflowing(net) then ip == INVALID else exists n: Ipv4 :: LeastFreeIn(net, taken, n) && ReadsAs(ip, n)
  }

  /** What a handler settles on: the requested address, or the least free one. */
  ghost predicate Settled(net: Net, taken: set<string>, requested: string, ip: string) {
    if requested != "" then ip == requested && IsInPrefix(net.parsePrefix, net.parse, net.subnet, ip) == Some(true)
    else Picked(net, taken, ip)
  }

  lemma PickedAddress(net: Net, taken: set<string>, ip: string) returns (n: Ipv4)
    requires Picked(net, taken, ip) && !Overflowing(net)
    ensures LeastFreeIn(net, taken, n) && ip == Dotted(n)
  {
    n :| LeastFreeIn(net, taken, n) && ReadsAs(ip, n);
    DottedIff(ip, n);
  }

  /** There is at most one such address. */
  lemma SettledUnique(net: Net, taken: set<string>, requested: string, a: string, b: string)
    requires Settled(net, taken, requested, a) && Settled(net, taken, requested, b)
    ensures a == b
  {
    if requested == "" && !Overflowing(net) {
      var m := PickedAddress(net, taken, a);
      var n := PickedAddress(net, taken, b);
      assert !(m < n) && !(n < m);
    }
  }

  method Pick(net: Net, taken: set<string>) returns (r: Option<string>)
    requires SearchEnds(net, taken)
    ensures match r
      case Some(ip) => Picked(net, taken, ip)
      case None => forall ip :: !Picked(net, taken, ip)
  {
    var a := Allocate(net.parsePrefix, net.parse, net.show6, net.subnet, taken, net.reserved);
    return if a.Success? then Some(a.value) else None;
  }

  /** The settled address, or an error exactly when there is none. */
  method SettleAddress(net: Net, taken: set<string>, requested: string) returns (r: Result<string, AddressError>)
    requires SearchEnds(net, taken)
    ensures match r
      case Success(ip) => Settled(net, taken, requested, ip)
      case Failure(e) =>
        && e == (if requested == "" then NoAddress else NotInSubnet)
        && forall ip :: !Settled(net, taken, requested, ip)
  {
    if requested == "" {
      var a := Pick(net, taken);
      if a.None? { return Failure(NoAddress); }
      return Success(a.value);
    }
    if IsInPrefix(net.parsePrefix, net.parse, net.subnet, requested) != Some(true) {
      return Failure(NotInSubnet);
    }
    return Success(requested);
  }

  /** An automatic user address is never a user's and never reserved, so the store can refuse it only
      because a service holds it, and does so exactly then: the search does not look at services. */
  lemma AutomaticAddress(net: Net, t: Tables, u: UserInput)
    requires Settled(net, TakenUserIps(t), "", u.ip) && !Overflowing(net)
    requires u.name != "" && !u.publicKey.NoKey? && !u.privateKey.NoKey? && !u.presharedKey.NoKey?
    requires NameFree(t, PrincipalSpace, u.name, 0, 0) && IdsBounded(t.services.Keys, t.lastService)
    ensures CreateUserOutcome(t, u) == Failure(IpInUse) <==> u.ip in TakenServiceIps(t)
    ensures CreateUserOutcome(t, u).Success? <==> u.ip !in TakenServiceIps(t)
  {
    var n := PickedAddress(net, TakenUserIps(t), u.ip);
    DottedStart(n);
    forall a | a in t.users ensures t.users[a].ip != u.ip {
      assert t.users[a].ip in TakenUserIps(t);
    }
  }

  /** The parser reads dotted decimal. */
  ghost predicate ReadsDotted(parse: Origin.Parser) {
    forall text, n: Ipv4 :: ReadsAs(text, n) ==> parse(text) == Some(Origin.V4(n))
  }

  /** The address is usable: nobody has it and no reserved entry names it. */
  ghost predicate Usable(net: Net, taken: set<string>, ip: string) {
    && ip !in taken
    && forall i :: 0 <= i < |net.reserved| && net.reserved[i] != "" ==> net.parse(net.reserved[i]) != net.parse(ip)
  }

  /** Among the addresses of the parser, the free ones are the usable ones inside the subnet. */
  lemma FreeIsUsable(net: Net, addr: Ipv4, bits: Bits4, taken: set<string>, text: string, n: Ipv4)
    requires net.parse(text) == Some(Origin.V4(n)) && ReadsAs(text, n)
    ensures Free(net.parse, addr, bits, taken, net.reserved, n) <==>
      Network(addr, bits) < n < Broadcast(addr, bits) && Usable(net, taken, text)
  {
    DottedIff(text, n);
    forall i | 0 <= i < |net.reserved| && net.reserved[i] != ""
      ensures Names(net.parse, net.reserved[i], n) <==> net.parse(net.reserved[i]) == net.parse(text)
    {
    }
  }

  /** A picked address lies strictly inside the subnet and is usable, and none before it is. */
  lemma PickedMeans(net: Net, taken: set<string>, ip: string, n: Ipv4, m: Ipv4, other: string)
    requires Picked(net, taken, ip) && !Overflowing(net) && ReadsDotted(net.parse)
    requires ReadsAs(ip, n) && ReadsAs(other, m)
    ensures match net.parsePrefix(net.subnet)
      case Some(Prefix4(addr, bits)) =>
        && Network(addr, bits) < n < Broadcast(addr, bits) && Usable(net, taken, ip)
        && (Network(addr, bits) < m < n ==> !Usable(net, taken, other))
      case _ => false
  {
    var k := PickedAddress(net, taken, ip);
    DottedIff(ip, n);
    DottedInjective(k, n);
    var Prefix4(addr, bits) := net.parsePrefix(net.subnet).value;
    FreeIsUsable(net, addr, bits, taken, ip, n);
    FreeIsUsable(net, addr, bits, taken, other, m);
  }

  /** A requested address is taken exactly when it lies in the subnet. */
  lemma RequestedInSubnet(net: Net, taken: set<string>, requested: string, n: Ipv4, ip: string)
    requires requested != "" && net.parse(requested) == Some(Origin.V4(n))
    requires net.parsePrefix(net.subnet).Some? && net.parsePrefix(net.subnet).value.Prefix4?
    ensures var p := net.parsePrefix(net.subnet).value;
      Settled(net, taken, requested, ip) <==>
        ip == requested && Network(p.addr, p.bits4) <= n <= Broadcast(p.addr, p.bits4)
  {
    var p := net.parsePrefix(net.subnet).value;
    ContainsIsRange(p.addr, p.bits4, n);
  }

  /** An automatic address would also have been accepted on request. */
  lemma AutomaticAddressInSubnet(net: Net, taken: set<string>, ip: string)
    requires Picked(net, taken, ip) && !Overflowing(net) && ReadsDotted(net.parse)
    ensures IsInPrefix(net.parsePrefix, net.parse, net.subnet, ip) == Some(true) && Settled(net, taken, ip, ip)
  {
    var n: Ipv4 :| LeastFreeIn(net, taken, n) && ReadsAs(ip, n);
    var Prefix4(addr, bits) := net.parsePrefix(net.subnet).value;
    ContainsIsRange(addr, bits, n);
    DottedIff(ip, n);
    DottedStart(n);
  }

  /** And so with an automatic service address: creating the service fails for its address exactly when
      a user holds it. */
  lemma AutomaticServiceAddress(net: Net, t: Tables, s: ServiceInput, spec: Origin.Spec)
    requires Settled(net, TakenServiceIps(t), "", s.ip) && !Overflowing(net)
    requires NameFree(t, ObjectSpace, s.name, 0, 0)
    ensures NewServiceOutcome(t, s, spec) == Failure(IpInUse) <==> s.ip in TakenUserIps(t)
  {
    var n := PickedAddress(net, TakenServiceIps(t), s.ip);
    forall a | a in t.services ensures t.services[a].ip != s.ip {
      assert t.services[a].ip in TakenServiceIps(t);
    }
    NeverAddressError(s.ports);
  }

  lemma {:induction false} NeverAddressError(ports: seq<PortSpec>)
    ensures PortsError(ports) != Some(IpInUse)
  {
    if ports == [] {
    } else {
      NeverAddressError(ports[..|ports| - 1]);
    }
  }
}
