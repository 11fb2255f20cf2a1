/** `ApplyPeers` of daemon/wg/server.go: the text it sends turns the device's peers into the users of
    the index, for any order in which Go may walk its maps. */
module WgServerModel {
  import opened Wrappers
  import opened Text
  import opened Keys
  import opened PolicyIndex
  import opened WgDevice
  import Allocator
  import Origin

  function Cidr(u: UserSnapshot): string { u.ip + "/32" }

  /** The text a peer is allowed: its address, a slash and 32, which as a prefix holds that address alone. */
  lemma CidrIsOneAddress(u: UserSnapshot, n: Origin.Ipv4, m: Origin.Ipv4)
    requires Allocator.ReadsAs(u.ip, n) && '/' !in u.ip
    ensures match Cut(Cidr(u), '/')
      case Some(p) => p.0 == u.ip && ParseInt(p.1) == Some(32)
      case None => false
    ensures Allocator.Contains(Allocator.Prefix4(n, 32), Origin.V4(m)) <==> m == n
  {
    var bits := Decimal(32);
    assert bits == "32";
    CutAt(u.ip, '/', bits);
    assert Cidr(u) == u.ip + ['/'] + bits;
    ParseDecimal(32);
    assert Allocator.Size(32) == 1;
  }

  function Psk(u: UserSnapshot): Option<Key> {
    if u.presharedKey.GoodKey? then Some(u.presharedKey.key) else None
  }

  /** The peer a user asks for: its preshared key and its one address. */
  function Conf(u: UserSnapshot): PeerConf { PeerConf(Psk(u).GetOr(ZeroKey()), {Cidr(u)}) }

  /** The user has a public key that decodes; the others never reach the device. */
  predicate IsPeer(users: map<int, UserSnapshot>, a: int) { a in users && users[a].publicKey.GoodKey? }

  /** No two peers share a key or an address, and addresses are one-line text. */
  ghost predicate WellFormed(users: map<int, UserSnapshot>) {
    && (forall a :: IsPeer(users, a) ==> OneLine(users[a].ip))
    && (forall a, b :: IsPeer(users, a) && IsPeer(users, b) && a != b ==>
          users[a].publicKey != users[b].publicKey && users[a].ip != users[b].ip)
  }

  /** The device carries exactly the peers, each with its preshared key and its /32. */
  ghost predicate Carries(device: map<Key, PeerConf>, users: map<int, UserSnapshot>) {
    && (forall a :: IsPeer(users, a) ==>
          users[a].publicKey.key in device && device[users[a].publicKey.key] == Conf(users[a]))
    && (forall k :: k in device ==> exists a :: a in users && users[a].publicKey == GoodKey(k))
  }

  /** The server's record names the peers on the device, none of which has two addresses. */
  ghost predicate InStep(peers: set<Key>, device: map<Key, PeerConf>) {
    && device.Keys == peers
    && forall k, c, d :: k in device && c in device[k].allowed && d in device[k].allowed ==> c == d
  }

  /** Every peer that stays is already configured as its user asks. */
  ghost predicate KeptAgree(device: map<Key, PeerConf>, users: map<int, UserSnapshot>) {
    forall a :: IsPeer(users, a) && users[a].publicKey.key in device ==>
      device[users[a].publicKey.key] == Conf(users[a])
  }

  /** The preshared key of every user the device does not know yet decodes, or is not set. */
  ghost predicate NewPsksDecode(known: set<Key>, users: map<int, UserSnapshot>) {
    forall a :: IsPeer(users, a) && users[a].publicKey.key !in known ==> !users[a].presharedKey.BadKey?
  }

  /** `want`: the users by decoded key. */
  ghost predicate Wants(users: map<int, UserSnapshot>, want: map<Key, UserSnapshot>) {
    && (forall k :: k in want ==> want[k].publicKey == GoodKey(k) && exists a :: a in users && users[a] == want[k])
    && (forall a :: IsPeer(users, a) ==> users[a].publicKey.key in want)
  }

  ghost predicate CleanWant(want: map<Key, UserSnapshot>) {
    && (forall k :: k in want ==> OneLine(want[k].ip))
    && (forall j, k :: j in want && k in want && j != k ==> Cidr(want[j]) != Cidr(want[k]))
  }

  lemma WantIsClean(users: map<int, UserSnapshot>, want: map<Key, UserSnapshot>)
    requires WellFormed(users) && Wants(users, want)
    ensures CleanWant(want)
    ensures forall a :: IsPeer(users, a) ==> want[users[a].publicKey.key] == users[a]
  {
    forall a | IsPeer(users, a) ensures want[users[a].publicKey.key] == users[a] {
      var k := users[a].publicKey.key;
      var b :| b in users && users[b] == want[k];
      assert IsPeer(users, b) && users[b].publicKey == users[a].publicKey;
    }
    forall j, k | j in want && k in want && j != k ensures Cidr(want[j]) != Cidr(want[k]) {
      var a :| a in users && users[a] == want[j];
      var b :| b in users && users[b] == want[k];
      assert IsPeer(users, a) && IsPeer(users, b);
      CidrInjective(want[j], want[k]);
    }
  }

  lemma CidrInjective(u: UserSnapshot, v: UserSnapshot)
    ensures Cidr(u) == Cidr(v) ==> u.ip == v.ip
  {
    assert Cidr(u)[..|u.ip|] == u.ip && Cidr(v)[..|v.ip|] == v.ip;
  }

  /** What the lines for a new peer leave: one whose preshared key does not decode is dropped after
      its first line, and so ends on the device without key or address. */
  function NewConf(u: UserSnapshot): PeerConf {
    if u.presharedKey.BadKey? then PeerConf(ZeroKey(), {}) else Conf(u)
  }

  /** After the additions `added`: the new peers as emitted, the old ones less the addresses given away. */
  ghost predicate Extended(before: map<Key, PeerConf>, want: map<Key, UserSnapshot>, added: set<Key>,
                           now: map<Key, PeerConf>) {
    && added <= want.Keys && now.Keys == before.Keys + added
    && (forall k :: k in added ==> now[k] == NewConf(want[k]))
    && (forall k :: k in before ==> now[k].psk == before[k].psk && now[k].allowed <= before[k].allowed)
    && (forall k, c :: k in before && c in before[k].allowed ==>
          (c in now[k].allowed <==> forall j :: j in added && !want[j].presharedKey.BadKey? ==> Cidr(want[j]) != c))
  }

  function WithPeer(now: map<Key, PeerConf>, k: Key, u: UserSnapshot): map<Key, PeerConf> {
    Allow(now[k := PeerConf(Psk(u).GetOr(ZeroKey()), {})], k, Cidr(u))
  }

  lemma WithPeerEffect(now: map<Key, PeerConf>, k: Key, u: UserSnapshot)
    requires !u.presharedKey.BadKey? && k !in now
    ensures WithPeer(now, k, u).Keys == now.Keys + {k} && WithPeer(now, k, u)[k] == NewConf(u)
    ensures forall j :: j in now ==> WithPeer(now, k, u)[j] == Without(now[j], Cidr(u))
  {
  }

  function Without(p: PeerConf, cidr: string): PeerConf { p.(allowed := p.allowed - {cidr}) }

  /** One more peer: its address leaves every other peer, and no other new peer has it. */
  lemma ExtendOne(before: map<Key, PeerConf>, want: map<Key, UserSnapshot>, added: set<Key>, now: map<Key, PeerConf>,
                  k: Key, now': map<Key, PeerConf>)
    requires Extended(before, want, added, now) && CleanWant(want) && k in want && k !in now
      && !want[k].presharedKey.BadKey?
    requires now'.Keys == now.Keys + {k} && now'[k] == NewConf(want[k])
    requires forall j :: j in now ==> now'[j] == Without(now[j], Cidr(want[k]))
    ensures Extended(before, want, added + {k}, now')
  {
    forall j | j in added ensures now'[j] == NewConf(want[j]) {
      assert Cidr(want[j]) != Cidr(want[k]);
    }
    forall o, c | o in before && c in before[o].allowed
      ensures c in now'[o].allowed <==>
        forall j :: j in added + {k} && !want[j].presharedKey.BadKey? ==> Cidr(want[j]) != c
    {
      assert now'[o] == Without(now[o], Cidr(want[k]));
    }
  }

  lemma ExtendBare(before: map<Key, PeerConf>, want: map<Key, UserSnapshot>, added: set<Key>, now: map<Key, PeerConf>,
                   k: Key)
    requires Extended(before, want, added, now) && k in want && k !in now && want[k].presharedKey.BadKey?
    ensures Extended(before, want, added + {k}, now[k := PeerConf(ZeroKey(), {})])
  {
    assert now[k := PeerConf(ZeroKey(), {})].Keys == now.Keys + {k};
  }

  /** What goes out for one new peer. */
  function PeerLines(k: Key, u: UserSnapshot): seq<string> {
    if u.presharedKey.BadKey? then [Setting(PUBLIC_KEY, HexEncode(k))] else AdditionLines(k, Psk(u), Cidr(u))
  }

  method EmitPeer(k: Key, u: UserSnapshot) returns (text: string, complete: bool)
    ensures text == Unlines(PeerLines(k, u)) && complete == !u.presharedKey.BadKey?
  {
    ghost var lines := [Setting(PUBLIC_KEY, HexEncode(k))];
    text := Setting(PUBLIC_KEY, HexEncode(k)) + "\n";
    UnlinesSnoc([], lines[0]);
    assert [] + lines == lines;
    if u.presharedKey.BadKey? { return text, false; }
    if u.presharedKey.GoodKey? {
      UnlinesSnoc(lines, Setting(PRESHARED_KEY, HexEncode(u.presharedKey.key)));
      text := text + Setting(PRESHARED_KEY, HexEncode(u.presharedKey.key)) + "\n";
      lines := lines + [Setting(PRESHARED_KEY, HexEncode(u.presharedKey.key))];
    }
    UnlinesSnoc(lines, Setting(ALLOWED_IP, Cidr(u)));
    text := text + Setting(ALLOWED_IP, Cidr(u)) + "\n";
    complete := true;
  }

  /** The lines add the peers `added` to a device that carries `base`. */
  ghost predicate Adds(base: map<Key, PeerConf>, want: map<Key, UserSnapshot>, added: set<Key>, lines: seq<string>) {
    forall s: Session :: s.phase == Reading && s.peers == base ==>
      Lines(s, lines).phase == Reading && Extended(base, want, added, Lines(s, lines).peers)
  }

  lemma PeerSection(base: map<Key, PeerConf>, want: map<Key, UserSnapshot>, added: set<Key>, s: Session, k: Key)
    requires s.phase == Reading && Extended(base, want, added, s.peers)
    requires CleanWant(want) && k in want && k !in s.peers
    ensures var s' := Lines(s, PeerLines(k, want[k]));
      s'.phase == Reading && Extended(base, want, added + {k}, s'.peers)
  {
    if want[k].presharedKey.BadKey? {
      KeyOfHexOfKey(k);
      LineIsSetting(s, PUBLIC_KEY, HexEncode(k));
      OneLineSession(s, Setting(PUBLIC_KEY, HexEncode(k)));
      ExtendBare(base, want, added, s.peers, k);
    } else {
      AdditionSection(s, k, Psk(want[k]), Cidr(want[k]));
      WithPeerEffect(s.peers, k, want[k]);
      ExtendOne(base, want, added, s.peers, k, WithPeer(s.peers, k, want[k]));
    }
  }

  lemma AddsOne(base: map<Key, PeerConf>, want: map<Key, UserSnapshot>, added: set<Key>, lines: seq<string>, k: Key)
    requires Adds(base, want, added, lines) && CleanWant(want) && k in want && k !in base && k !in added
      && AllOneLine(lines)
    ensures Adds(base, want, added + {k}, lines + PeerLines(k, want[k])) && AllOneLine(lines + PeerLines(k, want[k]))
  {
    SectionsArePlain(k, Psk(want[k]), Cidr(want[k]));
    forall s: Session | s.phase == Reading && s.peers == base
      ensures var s' := Lines(s, lines + PeerLines(k, want[k]));
        s'.phase == Reading && Extended(base, want, added + {k}, s'.peers)
    {
      var mid := Lines(s, lines);
      LinesConcat(s, lines, PeerLines(k, want[k]));
      PeerSection(base, want, added, mid, k);
    }
  }

  lemma RecordedAfter(known: set<Key>, want: map<Key, UserSnapshot>)
    ensures known * want.Keys + Complete(want, {}) == Recorded(known, want)
  {
  }

  /** The session has dropped the unwanted peers of `before` and added the missing ones. */
  ghost predicate Moved(before: map<Key, PeerConf>, want: map<Key, UserSnapshot>, s: Session) {
    var base := before - (before.Keys - want.Keys);
    s.phase == Reading && Extended(base, want, want.Keys - base.Keys, s.peers)
  }

  function Complete(want: map<Key, UserSnapshot>, todo: set<Key>): set<Key> {
    set k | k in want && k !in todo && !want[k].presharedKey.BadKey?
  }

  /** The peers the server records afterwards: a new one only if its section was complete. */
  function Recorded(known: set<Key>, want: map<Key, UserSnapshot>): set<Key> {
    set k | k in want && (k in known || !want[k].presharedKey.BadKey?)
  }

  class WgServer {
    var peers: set<Key>
    var device: map<Key, PeerConf>

    constructor ()
      ensures peers == {} && device == map[]
    {
      peers, device := {}, map[];
    }

    method WantedPeers(users: map<int, UserSnapshot>) returns (want: map<Key, UserSnapshot>)
      ensures Wants(users, want)
    {
      want := map[];
      var todo := users.Keys;
      while todo != {}
        invariant todo <= users.Keys
        invariant forall k ::
          k in want ==> want[k].publicKey == GoodKey(k) && exists a :: a in users && users[a] == want[k]
        invariant forall a :: a in users && a !in todo && users[a].publicKey.GoodKey? ==> users[a].publicKey.key in want
      {
        var a := Pick(todo);
        var u := users[a];
        todo := todo - {a};
        if u.publicKey.GoodKey? {
          want := want[u.publicKey.key := u];
        }
      }
    }

    /** The removal half of the text: every recorded peer that is not wanted. */
    method EmitRemovals(want: map<Key, UserSnapshot>) returns (text: string, ghost lines: seq<string>)
      modifies this`peers
      ensures peers == old(peers) * want.Keys
      ensures text == Unlines(lines) && AllOneLine(lines)
      ensures Lines(Session(device, None, Reading), lines).peers == device - (old(peers) - want.Keys)
      ensures Lines(Session(device, None, Reading), lines).phase == Reading
    {
      text, lines := "", [];
      var todo := peers;
      ghost var start := Session(device, None, Reading);
      while todo != {}
        invariant todo <= peers == old(peers) - (old(peers) - todo - want.Keys)
        invariant text == Unlines(lines) && AllOneLine(lines)
        invariant Lines(start, lines).peers == device - (old(peers) - todo - want.Keys)
        invariant Lines(start, lines).phase == Reading
      {
        var k := Pick(todo);
        todo := todo - {k};
        if k !in want {
          RemovalSection(Lines(start, lines), k);
          LinesConcat(start, lines, RemovalLines(k));
          SectionsArePlain(k, None, "");
          UnlinesAppend(lines, RemovalLines(k));
          text := text + Unlines(RemovalLines(k));
          lines := lines + RemovalLines(k);
          peers := peers - {k};
        }
      }
    }

    /** The addition half: every wanted peer not recorded yet. */
    method EmitAdditions(want: map<Key, UserSnapshot>, ghost base: map<Key, PeerConf>)
      returns (text: string, ghost lines: seq<string>)
      requires peers <= want.Keys
      modifies this`peers
      ensures peers == old(peers) + Complete(want, {})
      ensures text == Unlines(lines)
      ensures CleanWant(want) && base.Keys == old(peers) ==>
        AllOneLine(lines) && Adds(base, want, want.Keys - base.Keys, lines)
    {
      text, lines := "", [];
      var todo := want.Keys;
      ghost var clean, added := CleanWant(want) && base.Keys == peers, {};
      while todo != {}
        invariant todo <= want.Keys && added <= want.Keys - todo
        invariant peers == old(peers) + Complete(want, todo)
        invariant text == Unlines(lines)
        invariant clean ==> added == want.Keys - todo - base.Keys
        invariant clean ==> AllOneLine(lines) && Adds(base, want, added, lines)
      {
        var k := Pick(todo);
        todo := todo - {k};
        if k in peers { continue; }
        var chunk, complete := EmitPeer(k, want[k]);
        UnlinesAppend(lines, PeerLines(k, want[k]));
        if clean { AddsOne(base, want, added, lines, k); }
        text := text + chunk;
        lines := lines + PeerLines(k, want[k]);
        added := added + {k};
        if complete { peers := peers + {k}; }
      }
      assert clean ==> added == want.Keys - base.Keys;
    }

    /** Removals, then additions: the text that moves the device to the wanted peers. */
    method EmitText(want: map<Key, UserSnapshot>) returns (text: string, ghost lines: seq<string>)
      modifies this`peers
      ensures text == Unlines(lines)
      ensures CleanWant(want) && device.Keys == old(peers) ==>
        peers == Recorded(device.Keys, want) && AllOneLine(lines)
          && Moved(device, want, Lines(Session(device, None, Reading), lines))
    {
      ghost var clean := CleanWant(want) && device.Keys == peers;
      ghost var base := device - (peers - want.Keys);
      var removals, removalLines := EmitRemovals(want);
      var additions, additionLines := EmitAdditions(want, base);
      UnlinesAppend(removalLines, additionLines);
      LinesConcat(Session(device, None, Reading), removalLines, additionLines);
      if clean {
        RecordedAfter(device.Keys, want);
        ghost var reached := Lines(Session(device, None, Reading), removalLines);
        assert reached.phase == Reading && reached.peers == base;
      }
      return removals + additions, removalLines + additionLines;
    }

    /** `ApplyPeers`, which reports whether the device refused the text. When neither keys nor
        addresses repeat among the users whose public key decodes, the record stays in step with the
        device if and only if every new preshared key decodes, and the device ends with exactly the
        users of the index if and only if moreover no peer that stays was configured differently:
        such a peer is skipped. */
    method ApplyPeers(users: map<int, UserSnapshot>) returns (failed: bool)
      modifies this
      ensures WellFormed(users) && InStep(old(peers), old(device)) ==>
        && !failed
        && (InStep(peers, device) <==> NewPsksDecode(old(peers), users))
        && (Carries(device, users) <==> NewPsksDecode(old(peers), users) && KeptAgree(old(device), users))
    {
      var want := WantedPeers(users);
      ghost var clean := WellFormed(users) && InStep(peers, device);
      if clean { WantIsClean(users, want); }
      var text, lines := EmitText(want);
      if clean {
        ConfigureUnlines(device, lines);
        NewPsksOfWant(users, want, device.Keys);
        SettledKeys(want, device, Configure(device, text).peers);
        SettledPeers(users, want, device, Configure(device, text).peers);
      }
      failed := Send(text);
    }

    /** Nothing is sent when there is nothing to say. */
    method Send(text: string) returns (failed: bool)
      modifies this`device
      ensures device == Configure(old(device), text).peers && failed == (Configure(old(device), text).phase == Failed)
    {
      if text == "" {
        OneLineSession(Session(device, None, Reading), "");
        return false;
      }
      var session := Configure(device, text);
      device := session.peers;
      failed := session.phase == Failed;
    }
  }

  /** Exactly the wanted peers are on the device, each with at most one address. */
  lemma SettledKeys(want: map<Key, UserSnapshot>, before: map<Key, PeerConf>, now: map<Key, PeerConf>)
    requires InStep(before.Keys, before)
    requires var base := before - (before.Keys - want.Keys); Extended(base, want, want.Keys - base.Keys, now)
    ensures InStep(want.Keys, now)
  {
    assert now.Keys == want.Keys;
  }

  lemma NewPsksOfWant(users: map<int, UserSnapshot>, want: map<Key, UserSnapshot>, known: set<Key>)
    requires WellFormed(users) && Wants(users, want)
    ensures NewPsksDecode(known, users) <==> Recorded(known, want) == want.Keys
  {
    WantIsClean(users, want);
    if NewPsksDecode(known, users) {
      forall k | k in want ensures k in Recorded(known, want) {
        var a :| a in users && users[a] == want[k];
        assert IsPeer(users, a);
      }
    } else {
      var a :| IsPeer(users, a) && users[a].publicKey.key !in known && users[a].presharedKey.BadKey?;
      assert users[a].publicKey.key !in Recorded(known, want);
    }
  }

  /** What the additions leave, seen from the users. */
  lemma SettledPeers(users: map<int, UserSnapshot>, want: map<Key, UserSnapshot>, before: map<Key, PeerConf>,
                     now: map<Key, PeerConf>)
    requires WellFormed(users) && Wants(users, want) && InStep(before.Keys, before)
    requires var base := before - (before.Keys - want.Keys); Extended(base, want, want.Keys - base.Keys, now)
    ensures Carries(now, users) <==> NewPsksDecode(before.Keys, users) && KeptAgree(before, users)
  {
    WantIsClean(users, want);
    SettledKeys(want, before, now);
    forall a | IsPeer(users, a)
      ensures var k := users[a].publicKey.key;
        now[k] == Conf(users[a]) <==>
          if k in before then before[k] == Conf(users[a]) else !users[a].presharedKey.BadKey?
    {
      var k := users[a].publicKey.key;
      if k in before { KeptPeer(want, before, now, k); }
    }
    forall k | k in now ensures exists a :: a in users && users[a].publicKey == GoodKey(k) {
      assert k in want;
    }
  }

  lemma KeptPeer(want: map<Key, UserSnapshot>, before: map<Key, PeerConf>, now: map<Key, PeerConf>, k: Key)
    requires CleanWant(want) && InStep(before.Keys, before) && k in before && k in want
    requires var base := before - (before.Keys - want.Keys); Extended(base, want, want.Keys - base.Keys, now)
    ensures now[k] == Conf(want[k]) <==> before[k] == Conf(want[k])
  {
    var base := before - (before.Keys - want.Keys);
    var c := Cidr(want[k]);
    assert k in base && base[k] == before[k];
    if before[k] == Conf(want[k]) {
      assert c in base[k].allowed && now[k].allowed == {c};
    }
    if now[k] == Conf(want[k]) {
      assert c in now[k].allowed && c in base[k].allowed;
      assert before[k].allowed == {c};
    }
  }
}
