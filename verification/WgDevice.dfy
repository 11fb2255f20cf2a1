/** The receiving side of WireGuard's cross-platform userspace interface, section "Configuration
    Protocol": a set operation is a list of `key=value` lines, `public_key` selects or creates a
    peer, the lines after it configure that peer, and an empty line ends the operation. */
module WgDevice {
  import opened Wrappers
  import opened Text
  import opened Keys

  const PUBLIC_KEY := "public_key"
  const REMOVE := "remove"
  const PRESHARED_KEY := "preshared_key"
  const ALLOWED_IP := "allowed_ip"

  /** An all-zero preshared key means none. */
  datatype PeerConf = PeerConf(psk: Key, allowed: set<string>)

  datatype Phase = Reading | Ended | Failed
  datatype Session = Session(peers: map<Key, PeerConf>, current: Option<Key>, phase: Phase)

  function Setting(key: string, value: string): string { key + ['='] + value }

  function KeyOfHex(value: string): Option<Key> {
    match HexDecode(value)
    case Some(raw) => if |raw| == 32 then Some(raw) else None
    case None => None
  }

  /** One address belongs to one peer: giving it to a peer takes it from every other. */
  function Allow(peers: map<Key, PeerConf>, key: Key, cidr: string): map<Key, PeerConf> {
    map k | k in peers ::
      if k == key then peers[k].(allowed := peers[k].allowed + {cidr})
      else peers[k].(allowed := peers[k].allowed - {cidr})
  }

  function Apply(s: Session, key: string, value: string): Session {
    if key == PUBLIC_KEY then
      match KeyOfHex(value)
      case None => s.(phase := Failed)
      case Some(k) =>
        Session(if k in s.peers then s.peers else s.peers[k := PeerConf(ZeroKey(), {})], Some(k), Reading)
    else if s.current.None? || s.current.value !in s.peers then s.(phase := Failed)
    else if key == REMOVE then
      if value == "true" then Session(s.peers - {s.current.value}, None, Reading) else s.(phase := Failed)
    else if key == PRESHARED_KEY then
      match KeyOfHex(value)
      case None => s.(phase := Failed)
      case Some(psk) => s.(peers := s.peers[s.current.value := s.peers[s.current.value].(psk := psk)])
    else if key == ALLOWED_IP then s.(peers := Allow(s.peers, s.current.value, value))
    else s.(phase := Failed)
  }

  function Line(s: Session, line: string): Session {
    if s.phase != Reading then s
    else if line == "" then s.(phase := Ended)
    else match Cut(line, '=')
      case None => s.(phase := Failed)
      case Some(p) => Apply(s, p.0, p.1)
  }

  function Lines(s: Session, lines: seq<string>): Session
    decreases |lines|
  {
    if lines == [] then s else Lines(Line(s, lines[0]), lines[1..])
  }

  /** `IpcSet`. */
  function Configure(peers: map<Key, PeerConf>, text: string): Session {
    Lines(Session(peers, None, Reading), Split(text, '\n'))
  }

  lemma {:induction false} LinesConcat(s: Session, a: seq<string>, b: seq<string>)
    ensures Lines(s, a + b) == Lines(Lines(s, a), b)
    decreases |a|
  {
    if a == [] {
      assert a + b == b;
    } else {
      assert (a + b)[0] == a[0] && (a + b)[1..] == a[1..] + b;
      LinesConcat(Line(s, a[0]), a[1..], b);
    }
  }

  lemma LineIsSetting(s: Session, key: string, value: string)
    requires s.phase == Reading && '=' !in key
    ensures Line(s, Setting(key, value)) == Apply(s, key, value)
  {
    CutAt(key, '=', value);
  }

  lemma KeyOfHexOfKey(k: Key)
    ensures KeyOfHex(HexEncode(k)) == Some(k)
  {
    HexRoundTrip(k);
  }

  // ----- whole peer sections --------------------------------------------------

  function RemovalLines(k: Key): seq<string> {
    [Setting(PUBLIC_KEY, HexEncode(k)), Setting(REMOVE, "true")]
  }

  function AdditionLines(k: Key, psk: Option<Key>, cidr: string): seq<string> {
    [Setting(PUBLIC_KEY, HexEncode(k))]
    + (if psk.Some? then [Setting(PRESHARED_KEY, HexEncode(psk.value))] else [])
    + [Setting(ALLOWED_IP, cidr)]
  }

  lemma {:induction false} RemovalSection(s: Session, k: Key)
    requires s.phase == Reading
    ensures Lines(s, RemovalLines(k)) == Session(s.peers - {k}, None, Reading)
  {
    var lines := RemovalLines(k);
    KeyOfHexOfKey(k);
    LineIsSetting(s, PUBLIC_KEY, HexEncode(k));
    var s1 := Line(s, lines[0]);
    LineIsSetting(s1, REMOVE, "true");
    assert s1.peers - {k} == s.peers - {k};
    assert lines[1..] == [Setting(REMOVE, "true")] && lines[1..][1..] == [];
    assert Lines(s, lines) == Lines(s1, lines[1..]);
    assert Lines(s1, lines[1..]) == Lines(Line(s1, lines[1]), []);
  }

  lemma NewPeerLine(s: Session, k: Key)
    requires s.phase == Reading && k !in s.peers
    ensures Lines(s, [Setting(PUBLIC_KEY, HexEncode(k))])
      == Session(s.peers[k := PeerConf(ZeroKey(), {})], Some(k), Reading)
  {
    KeyOfHexOfKey(k);
    LineIsSetting(s, PUBLIC_KEY, HexEncode(k));
    OneLineSession(s, Setting(PUBLIC_KEY, HexEncode(k)));
  }

  lemma PskLine(s: Session, k: Key, psk: Key)
    requires s.phase == Reading && s.current == Some(k) && k in s.peers
    ensures Lines(s, [Setting(PRESHARED_KEY, HexEncode(psk))]) == s.(peers := s.peers[k := s.peers[k].(psk := psk)])
  {
    KeyOfHexOfKey(psk);
    LineIsSetting(s, PRESHARED_KEY, HexEncode(psk));
    OneLineSession(s, Setting(PRESHARED_KEY, HexEncode(psk)));
  }

  lemma AddressLine(s: Session, k: Key, cidr: string)
    requires s.phase == Reading && s.current == Some(k) && k in s.peers
    ensures Lines(s, [Setting(ALLOWED_IP, cidr)]) == s.(peers := Allow(s.peers, k, cidr))
  {
    LineIsSetting(s, ALLOWED_IP, cidr);
    OneLineSession(s, Setting(ALLOWED_IP, cidr));
  }

  lemma {:induction false} AdditionSection(s: Session, k: Key, psk: Option<Key>, cidr: string)
    requires s.phase == Reading && k !in s.peers
    ensures Lines(s, AdditionLines(k, psk, cidr))
         == Session(Allow(s.peers[k := PeerConf(psk.GetOr(ZeroKey()), {})], k, cidr), Some(k), Reading)
  {
    var first, last := [Setting(PUBLIC_KEY, HexEncode(k))], [Setting(ALLOWED_IP, cidr)];
    var middle := if psk.Some? then [Setting(PRESHARED_KEY, HexEncode(psk.value))] else [];
    NewPeerLine(s, k);
    var s1 := Lines(s, first);
    if psk.Some? { PskLine(s1, k, psk.value); }
    var s2 := Lines(s1, middle);
    assert s2 == Session(s.peers[k := PeerConf(psk.GetOr(ZeroKey()), {})], Some(k), Reading);
    AddressLine(s2, k, cidr);
    LinesConcat(s, first, middle);
    LinesConcat(s, first + middle, last);
  }

  lemma OneLineSession(s: Session, line: string)
    ensures Lines(s, [line]) == Line(s, line)
  {
    assert [line][1..] == [];
  }

  lemma SectionsArePlain(k: Key, psk: Option<Key>, cidr: string)
    requires OneLine(cidr)
    ensures AllOneLine(RemovalLines(k)) && AllOneLine(AdditionLines(k, psk, cidr))
  {
    HexIsPlain(k);
    if psk.Some? { HexIsPlain(psk.value); }
  }

  /** Text made of whole sections is read section by section; the final newline ends the operation. */
  lemma ConfigureUnlines(peers: map<Key, PeerConf>, lines: seq<string>)
    requires AllOneLine(lines) && Lines(Session(peers, None, Reading), lines).phase == Reading
    ensures Configure(peers, Unlines(lines)).peers == Lines(Session(peers, None, Reading), lines).peers
    ensures Configure(peers, Unlines(lines)).phase == Ended
  {
    SplitUnlines(lines);
    LinesConcat(Session(peers, None, Reading), lines, [""]);
    OneLineSession(Lines(Session(peers, None, Reading), lines), "");
  }
}
