/** The dump `parsePeerStatus` is for: what a WireGuard device prints about its peers (cross-platform
    userspace interface, section "Configuration Protocol", get operation). Parsing undoes printing. */
module PeerDump {
  import opened Wrappers
  import opened Text
  import opened Keys
  import opened WgDevice
  import opened PeerStatusParser

  type Field = (string, string)
  type Apply = (PeerStatus, string, string) -> PeerStatus

  predicate EndsPlain(s: string) { s == "" || s[|s| - 1] != '\r' }

  /** Values as a device holds them. */
  predicate Printable(p: PeerStatus) {
    && (p.presharedKey.Some? ==> !IsZero(p.presharedKey.value))
    && (p.handshake.Some? ==> 0 < p.handshake.value <= INT64_MAX)
    && p.rx <= UINT64_MAX && p.tx <= UINT64_MAX && 0 <= p.keepalive <= INT64_MAX
    && OneLine(p.endpoint) && EndsPlain(p.endpoint)
    && forall i :: 0 <= i < |p.allowed| ==> OneLine(p.allowed[i]) && EndsPlain(p.allowed[i])
  }

  type DevicePeer = p: PeerStatus | Printable(p) witness NewPeer([])

  function AllowedFields(allowed: seq<string>): seq<Field> {
    if allowed == [] then [] else AllowedFields(allowed[..|allowed| - 1]) + [(ALLOWED_IP, allowed[|allowed| - 1])]
  }

  function EndpointFields(endpoint: string): seq<Field> {
    if endpoint == "" then [] else [("endpoint", endpoint)]
  }

  function KeyFields(psk: Option<seq<byte>>): seq<Field> {
    [(PRESHARED_KEY, HexEncode(psk.GetOr(ZeroKey()))), ("protocol_version", "1")]
  }

  function CounterFields(p: DevicePeer, nanos: nat): seq<Field> {
    [("last_handshake_time_sec", Decimal(p.handshake.GetOr(0))), ("last_handshake_time_nsec", Decimal(nanos)),
     ("tx_bytes", Decimal(p.tx)), ("rx_bytes", Decimal(p.rx)), ("persistent_keepalive_interval", Decimal(p.keepalive))]
  }

  /** An all-zero preshared key and a zero handshake time stand for none; the nanoseconds of the
      handshake are printed too, and not read. */
  function Fields(p: DevicePeer, nanos: nat): seq<Field> {
    KeyFields(p.presharedKey) + EndpointFields(p.endpoint) + CounterFields(p, nanos) + AllowedFields(p.allowed)
  }

  function SettingLines(fields: seq<Field>): (lines: seq<string>)
    ensures |lines| == |fields| && forall i :: 0 <= i < |fields| ==> lines[i] == Setting(fields[i].0, fields[i].1)
  {
    seq(|fields|, i requires 0 <= i < |fields| => Setting(fields[i].0, fields[i].1))
  }

  datatype Printed = Printed(peer: DevicePeer, nanos: nat)

  function PeerText(p: Printed): string {
    Unlines([Setting(PUBLIC_KEY, HexEncode(p.peer.publicKey))] + SettingLines(Fields(p.peer, p.nanos)))
  }

  function PeersText(peers: seq<Printed>): string {
    if peers == [] then "" else PeerText(peers[0]) + PeersText(peers[1..])
  }

  /** The device itself, which comes before its peers: each line only where it is set. */
  datatype Interface = Interface(privateKey: Option<Key>, listenPort: nat, fwmark: nat)

  function InterfaceFields(d: Interface): seq<Field> {
    (if d.privateKey.Some? then [("private_key", HexEncode(d.privateKey.value))] else [])
    + (if d.listenPort != 0 then [("listen_port", Decimal(d.listenPort))] else [])
    + (if d.fwmark != 0 then [("fwmark", Decimal(d.fwmark))] else [])
  }

  /** What `IpcGet` returns. */
  function Dump(d: Interface, peers: seq<Printed>): string {
    Unlines(SettingLines(InterfaceFields(d))) + PeersText(peers)
  }

  // ----- attributes in a row --------------------------------------------------

  function ApplyAll(f: Apply, p: PeerStatus, fields: seq<Field>): PeerStatus
    decreases |fields|
  {
    if fields == [] then p else ApplyAll(f, f(p, fields[0].0, fields[0].1), fields[1..])
  }

  lemma {:induction false} ApplyConcat(f: Apply, p: PeerStatus, a: seq<Field>, b: seq<Field>)
    ensures ApplyAll(f, p, a + b) == ApplyAll(f, ApplyAll(f, p, a), b)
    decreases |a|
  {
    if a == [] {
      assert a + b == b;
    } else {
      assert (a + b)[0] == a[0] && (a + b)[1..] == a[1..] + b;
      ApplyConcat(f, f(p, a[0].0, a[0].1), a[1..], b);
    }
  }

  lemma ApplyOne(f: Apply, p: PeerStatus, a: Field)
    ensures ApplyAll(f, p, [a]) == f(p, a.0, a.1)
  {
    assert [a][1..] == [];
  }

  lemma ApplyTwo(f: Apply, p: PeerStatus, a: Field, b: Field, q: PeerStatus)
    requires q == f(p, a.0, a.1)
    ensures ApplyAll(f, p, [a, b]) == f(q, b.0, b.1)
  {
    assert [a, b] == [a] + [b];
    ApplyConcat(f, p, [a], [b]);
    ApplyOne(f, p, a);
    ApplyOne(f, q, b);
  }

  lemma ApplyFive(f: Apply, p: PeerStatus, a: Field, b: Field, c: Field, d: Field, e: Field,
                  q: PeerStatus, r: PeerStatus, s: PeerStatus, t: PeerStatus)
    requires q == f(p, a.0, a.1) && r == f(q, b.0, b.1) && s == f(r, c.0, c.1) && t == f(s, d.0, d.1)
    ensures ApplyAll(f, p, [a, b, c, d, e]) == f(t, e.0, e.1)
  {
    assert [a, b, c, d, e] == [a, b] + ([c, d] + [e]);
    ApplyConcat(f, p, [a, b], [c, d] + [e]);
    ApplyTwo(f, p, a, b, q);
    ApplyConcat(f, r, [c, d], [e]);
    ApplyTwo(f, r, c, d, s);
    ApplyOne(f, t, e);
  }

  // ----- what each line does --------------------------------------------------

  lemma PskLine(q: PeerStatus, psk: Option<seq<byte>>)
    requires q.presharedKey.None? && (psk.Some? ==> !IsZero(psk.value))
    ensures Attribute(q, PRESHARED_KEY, HexEncode(psk.GetOr(ZeroKey()))) == q.(presharedKey := psk)
  {
    HexRoundTrip(psk.GetOr(ZeroKey()));
  }

  lemma UnknownLines(q: PeerStatus, value: string)
    ensures Attribute(q, "protocol_version", value) == q
    ensures Attribute(q, "last_handshake_time_nsec", value) == q
  {
  }

  lemma EndpointLine(q: PeerStatus, endpoint: string)
    requires q.endpoint == ""
    ensures ApplyAll(Attribute, q, EndpointFields(endpoint)) == q.(endpoint := endpoint)
  {
    if endpoint != "" { ApplyOne(Attribute, q, ("endpoint", endpoint)); }
  }

  lemma HandshakeLine(q: PeerStatus, at: Option<int>)
    requires q.handshake.None? && (at.Some? ==> 0 < at.value <= INT64_MAX)
    ensures Attribute(q, "last_handshake_time_sec", Decimal(at.GetOr(0))) == q.(handshake := at)
  {
    ParseDecimal(at.GetOr(0));
  }

  lemma CounterLines(q: PeerStatus, n: nat)
    requires n <= UINT64_MAX
    ensures Attribute(q, "tx_bytes", Decimal(n)) == q.(tx := n)
    ensures Attribute(q, "rx_bytes", Decimal(n)) == q.(rx := n)
  {
    DecimalRoundTrip(n);
  }

  lemma KeepaliveLine(q: PeerStatus, n: nat)
    requires n <= INT64_MAX
    ensures Attribute(q, "persistent_keepalive_interval", Decimal(n)) == q.(keepalive := n)
  {
    ParseDecimal(n);
  }

  lemma AllowedLine(q: PeerStatus, ip: string)
    ensures Attribute(q, ALLOWED_IP, ip) == q.(allowed := q.allowed + [ip])
  {
  }

  lemma {:induction false} AllowedLines(q: PeerStatus, allowed: seq<string>)
    requires q.allowed == []
    ensures ApplyAll(Attribute, q, AllowedFields(allowed)) == q.(allowed := allowed)
  {
    if allowed == [] {
    } else {
      var init, last := allowed[..|allowed| - 1], allowed[|allowed| - 1];
      var r := q.(allowed := init);
      AllowedLines(q, init);
      ApplyConcat(Attribute, q, AllowedFields(init), [(ALLOWED_IP, last)]);
      ApplyOne(Attribute, r, (ALLOWED_IP, last));
      AllowedLine(r, last);
      assert init + [last] == allowed;
    }
  }

  lemma TimeAndCounters(q: PeerStatus, p: DevicePeer, nanos: nat)
    requires q.handshake.None?
    ensures ApplyAll(Attribute, q, CounterFields(p, nanos))
      == q.(handshake := p.handshake, tx := p.tx, rx := p.rx, keepalive := p.keepalive)
  {
    var f := CounterFields(p, nanos);
    var r := q.(handshake := p.handshake);
    HandshakeLine(q, p.handshake);
    UnknownLines(r, Decimal(nanos));
    CounterLines(r, p.tx);
    CounterLines(r.(tx := p.tx), p.rx);
    KeepaliveLine(r.(tx := p.tx, rx := p.rx), p.keepalive);
    ApplyFive(Attribute, q, f[0], f[1], f[2], f[3], f[4], r, r, r.(tx := p.tx), r.(tx := p.tx, rx := p.rx));
  }

  lemma PskFields(q: PeerStatus, psk: Option<seq<byte>>)
    requires q.presharedKey.None? && (psk.Some? ==> !IsZero(psk.value))
    ensures ApplyAll(Attribute, q, KeyFields(psk)) == q.(presharedKey := psk)
  {
    var f := KeyFields(psk);
    PskLine(q, psk);
    UnknownLines(q.(presharedKey := psk), "1");
    ApplyTwo(Attribute, q, f[0], f[1], q.(presharedKey := psk));
  }

  /** The printed fields of a peer, read into a new one, make that peer. */
  lemma FieldsMakePeer(p: DevicePeer, nanos: nat)
    ensures ApplyAll(Attribute, NewPeer(p.publicKey), Fields(p, nanos)) == p
  {
    var q := NewPeer(p.publicKey);
    FieldsInTurn(q, KeyFields(p.presharedKey), EndpointFields(p.endpoint), CounterFields(p, nanos),
      AllowedFields(p.allowed));
    PskFields(q, p.presharedKey);
    var q1 := q.(presharedKey := p.presharedKey);
    EndpointLine(q1, p.endpoint);
    var q2 := q1.(endpoint := p.endpoint);
    TimeAndCounters(q2, p, nanos);
    var q3 := q2.(handshake := p.handshake, tx := p.tx, rx := p.rx, keepalive := p.keepalive);
    AllowedLines(q3, p.allowed);
  }

  lemma FieldsInTurn(q: PeerStatus, a: seq<Field>, b: seq<Field>, c: seq<Field>, d: seq<Field>)
    ensures ApplyAll(Attribute, q, a + b + c + d)
         == ApplyAll(Attribute, ApplyAll(Attribute, ApplyAll(Attribute, ApplyAll(Attribute, q, a), b), c), d)
  {
    ApplyConcat(Attribute, q, a, b);
    ApplyConcat(Attribute, q, a + b, c);
    ApplyConcat(Attribute, q, a + b + c, d);
  }

  // ----- from fields to text --------------------------------------------------

  /** A field that reads as one attribute line. */
  ghost predicate Plain(f: Field) { PlainKey(f.0) && OneLine(f.1) && EndsPlain(f.1) }

  ghost predicate PlainKey(key: string) { key != "" && '=' !in key && key != PUBLIC_KEY && OneLine(key) }

  ghost predicate AllPlain(fields: seq<Field>) { forall i :: 0 <= i < |fields| ==> Plain(fields[i]) }

  lemma {:induction false} ReadFields(q: PeerStatus, fields: seq<Field>)
    requires AllPlain(fields)
    ensures ReadLines(Reader([], Some(q)), SettingLines(fields)) == Reader([], Some(ApplyAll(Attribute, q, fields)))
    decreases |fields|
  {
    if fields == [] {
    } else {
      var r := Reader([], Some(q));
      var key, value := fields[0].0, fields[0].1;
      assert Plain(fields[0]);
      ReadSetting(r, key, value);
      var lines := SettingLines(fields);
      assert lines[0] == Setting(key, value) && lines[1..] == SettingLines(fields[1..]);
      ReadFields(Attribute(q, key, value), fields[1..]);
    }
  }

  lemma DecimalPlain(n: nat)
    ensures OneLine(Decimal(n)) && EndsPlain(Decimal(n))
  {
    DecimalRoundTrip(n);
  }

  lemma HexPlain(raw: seq<byte>)
    ensures OneLine(HexEncode(raw)) && EndsPlain(HexEncode(raw))
  {
    HexIsPlain(raw);
  }

  lemma {:induction false} AllowedPlain(allowed: seq<string>)
    requires forall i :: 0 <= i < |allowed| ==> OneLine(allowed[i]) && EndsPlain(allowed[i])
    ensures AllPlain(AllowedFields(allowed))
  {
    if allowed == [] {
    } else {
      AllowedPlain(allowed[..|allowed| - 1]);
      KeysPlain();
    }
  }

  lemma KeysPlain()
    ensures PlainKey(PRESHARED_KEY) && PlainKey("protocol_version") && PlainKey("endpoint") && PlainKey(ALLOWED_IP)
  {
  }

  lemma TimeKeysPlain()
    ensures PlainKey("last_handshake_time_sec") && PlainKey("last_handshake_time_nsec")
  {
  }

  lemma CounterKeysPlain()
    ensures PlainKey("tx_bytes") && PlainKey("rx_bytes") && PlainKey("persistent_keepalive_interval")
  {
  }

  lemma PlainConcat(a: seq<Field>, b: seq<Field>, c: seq<Field>, d: seq<Field>)
    requires AllPlain(a) && AllPlain(b) && AllPlain(c) && AllPlain(d)
    ensures AllPlain(a + b + c + d)
  {
  }

  lemma CounterFieldsPlain(p: DevicePeer, nanos: nat)
    ensures AllPlain(CounterFields(p, nanos))
  {
    TimeKeysPlain();
    CounterKeysPlain();
    var f := CounterFields(p, nanos);
    DecimalPlain(p.handshake.GetOr(0));
    DecimalPlain(nanos);
    DecimalPlain(p.tx);
    DecimalPlain(p.rx);
    DecimalPlain(p.keepalive);
    assert Plain(f[0]) && Plain(f[1]) && Plain(f[2]) && Plain(f[3]) && Plain(f[4]);
  }

  lemma KeyFieldsPlain(psk: Option<seq<byte>>)
    ensures AllPlain(KeyFields(psk))
  {
    var key, version, hex := PRESHARED_KEY, "protocol_version", HexEncode(psk.GetOr(ZeroKey()));
    KeysPlain();
    HexPlain(psk.GetOr(ZeroKey()));
    TwoPlain((key, hex), (version, "1"));
  }

  lemma TwoPlain(a: Field, b: Field)
    requires Plain(a) && Plain(b)
    ensures AllPlain([a, b])
  {
  }

  lemma EndpointFieldsPlain(endpoint: string)
    requires OneLine(endpoint) && EndsPlain(endpoint)
    ensures AllPlain(EndpointFields(endpoint))
  {
    KeysPlain();
  }

  lemma FieldsPlain(p: DevicePeer, nanos: nat)
    ensures AllPlain(Fields(p, nanos))
  {
    KeyFieldsPlain(p.presharedKey);
    EndpointFieldsPlain(p.endpoint);
    CounterFieldsPlain(p, nanos);
    AllowedPlain(p.allowed);
    PlainConcat(KeyFields(p.presharedKey), EndpointFields(p.endpoint), CounterFields(p, nanos),
      AllowedFields(p.allowed));
  }

  lemma InterfaceFieldsPlain(d: Interface)
    ensures AllPlain(InterfaceFields(d))
  {
    InterfaceKeysPlain();
    if d.privateKey.Some? { HexPlain(d.privateKey.value); }
    DecimalPlain(d.listenPort);
    DecimalPlain(d.fwmark);
  }

  lemma InterfaceKeysPlain()
    ensures PlainKey("private_key") && PlainKey("listen_port") && PlainKey("fwmark")
  {
  }

  /** Lines before the first peer belong to nobody. */
  lemma {:induction false} InterfaceLinesIgnored(fields: seq<Field>)
    requires AllPlain(fields)
    ensures ReadLines(START, SettingLines(fields)) == START
    decreases |fields|
  {
    if fields == [] {
    } else {
      var key, value := fields[0].0, fields[0].1;
      assert Plain(fields[0]);
      ReadSetting(START, key, value);
      var lines := SettingLines(fields);
      assert lines[0] == Setting(key, value) && lines[1..] == SettingLines(fields[1..]);
      InterfaceLinesIgnored(fields[1..]);
    }
  }

  lemma StatusOfInterface(d: Interface)
    ensures var text := Unlines(SettingLines(InterfaceFields(d)));
      Statuses(text) == [] && (text == "" || text[|text| - 1] == '\n')
  {
    var lines := SettingLines(InterfaceFields(d));
    InterfaceFieldsPlain(d);
    InterfaceLinesIgnored(InterfaceFields(d));
    SettingsOneLine(InterfaceFields(d));
    ReadNothing(lines);
    if lines != [] {
      assert lines == lines[..|lines| - 1] + [lines[|lines| - 1]];
      UnlinesSnoc(lines[..|lines| - 1], lines[|lines| - 1]);
    }
  }

  lemma ReadNothing(lines: seq<string>)
    requires AllOneLine(lines) && ReadLines(START, lines) == START
    ensures Statuses(Unlines(lines)) == []
  {
    SplitUnlines(lines);
    ReadLinesConcat(START, lines, [""]);
    ReadOneLine(START, "");
  }

  lemma SettingsOneLine(fields: seq<Field>)
    requires AllPlain(fields)
    ensures AllOneLine(SettingLines(fields))
  {
    forall i | 0 <= i < |fields| ensures OneLine(SettingLines(fields)[i]) {
      assert Plain(fields[i]);
    }
  }

  lemma StatusOfPeerText(p: Printed)
    ensures Statuses(PeerText(p)) == [p.peer]
  {
    var key, fields := p.peer.publicKey, Fields(p.peer, p.nanos);
    FieldsPlain(p.peer, p.nanos);
    SettingsOneLine(fields);
    ReadPublicKey(key);
    ReadFields(NewPeer(key), fields);
    FieldsMakePeer(p.peer, p.nanos);
    ReadWhole(Setting(PUBLIC_KEY, HexEncode(key)), SettingLines(fields), Reader([], Some(NewPeer(key))), p.peer);
  }

  lemma ReadPublicKey(raw: seq<byte>)
    ensures ReadLine(START, Setting(PUBLIC_KEY, HexEncode(raw))) == Reader([], Some(NewPeer(raw)))
    ensures OneLine(Setting(PUBLIC_KEY, HexEncode(raw)))
  {
    var key := PUBLIC_KEY;
    HexPlain(raw);
    HexRoundTrip(raw);
    ReadSetting(START, key, HexEncode(raw));
  }

  lemma ReadWhole(first: string, rest: seq<string>, r: Reader, p: PeerStatus)
    requires OneLine(first) && AllOneLine(rest)
    requires ReadLine(START, first) == r && ReadLines(r, rest) == Reader([], Some(p))
    ensures Statuses(Unlines([first] + rest)) == [p]
  {
    SplitUnlines([first] + rest);
    ReadLinesConcat(START, [first] + rest, [""]);
    ReadLinesConcat(START, [first], rest);
    ReadOneLine(START, first);
    ReadOneLine(Reader([], Some(p)), "");
  }

  lemma TextShape(value: string, lines: seq<string>, rest: string)
    ensures var text := Unlines([Setting(PUBLIC_KEY, value)] + lines);
      StartsPeer(text + rest) && text != "" && text[|text| - 1] == '\n'
  {
    var all := [Setting(PUBLIC_KEY, value)] + lines;
    var text := Unlines(all);
    assert text == all[0] + "\n" + Unlines(all[1..]);
    assert all[0] == PUBLIC_KEY + ['='] + value;
    assert all == all[..|all| - 1] + [all[|all| - 1]];
    UnlinesSnoc(all[..|all| - 1], all[|all| - 1]);
  }

  lemma PeersTextStarts(peers: seq<Printed>)
    ensures PeersText(peers) == "" || StartsPeer(PeersText(peers))
  {
    if peers != [] {
      var p := peers[0];
      TextShape(HexEncode(p.peer.publicKey), SettingLines(Fields(p.peer, p.nanos)), PeersText(peers[1..]));
    }
  }

  lemma PeerTextShape(p: Printed)
    ensures PeerText(p) != "" && PeerText(p)[|PeerText(p)| - 1] == '\n'
  {
    TextShape(HexEncode(p.peer.publicKey), SettingLines(Fields(p.peer, p.nanos)), "");
  }

  function PeersOf(peers: seq<Printed>): seq<PeerStatus> {
    seq(|peers|, i requires 0 <= i < |peers| => peers[i].peer)
  }

  lemma PeersTextCons(all: seq<Printed>, p: Printed, rest: seq<Printed>)
    requires all == [p] + rest
    ensures PeersText(all) == PeerText(p) + PeersText(rest)
  {
    assert all[1..] == rest;
  }

  lemma PeersOfCons(p: Printed, rest: seq<Printed>)
    ensures PeersOf([p] + rest) == [p.peer] + PeersOf(rest)
  {
  }

  lemma DumpNext(p: Printed, rest: seq<Printed>)
    requires Statuses(PeersText(rest)) == PeersOf(rest)
    ensures Statuses(PeersText([p] + rest)) == PeersOf([p] + rest)
  {
    StatusOfPeerText(p);
    PeerTextShape(p);
    PeersTextStarts(rest);
    OneMorePeer(PeerText(p), PeersText(rest), p.peer, PeersOf(rest));
    PeersTextCons([p] + rest, p, rest);
    PeersOfCons(p, rest);
  }

  lemma {:induction false} PeersRoundTrip(peers: seq<Printed>)
    ensures Statuses(PeersText(peers)) == PeersOf(peers)
  {
    if peers == [] {
      NothingPrinted();
    } else {
      PeersRoundTrip(peers[1..]);
      DumpNext(peers[0], peers[1..]);
      assert peers == [peers[0]] + peers[1..];
    }
  }

  /** Parsing a dump gives back exactly the peers the device printed, every attribute in its place,
      whatever the device says of itself first. */
  lemma DumpRoundTrip(d: Interface, peers: seq<Printed>)
    ensures Statuses(Dump(d, peers)) == PeersOf(peers)
  {
    StatusOfInterface(d);
    PeersRoundTrip(peers);
    PeersTextStarts(peers);
    AfterInterface(Unlines(SettingLines(InterfaceFields(d))), PeersText(peers), PeersOf(peers));
  }

  lemma AfterInterface(head: string, rest: string, peers: seq<PeerStatus>)
    requires Statuses(head) == [] && (head == "" || head[|head| - 1] == '\n')
    requires Statuses(rest) == peers && (rest == "" || StartsPeer(rest))
    ensures Statuses(head + rest) == peers
  {
    if rest == "" {
      NothingPrinted();
      assert head + rest == head;
    } else {
      Compositional(head, rest);
      assert [] + peers == peers;
    }
  }
}
