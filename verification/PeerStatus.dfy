/** `parsePeerStatus` of daemon/wg/server.go: the dump of the device, read line by line. */
module PeerStatusParser {
  import opened Wrappers
  import opened Text
  import opened Keys
  import opened PolicyIndex
  import opened WgDevice
  import opened WgServerModel

  /** Keys as raw bytes; no handshake time means never. */
  datatype PeerStatus = PeerStatus(
    publicKey: seq<byte>, presharedKey: Option<seq<byte>>, allowed: seq<string>, endpoint: string,
    handshake: Option<int>, keepalive: int, rx: nat, tx: nat)

  function NewPeer(raw: seq<byte>): PeerStatus {
    PeerStatus(raw, None, [], "", None, 0, 0, 0)
  }

  function TrimCr(s: string): string {
    if s != [] && s[|s| - 1] == '\r' then TrimCr(s[..|s| - 1]) else s
  }

  predicate IsZero(raw: seq<byte>) { forall i :: 0 <= i < |raw| ==> raw[i] == 0 }

  /** One attribute line; a value that does not parse leaves the peer as it was. */
  function Attribute(p: PeerStatus, key: string, value: string): PeerStatus {
    match key
    case "preshared_key" =>
      (match HexDecode(value)
       case Some(raw) => if IsZero(raw) then p else p.(presharedKey := Some(raw))
       case None => p)
    case "allowed_ip" => p.(allowed := p.allowed + [value])
    case "endpoint" => p.(endpoint := value)
    case "last_handshake_time_sec" =>
      (match ParseInt(value)
       case Some(v) => if v > 0 then p.(handshake := Some(v)) else p
       case None => p)
    case "rx_bytes" => p.(rx := ParseUint(value).GetOr(p.rx))
    case "tx_bytes" => p.(tx := ParseUint(value).GetOr(p.tx))
    case "persistent_keepalive_interval" => p.(keepalive := ParseInt(value).GetOr(p.keepalive))
    case _ => p
  }

  datatype Reader = Reader(peers: seq<PeerStatus>, current: Option<PeerStatus>)

  function Flush(r: Reader): Reader {
    Reader(if r.current.Some? then r.peers + [r.current.value] else r.peers, None)
  }

  function Read(r: Reader, key: string, value: string): Reader {
    if key == PUBLIC_KEY then
      Flush(r).(current := match HexDecode(value) case Some(raw) => Some(NewPeer(raw)) case None => None)
    else if r.current.Some? then r.(current := Some(Attribute(r.current.value, key, value)))
    else r
  }

  function ReadLine(r: Reader, line: string): Reader {
    match Cut(TrimCr(line), '=')
    case Some(p) => Read(r, p.0, p.1)
    case None => r
  }

  function ReadLines(r: Reader, lines: seq<string>): Reader
    decreases |lines|
  {
    if lines == [] then r else ReadLines(ReadLine(r, lines[0]), lines[1..])
  }

  const START := Reader([], None)

  function Statuses(dump: string): seq<PeerStatus> {
    Flush(ReadLines(START, Split(dump, '\n'))).peers
  }

  lemma {:induction false} ReadLinesConcat(r: Reader, a: seq<string>, b: seq<string>)
    ensures ReadLines(r, a + b) == ReadLines(ReadLines(r, a), b)
    decreases |a|
  {
    if a == [] {
      assert a + b == b;
    } else {
      assert (a + b)[0] == a[0] && (a + b)[1..] == a[1..] + b;
      ReadLinesConcat(ReadLine(r, a[0]), a[1..], b);
    }
  }

  lemma ReadOneLine(r: Reader, line: string)
    ensures ReadLines(r, [line]) == ReadLine(r, line)
  {
    assert [line][1..] == [];
  }

  method ParsePeerStatus(dump: string) returns (peers: seq<PeerStatus>)
    ensures peers == Statuses(dump)
  {
    peers := [];
    var current: Option<PeerStatus> := None;
    var lines := Split(dump, '\n');
    for i := 0 to |lines|
      invariant Reader(peers, current) == ReadLines(START, lines[..i])
    {
      assert lines[..i + 1] == lines[..i] + [lines[i]];
      ReadLinesConcat(START, lines[..i], [lines[i]]);
      ReadOneLine(Reader(peers, current), lines[i]);
      var line := TrimCr(lines[i]);
      if line == "" { continue; }
      var field := Cut(line, '=');
      if field.None? { continue; }
      var (key, value) := field.value;
      if key == PUBLIC_KEY {
        if current.Some? { peers := peers + [current.value]; }
        var raw := HexDecode(value);
        current := if raw.Some? then Some(NewPeer(raw.value)) else None;
      } else if current.Some? {
        current := Some(Attribute(current.value, key, value));
      }
    }
    assert lines[..|lines|] == lines;
    if current.Some? { peers := peers + [current.value]; }
  }

  // ----- line ends and unreadable keys ----------------------------------------

  /** The same text with a carriage return before every newline. */
  function Crlf(s: string): string {
    if s == "" then "" else (if s[0] == '\n' then "\r\n" else [s[0]]) + Crlf(s[1..])
  }

  /** Every line but the last has got a carriage return at its end. */
  predicate Returned(lines: seq<string>, lines': seq<string>) {
    && |lines'| == |lines| >= 1 && lines'[|lines| - 1] == lines[|lines| - 1]
    && forall i :: 0 <= i < |lines| - 1 ==> lines'[i] == lines[i] + ['\r']
  }

  lemma ReturnedBreak(a: seq<string>, b: seq<string>, lone: string)
    requires Returned(a, b) && lone == ['\r']
    ensures Returned([""] + a, [lone] + b)
  {
  }

  lemma ReturnedChar(c: char, a: seq<string>, b: seq<string>)
    requires Returned(a, b)
    ensures Returned([[c] + a[0]] + a[1..], [[c] + b[0]] + b[1..])
  {
  }

  lemma {:induction false} SplitCrlf(s: string)
    ensures Returned(Split(s, '\n'), Split(Crlf(s), '\n'))
  {
    if s == "" {
    } else if s[0] == '\n' {
      var lone := ['\r'];
      SplitCrlf(s[1..]);
      SplitBreak(lone, Crlf(s[1..]));
      assert Crlf(s) == lone + ['\n'] + Crlf(s[1..]);
      ReturnedBreak(Split(s[1..], '\n'), Split(Crlf(s[1..]), '\n'), lone);
    } else {
      SplitCrlf(s[1..]);
      assert Crlf(s)[1..] == Crlf(s[1..]);
      ReturnedChar(s[0], Split(s[1..], '\n'), Split(Crlf(s[1..]), '\n'));
    }
  }

  lemma SplitBreak(line: string, rest: string)
    requires '\n' !in line
    ensures Split(line + ['\n'] + rest, '\n') == [line] + Split(rest, '\n')
  {
    SplitWhole(line, '\n');
    SplitConcat(line, '\n', rest);
  }

  lemma {:induction false} ReadReturned(r: Reader, lines: seq<string>, lines': seq<string>)
    requires Returned(lines, lines')
    ensures ReadLines(r, lines') == ReadLines(r, lines)
    decreases |lines|
  {
    if |lines| == 1 {
      assert lines == lines';
    } else {
      assert (lines[0] + ['\r'])[..|lines[0]|] == lines[0];
      assert ReadLine(r, lines'[0]) == ReadLine(r, lines[0]);
      ReadReturned(ReadLine(r, lines[0]), lines[1..], lines'[1..]);
    }
  }

  /** Carriage returns at the line ends change nothing. */
  lemma ReturnsIgnored(dump: string)
    ensures Statuses(Crlf(dump)) == Statuses(dump)
  {
    SplitCrlf(dump);
    ReadReturned(START, Split(dump, '\n'), Split(Crlf(dump), '\n'));
  }

  /** The line sets an attribute, or nothing. */
  predicate NoKeyLine(line: string) {
    Cut(TrimCr(line), '=').None? || Cut(TrimCr(line), '=').value.0 != PUBLIC_KEY
  }

  lemma {:induction false} NobodysLines(done: seq<PeerStatus>, lines: seq<string>)
    requires forall i :: 0 <= i < |lines| ==> NoKeyLine(lines[i])
    ensures ReadLines(Reader(done, None), lines) == Reader(done, None)
    decreases |lines|
  {
    if lines == [] {
    } else {
      assert NoKeyLine(lines[0]);
      NobodysLines(done, lines[1..]);
    }
  }

  lemma PublicKeyIsPlain()
    ensures '=' !in PUBLIC_KEY
  {
  }

  lemma UnreadableKeyLine(r: Reader, key: string, bad: string)
    requires key == PUBLIC_KEY && '=' !in key && HexDecode(bad).None? && (bad == "" || bad[|bad| - 1] != '\r')
    ensures ReadLine(r, Setting(key, bad)) == Flush(r)
  {
    ReadSetting(r, key, bad);
    assert Read(r, key, bad) == Flush(r);
  }

  /** A peer whose key does not decode is left out with all its lines: none of them reaches the peer
      before it, which ends there. */
  lemma UnreadableKeySkipped(r: Reader, bad: string, lines: seq<string>)
    requires HexDecode(bad).None? && (bad == "" || bad[|bad| - 1] != '\r')
    requires forall i :: 0 <= i < |lines| ==> NoKeyLine(lines[i])
    ensures ReadLines(r, [Setting(PUBLIC_KEY, bad)] + lines) == Flush(r)
  {
    var line := Setting(PUBLIC_KEY, bad);
    PublicKeyIsPlain();
    UnreadableKeyLine(r, PUBLIC_KEY, bad);
    ReadLinesConcat(r, [line], lines);
    ReadOneLine(r, line);
    NobodysLines(Flush(r).peers, lines);
  }

  // ----- peers do not see each other ------------------------------------------

  /** What was collected before never changes what later lines add. */
  lemma {:induction false} ReadsOnTop(done: seq<PeerStatus>, r: Reader, lines: seq<string>)
    ensures var t := ReadLines(r, lines);
      ReadLines(Reader(done + r.peers, r.current), lines) == Reader(done + t.peers, t.current)
    decreases |lines|
  {
    if lines == [] {
    } else {
      var next := ReadLine(r, lines[0]);
      ReadOnTop(done, r, lines[0]);
      ReadsOnTop(done, next, lines[1..]);
    }
  }

  lemma ReadOnTop(done: seq<PeerStatus>, r: Reader, line: string)
    ensures var t := ReadLine(r, line);
      ReadLine(Reader(done + r.peers, r.current), line) == Reader(done + t.peers, t.current)
  {
    if r.current.Some? {
      assert done + r.peers + [r.current.value] == done + (r.peers + [r.current.value]);
    }
  }

  /** The line begins a peer. */
  predicate StartsPeer(s: string) {
    |s| > |PUBLIC_KEY| && s[..|PUBLIC_KEY|] == PUBLIC_KEY && s[|PUBLIC_KEY|] == '='
  }

  lemma {:induction false} TrimCrKeeps(s: string, n: nat)
    requires n < |s| && s[n] != '\r'
    ensures |TrimCr(s)| > n && TrimCr(s)[..n + 1] == s[..n + 1]
    decreases |s|
  {
    if s[|s| - 1] == '\r' {
      TrimCrKeeps(s[..|s| - 1], n);
    }
  }

  lemma {:induction false} SplitStart(s: string, sep: char, n: nat)
    requires n <= |s| && sep !in s[..n]
    ensures n <= |Split(s, sep)[0]| && Split(s, sep)[0][..n] == s[..n]
  {
    if n == 0 {
    } else {
      assert s[..n][0] == s[0];
      assert s[1..][..n - 1] == s[..n][1..];
      SplitStart(s[1..], sep, n - 1);
      assert s[..n] == [s[0]] + s[1..][..n - 1];
    }
  }

  lemma StartLine(line: string) returns (value: string)
    requires StartsPeer(line)
    ensures forall r :: ReadLine(r, line) == Read(r, PUBLIC_KEY, value)
  {
    var n := |PUBLIC_KEY|;
    TrimCrKeeps(line, n);
    var t := TrimCr(line);
    assert t[..n] == t[..n + 1][..n] == line[..n + 1][..n] == PUBLIC_KEY;
    assert t[n] == t[..n + 1][n] == '=';
    value := t[n + 1..];
    assert t == PUBLIC_KEY + ['='] + value;
    CutAt(PUBLIC_KEY, '=', value);
  }

  /** Whatever came before, the lines of a new peer add what they add on their own. */
  lemma StartsAfresh(r: Reader, lines: seq<string>)
    requires lines != [] && StartsPeer(lines[0])
    ensures Flush(ReadLines(r, lines)).peers == Flush(r).peers + Flush(ReadLines(START, lines)).peers
  {
    var value := StartLine(lines[0]);
    var done := Flush(r).peers;
    var next := ReadLine(START, lines[0]);
    assert ReadLine(r, lines[0]) == Reader(done + next.peers, next.current);
    ReadsOnTop(done, next, lines[1..]);
    var t := ReadLines(next, lines[1..]);
    if t.current.Some? {
      assert done + t.peers + [t.current.value] == done + (t.peers + [t.current.value]);
    }
  }

  lemma StartsInSplit(b: string)
    requires StartsPeer(b)
    ensures StartsPeer(Split(b, '\n')[0])
  {
    var n := |PUBLIC_KEY| + 1;
    assert b[..n] == PUBLIC_KEY + ['='];
    SplitStart(b, '\n', n);
    var line := Split(b, '\n')[0];
    assert line[..n][..n - 1] == line[..n - 1] && line[..n][n - 1] == line[n - 1];
  }

  /** Reading a dump in two pieces: no attribute leaks from one peer to the next. */
  lemma Compositional(a: string, b: string)
    requires a == "" || a[|a| - 1] == '\n'
    requires StartsPeer(b)
    ensures Statuses(a + b) == Statuses(a) + Statuses(b)
  {
    StartsInSplit(b);
    if a == "" {
      assert a + b == b;
      NothingPrinted();
    } else {
      var body := a[..|a| - 1];
      assert a == body + ['\n'] + "" && a + b == body + ['\n'] + b;
      SplitConcat(body, '\n', "");
      SplitConcat(body, '\n', b);
      var r := ReadLines(START, Split(body, '\n'));
      ReadLinesConcat(START, Split(body, '\n'), [""]);
      ReadOneLine(r, "");
      ReadLinesConcat(START, Split(body, '\n'), Split(b, '\n'));
      StartsAfresh(r, Split(b, '\n'));
    }
  }

  // ----- reading back what ApplyPeers writes ----------------------------------

  /** The text of the additions for a list of users, in the order they are sent. */
  function AdditionText(added: seq<(Key, UserSnapshot)>): string {
    if added == [] then "" else Unlines(PeerLines(added[0].0, added[0].1)) + AdditionText(added[1..])
  }

  function Shown(k: Key, u: UserSnapshot): PeerStatus {
    var psk: Option<seq<byte>> := if Psk(u).Some? && !IsZero(Psk(u).value) then Some(Psk(u).value) else None;
    NewPeer(k).(presharedKey := psk, allowed := [Cidr(u)])
  }

  lemma ReadSetting(r: Reader, key: string, value: string)
    requires '=' !in key && key != "" && (value == "" || value[|value| - 1] != '\r')
    ensures ReadLine(r, Setting(key, value)) == Read(r, key, value)
  {
    var line := Setting(key, value);
    assert TrimCr(line) == line;
    CutAt(key, '=', value);
  }

  lemma HexEndsPlain(raw: seq<byte>)
    ensures HexEncode(raw) == "" || HexEncode(raw)[|HexEncode(raw)| - 1] != '\r'
  {
    HexIsPlain(raw);
  }

  lemma ReadKeyAndIp(k: Key, cidr: string)
    requires cidr == "" || cidr[|cidr| - 1] != '\r'
    ensures ReadLine(START, Setting(PUBLIC_KEY, HexEncode(k))) == Reader([], Some(NewPeer(k)))
    ensures forall r: Reader :: r.current.Some? ==>
      ReadLine(r, Setting(ALLOWED_IP, cidr))
        == r.(current := Some(r.current.value.(allowed := r.current.value.allowed + [cidr])))
  {
    var pub, ip := PUBLIC_KEY, ALLOWED_IP;
    HexEndsPlain(k);
    HexRoundTrip(k);
    ReadSetting(START, pub, HexEncode(k));
    forall r: Reader | r.current.Some?
      ensures ReadLine(r, Setting(ip, cidr)) == Read(r, ip, cidr)
    {
      ReadSetting(r, ip, cidr);
    }
  }

  lemma ReadPsk(r: Reader, psk: Key)
    requires r.current.Some?
    ensures ReadLine(r, Setting(PRESHARED_KEY, HexEncode(psk)))
         == if IsZero(psk) then r else r.(current := Some(r.current.value.(presharedKey := Some(psk))))
  {
    var key := PRESHARED_KEY;
    HexEndsPlain(psk);
    HexRoundTrip(psk);
    ReadSetting(r, key, HexEncode(psk));
  }

  lemma ReadInTurn(first: string, middle: seq<string>, last: string, r: Reader, s: Reader)
    requires r == ReadLine(START, first) && s == ReadLines(r, middle)
    ensures ReadLines(START, [first] + middle + [last]) == ReadLine(s, last)
  {
    ReadOneLine(START, first);
    ReadLinesConcat(START, [first], middle);
    ReadLinesConcat(START, [first] + middle, [last]);
    ReadOneLine(s, last);
  }

  lemma ReadAddition(k: Key, u: UserSnapshot)
    requires !u.presharedKey.BadKey?
    ensures ReadLines(START, PeerLines(k, u)) == Reader([], Some(Shown(k, u)))
  {
    var first, last := Setting(PUBLIC_KEY, HexEncode(k)), Setting(ALLOWED_IP, Cidr(u));
    var middle := if Psk(u).Some? then [Setting(PRESHARED_KEY, HexEncode(Psk(u).value))] else [];
    assert PeerLines(k, u) == [first] + middle + [last];
    var r := Reader([], Some(NewPeer(k)));
    var s := Reader([], Some(Shown(k, u).(allowed := [])));
    ReadKeyAndIp(k, Cidr(u));
    if Psk(u).Some? {
      ReadPsk(r, Psk(u).value);
      ReadOneLine(r, middle[0]);
    }
    ReadInTurn(first, middle, last, r, s);
    assert [] + [Cidr(u)] == [Cidr(u)];
  }

  lemma StatusOfAddition(k: Key, u: UserSnapshot)
    requires !u.presharedKey.BadKey? && OneLine(u.ip)
    ensures Statuses(Unlines(PeerLines(k, u))) == [Shown(k, u)]
  {
    var lines := PeerLines(k, u);
    SectionsArePlain(k, Psk(u), Cidr(u));
    SplitUnlines(lines);
    ReadAddition(k, u);
    ReadLinesConcat(START, lines, [""]);
    ReadOneLine(ReadLines(START, lines), "");
  }

  lemma AdditionTextShape(k: Key, u: UserSnapshot, rest: string)
    ensures StartsPeer(Unlines(PeerLines(k, u)) + rest)
    ensures Unlines(PeerLines(k, u))[|Unlines(PeerLines(k, u))| - 1] == '\n'
  {
    var lines := PeerLines(k, u);
    var text := Unlines(lines);
    assert text == lines[0] + "\n" + Unlines(lines[1..]);
    assert lines[0] == PUBLIC_KEY + ['='] + HexEncode(k);
    assert lines == lines[..|lines| - 1] + [lines[|lines| - 1]];
    UnlinesSnoc(lines[..|lines| - 1], lines[|lines| - 1]);
  }

  lemma NothingPrinted()
    ensures Statuses("") == []
  {
    ReadOneLine(START, "");
  }

  lemma OneMorePeer(text: string, rest: string, p: PeerStatus, peers: seq<PeerStatus>)
    requires Statuses(text) == [p] && Statuses(rest) == peers
    requires text != "" && text[|text| - 1] == '\n' && (rest == "" || StartsPeer(rest))
    ensures Statuses(text + rest) == [p] + peers
  {
    if rest == "" {
      NothingPrinted();
      assert text + rest == text;
    } else {
      Compositional(text, rest);
    }
  }

  function ShownAll(added: seq<(Key, UserSnapshot)>): seq<PeerStatus> {
    seq(|added|, i requires 0 <= i < |added| => Shown(added[i].0, added[i].1))
  }

  lemma ShownCons(k: Key, u: UserSnapshot, rest: seq<(Key, UserSnapshot)>)
    ensures ShownAll([(k, u)] + rest) == [Shown(k, u)] + ShownAll(rest)
  {
  }

  lemma NextAddition(k: Key, u: UserSnapshot, rest: seq<(Key, UserSnapshot)>)
    requires !u.presharedKey.BadKey? && OneLine(u.ip) && Statuses(AdditionText(rest)) == ShownAll(rest)
    ensures Statuses(Unlines(PeerLines(k, u)) + AdditionText(rest)) == [Shown(k, u)] + ShownAll(rest)
  {
    StatusOfAddition(k, u);
    AdditionTextShape(k, u, "");
    if rest != [] {
      AdditionTextShape(rest[0].0, rest[0].1, AdditionText(rest[1..]));
    }
    OneMorePeer(Unlines(PeerLines(k, u)), AdditionText(rest), Shown(k, u), ShownAll(rest));
  }

  /** Reading the addition lines gives back exactly the added peers, in order. */
  lemma {:induction false} AdditionsRoundTrip(added: seq<(Key, UserSnapshot)>)
    requires forall i :: 0 <= i < |added| ==> !added[i].1.presharedKey.BadKey? && OneLine(added[i].1.ip)
    ensures Statuses(AdditionText(added)) == ShownAll(added)
  {
    if added == [] {
      NothingPrinted();
    } else {
      AdditionsRoundTrip(added[1..]);
      NextAddition(added[0].0, added[0].1, added[1..]);
      ShownCons(added[0].0, added[0].1, added[1..]);
      assert added == [added[0]] + added[1..];
    }
  }
}
