/** Port lists as text: `parsePorts` of daemon/api/services.go and the two printers it must undo. */
module Ports {
  import opened Wrappers
  import opened Text
  import opened Schema

  // ----- parsing --------------------------------------------------------------

  function PortNumber(s: string): Option<int> {
    match ParseInt(s)
    case Some(n) => if 0 < n <= 65535 then Some(n) else None
    case None => None
  }

  /** One entry between commas; a blank one says nothing, one without protocol says both. */
  function Entry(raw: string): Option<seq<PortSpec>> {
    var entry := TrimSpace(raw);
    if entry == "" then Some([]) else
    var (portStr, proto) := match Cut(entry, '/') case Some(p) => (p.0, Lower(p.1)) case None => (entry, "");
    match PortNumber(portStr)
    case None => None
    case Some(n) =>
      if proto == "tcp" || proto == "udp" then Some([PortSpec(n, proto)])
      else if proto == "" then Some([PortSpec(n, "tcp"), PortSpec(n, "udp")])
      else None
  }

  type EntryParser = string -> Option<seq<PortSpec>>

  /** The entries in order; one bad entry refuses them all. */
  function Collect(parse: EntryParser, parts: seq<string>): Option<seq<PortSpec>> {
    if parts == [] then Some([])
    else match (Collect(parse, parts[..|parts| - 1]), parse(parts[|parts| - 1]))
      case (Some(before), Some(last)) => Some(before + last)
      case _ => None
  }

  function Entries(parts: seq<string>): Option<seq<PortSpec>> { Collect(Entry, parts) }

  function ParsedPorts(spec: string): Option<seq<PortSpec>> {
    var s := TrimSpace(spec);
    if s == "" then Some([]) else Entries(Split(s, ','))
  }

  lemma CollectSnoc(parse: EntryParser, parts: seq<string>, i: nat, out: seq<PortSpec>)
    requires i < |parts| && Collect(parse, parts[..i]) == Some(out)
    ensures match parse(parts[i])
      case None => Collect(parse, parts).None?
      case Some(more) => Collect(parse, parts[..i + 1]) == Some(out + more) && (more == [] ==> out + more == out)
  {
    assert parts[..i + 1][..i] == parts[..i];
    if parse(parts[i]).None? { CollectFails(parse, parts, i + 1); }
  }

  lemma {:induction false} CollectFails(parse: EntryParser, parts: seq<string>, i: nat)
    requires i <= |parts| && Collect(parse, parts[..i]).None?
    ensures Collect(parse, parts).None?
  {
    if i < |parts| {
      assert parts[..|parts| - 1][..i] == parts[..i];
      CollectFails(parse, parts[..|parts| - 1], i);
    } else {
      assert parts[..i] == parts;
    }
  }

  method ParsePorts(spec: string) returns (r: Option<seq<PortSpec>>)
    ensures r == ParsedPorts(spec)
  {
    var s := TrimSpace(spec);
    if s == "" { return Some([]); }
    var out: seq<PortSpec> := [];
    var parts := Split(s, ',');
    for i := 0 to |parts|
      invariant Entries(parts[..i]) == Some(out)
    {
      CollectSnoc(Entry, parts, i, out);
      var raw := TrimSpace(parts[i]);
      if raw == "" { continue; }
      var portStr, proto := raw, "";
      var cut := Cut(raw, '/');
      if cut.Some? { portStr, proto := cut.value.0, Lower(cut.value.1); }
      var port := ParseInt(portStr);
      if port.None? || port.value <= 0 || port.value > 65535 {
        return None;
      }
      if proto == "tcp" {
        out := out + [PortSpec(port.value, "tcp")];
      } else if proto == "udp" {
        out := out + [PortSpec(port.value, "udp")];
      } else if proto == "" {
        out := out + [PortSpec(port.value, "tcp"), PortSpec(port.value, "udp")];
      } else {
        return None;
      }
    }
    assert parts[..|parts|] == parts;
    return Some(out);
  }

  lemma {:induction false} CollectValid(parse: EntryParser, parts: seq<string>)
    requires Collect(parse, parts).Some?
    requires forall raw :: parse(raw).Some? ==> AllValid(parse(raw).value)
    ensures AllValid(Collect(parse, parts).value)
  {
    if parts == [] {
    } else {
      CollectValid(parse, parts[..|parts| - 1]);
    }
  }

  lemma EntryValid(raw: string)
    ensures Entry(raw).Some? ==> AllValid(Entry(raw).value)
  {
  }

  /** Everything accepted is a port the store takes. */
  lemma ParsedValid(spec: string)
    requires ParsedPorts(spec).Some?
    ensures AllValid(ParsedPorts(spec).value)
  {
    forall raw ensures Entry(raw).Some? ==> AllValid(Entry(raw).value) { EntryValid(raw); }
    if TrimSpace(spec) != "" { CollectValid(Entry, Split(TrimSpace(spec), ',')); }
  }

  ghost predicate AllValid(ports: seq<PortSpec>) { forall i :: 0 <= i < |ports| ==> ValidPort(ports[i]) }

  // ----- printing -------------------------------------------------------------

  /** `%d`. */
  function PrintInt(n: int): string {
    if n < 0 then "-" + Decimal(-n) else Decimal(n)
  }

  function Label(p: PortSpec): string { PrintInt(p.port) + ['/'] + p.protocol }

  function Labels(ports: seq<PortSpec>): seq<string> {
    seq(|ports|, i requires 0 <= i < |ports| => Label(ports[i]))
  }

  /** `strings.Join`. */
  function Join(parts: seq<string>, sep: string): string {
    if parts == [] then "" else if |parts| == 1 then parts[0] else parts[0] + sep + Join(parts[1..], sep)
  }

  /** `formatPorts` of the command line. */
  method FormatPorts(ports: seq<PortSpec>) returns (s: string)
    ensures s == if ports == [] then "all" else Join(Labels(ports), ",")
  {
    if |ports| == 0 { return "all"; }
    var parts: seq<string> := [];
    for i := 0 to |ports|
      invariant parts == Labels(ports[..i])
    {
      assert Labels(ports[..i + 1]) == Labels(ports[..i]) + [Label(ports[i])];
      parts := parts + [Label(ports[i])];
    }
    assert ports[..|ports|] == ports;
    s := Join(parts, ",");
  }

  /** `portsLabel` of the web form. */
  function PortsLabel(ports: seq<PortSpec>): string { Join(Labels(ports), ", ") }

  // ----- lists as people write them -------------------------------------------

  ghost predicate Blank(s: string) { forall c :: c in s ==> IsSpace(c) }

  /** A number, a protocol in any case or none, and blanks around it. */
  datatype Written = Written(lead: string, number: nat, protocol: Option<string>, trail: string)

  function Body(e: Written): string {
    if e.protocol.Some? then Decimal(e.number) + ['/'] + e.protocol.value else Decimal(e.number)
  }

  function WrittenText(e: Written): string { e.lead + Body(e) + e.trail }

  ghost predicate Padded(e: Written) {
    && Blank(e.lead) && Blank(e.trail)
    && (e.protocol.Some? ==> e.protocol.value == "" || !IsSpace(e.protocol.value[|e.protocol.value| - 1]))
  }

  function Protocol(e: Written): string { if e.protocol.Some? then Lower(e.protocol.value) else "" }

  predicate GoodEntry(e: Written) {
    1 <= e.number <= 65535 && (Protocol(e) == "tcp" || Protocol(e) == "udp" || Protocol(e) == "")
  }

  /** Without protocol it stands for both. */
  function Meaning(e: Written): seq<PortSpec> {
    if Protocol(e) == "" then [PortSpec(e.number, "tcp"), PortSpec(e.number, "udp")]
    else [PortSpec(e.number, Protocol(e))]
  }

  lemma {:induction false} TrimLeftBlank(pad: string, s: string)
    requires Blank(pad)
    ensures TrimLeft(pad + s) == TrimLeft(s)
  {
    if pad == "" {
      assert pad + s == s;
    } else {
      assert (pad + s)[1..] == pad[1..] + s;
      TrimLeftBlank(pad[1..], s);
    }
  }

  lemma {:induction false} TrimRightBlank(s: string, pad: string)
    requires Blank(pad) && s != "" && !IsSpace(s[|s| - 1])
    ensures TrimRight(s + pad) == s
    decreases |pad|
  {
    if pad == "" {
      assert s + pad == s;
    } else {
      var init := pad[..|pad| - 1];
      assert (s + pad)[..|s + pad| - 1] == s + init;
      assert pad[|pad| - 1] in pad;
      TrimRightBlank(s, init);
    }
  }

  lemma TrimPadded(lead: string, s: string, trail: string)
    requires Blank(lead) && Blank(trail) && s != "" && !IsSpace(s[0]) && !IsSpace(s[|s| - 1])
    ensures TrimSpace(lead + s + trail) == s
  {
    assert lead + s + trail == lead + (s + trail);
    TrimLeftBlank(lead, s + trail);
    assert (s + trail)[0] == s[0];
    TrimRightBlank(s, trail);
  }

  lemma BodyEnds(e: Written)
    requires Padded(e)
    ensures Body(e) != "" && !IsSpace(Body(e)[0]) && !IsSpace(Body(e)[|Body(e)| - 1])
  {
    DecimalRoundTrip(e.number);
    var d := Decimal(e.number);
    assert IsDigit(d[0]) && IsDigit(d[|d| - 1]) && Body(e)[0] == d[0];
  }

  lemma NumberOfDecimal(n: nat)
    ensures PortNumber(Decimal(n)) == if 1 <= n <= 65535 then Some(n) else None
  {
    DecimalRoundTrip(n);
    assert IsDigit(Decimal(n)[0]);
  }

  lemma DecimalHasNoSlash(n: nat)
    ensures '/' !in Decimal(n)
  {
    DecimalRoundTrip(n);
  }

  lemma BodyCut(e: Written)
    ensures Cut(Body(e), '/') == if e.protocol.Some? then Some((Decimal(e.number), e.protocol.value)) else None
  {
    DecimalHasNoSlash(e.number);
    if e.protocol.Some? { CutAt(Decimal(e.number), '/', e.protocol.value); } else { CutNone(Decimal(e.number), '/'); }
  }

  /** One written entry is read as the ports it stands for, and refused exactly when its number is out
      of range or its protocol unknown. */
  lemma EntryMeans(e: Written)
    requires Padded(e)
    ensures Entry(WrittenText(e)) == if GoodEntry(e) then Some(Meaning(e)) else None
  {
    BodyEnds(e);
    TrimPadded(e.lead, Body(e), e.trail);
    BodyCut(e);
    NumberOfDecimal(e.number);
    LowerEmpty();
  }

  lemma LowerEmpty()
    ensures Lower("") == ""
  {
  }

  /** The entries between commas. */
  function ListText(entries: seq<Written>): string
    requires entries != []
  {
    if |entries| == 1 then WrittenText(entries[0])
    else WrittenText(entries[0]) + [','] + ListText(entries[1..])
  }

  ghost predicate AllGood(entries: seq<Written>) {
    forall i :: 0 <= i < |entries| ==> Padded(entries[i]) && GoodEntry(entries[i])
  }

  function Meanings(entries: seq<Written>): seq<PortSpec> {
    if entries == [] then [] else Meaning(entries[0]) + Meanings(entries[1..])
  }

  lemma CommaIsLower(s: string, i: nat)
    requires i < |s| && s[i] == ','
    ensures Lower(s)[i] == ','
  {
  }

  lemma ProtocolHasNoComma(s: string)
    requires Lower(s) == "tcp" || Lower(s) == "udp" || Lower(s) == ""
    ensures ',' !in s
  {
    forall i | 0 <= i < |s| ensures s[i] != ',' {
      if s[i] == ',' { CommaIsLower(s, i); }
    }
  }

  lemma WrittenHasNoComma(e: Written)
    requires Padded(e) && GoodEntry(e)
    ensures ',' !in WrittenText(e)
  {
    DecimalRoundTrip(e.number);
    if e.protocol.Some? { ProtocolHasNoComma(e.protocol.value); }
  }

  lemma {:induction false} CollectCons(parse: EntryParser, first: string, rest: seq<string>)
    requires parse(first).Some? && Collect(parse, rest).Some?
    ensures Collect(parse, [first] + rest) == Some(parse(first).value + Collect(parse, rest).value)
  {
    var all := [first] + rest;
    if rest == [] {
      assert all[..|all| - 1] == [] && [] + parse(first).value == parse(first).value + [];
    } else {
      assert all[..|all| - 1] == [first] + rest[..|rest| - 1];
      CollectCons(parse, first, rest[..|rest| - 1]);
      var a, b, c := parse(first).value, Collect(parse, rest[..|rest| - 1]).value, parse(rest[|rest| - 1]).value;
      assert all[|all| - 1] == rest[|rest| - 1] && (a + b) + c == a + (b + c);
    }
  }

  /** The parser reads every good entry as the ports it stands for. */
  ghost predicate ReadsEntries(parse: EntryParser) {
    forall e :: Padded(e) && GoodEntry(e) ==> parse(WrittenText(e)) == Some(Meaning(e))
  }

  lemma CollectLast(parse: EntryParser, text: string, ports: seq<PortSpec>)
    requires ',' !in text && parse(text) == Some(ports)
    ensures Collect(parse, Split(text, ',')) == Some(ports)
  {
    SplitWhole(text, ',');
    CollectCons(parse, text, []);
    assert [text] + [] == [text] && ports + [] == ports;
  }

  lemma CollectNext(parse: EntryParser, text: string, ports: seq<PortSpec>, tail: string, rest: seq<PortSpec>)
    requires ',' !in text && parse(text) == Some(ports) && Collect(parse, Split(tail, ',')) == Some(rest)
    ensures Collect(parse, Split(text + [','] + tail, ',')) == Some(ports + rest)
  {
    SplitConcat(text, ',', tail);
    SplitWhole(text, ',');
    CollectCons(parse, text, Split(tail, ','));
  }

  lemma {:induction false} CollectWritten(parse: EntryParser, entries: seq<Written>)
    requires ReadsEntries(parse) && entries != [] && AllGood(entries)
    ensures Collect(parse, Split(ListText(entries), ',')) == Some(Meanings(entries))
    decreases |entries|
  {
    var e, rest := entries[0], entries[1..];
    WrittenHasNoComma(e);
    if |entries| == 1 {
      CollectLast(parse, WrittenText(e), Meaning(e));
      assert Meanings(rest) == [] && Meaning(e) + [] == Meaning(e);
    } else {
      CollectWritten(parse, rest);
      CollectNext(parse, WrittenText(e), Meaning(e), ListText(rest), Meanings(rest));
    }
  }

  predicate EndsSolid(s: string) { s != "" && !IsSpace(s[|s| - 1]) }

  predicate StartsSolid(s: string) { s != "" && !IsSpace(s[0]) }

  lemma {:induction false} ListEnds(entries: seq<Written>)
    requires entries != [] && AllGood(entries) && entries[|entries| - 1].trail == ""
    ensures EndsSolid(ListText(entries))
    decreases |entries|
  {
    if |entries| == 1 {
      TextEnds(entries[0]);
    } else {
      ListEnds(entries[1..]);
      LastOfTail(WrittenText(entries[0]) + [','], ListText(entries[1..]));
    }
  }

  lemma TextEnds(e: Written)
    requires Padded(e) && e.trail == ""
    ensures EndsSolid(WrittenText(e))
  {
    BodyEnds(e);
    LastOfTail(e.lead, Body(e));
    LastOfText(e.lead + Body(e), e.trail);
  }

  lemma LastOfText(s: string, none: string)
    requires EndsSolid(s) && none == ""
    ensures EndsSolid(s + none)
  {
    assert s + none == s;
  }

  lemma LastOfTail(a: string, b: string)
    requires EndsSolid(b)
    ensures EndsSolid(a + b)
  {
    assert (a + b)[|a + b| - 1] == b[|b| - 1];
  }

  lemma ListStarts(entries: seq<Written>)
    requires entries != [] && AllGood(entries) && entries[0].lead == ""
    ensures StartsSolid(ListText(entries))
  {
    BodyEnds(entries[0]);
    FirstOfText(entries[0].lead, Body(entries[0]), entries[0].trail);
    if |entries| > 1 { FirstOfHead(WrittenText(entries[0]), [','], ListText(entries[1..])); }
  }

  lemma FirstOfText(none: string, s: string, trail: string)
    requires none == "" && StartsSolid(s)
    ensures StartsSolid(none + s + trail)
  {
    assert (none + s + trail)[0] == s[0];
  }

  lemma FirstOfHead(a: string, b: string, c: string)
    requires StartsSolid(a)
    ensures StartsSolid(a + b + c)
  {
    assert (a + b + c)[0] == a[0];
  }

  lemma ParsedPadded(lead: string, s: string, trail: string)
    requires Blank(lead) && Blank(trail) && StartsSolid(s) && EndsSolid(s)
    ensures ParsedPorts(lead + s + trail) == Collect(Entry, Split(s, ','))
  {
    TrimPadded(lead, s, trail);
  }

  lemma EntryReadsEntries()
    ensures ReadsEntries(Entry)
  {
    forall e | Padded(e) && GoodEntry(e) ensures Entry(WrittenText(e)) == Some(Meaning(e)) { EntryMeans(e); }
  }

  /** A list of written entries, with blanks anywhere around them, is read as the ports they stand for,
      in order. */
  lemma ListMeans(lead: string, entries: seq<Written>, trail: string)
    requires Blank(lead) && Blank(trail) && entries != [] && AllGood(entries)
    requires entries[0].lead == "" && entries[|entries| - 1].trail == ""
    ensures ParsedPorts(lead + ListText(entries) + trail) == Some(Meanings(entries))
  {
    ListStarts(entries);
    ListEnds(entries);
    ParsedPadded(lead, ListText(entries), trail);
    EntryReadsEntries();
    CollectWritten(Entry, entries);
  }

  // ----- printing and parsing are inverse -------------------------------------

  /** Printed ports as written entries. */
  function Printed(lead: string, pad: string, ports: seq<PortSpec>): seq<Written>
    requires AllValid(ports)
    decreases |ports|
  {
    if ports == [] then []
    else [Written(lead, ports[0].port, Some(ports[0].protocol), "")] + Printed(pad, pad, ports[1..])
  }

  lemma ProtocolIsLower(protocol: string)
    requires protocol == "tcp" || protocol == "udp"
    ensures Lower(protocol) == protocol
  {
    LowerFixed(protocol);
  }

  lemma PrintedEntry(lead: string, p: PortSpec)
    requires Blank(lead) && ValidPort(p)
    ensures var e := Written(lead, p.port, Some(p.protocol), "");
      Padded(e) && GoodEntry(e) && Meaning(e) == [p] && WrittenText(e) == lead + Label(p)
  {
    ProtocolIsLower(p.protocol);
    assert p.protocol[|p.protocol| - 1] == 'p';
  }

  lemma {:induction false} PrintedGood(lead: string, pad: string, ports: seq<PortSpec>)
    requires Blank(lead) && Blank(pad) && AllValid(ports)
    ensures |Printed(lead, pad, ports)| == |ports| && AllGood(Printed(lead, pad, ports))
    decreases |ports|
  {
    if ports == [] {
    } else {
      PrintedEntry(lead, ports[0]);
      PrintedGood(pad, pad, ports[1..]);
      GoodCons(Written(lead, ports[0].port, Some(ports[0].protocol), ""), Printed(pad, pad, ports[1..]));
    }
  }

  lemma {:induction false} PrintedEnds(lead: string, pad: string, ports: seq<PortSpec>)
    requires AllValid(ports) && ports != []
    ensures var entries := Printed(lead, pad, ports);
      entries != [] && entries[0].lead == lead && entries[|entries| - 1].trail == ""
    decreases |ports|
  {
    if |ports| == 1 {
    } else {
      PrintedEnds(pad, pad, ports[1..]);
    }
  }

  lemma {:induction false} PrintedMeans(lead: string, pad: string, ports: seq<PortSpec>)
    requires Blank(lead) && Blank(pad) && AllValid(ports)
    ensures Meanings(Printed(lead, pad, ports)) == ports
    decreases |ports|
  {
    if ports == [] {
    } else {
      var e := Written(lead, ports[0].port, Some(ports[0].protocol), "");
      PrintedEntry(lead, ports[0]);
      PrintedGood(pad, pad, ports[1..]);
      PrintedMeans(pad, pad, ports[1..]);
      GoodCons(e, Printed(pad, pad, ports[1..]));
      assert Meaning(e) + ports[1..] == ports;
    }
  }

  lemma GoodCons(e: Written, rest: seq<Written>)
    requires Padded(e) && GoodEntry(e) && AllGood(rest)
    ensures AllGood([e] + rest) && Meanings([e] + rest) == Meaning(e) + Meanings(rest)
  {
    assert ([e] + rest)[1..] == rest;
  }

  lemma {:induction false} PrintedText(lead: string, pad: string, ports: seq<PortSpec>)
    requires Blank(lead) && Blank(pad) && ports != [] && AllValid(ports)
    ensures ListText(Printed(lead, pad, ports)) == lead + Join(Labels(ports), "," + pad)
    decreases |ports|
  {
    var p, rest := ports[0], Printed(pad, pad, ports[1..]);
    var e := Written(lead, p.port, Some(p.protocol), "");
    PrintedEntry(lead, p);
    PrintedGood(pad, pad, ports[1..]);
    ListTextCons(e, rest);
    if |ports| == 1 {
      JoinOne(ports, "," + pad);
    } else {
      PrintedText(pad, pad, ports[1..]);
      JoinCons(ports, "," + pad);
      Regroup(lead, Label(p), pad, Join(Labels(ports[1..]), "," + pad));
    }
  }

  lemma ListTextCons(e: Written, rest: seq<Written>)
    ensures ListText([e] + rest) == if rest == [] then WrittenText(e) else WrittenText(e) + [','] + ListText(rest)
  {
    assert ([e] + rest)[1..] == rest;
  }

  lemma JoinOne(ports: seq<PortSpec>, sep: string)
    requires |ports| == 1
    ensures Join(Labels(ports), sep) == Label(ports[0])
  {
  }

  lemma JoinCons(ports: seq<PortSpec>, sep: string)
    requires |ports| > 1
    ensures Join(Labels(ports), sep) == Label(ports[0]) + sep + Join(Labels(ports[1..]), sep)
  {
    assert Labels(ports)[1..] == Labels(ports[1..]);
  }

  lemma Regroup(a: string, b: string, c: string, d: string)
    ensures a + b + [','] + (c + d) == a + (b + ("," + c) + d)
  {
  }

  /** Parsing undoes printing, for any list of proper ports and any blanks after the commas. */
  lemma PrintParse(pad: string, ports: seq<PortSpec>)
    requires Blank(pad) && ports != [] && AllValid(ports)
    ensures ParsedPorts(Join(Labels(ports), "," + pad)) == Some(ports)
  {
    PrintedParse("", pad, ports);
  }

  lemma PrintedParse(none: string, pad: string, ports: seq<PortSpec>)
    requires none == "" && Blank(pad) && ports != [] && AllValid(ports)
    ensures ParsedPorts(Join(Labels(ports), "," + pad)) == Some(ports)
  {
    PrintedGood(none, pad, ports);
    PrintedEnds(none, pad, ports);
    PrintedMeans(none, pad, ports);
    PrintedText(none, pad, ports);
    ListMeans(none, Printed(none, pad, ports), none);
    NoPadding(none, Join(Labels(ports), "," + pad));
  }

  lemma NoPadding(none: string, s: string)
    requires none == ""
    ensures none + (none + s) + none == s
  {
  }

  /** Both printers are undone; an empty list prints as text that does not parse or as nothing. */
  lemma PrintersRoundTrip(ports: seq<PortSpec>)
    requires ports != [] && AllValid(ports)
    ensures ParsedPorts(Join(Labels(ports), ",")) == Some(ports)
    ensures ParsedPorts(PortsLabel(ports)) == Some(ports)
  {
    PrintParse("", ports);
    PrintParse(" ", ports);
    assert "," + "" == "," && "," + " " == ", ";
  }

  /** Parsing, printing and parsing again changes nothing, whatever was accepted. */
  lemma ParsePrintParse(spec: string)
    requires ParsedPorts(spec).Some? && ParsedPorts(spec).value != []
    ensures ParsedPorts(Join(Labels(ParsedPorts(spec).value), ",")) == ParsedPorts(spec)
  {
    ParsedValid(spec);
    PrintersRoundTrip(ParsedPorts(spec).value);
  }

  /** The empty list is the exception: its printed form "all" is refused by the parser. */
  lemma AllIsRefused()
    ensures ParsedPorts("all").None?
  {
    var s := "all";
    assert Trimmed(s);
    SplitWhole(s, ',');
    assert [s][..0] == [];
    CutNone(s, '/');
    assert Entries([s]).None?;
  }

  lemma {:induction false} CutNone(s: string, sep: char)
    requires sep !in s
    ensures Cut(s, sep).None?
  {
    if s == [] {
    } else {
      CutNone(s[1..], sep);
    }
  }
}
