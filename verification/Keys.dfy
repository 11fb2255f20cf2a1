/** WireGuard keys. Base64 is taken as a bijection: a stored key text either decodes to 32 bytes
    or does not. Hexadecimal, which the device protocol speaks, is modelled digit by digit. */
module Keys {
  import opened Wrappers

  type byte = b: int | 0 <= b < 256
  type Key = raw: seq<byte> | |raw| == 32 witness seq(32, _ => 0)

  /** The text of a key column: empty, not the base64 of 32 bytes, or the base64 of `key`. */
  datatype KeyText = NoKey | BadKey(text: string) | GoodKey(key: Key)

  function ZeroKey(): Key { seq(32, _ => 0) }

  function HexDigit(d: nat): (c: char)
    requires d < 16
  {
    if d < 10 then ('0' as int + d) as char else ('a' as int + d - 10) as char
  }

  /** `hex.DecodeString` accepts both cases. */
  function HexValue(c: char): Option<nat> {
    if '0' <= c <= '9' then Some(c as int - '0' as int)
    else if 'a' <= c <= 'f' then Some(c as int - 'a' as int + 10)
    else if 'A' <= c <= 'F' then Some(c as int - 'A' as int + 10)
    else None
  }

  function HexEncode(raw: seq<byte>): (s: string)
    ensures |s| == 2 * |raw|
    ensures forall i :: 0 <= i < |s| ==> HexValue(s[i]).Some?
  {
    if raw == [] then "" else [HexDigit(raw[0] / 16), HexDigit(raw[0] % 16)] + HexEncode(raw[1..])
  }

  function HexDecode(s: string): Option<seq<byte>> {
    if s == [] then Some([])
    else if |s| == 1 then None
    else
      match (HexValue(s[0]), HexValue(s[1]), HexDecode(s[2..]))
      case (Some(hi), Some(lo), Some(rest)) =>
        if hi < 16 && lo < 16 then Some([hi * 16 + lo] + rest) else None
      case _ => None
  }

  lemma {:induction false} HexRoundTrip(raw: seq<byte>)
    ensures HexDecode(HexEncode(raw)) == Some(raw)
  {
    if raw == [] {
    } else {
      HexRoundTrip(raw[1..]);
      var s := HexEncode(raw);
      assert s[2..] == HexEncode(raw[1..]);
      assert raw == [raw[0]] + raw[1..];
    }
  }

  /** Both characters of byte `i` are hex digits, the high half first. */
  predicate HexByteAt(s: string, i: nat, b: int) {
    2 * i + 1 < |s| && HexValue(s[2 * i]).Some? && HexValue(s[2 * i + 1]).Some?
    && b == HexValue(s[2 * i]).value * 16 + HexValue(s[2 * i + 1]).value
  }

  lemma HexHead(s: string, tail: seq<byte>, b: byte)
    requires |s| >= 2 && HexByteAt(s, 0, b)
    requires |s| - 2 == 2 * |tail| && forall i: nat :: i < |tail| ==> HexByteAt(s[2..], i, tail[i])
    ensures forall i: nat :: i < |tail| + 1 ==> HexByteAt(s, i, ([b] + tail)[i])
  {
    forall i: nat | i < |tail| + 1 ensures HexByteAt(s, i, ([b] + tail)[i]) {
      if i > 0 {
        assert HexByteAt(s[2..], i - 1, tail[i - 1]);
        assert s[2..][2 * (i - 1)] == s[2 * i] && s[2..][2 * (i - 1) + 1] == s[2 * i + 1];
      }
    }
  }

  /** Two digits a byte, the high half first. */
  lemma {:induction false} HexShows(raw: seq<byte>)
    ensures forall i: nat :: i < |raw| ==> HexByteAt(HexEncode(raw), i, raw[i])
  {
    if raw == [] {
    } else {
      var s := HexEncode(raw);
      HexShows(raw[1..]);
      assert s[2..] == HexEncode(raw[1..]) && raw == [raw[0]] + raw[1..];
      assert HexValue(s[0]) == Some(raw[0] / 16) && HexValue(s[1]) == Some(raw[0] % 16);
      HexHead(s, raw[1..], raw[0]);
    }
  }

  /** Hex text never holds a line break or an equals sign. */
  lemma HexIsPlain(raw: seq<byte>)
    ensures '\n' !in HexEncode(raw) && '=' !in HexEncode(raw) && '\r' !in HexEncode(raw)
  {
    var s := HexEncode(raw);
    forall i | 0 <= i < |s| ensures s[i] != '\n' && s[i] != '=' && s[i] != '\r' {
      assert HexValue(s[i]).Some?;
    }
  }
}
