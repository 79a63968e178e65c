/** `Buffer.from(text).toString('hex')`: the UTF-8 bytes of a string, as
    section 3 of RFC 3629 lays them out, written as lower-case hex. A
    decoder for each step shows that nothing is lost. */
module Utf8 {
  import opened Common

  type Byte = b: int | 0 <= b < 256

  /** A continuation byte `10xxxxxx`. */
  predicate Continuation(b: Byte)
  {
    0x80 <= b < 0xC0
  }

  /** The bytes of one scalar value: one byte below U+0080, two below
      U+0800, three below U+10000 and four above. */
  function EncodeChar(c: char): (r: seq<Byte>)
    ensures 1 <= |r| <= 4
  {
    var v := c as int;
    if v < 0x80 then [v]
    else if v < 0x800 then [0xC0 + v / 64, 0x80 + v % 64]
    else if v < 0x10000 then [0xE0 + v / 4096, 0x80 + v / 64 % 64, 0x80 + v % 64]
    else [0xF0 + v / 262144, 0x80 + v / 4096 % 64, 0x80 + v / 64 % 64, 0x80 + v % 64]
  }

  function Encode(s: string): seq<Byte>
  {
    if s == [] then [] else EncodeChar(s[0]) + Encode(s[1..])
  }

  /** A scalar value read from `n` bytes, if it is one. */
  function Scalar(v: int, n: nat): Option<(char, nat)>
  {
    if 0 <= v < 0xD800 || 0xE000 <= v < 0x110000 then Some((v as char, n)) else None
  }

  /** The first character of a byte string and how many bytes it takes. */
  function DecodeFirst(bs: seq<Byte>): (r: Option<(char, nat)>)
    requires bs != []
    ensures r.Some? ==> 1 <= r.value.1 <= |bs|
  {
    var b0: int := bs[0];
    var b1: int := if |bs| > 1 then bs[1] else 0;
    var b2: int := if |bs| > 2 then bs[2] else 0;
    var b3: int := if |bs| > 3 then bs[3] else 0;
    if b0 < 0x80 then Scalar(b0, 1)
    else if 0xC0 <= b0 < 0xE0 && |bs| >= 2 && Continuation(bs[1]) then
      Scalar((b0 - 0xC0) * 64 + (b1 - 0x80), 2)
    else if 0xE0 <= b0 < 0xF0 && |bs| >= 3 && Continuation(bs[1]) && Continuation(bs[2]) then
      Scalar((b0 - 0xE0) * 4096 + (b1 - 0x80) * 64 + (b2 - 0x80), 3)
    else if 0xF0 <= b0 < 0xF8 && |bs| >= 4 && Continuation(bs[1]) && Continuation(bs[2]) && Continuation(bs[3]) then
      Scalar((b0 - 0xF0) * 262144 + (b1 - 0x80) * 4096 + (b2 - 0x80) * 64 + (b3 - 0x80), 4)
    else None
  }

  function Decode(bs: seq<Byte>): Option<string>
    decreases |bs|
  {
    if bs == [] then Some([])
    else match DecodeFirst(bs)
      case None => None
      case Some((c, n)) =>
        match Decode(bs[n..])
        case None => None
        case Some(s) => Some([c] + s)
  }

  lemma DivMod64(x: nat)
    ensures x == x / 64 * 64 + x % 64
    ensures x / 64 / 64 == x / 4096 && x / 4096 / 64 == x / 262144
  {
  }

  /** The first character of an encoding is read back whole. */
  lemma DecodeEncodedChar(c: char, rest: seq<Byte>)
    ensures DecodeFirst(EncodeChar(c) + rest) == Some((c, |EncodeChar(c)|))
  {
    var v := c as int;
    var e := EncodeChar(c);
    var bs := e + rest;
    DivMod64(v);
    DivMod64(v / 64);
    DivMod64(v / 4096);
    if v >= 0x80 {
      assert bs[0] == e[0] && bs[1] == e[1];
    }
    if v >= 0x800 {
      assert bs[2] == e[2];
    }
    if v >= 0x10000 {
      assert bs[3] == e[3];
    }
  }

  /** Decoding undoes encoding. */
  lemma {:induction false} DecodeEncode(s: string)
    ensures Decode(Encode(s)) == Some(s)
    decreases |s|
  {
    if s != [] {
      var e := EncodeChar(s[0]);
      DecodeEncodedChar(s[0], Encode(s[1..]));
      assert (e + Encode(s[1..]))[|e|..] == Encode(s[1..]);
      DecodeEncode(s[1..]);
      assert [s[0]] + s[1..] == s;
    }
  }

  /** A digit `0-9a-f` for a value below 16. */
  function HexDigit(d: int): (ch: char)
    requires 0 <= d < 16
  {
    if d < 10 then (48 + d) as char else (87 + d) as char
  }

  function HexValue(ch: char): Option<int>
  {
    if '0' <= ch <= '9' then Some(ch as int - 48)
    else if 'a' <= ch <= 'f' then Some(ch as int - 87)
    else None
  }

  /** `toString('hex')`: two lower-case digits per byte, high nibble first. */
  function Hex(bs: seq<Byte>): (r: string)
    ensures |r| == 2 * |bs|
  {
    if bs == [] then [] else [HexDigit(bs[0] / 16), HexDigit(bs[0] % 16)] + Hex(bs[1..])
  }

  function Unhex(s: string): Option<seq<Byte>>
    decreases |s|
  {
    if s == [] then Some([])
    else if |s| == 1 then None
    else match (HexValue(s[0]), HexValue(s[1]))
      case (Some(hi), Some(lo)) =>
        (match Unhex(s[2..])
         case None => None
         case Some(rest) => Some([hi * 16 + lo] + rest))
      case _ => None
  }

  /** Reading the digits back gives the bytes. */
  lemma {:induction false} UnhexHex(bs: seq<Byte>)
    ensures Unhex(Hex(bs)) == Some(bs)
    decreases |bs|
  {
    if bs != [] {
      var h := Hex(bs);
      assert h[2..] == Hex(bs[1..]);
      assert HexValue(h[0]) == Some(bs[0] / 16) && HexValue(h[1]) == Some(bs[0] % 16);
      UnhexHex(bs[1..]);
      assert [bs[0]] + bs[1..] == bs;
    }
  }
}
