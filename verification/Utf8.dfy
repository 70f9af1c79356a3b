/** The UTF-8 encoding of section 3 of RFC 3629, its strict decoder, and the two-digit hex tokens of `send-keys -H`. */
module Utf8 {
  import opened Basics

  type byte = n: int | 0 <= n < 0x100

  function EncodeChar(c: char): (r: seq<byte>)
    ensures 1 <= |r| <= 4
  {
    var n := c as int;
    if n < 0x80 then [n]
    else if n < 0x800 then [0xC0 + n / 0x40, 0x80 + n % 0x40]
    else if n < 0x1_0000 then [0xE0 + n / 0x1000, 0x80 + n / 0x40 % 0x40, 0x80 + n % 0x40]
    else [0xF0 + n / 0x4_0000, 0x80 + n / 0x1000 % 0x40, 0x80 + n / 0x40 % 0x40, 0x80 + n % 0x40]
  }

  function Encode(text: string): seq<byte> {
    if text == "" then [] else EncodeChar(text[0]) + Encode(text[1..])
  }

  predicate IsTail(b: byte) {
    0x80 <= b < 0xC0
  }

  predicate IsScalar(n: int) {
    0 <= n < 0xD800 || 0xE000 <= n < 0x11_0000
  }

  /** One decoded character and the number of bytes it took. */
  datatype Head = Bad | Good(c: char, len: nat)

  /** The low six bits of a continuation byte put behind `high`. */
  function Push(high: int, b: byte): int {
    high * 0x40 + (b as int - 0x80)
  }

  /** Strict: overlong forms, surrogates and values above U+10FFFF are bad. */
  function DecodeHead(b: seq<byte>): (h: Head)
    ensures h.Good? ==> 1 <= h.len <= |b|
  {
    if |b| >= 1 && b[0] < 0x80 then Good(b[0] as char, 1)
    else if |b| >= 2 && 0xC0 <= b[0] < 0xE0 && IsTail(b[1]) then
      Checked(Push(b[0] as int - 0xC0, b[1]), 0x80, 2)
    else if |b| >= 3 && 0xE0 <= b[0] < 0xF0 && IsTail(b[1]) && IsTail(b[2]) then
      Checked(Push(Push(b[0] as int - 0xE0, b[1]), b[2]), 0x800, 3)
    else if |b| >= 4 && 0xF0 <= b[0] < 0xF8 && IsTail(b[1]) && IsTail(b[2]) && IsTail(b[3]) then
      Checked(Push(Push(Push(b[0] as int - 0xF0, b[1]), b[2]), b[3]), 0x1_0000, 4)
    else Bad
  }

  function Checked(n: int, least: int, len: nat): (h: Head)
    ensures h.Good? ==> h.len == len && h.c as int == n && n >= least
  {
    if n >= least && IsScalar(n) then Good(n as char, len) else Bad
  }

  function Decode(b: seq<byte>): Option<string>
    decreases |b|
  {
    if b == [] then Some("") else
    match DecodeHead(b)
    case Bad => None
    case Good(c, len) =>
      match Decode(b[len..])
      case None => None
      case Some(rest) => Some([c] + rest)
  }

  /** Examples of section 7 of RFC 3629, by code points. */
  lemma Rfc3629Examples()
    ensures Encode([0x41 as char, 0x2262 as char]) == [0x41, 0xE2, 0x89, 0xA2]
    ensures Encode([0x391 as char, 0x2E as char]) == [0xCE, 0x91, 0x2E]
    ensures Encode([0xD55C as char]) == [0xED, 0x95, 0x9C]
    ensures Encode([0x2_33B4 as char]) == [0xF0, 0xA3, 0x8E, 0xB4]
  {
    EncodeTwo(0x41 as char, 0x2262 as char);
    EncodeTwo(0x391 as char, 0x2E as char);
  }

  lemma EncodeTwo(c: char, d: char)
    ensures Encode([c, d]) == EncodeChar(c) + EncodeChar(d)
  {
    assert [c, d][1..] == [d] && [d][1..] == [];
    assert Encode([d]) == EncodeChar(d) + [];
  }

  lemma Pushed(n: nat)
    ensures Push(n / 0x40, 0x80 + n % 0x40) == n
  {
  }

  lemma HeadOfEncoded(c: char, rest: seq<byte>)
    ensures DecodeHead(EncodeChar(c) + rest) == Good(c, |EncodeChar(c)|)
  {
    if c as int < 0x800 { HeadOfShort(c, rest); }
      else if c as int < 0x1_0000 { HeadOfThree(c, rest); }
      else { HeadOfFour(c, rest); }
  }

  lemma HeadOfShort(c: char, rest: seq<byte>)
    requires c as int < 0x800
    ensures DecodeHead(EncodeChar(c) + rest) == Good(c, |EncodeChar(c)|)
  {
    var e := EncodeChar(c);
    assert forall k :: 0 <= k < |e| ==> (e + rest)[k] == e[k];
    Pushed(c as int);
  }

  lemma HeadOfThree(c: char, rest: seq<byte>)
    requires 0x800 <= c as int < 0x1_0000
    ensures DecodeHead(EncodeChar(c) + rest) == Good(c, |EncodeChar(c)|)
  {
    var n, e := c as int, EncodeChar(c);
    var b := e + rest;
    assert b[0] == e[0] && b[1] == e[1] && b[2] == e[2];
    Pushed(n);
    Pushed(n / 0x40);
    assert n / 0x40 / 0x40 == n / 0x1000;
  }

  lemma HeadOfFour(c: char, rest: seq<byte>)
    requires 0x1_0000 <= c as int
    ensures DecodeHead(EncodeChar(c) + rest) == Good(c, |EncodeChar(c)|)
  {
    var n, e := c as int, EncodeChar(c);
    var b := e + rest;
    assert b[0] == e[0] && b[1] == e[1] && b[2] == e[2] && b[3] == e[3];
    Pushed(n);
    Pushed(n / 0x40);
    Pushed(n / 0x1000);
    assert n / 0x40 / 0x40 == n / 0x1000 && n / 0x1000 / 0x40 == n / 0x4_0000;
  }

  /** Decoding an encoded text returns it. */
  lemma {:induction false} DecodeEncode(text: string)
    ensures Decode(Encode(text)) == Some(text)
  {
    if text != "" {
      var e, rest := EncodeChar(text[0]), Encode(text[1..]);
      HeadOfEncoded(text[0], rest);
      assert (e + rest)[|e|..] == rest;
      DecodeEncode(text[1..]);
      assert [text[0]] + text[1..] == text;
    }
  }

  lemma Popped(high: nat, b: byte)
    requires IsTail(b)
    ensures Push(high, b) / 0x40 == high && Push(high, b) % 0x40 == b - 0x80
  {
  }

  lemma HeadIsEncoded(b: seq<byte>)
    requires DecodeHead(b).Good?
    ensures EncodeChar(DecodeHead(b).c) == b[..DecodeHead(b).len]
  {
    var h := DecodeHead(b);
    if h.len == 2 {
      Popped(b[0] - 0xC0, b[1]);
    } else if h.len == 3 {
      ThreeBytes(b[0] - 0xE0, b[1], b[2]);
    } else if h.len == 4 {
      ThreeBytes(Push(b[0] as int - 0xF0, b[1]), b[2], b[3]);
      Popped(b[0] - 0xF0, b[1]);
    }
  }

  lemma ThreeBytes(high: nat, x: byte, y: byte)
    requires IsTail(x) && IsTail(y)
    ensures var n := Push(Push(high, x), y);
      n >= 0 && n / 0x1000 == high && n / 0x40 % 0x40 == x - 0x80 && n % 0x40 == y - 0x80
    ensures var n := Push(Push(high, x), y); n / 0x4_0000 == high / 0x40 && n / 0x1000 % 0x40 == high % 0x40
  {
    Popped(high, x);
    Popped(Push(high, x), y);
  }

  lemma EncodeGlued(b: seq<byte>, len: nat, c: char, tail: string)
    requires len <= |b| && EncodeChar(c) == b[..len] && Encode(tail) == b[len..]
    ensures Encode([c] + tail) == b
  {
    assert ([c] + tail)[1..] == tail;
    assert b[..len] + b[len..] == b;
  }

  /** A decodable byte string is the encoding of what it decodes to. */
  lemma {:induction false} EncodeDecode(b: seq<byte>)
    requires Decode(b).Some?
    ensures Encode(Decode(b).value) == b
    decreases |b|
  {
    if b != [] {
      var h := DecodeHead(b);
      HeadIsEncoded(b);
      EncodeDecode(b[h.len..]);
      EncodeGlued(b, h.len, h.c, Decode(b[h.len..]).value);
    }
  }

  /** Bytes below 0x80 stand for the ASCII characters of the text and for nothing else. */
  lemma {:induction false} AsciiBytes(text: string, b: byte)
    requires b < 0x80
    ensures b in Encode(text) <==> b as char in text
  {
    if text != "" {
      AsciiBytes(text[1..], b);
      assert text == [text[0]] + text[1..];
      AsciiByte(text[0], b);
    }
  }

  lemma AsciiByte(c: char, b: byte)
    requires b < 0x80
    ensures b in EncodeChar(c) <==> b as char == c
  {
  }

  // ---------------------------------------------------------------------------
  // Hex tokens
  // ---------------------------------------------------------------------------

  function HexDigit(n: int): (c: char)
    requires 0 <= n < 16
    ensures IsDigit(c) || 'a' <= c <= 'f'
  {
    if n < 10 then '0' + n as char else 'a' + (n - 10) as char
  }

  function HexToken(b: byte): (t: string)
    ensures |t| == 2
  {
    [HexDigit(b / 16), HexDigit(b % 16)]
  }

  /** `hex_tokens`: one lowercase two-digit token per byte. */
  function HexTokens(bytes: seq<byte>): (tokens: seq<string>)
    ensures |tokens| == |bytes|
    ensures forall k :: 0 <= k < |bytes| ==> tokens[k] == HexToken(bytes[k])
  {
    if bytes == [] then [] else [HexToken(bytes[0])] + HexTokens(bytes[1..])
  }

  /** Sixteen lowercase digits, the high one first. */
  lemma HexTokenIs(b: byte)
    ensures HexToken(b) == ["0123456789abcdef"[b / 16], "0123456789abcdef"[b % 16]]
  {
    HexDigitIs(b / 16);
    HexDigitIs(b % 16);
  }

  lemma HexDigitIs(n: int)
    requires 0 <= n < 16
    ensures HexDigit(n) == "0123456789abcdef"[n]
  {
  }

  function HexValue(c: char): int {
    if IsDigit(c) then c as int - '0' as int else if 'a' <= c <= 'f' then c as int - 'a' as int + 10 else -1
  }

  /** How `send-keys -H` reads its tokens back. */
  function ReadHex(tokens: seq<string>): Option<seq<byte>> {
    if tokens == [] then Some([]) else
    var t := tokens[0];
    if |t| != 2 || HexValue(t[0]) < 0 || HexValue(t[1]) < 0 then None else
    match ReadHex(tokens[1..])
    case None => None
    case Some(rest) => Some([HexValue(t[0]) * 16 + HexValue(t[1])] + rest)
  }

  lemma {:induction false} ReadHexTokens(bytes: seq<byte>)
    ensures ReadHex(HexTokens(bytes)) == Some(bytes)
  {
    if bytes != [] {
      ReadHexTokens(bytes[1..]);
      assert HexTokens(bytes)[1..] == HexTokens(bytes[1..]);
      var d, m := bytes[0] / 16, bytes[0] % 16;
      assert [bytes[0]] + bytes[1..] == bytes;
      assert HexValue(HexDigit(d)) == d && HexValue(HexDigit(m)) == m;
    }
  }
}
