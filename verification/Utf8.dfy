/** Text as bytes: UTF-8 (RFC 3629), as strings are encoded and strictly decoded. */
module Utf8 {
  import opened Wrappers

  type byte = b: int | 0 <= b < 256

  function EncodeChar(c: char): (bytes: seq<byte>)
    ensures 1 <= |bytes| <= 4
  {
    var n := c as int;
    if n < 0x80 then [n]
    else if n < 0x800 then [0xC0 + n / 0x40, 0x80 + n % 0x40]
    else if n < 0x1_0000 then [0xE0 + n / 0x1000, 0x80 + n / 0x40 % 0x40, 0x80 + n % 0x40]
    else [0xF0 + n / 0x4_0000, 0x80 + n / 0x1000 % 0x40, 0x80 + n / 0x40 % 0x40, 0x80 + n % 0x40]
  }

  function Encode(text: string): (bytes: seq<byte>)
    ensures |text| <= |bytes|
  {
    if text == "" then [] else EncodeChar(text[0]) + Encode(text[1..])
  }

  predicate Continues(b: byte) {
    0x80 <= b < 0xC0
  }

  /** The low bits of a byte, above the given marker. */
  function Bits(b: byte, marker: int): int {
    b - marker
  }

  function Scalar(n: int): Option<char> {
    if 0 <= n < 0xD800 || 0xE000 <= n < 0x11_0000 then Some(n as char) else None
  }

  /** The first character of `bytes` and how many bytes it takes; nothing for a stray
      continuation byte, a truncated or overlong form, a surrogate or a value out of range. */
  function DecodeChar(bytes: seq<byte>): (r: Option<(char, nat)>)
    ensures r.Some? ==> 1 <= r.value.1 <= |bytes|
  {
    if bytes == [] then None
    else
      var b := bytes[0];
      if b < 0x80 then Some((b as char, 1))
      else if 0xC2 <= b < 0xE0 && |bytes| >= 2 && Continues(bytes[1]) then
        Some(((Bits(b, 0xC0) * 0x40 + Bits(bytes[1], 0x80)) as char, 2))
      else if 0xE0 <= b < 0xF0 && |bytes| >= 3 && Continues(bytes[1]) && Continues(bytes[2]) then
        var n := Bits(b, 0xE0) * 0x1000 + Bits(bytes[1], 0x80) * 0x40 + Bits(bytes[2], 0x80);
        if n < 0x800 || Scalar(n) == None then None else Some((Scalar(n).value, 3))
      else if 0xF0 <= b < 0xF8 && |bytes| >= 4 && Continues(bytes[1]) && Continues(bytes[2]) && Continues(bytes[3]) then
        var n := Bits(b, 0xF0) * 0x4_0000 + Bits(bytes[1], 0x80) * 0x1000 + Bits(bytes[2], 0x80) * 0x40
            + Bits(bytes[3], 0x80);
        if n < 0x1_0000 || Scalar(n) == None then None else Some((Scalar(n).value, 4))
      else None
  }

  function Decode(bytes: seq<byte>): Option<string> {
    if bytes == [] then Some("")
    else
      match DecodeChar(bytes)
      case None => None
      case Some((c, n)) =>
        match Decode(bytes[n..])
        case None => None
        case Some(rest) => Some([c] + rest)
  }

  // ---------- one character ----------

  lemma DigitsOf(n: nat)
    ensures n / 0x40 * 0x40 + n % 0x40 == n
    ensures n / 0x1000 * 0x1000 + n / 0x40 % 0x40 * 0x40 + n % 0x40 == n
    ensures n / 0x4_0000 * 0x4_0000 + n / 0x1000 % 0x40 * 0x1000 + n / 0x40 % 0x40 * 0x40 + n % 0x40 == n
  {
    assert n / 0x1000 == n / 0x40 / 0x40;
    assert n / 0x4_0000 == n / 0x1000 / 0x40;
  }

  lemma DecodeEncodedChar(c: char, rest: seq<byte>)
    ensures DecodeChar(EncodeChar(c) + rest) == Some((c, |EncodeChar(c)|))
  {
    var n, e := c as int, EncodeChar(c);
    var bytes := e + rest;
    DigitsOf(n);
    assert bytes[0] == e[0];
    if |e| == 2 {
      assert bytes[1] == e[1];
    } else if |e| == 3 {
      assert bytes[1] == e[1] && bytes[2] == e[2];
    } else if |e| == 4 {
      assert bytes[1] == e[1] && bytes[2] == e[2] && bytes[3] == e[3];
    }
  }

  lemma ThreeDigits(n: int, a: int, b: int, c: int)
    requires n == a * 0x1000 + b * 0x40 + c && 0 <= b < 0x40 && 0 <= c < 0x40
    ensures n / 0x1000 == a && n / 0x40 == a * 0x40 + b && n / 0x40 % 0x40 == b && n % 0x40 == c
  {
    assert n / 0x40 == a * 0x40 + b;
  }

  lemma EncodeDecodedChar(bytes: seq<byte>)
    requires DecodeChar(bytes).Some?
    ensures EncodeChar(DecodeChar(bytes).value.0) == bytes[..DecodeChar(bytes).value.1]
  {
    var (c, k) := DecodeChar(bytes).value;
    var n := c as int;
    if k == 2 {
      assert n / 0x40 == Bits(bytes[0], 0xC0);
    } else if k == 3 {
      ThreeDigits(n, Bits(bytes[0], 0xE0), Bits(bytes[1], 0x80), Bits(bytes[2], 0x80));
    } else if k == 4 {
      var high := Bits(bytes[0], 0xF0) * 0x40 + Bits(bytes[1], 0x80);
      ThreeDigits(n, high, Bits(bytes[2], 0x80), Bits(bytes[3], 0x80));
      assert n / 0x4_0000 == Bits(bytes[0], 0xF0) && high % 0x40 == Bits(bytes[1], 0x80);
    }
  }

  // ---------- whole texts ----------

  lemma {:induction false} DecodeUndoesEncode(text: string)
    ensures Decode(Encode(text)) == Some(text)
  {
    if text != "" {
      DecodeEncodedChar(text[0], Encode(text[1..]));
      DecodeUndoesEncode(text[1..]);
      var e := EncodeChar(text[0]);
      assert Encode(text)[|e|..] == Encode(text[1..]);
      assert [text[0]] + text[1..] == text;
    }
  }

  /** No two byte sequences decode to the same text. */
  lemma {:induction false} EncodeUndoesDecode(bytes: seq<byte>)
    requires Decode(bytes).Some?
    ensures Encode(Decode(bytes).value) == bytes
    decreases |bytes|
  {
    if bytes != [] {
      var (c, n) := DecodeChar(bytes).value;
      EncodeDecodedChar(bytes);
      EncodeUndoesDecode(bytes[n..]);
      var text, rest := Decode(bytes).value, Decode(bytes[n..]).value;
      assert text[0] == c && text[1..] == rest;
      assert bytes[..n] + bytes[n..] == bytes;
    }
  }

  lemma DecodesIff(bytes: seq<byte>, text: string)
    ensures Decode(bytes) == Some(text) <==> bytes == Encode(text)
  {
    DecodeUndoesEncode(text);
    if Decode(bytes).Some? {
      EncodeUndoesDecode(bytes);
    }
  }

  /** The first two examples of section 7 of RFC 3629, and a character of four bytes. */
  lemma EncodedExamples()
    ensures Encode("A\U{2262}\U{391}.") == [0x41, 0xE2, 0x89, 0xA2, 0xCE, 0x91, 0x2E]
    ensures EncodeChar('\U{D55C}') == [0xED, 0x95, 0x9C]
    ensures EncodeChar('\U{233B4}') == [0xF0, 0xA3, 0x8E, 0xB4]
  {
    var text := "A\U{2262}\U{391}.";
    assert text[1..][0] == '\U{2262}' && text[2..][0] == '\U{391}' && text[3..] == ".";
    assert text[1..][1..] == text[2..] && text[2..][1..] == text[3..] && text[3..][1..] == "";
    assert Encode(text[3..]) == [0x2E];
    assert Encode(text[2..]) == [0xCE, 0x91, 0x2E];
    assert Encode(text[1..]) == [0xE2, 0x89, 0xA2, 0xCE, 0x91, 0x2E];
  }

  lemma FirstCharUnique(c: char, d: char, x: seq<byte>, y: seq<byte>)
    requires EncodeChar(c) + x == EncodeChar(d) + y
    ensures c == d && x == y
  {
    DecodeEncodedChar(c, x);
    DecodeEncodedChar(d, y);
    assert x == (EncodeChar(c) + x)[|EncodeChar(c)|..];
    assert y == (EncodeChar(d) + y)[|EncodeChar(d)|..];
  }

  /** Cutting an encoding short can only give a shorter prefix of the text. */
  lemma {:induction false} PrefixOfEncoding(part: string, text: string, more: seq<byte>)
    requires Encode(part) + more == Encode(text)
    ensures part <= text
  {
    if part != "" {
      assert |Encode(part)| > 0;
      var c, d, p, t := part[0], text[0], Encode(part[1..]), Encode(text[1..]);
      assert EncodeChar(c) + p + more == EncodeChar(c) + (p + more);
      FirstCharUnique(c, d, p + more, t);
      PrefixOfEncoding(part[1..], text[1..], more);
      assert part == [c] + part[1..] && text == [d] + text[1..];
    }
  }
}
