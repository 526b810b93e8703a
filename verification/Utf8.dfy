/** UTF-8 (RFC 3629): encoding, decoding, and the sum of the encoded bytes. */
module Utf8 {
  import opened Wrappers
  import opened Store

  // ---------- encoding, section 3 of RFC 3629 ----------

  function EncodeChar(c: char): Bytes {
    var n := c as int;
    if n < 0x80 then [n as byte]
    else if n < 0x800 then [(0xC0 + n / 0x40) as byte, (0x80 + n % 0x40) as byte]
    else if n < 0x1_0000 then
      [(0xE0 + n / 0x1000) as byte, (0x80 + n / 0x40 % 0x40) as byte, (0x80 + n % 0x40) as byte]
    else
      [(0xF0 + n / 0x4_0000) as byte, (0x80 + n / 0x1000 % 0x40) as byte, (0x80 + n / 0x40 % 0x40) as byte,
       (0x80 + n % 0x40) as byte]
  }

  function Encode(text: string): Bytes {
    if text == "" then [] else EncodeChar(text[0]) + Encode(text[1..])
  }

  // ---------- decoding ----------

  predicate Scalar(n: int) {
    0 <= n < 0xD800 || 0xE000 <= n < 0x11_0000
  }

  /** The number of bytes a first byte announces. */
  function Width(first: byte): nat {
    if first < 0x80 then 1 else if first < 0xE0 then 2 else if first < 0xF0 then 3 else 4
  }

  /** The bits of a following byte. */
  function Low(b: byte): int {
    b as int - 0x80
  }

  function CodePoint(b: Bytes): int
    requires b != [] && |b| == Width(b[0])
  {
    var first := b[0] as int;
    match |b|
    case 1 => first
    case 2 => (first - 0xC0) * 0x40 + Low(b[1])
    case 3 => (first - 0xE0) * 0x1000 + Low(b[1]) * 0x40 + Low(b[2])
    case _ => (first - 0xF0) * 0x4_0000 + Low(b[1]) * 0x1000 + Low(b[2]) * 0x40 + Low(b[3])
  }

  function Decode(b: Bytes): Option<string>
    decreases |b|
  {
    if b == [] then Some("")
    else if |b| < Width(b[0]) then None
    else
      var n := CodePoint(b[..Width(b[0])]);
      if !Scalar(n) then None
      else match Decode(b[Width(b[0])..]) case None => None case Some(rest) => Some([n as char] + rest)
  }

  lemma Digits(n: nat)
    ensures n == n / 0x40 * 0x40 + n % 0x40
    ensures n / 0x40 == n / 0x1000 * 0x40 + n / 0x40 % 0x40
    ensures n / 0x1000 == n / 0x4_0000 * 0x40 + n / 0x1000 % 0x40
  {
    assert n / 0x1000 == n / 0x40 / 0x40;
    assert n / 0x4_0000 == n / 0x1000 / 0x40;
  }

  /** A character's bytes are one code point, of the width their first byte announces. */
  lemma CharRoundTrip(c: char)
    ensures var b := EncodeChar(c); b != [] && |b| == Width(b[0]) && CodePoint(b) == c as int
  {
    Digits(c as int);
  }

  lemma {:induction false} RoundTrip(text: string)
    ensures Decode(Encode(text)) == Some(text)
  {
    if text != "" {
      var first, rest := EncodeChar(text[0]), Encode(text[1..]);
      CharRoundTrip(text[0]);
      RoundTrip(text[1..]);
      var b := first + rest;
      assert b[0] == first[0] && b[..|first|] == first && b[|first|..] == rest;
      assert text == [text[0]] + text[1..];
    }
  }

  /** The first byte tells the width, the others are continuation bytes, and no shorter form would do. */
  lemma CharShape(c: char)
    ensures var b, n := EncodeChar(c), c as int;
      && (forall i :: 0 < i < |b| ==> 0x80 <= b[i] <= 0xBF)
      && (|b| == 1 <==> n <= 0x7F) && (|b| == 2 <==> 0x80 <= n <= 0x7FF)
      && (|b| == 3 <==> 0x800 <= n <= 0xFFFF) && (|b| == 4 <==> 0x1_0000 <= n)
      && (|b| == 1 ==> b[0] <= 0x7F) && (|b| == 2 ==> 0xC2 <= b[0] <= 0xDF)
      && (|b| == 3 ==> 0xE0 <= b[0] <= 0xEF) && (|b| == 4 ==> 0xF0 <= b[0] <= 0xF4)
  {
  }

  // ---------- the sum of the bytes ----------

  function ByteSum(b: Bytes): nat {
    if b == [] then 0 else b[0] as nat + ByteSum(b[1..])
  }

  lemma ByteSumOne(x: byte)
    ensures ByteSum([x]) == x as nat
  {
  }

  lemma ByteSumSmall(a: byte, b: byte, c: byte, d: byte)
    ensures ByteSum([a, b]) == a as nat + b as nat
    ensures ByteSum([a, b, c]) == a as nat + b as nat + c as nat
    ensures ByteSum([a, b, c, d]) == a as nat + b as nat + c as nat + d as nat
  {
    assert [a, b][1..] == [b] && [b, c][1..] == [c] && [c, d][1..] == [d];
    assert [a, b, c][1..] == [b, c] && [b, c, d][1..] == [c, d];
    assert [a, b, c, d][1..] == [b, c, d];
    ByteSumOne(b);
    ByteSumOne(c);
    ByteSumOne(d);
    assert ByteSum([b, c]) == b as nat + c as nat;
    assert ByteSum([c, d]) == c as nat + d as nat;
  }

  lemma {:induction false} ByteSumAppend(a: Bytes, b: Bytes)
    ensures ByteSum(a + b) == ByteSum(a) + ByteSum(b)
  {
    if a == [] {
      assert a + b == b;
    } else {
      assert (a + b)[1..] == a[1..] + b;
      ByteSumAppend(a[1..], b);
    }
  }
}
