/**
 * UTF-8 (RFC 3629) as Node uses it for the `"utf8"` string encoding:
 * encoding a string writes each code point in the shortest form, and decoding
 * bytes replaces every maximal ill-formed subsequence by U+FFFD.
 */
module Utf8 {
  import opened Octets

  const Replacement: char := 0xFFFD as char

  /** The bytes of one code point. */
  function EncodeChar(c: char): (b: Bytes)
    ensures 1 <= |b| <= 4
  {
    var v := c as int;
    if v < 0x80 then [v]
    else if v < 0x800 then [0xC0 + v / 64, 0x80 + v % 64]
    else if v < 0x10000 then [0xE0 + v / 4096, 0x80 + (v / 64) % 64, 0x80 + v % 64]
    else [0xF0 + v / 0x40000, 0x80 + (v / 4096) % 64, 0x80 + (v / 64) % 64, 0x80 + v % 64]
  }

  /** `Buffer.from(s, "utf8")`. */
  function Encode(s: string): (b: Bytes)
    ensures |s| <= |b| <= 4 * |s|
    ensures s == [] <==> b == []
    decreases |s|
  {
    if s == [] then [] else EncodeChar(s[0]) + Encode(s[1..])
  }

  /** An ASCII string encodes one byte per character, the byte being the character code. */
  lemma {:induction false} EncodeAscii(s: string)
    requires forall i :: 0 <= i < |s| ==> s[i] as int < 0x80
    ensures |Encode(s)| == |s|
    ensures forall i :: 0 <= i < |s| ==> Encode(s)[i] == s[i] as int
  {
    if s != [] {
      assert forall i :: 0 <= i < |s[1..]| ==> s[1..][i] == s[i + 1];
      EncodeAscii(s[1..]);
    }
  }

  /** Given bytes that spell an ASCII string character by character, they are its encoding. */
  lemma EncodesAs(s: string, b: Bytes)
    requires |s| == |b| && forall i :: 0 <= i < |s| ==> s[i] as int < 0x80 && b[i] == s[i] as int
    ensures Encode(s) == b
  {
    EncodeAscii(s);
  }

  predicate IsContinuation(x: Byte) { 0x80 <= x <= 0xBF }

  /** The length a lead byte announces, or 0 for a byte that cannot start a sequence. */
  function SequenceLength(lead: Byte): nat {
    if lead < 0x80 then 1
    else if 0xC2 <= lead <= 0xDF then 2
    else if 0xE0 <= lead <= 0xEF then 3
    else if 0xF0 <= lead <= 0xF4 then 4
    else 0
  }

  /** The second byte's range excludes overlong forms, surrogates and values beyond U+10FFFF. */
  predicate SecondOk(lead: Byte, x: Byte) {
    if lead == 0xE0 then 0xA0 <= x <= 0xBF
    else if lead == 0xED then 0x80 <= x <= 0x9F
    else if lead == 0xF0 then 0x90 <= x <= 0xBF
    else if lead == 0xF4 then 0x80 <= x <= 0x8F
    else IsContinuation(x)
  }

  function Char2(b0: Byte, b1: Byte): char
    requires 0xC2 <= b0 <= 0xDF && IsContinuation(b1)
  {
    ((b0 - 0xC0) * 64 + (b1 - 0x80)) as char
  }

  function Char3(b0: Byte, b1: Byte, b2: Byte): char
    requires 0xE0 <= b0 <= 0xEF && SecondOk(b0, b1) && IsContinuation(b2)
  {
    ((b0 - 0xE0) * 4096 + (b1 - 0x80) * 64 + (b2 - 0x80)) as char
  }

  function Char4(b0: Byte, b1: Byte, b2: Byte, b3: Byte): char
    requires 0xF0 <= b0 <= 0xF4 && SecondOk(b0, b1) && IsContinuation(b2) && IsContinuation(b3)
  {
    ((b0 - 0xF0) * 0x40000 + (b1 - 0x80) * 4096 + (b2 - 0x80) * 64 + (b3 - 0x80)) as char
  }

  /** `buf.toString("utf8")`: never fails; each maximal ill-formed subpart becomes U+FFFD. */
  function Decode(b: Bytes): (s: string)
    ensures |s| <= |b|
    decreases |b|
  {
    if b == [] then []
    else
      var n := SequenceLength(b[0]);
      if n == 1 then [b[0] as char] + Decode(b[1..])
      else if n == 0 || |b| < 2 || !SecondOk(b[0], b[1]) then [Replacement] + Decode(b[1..])
      else if n == 2 then [Char2(b[0], b[1])] + Decode(b[2..])
      else if |b| < 3 || !IsContinuation(b[2]) then [Replacement] + Decode(b[2..])
      else if n == 3 then [Char3(b[0], b[1], b[2])] + Decode(b[3..])
      else if |b| < 4 || !IsContinuation(b[3]) then [Replacement] + Decode(b[3..])
      else [Char4(b[0], b[1], b[2], b[3])] + Decode(b[4..])
  }

  lemma Digits64(v: int)
    requires v >= 0
    ensures v == (v / 64) * 64 + v % 64
    ensures v / 4096 == (v / 64) / 64
    ensures v == (v / 4096) * 4096 + ((v / 64) % 64) * 64 + v % 64
    ensures v / 0x40000 == (v / 4096) / 64
    ensures v == (v / 0x40000) * 0x40000 + ((v / 4096) % 64) * 4096 + ((v / 64) % 64) * 64 + v % 64
  {
    var q := v / 64;
    var q2 := q / 64;
    assert v == q * 64 + v % 64;
    assert q == q2 * 64 + q % 64;
    assert v == q2 * 4096 + (q % 64) * 64 + v % 64;
    assert v / 4096 == q2;
    var q3 := q2 / 64;
    assert q2 == q3 * 64 + q2 % 64;
    assert v == q3 * 0x40000 + (q2 % 64) * 4096 + (q % 64) * 64 + v % 64;
    assert v / 0x40000 == q3;
  }

  /** One encoded code point is decoded back, whatever follows it. */
  lemma DecodeChar(c: char, rest: Bytes)
    ensures Decode(EncodeChar(c) + rest) == [c] + Decode(rest)
  {
    var v := c as int;
    var e := EncodeChar(c);
    var b := e + rest;
    Digits64(v);
    if v < 0x80 {
      assert b[1..] == rest;
    } else if v < 0x800 {
      assert b[2..] == rest;
      assert Char2(b[0], b[1]) as int == v;
    } else if v < 0x10000 {
      assert b[3..] == rest;
      assert Char3(b[0], b[1], b[2]) as int == v;
    } else {
      assert b[4..] == rest;
      assert Char4(b[0], b[1], b[2], b[3]) as int == v;
    }
  }

  /** Decoding the UTF-8 form of a string gives the string back. */
  lemma {:induction false} DecodeEncode(s: string)
    ensures Decode(Encode(s)) == s
    decreases |s|
  {
    if s != [] {
      DecodeChar(s[0], Encode(s[1..]));
      DecodeEncode(s[1..]);
      assert [s[0]] + s[1..] == s;
    }
  }

  /** Encoding distributes over concatenation. */
  lemma {:induction false} EncodeAppend(a: string, b: string)
    ensures Encode(a + b) == Encode(a) + Encode(b)
    decreases |a|
  {
    if a == [] {
      assert a + b == b;
    } else {
      assert (a + b)[0] == a[0];
      assert (a + b)[1..] == a[1..] + b;
      EncodeAppend(a[1..], b);
      calc {
        Encode(a + b);
        EncodeChar(a[0]) + Encode(a[1..] + b);
        EncodeChar(a[0]) + (Encode(a[1..]) + Encode(b));
        (EncodeChar(a[0]) + Encode(a[1..])) + Encode(b);
      }
    }
  }

  /** Encoding is injective: distinct strings have distinct UTF-8 forms. */
  lemma EncodeInjective(a: string, b: string)
    requires Encode(a) == Encode(b)
    ensures a == b
  {
    DecodeEncode(a);
    DecodeEncode(b);
  }
}
