/** Octets, and the `"hex"` encoding of Node's `Buffer`. */
module Octets {
  type Byte = b: int | 0 <= b < 256
  type Bytes = seq<Byte>
}

/**
 * Node's `"hex"` string encoding: `buf.toString("hex")` writes two lower-case
 * digits per byte; `Buffer.from(s, "hex")` reads digit pairs (either case) and
 * stops silently at the first pair that is not two hex digits, or at an odd last digit.
 */
module Hex {
  import opened Octets

  predicate IsLowerHexDigit(c: char) {
    '0' <= c <= '9' || 'a' <= c <= 'f'
  }

  /** The value of a hex digit of either case, or -1. */
  function Unhex(c: char): (v: int)
    ensures -1 <= v < 16
    ensures v >= 0 <==> ('0' <= c <= '9' || 'a' <= c <= 'f' || 'A' <= c <= 'F')
  {
    if '0' <= c <= '9' then (c as int) - ('0' as int)
    else if 'a' <= c <= 'f' then (c as int) - ('a' as int) + 10
    else if 'A' <= c <= 'F' then (c as int) - ('A' as int) + 10
    else -1
  }

  function Digit(d: nat): (c: char)
    requires d < 16
    ensures IsLowerHexDigit(c) && Unhex(c) == d
  {
    if d < 10 then (('0' as int) + d) as char else (('a' as int) + d - 10) as char
  }

  /** `buf.toString("hex")`. */
  function Encode(b: Bytes): (s: string)
    ensures |s| == 2 * |b|
    ensures forall i :: 0 <= i < |s| ==> IsLowerHexDigit(s[i])
    decreases |b|
  {
    if b == [] then [] else [Digit(b[0] / 16), Digit(b[0] % 16)] + Encode(b[1..])
  }

  /** `Buffer.from(s, "hex")`: digit pairs up to the first invalid pair. */
  function Decode(s: string): (b: Bytes)
    ensures 2 * |b| <= |s|
    decreases |s|
  {
    if |s| >= 2 && Unhex(s[0]) >= 0 && Unhex(s[1]) >= 0
    then [Unhex(s[0]) * 16 + Unhex(s[1])] + Decode(s[2..])
    else []
  }

  /** Decoding what was encoded gives the bytes back. */
  lemma {:induction false} DecodeEncode(b: Bytes)
    ensures Decode(Encode(b)) == b
    decreases |b|
  {
    if b != [] {
      var s := Encode(b);
      assert s[2..] == Encode(b[1..]);
      DecodeEncode(b[1..]);
      assert Unhex(s[0]) * 16 + Unhex(s[1]) == b[0];
    }
  }

  /** Hex text never contains a character outside the sixteen digits, a colon for one. */
  lemma EncodeExcludes(b: Bytes, c: char)
    requires !IsLowerHexDigit(c)
    ensures c !in Encode(b)
  {
  }
}
