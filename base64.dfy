/**
 * Base64 with the alphabet and padding of section 4 of RFC 4648, and the two
 * decoders found around it: Node's `Buffer.from(s, "base64")`, which skips
 * characters outside the alphabet and stops at the first `=`, and the
 * browser's `atob`, which follows the WHATWG "forgiving-base64 decode".
 */
module Base64 {
  import opened Wrappers
  import opened Octets

  /** The character for a 6-bit value in the standard alphabet. */
  function Char(v: nat): (c: char)
    requires v < 64
    ensures StdIndex(c) == v
  {
    if v < 26 then (('A' as int) + v) as char
    else if v < 52 then (('a' as int) + v - 26) as char
    else if v < 62 then (('0' as int) + v - 52) as char
    else if v == 62 then '+'
    else '/'
  }

  /** The value of a character of the standard alphabet, or -1. */
  function StdIndex(c: char): (v: int)
    ensures -1 <= v < 64
  {
    if 'A' <= c <= 'Z' then (c as int) - ('A' as int)
    else if 'a' <= c <= 'z' then (c as int) - ('a' as int) + 26
    else if '0' <= c <= '9' then (c as int) - ('0' as int) + 52
    else if c == '+' then 62
    else if c == '/' then 63
    else -1
  }

  predicate InAlphabet(c: char) {
    StdIndex(c) >= 0 || c == '='
  }

  /** The 6-bit values of a byte string, three bytes to four values, the last group cut short. */
  function ToSextets(b: Bytes): (v: seq<int>)
    ensures AllSextets(v)
    ensures |v| == (4 * |b| + 2) / 3
    decreases |b|
  {
    if |b| == 0 then []
    else if |b| == 1 then [b[0] / 4, (b[0] % 4) * 16]
    else if |b| == 2 then [b[0] / 4, (b[0] % 4) * 16 + b[1] / 16, (b[1] % 16) * 4]
    else [b[0] / 4, (b[0] % 4) * 16 + b[1] / 16, (b[1] % 16) * 4 + b[2] / 64, b[2] % 64] + ToSextets(b[3..])
  }

  function Chars(v: seq<int>): (s: string)
    requires AllSextets(v)
    ensures |s| == |v|
    ensures forall i :: 0 <= i < |s| ==> s[i] == Char(v[i]) && StdIndex(s[i]) >= 0
    decreases |v|
  {
    if v == [] then [] else [Char(v[0])] + Chars(v[1..])
  }

  /** The `=` characters that pad the output to a multiple of four. */
  function Padding(n: nat): (p: string)
    ensures |p| == (3 - n % 3) % 3
    ensures forall i :: 0 <= i < |p| ==> p[i] == '='
  {
    if n % 3 == 1 then "==" else if n % 3 == 2 then "=" else ""
  }

  /** RFC 4648 section 4 encoding with `=` padding (`buf.toString("base64")`, `btoa`). */
  function Encode(b: Bytes): (s: string)
    ensures |s| == 4 * ((|b| + 2) / 3)
    ensures forall i :: 0 <= i < |s| ==> InAlphabet(s[i])
  {
    var v := ToSextets(b);
    var p := Padding(|b|);
    ConcatInAlphabet(Chars(v), p);
    Chars(v) + p
  }

  lemma ConcatInAlphabet(a: string, p: string)
    requires forall i :: 0 <= i < |a| ==> StdIndex(a[i]) >= 0
    requires forall i :: 0 <= i < |p| ==> p[i] == '='
    ensures forall i :: 0 <= i < |a + p| ==> InAlphabet((a + p)[i])
  {
    forall i | 0 <= i < |a + p|
      ensures InAlphabet((a + p)[i])
    {
      if i < |a| {
        assert (a + p)[i] == a[i];
      } else {
        assert (a + p)[i] == p[i - |a|];
      }
    }
  }

  predicate AllSextets(v: seq<int>) {
    forall i :: 0 <= i < |v| ==> 0 <= v[i] < 64
  }

  /**
   * Bytes from a run of 6-bit values: each full group of four gives three bytes,
   * a final group of three gives two, of two gives one, and a lone value gives none.
   */
  function FromSextets(v: seq<int>): (b: Bytes)
    requires AllSextets(v)
    ensures |b| == (3 * |v|) / 4
    decreases |v|
  {
    if |v| < 2 then []
    else if |v| == 2 then [v[0] * 4 + v[1] / 16]
    else if |v| == 3 then [v[0] * 4 + v[1] / 16, (v[1] % 16) * 16 + v[2] / 4]
    else [v[0] * 4 + v[1] / 16, (v[1] % 16) * 16 + v[2] / 4, (v[2] % 4) * 64 + v[3]]
         + FromSextets(v[4..])
  }

  /** The value of a character Node's decoder accepts: the standard and the URL-safe alphabet. */
  function NodeIndex(c: char): (v: int)
    ensures -1 <= v < 64
  {
    if c == '-' then 62 else if c == '_' then 63 else StdIndex(c)
  }

  /** The values Node's decoder collects: illegal characters are skipped, `=` ends the input. */
  function NodeSextets(s: string): (v: seq<int>)
    ensures AllSextets(v)
    ensures |v| <= |s|
    decreases |s|
  {
    if s == [] || s[0] == '=' then []
    else if NodeIndex(s[0]) >= 0 then [NodeIndex(s[0])] + NodeSextets(s[1..])
    else NodeSextets(s[1..])
  }

  /** `Buffer.from(s, "base64")`: never fails. */
  function NodeDecode(s: string): (b: Bytes)
    ensures |b| <= (3 * |s|) / 4
  {
    FromSextets(NodeSextets(s))
  }

  predicate IsAsciiWhitespace(c: char) {
    c == '\t' || c == '\n' || c as int == 0x0C || c == '\r' || c == ' '
  }

  function StripWhitespace(s: string): (r: string)
    ensures forall i :: 0 <= i < |r| ==> !IsAsciiWhitespace(r[i])
    ensures |r| <= |s|
    decreases |s|
  {
    if s == [] then []
    else if IsAsciiWhitespace(s[0]) then StripWhitespace(s[1..])
    else [s[0]] + StripWhitespace(s[1..])
  }

  function StdValues(s: string): (v: seq<int>)
    requires forall i :: 0 <= i < |s| ==> StdIndex(s[i]) >= 0
    ensures |v| == |s| && AllSextets(v)
    ensures forall i :: 0 <= i < |s| ==> v[i] == StdIndex(s[i])
    decreases |s|
  {
    if s == [] then [] else [StdIndex(s[0])] + StdValues(s[1..])
  }

  /** When the length is a multiple of four, one or two trailing `=` are dropped. */
  function RemovePadding(s: string): (t: string)
    ensures |t| <= |s| && t == s[..|t|]
  {
    if |s| % 4 == 0 && |s| >= 2 && s[|s| - 2..] == "==" then s[..|s| - 2]
    else if |s| % 4 == 0 && |s| >= 1 && s[|s| - 1] == '=' then s[..|s| - 1]
    else s
  }

  /** `atob`: the forgiving-base64 decode; None is the InvalidCharacterError it throws. */
  function ForgivingDecode(input: string): (r: Option<Bytes>)
    ensures r.Some? ==> |r.value| <= (3 * |input|) / 4
  {
    var t := RemovePadding(StripWhitespace(input));
    if |t| % 4 == 1 then None
    else if exists i :: 0 <= i < |t| && StdIndex(t[i]) < 0 then None
    else Some(FromSextets(StdValues(t)))
  }

  /** The values of a one-byte final group give that byte back. */
  lemma FromSextets1(x: Byte)
    ensures FromSextets([x / 4, (x % 4) * 16]) == [x]
  {
  }

  /** The values of a two-byte final group give those bytes back. */
  lemma FromSextets2(x: Byte, y: Byte)
    ensures FromSextets([x / 4, (x % 4) * 16 + y / 16, (y % 16) * 4]) == [x, y]
  {
  }

  /** The values of a full group give its three bytes back. */
  lemma FromSextets3(x: Byte, y: Byte, z: Byte)
    ensures FromSextets([x / 4, (x % 4) * 16 + y / 16, (y % 16) * 4 + z / 64, z % 64]) == [x, y, z]
  {
    var v := [x / 4, (x % 4) * 16 + y / 16, (y % 16) * 4 + z / 64, z % 64];
    assert v[4..] == [];
  }

  lemma FromSextetsGroup(v: seq<int>, w: seq<int>)
    requires |v| == 4 && AllSextets(v) && AllSextets(w)
    ensures AllSextets(v + w)
    ensures FromSextets(v + w) == FromSextets(v) + FromSextets(w)
  {
    assert (v + w)[4..] == w;
    assert v[4..] == [];
  }

  /** Bytes to values and back is the identity. */
  lemma {:induction false} FromToSextets(b: Bytes)
    ensures FromSextets(ToSextets(b)) == b
    decreases |b|
  {
    if |b| == 1 {
      FromSextets1(b[0]);
    } else if |b| == 2 {
      FromSextets2(b[0], b[1]);
    } else if |b| >= 3 {
      var v := [b[0] / 4, (b[0] % 4) * 16 + b[1] / 16, (b[1] % 16) * 4 + b[2] / 64, b[2] % 64];
      var w := ToSextets(b[3..]);
      calc {
        FromSextets(ToSextets(b));
        FromSextets(v + w);
        { FromSextetsGroup(v, w); }
        FromSextets(v) + FromSextets(w);
        { FromSextets3(b[0], b[1], b[2]); FromToSextets(b[3..]); }
        [b[0], b[1], b[2]] + b[3..];
        b;
      }
    }
  }

  /** Node's decoder collects exactly the values behind the alphabet characters. */
  lemma {:induction false} SextetsOfChars(v: seq<int>, rest: string)
    requires AllSextets(v)
    ensures NodeSextets(Chars(v) + rest) == v + NodeSextets(rest)
    decreases |v|
  {
    if v == [] {
      assert Chars(v) + rest == rest;
    } else {
      var c := Char(v[0]);
      var t := Chars(v[1..]) + rest;
      assert Chars(v) + rest == [c] + t;
      NodeSextetsCons(c, t);
      SextetsOfChars(v[1..], rest);
      assert v == [v[0]] + v[1..];
    }
  }

  lemma NodeSextetsCons(c: char, t: string)
    requires StdIndex(c) >= 0
    ensures NodeSextets([c] + t) == [StdIndex(c)] + NodeSextets(t)
  {
    assert ([c] + t)[1..] == t;
  }

  /** Node's decoder reads back every encoding: the trailing `=` stop it before any stray bits. */
  lemma NodeDecodeEncode(b: Bytes)
    ensures NodeDecode(Encode(b)) == b
  {
    var v := ToSextets(b);
    var p := Padding(|b|);
    SextetsOfChars(v, p);
    assert NodeSextets(p) == [];
    assert v + [] == v;
    FromToSextets(b);
  }

  lemma {:induction false} StripNoWhitespace(s: string)
    requires forall i :: 0 <= i < |s| ==> !IsAsciiWhitespace(s[i])
    ensures StripWhitespace(s) == s
    decreases |s|
  {
    if s != [] {
      StripNoWhitespace(s[1..]);
      assert s == [s[0]] + s[1..];
    }
  }

  lemma StdValuesOfChars(v: seq<int>)
    requires AllSextets(v)
    ensures StdValues(Chars(v)) == v
  {
  }

  lemma EncodeShape(b: Bytes)
    ensures |Encode(b)| % 4 == 0
    ensures Encode(b) == Chars(ToSextets(b)) + Padding(|b|)
    ensures |b| % 3 == 0 ==> |ToSextets(b)| == |Encode(b)|
    ensures |b| % 3 == 1 ==> |ToSextets(b)| == |Encode(b)| - 2
    ensures |b| % 3 == 2 ==> |ToSextets(b)| == |Encode(b)| - 1
    ensures |ToSextets(b)| % 4 != 1
  {
    var n := |b|;
    var v := ToSextets(b);
    assert Encode(b) == Chars(v) + Padding(n);
    assert |v| == (4 * n + 2) / 3 && |Encode(b)| == 4 * ((n + 2) / 3);
    ShapeArith(n);
  }

  lemma ShapeArith(n: nat)
    ensures (4 * ((n + 2) / 3)) % 4 == 0
    ensures n % 3 == 0 ==> (4 * n + 2) / 3 == 4 * ((n + 2) / 3)
    ensures n % 3 == 1 ==> (4 * n + 2) / 3 == 4 * ((n + 2) / 3) - 2
    ensures n % 3 == 2 ==> (4 * n + 2) / 3 == 4 * ((n + 2) / 3) - 1
    ensures ((4 * n + 2) / 3) % 4 != 1
  {
    var k := n / 3;
    var r := n % 3;
    assert n == 3 * k + r;
    assert (n + 2) / 3 == k + (r + 2) / 3;
    assert (4 * n + 2) / 3 == 4 * k + (4 * r + 2) / 3;
    var m := (n + 2) / 3;
    assert (4 * m) % 4 == 0;
    assert (4 * k + (4 * r + 2) / 3) % 4 == ((4 * r + 2) / 3) % 4;
  }

  lemma RemovePaddingOfEncode(b: Bytes)
    ensures RemovePadding(Encode(b)) == Chars(ToSextets(b))
  {
    var c := Chars(ToSextets(b));
    EncodeShape(b);
    if |b| % 3 == 1 {
      assert Padding(|b|) == "==";
      RemoveTwo(c);
    } else if |b| % 3 == 2 {
      assert Padding(|b|) == "=";
      RemoveOne(c);
    } else {
      assert Encode(b) == c + "" == c;
      RemoveNone(c);
    }
  }

  lemma RemoveTwo(c: string)
    requires |c + "=="| % 4 == 0
    ensures RemovePadding(c + "==") == c
  {
    var s := c + "==";
    assert s[|s| - 2..] == "==";
    assert s[..|s| - 2] == c;
  }

  lemma RemoveOne(c: string)
    requires |c + "="| % 4 == 0 && |c| >= 1 && c[|c| - 1] != '='
    ensures RemovePadding(c + "=") == c
  {
    var s := c + "=";
    assert s[|s| - 2] == c[|c| - 1];
    assert s[..|s| - 1] == c;
  }

  lemma RemoveNone(c: string)
    requires |c| >= 1 ==> c[|c| - 1] != '='
    ensures RemovePadding(c) == c
  {
    if |c| >= 2 {
      assert c[|c| - 2..][1] == c[|c| - 1];
    }
  }

  /** `atob` also reads back every encoding. */
  lemma ForgivingDecodeEncode(b: Bytes)
    ensures ForgivingDecode(Encode(b)) == Some(b)
  {
    var v := ToSextets(b);
    StripNoWhitespace(Encode(b));
    RemovePaddingOfEncode(b);
    var t := RemovePadding(StripWhitespace(Encode(b)));
    assert t == Chars(v);
    EncodeShape(b);
    assert |t| % 4 != 1;
    assert forall i :: 0 <= i < |t| ==> StdIndex(t[i]) >= 0;
    StdValuesOfChars(v);
    FromToSextets(b);
    assert FromSextets(StdValues(t)) == b;
  }

  /** Input without whitespace whose length is one past a multiple of four is refused by `atob`. */
  lemma ForgivingDecodeRefuses(s: string)
    requires forall i :: 0 <= i < |s| ==> !IsAsciiWhitespace(s[i])
    requires |s| % 4 == 1
    ensures ForgivingDecode(s).None?
  {
    StripNoWhitespace(s);
  }

  /** `btoa`: a character above U+00FF is the InvalidCharacterError it throws. */
  function Btoa(binary: string): (r: Option<string>)
    ensures r.Some? <==> forall i :: 0 <= i < |binary| ==> binary[i] as int < 256
  {
    if forall i :: 0 <= i < |binary| ==> binary[i] as int < 256
    then Some(Encode(CharCodes(binary)))
    else None
  }

  /** The char codes of a string whose characters are all below U+0100. */
  function CharCodes(s: string): (b: Bytes)
    requires forall i :: 0 <= i < |s| ==> s[i] as int < 256
    ensures |b| == |s| && forall i :: 0 <= i < |s| ==> b[i] == s[i] as int
    decreases |s|
  {
    if s == [] then [] else [s[0] as int] + CharCodes(s[1..])
  }

  /** Encoding the empty byte string gives the empty string. */
  lemma EncodeEmpty()
    ensures Encode([]) == []
  {
  }
}
