/**
 * The JavaScript string built-ins the application relies on, with their
 * ECMAScript semantics: `split` on one character, `startsWith`, `trim`,
 * `parseInt`, `String(n)`, `padStart` and the truncating `%` operator.
 */
module JsString {
  import opened Wrappers

  /** `s.split(sep)` for a one-character separator: the pieces between separators, in order. */
  function Split(s: string, sep: char): (r: seq<string>)
    ensures |r| >= 1
    ensures forall i :: 0 <= i < |r| ==> sep !in r[i]
    decreases |s|
  {
    if |s| == 0 then [""]
    else
      var rest := Split(s[1..], sep);
      if s[0] == sep then [""] + rest
      else [[s[0]] + rest[0]] + rest[1..]
  }

  /** A string without the separator splits into itself alone. */
  lemma {:induction false} SplitNoSeparator(s: string, sep: char)
    requires sep !in s
    ensures Split(s, sep) == [s]
    decreases |s|
  {
    if |s| > 0 {
      assert sep !in s[1..] by { assert forall c :: c in s[1..] ==> c in s; }
      SplitNoSeparator(s[1..], sep);
      assert [s[0]] + s[1..] == s;
    }
  }

  /** Splitting at the first separator: the first piece is everything before it. */
  lemma {:induction false} SplitAtFirst(a: string, sep: char, b: string)
    requires sep !in a
    ensures Split(a + [sep] + b, sep) == [a] + Split(b, sep)
    decreases |a|
  {
    if |a| == 0 {
      assert a + [sep] + b == [sep] + b;
      assert ([sep] + b)[1..] == b;
    } else {
      assert (a + [sep] + b)[1..] == a[1..] + [sep] + b;
      assert sep !in a[1..] by { assert forall c :: c in a[1..] ==> c in a; }
      SplitAtFirst(a[1..], sep, b);
      assert [a[0]] + a[1..] == a;
    }
  }

  /** `s.split(sep)[i]`: `None` stands for JavaScript's `undefined` past the last piece. */
  function Piece(s: string, sep: char, i: nat): Option<string> {
    var pieces := Split(s, sep);
    if i < |pieces| then Some(pieces[i]) else None
  }

  /** JavaScript falsiness of a string value: `undefined` or `null` (`None`), or `""`. */
  predicate Falsy(s: Option<string>) {
    s.None? || s.value == ""
  }

  /** `s.startsWith(prefix)`. */
  predicate StartsWith(s: string, prefix: string) {
    |prefix| <= |s| && s[..|prefix|] == prefix
  }

  /** ECMAScript WhiteSpace and LineTerminator code points: what `trim` removes. */
  predicate IsWhitespace(c: char) {
    var v := c as int;
    || 0x09 <= v <= 0x0D                      // tab, line feed, vertical tab, form feed, carriage return
    || v == 0x20 || v == 0xA0 || v == 0x1680  // space, no-break space, ogham space mark
    || 0x2000 <= v <= 0x200A                  // en quad .. hair space
    || v == 0x2028 || v == 0x2029             // line and paragraph separators
    || v == 0x202F || v == 0x205F || v == 0x3000
    || v == 0xFEFF                            // zero-width no-break space
  }

  /** The number of whitespace characters `s` starts with. */
  function LeadingSpace(s: string): (n: nat)
    ensures n <= |s|
    ensures forall i :: 0 <= i < n ==> IsWhitespace(s[i])
    ensures n < |s| ==> !IsWhitespace(s[n])
    decreases |s|
  {
    if |s| > 0 && IsWhitespace(s[0]) then 1 + LeadingSpace(s[1..]) else 0
  }

  /** The number of whitespace characters `s` ends with. */
  function TrailingSpace(s: string): (n: nat)
    ensures n <= |s|
    ensures forall i :: |s| - n <= i < |s| ==> IsWhitespace(s[i])
    ensures n < |s| ==> !IsWhitespace(s[|s| - n - 1])
    decreases |s|
  {
    if |s| > 0 && IsWhitespace(s[|s| - 1]) then 1 + TrailingSpace(s[..|s| - 1]) else 0
  }

  /** `s.trimStart()`: `s` without its leading whitespace. */
  function TrimStart(s: string): string {
    s[LeadingSpace(s)..]
  }

  /** `s.trimEnd()`: `s` without its trailing whitespace. */
  function TrimEnd(s: string): string {
    s[..|s| - TrailingSpace(s)]
  }

  /** `s.trim()`. */
  function Trim(s: string): string {
    TrimEnd(TrimStart(s))
  }

  /** A trimmed string is empty exactly when the original holds only whitespace. */
  lemma TrimEmpty(s: string)
    ensures Trim(s) == [] <==> forall i :: 0 <= i < |s| ==> IsWhitespace(s[i])
  {
    var t := TrimStart(s);
    if Trim(s) == [] {
      assert t == [];
    }
  }

  predicate IsDecimalDigit(c: char) { '0' <= c <= '9' }

  /** The two radixes `parseInt` reads without a radix argument. */
  datatype Radix = Decimal | Hexadecimal

  /** The value of `c` as a digit of the given radix, if it is one. */
  function DigitValue(c: char, radix: Radix): Option<nat> {
    if '0' <= c <= '9' then Some((c as int) - ('0' as int))
    else if radix == Hexadecimal && 'a' <= c <= 'f' then Some((c as int) - ('a' as int) + 10)
    else if radix == Hexadecimal && 'A' <= c <= 'F' then Some((c as int) - ('A' as int) + 10)
    else None
  }

  /** The number of leading characters of `s` that are digits of `radix`. */
  function DigitPrefix(s: string, radix: Radix): (n: nat)
    ensures n <= |s|
    ensures forall i :: 0 <= i < n ==> DigitValue(s[i], radix).Some?
    ensures n < |s| ==> DigitValue(s[n], radix).None?
    decreases |s|
  {
    if |s| > 0 && DigitValue(s[0], radix).Some? then 1 + DigitPrefix(s[1..], radix) else 0
  }

  /** The value of a string of digits of `radix`, most significant first. */
  function DigitsValue(s: string, radix: Radix): nat
    requires forall i :: 0 <= i < |s| ==> DigitValue(s[i], radix).Some?
    decreases |s|
  {
    if s == [] then 0
    else
      var high := DigitsValue(s[..|s| - 1], radix);
      (if radix == Decimal then high * 10 else high * 16) + DigitValue(s[|s| - 1], radix).value
  }

  /**
   * `parseInt(s)` with no radix argument: leading whitespace skipped, an optional sign,
   * then the magnitude. `None` is `NaN` (no digit at all).
   */
  function ParseInt(s: string): Option<int> {
    var t := TrimStart(s);
    var negative := |t| > 0 && t[0] == '-';
    var u := if |t| > 0 && (t[0] == '-' || t[0] == '+') then t[1..] else t;
    match ParseMagnitude(u)
    case None => None
    case Some(magnitude) =>
      var m: int := magnitude;
      Some(if negative then -m else m)
  }

  /** The unsigned part: an optional `0x` prefix that switches to radix 16, then the longest digit prefix. */
  function ParseMagnitude(u: string): Option<nat> {
    var hex := |u| >= 2 && u[0] == '0' && (u[1] == 'x' || u[1] == 'X');
    var radix := if hex then Hexadecimal else Decimal;
    var digits := if hex then u[2..] else u;
    var n := DigitPrefix(digits, radix);
    if n == 0 then None else Some(DigitsValue(digits[..n], radix))
  }

  /** A non-empty run of decimal digits parses to the number it writes. */
  lemma ParseDigits(s: string)
    requires s != [] && forall i :: 0 <= i < |s| ==> DigitValue(s[i], Decimal).Some?
    ensures ParseInt(s) == Some(DigitsValue(s, Decimal))
  {
    MagnitudeDigits(s);
    UnsignedParse(s);
  }

  /** Text that starts with a decimal digit is read by `parseInt` as its magnitude alone. */
  lemma UnsignedParse(s: string)
    requires s != [] && '0' <= s[0] <= '9'
    ensures ParseInt(s) == ParseMagnitude(s)
  {
    assert TrimStart(s) == s;
  }

  lemma MagnitudeDigits(s: string)
    requires s != [] && forall i :: 0 <= i < |s| ==> DigitValue(s[i], Decimal).Some?
    ensures ParseMagnitude(s) == Some(DigitsValue(s, Decimal))
  {
    assert !(|s| >= 2 && s[0] == '0' && (s[1] == 'x' || s[1] == 'X')) by {
      if |s| >= 2 {
        assert DigitValue(s[1], Decimal).Some?;
      }
    }
    var n := DigitPrefix(s, Decimal);
    assert n == |s|;
    assert s[..n] == s;
  }

  function DecimalDigit(d: nat): (c: char)
    requires d < 10
    ensures IsDecimalDigit(c) && DigitValue(c, Decimal) == Some(d)
  {
    (('0' as int) + d) as char
  }

  /** `String(n)` for a non-negative integer: its decimal digits without leading zeros. */
  function DecimalString(n: nat): (r: string)
    ensures |r| >= 1
    ensures forall i :: 0 <= i < |r| ==> IsDecimalDigit(r[i]) && DigitValue(r[i], Decimal).Some?
    decreases n
  {
    if n < 10 then [DecimalDigit(n)] else DecimalString(n / 10) + [DecimalDigit(n % 10)]
  }

  /** Reading back the digits that `String(n)` printed gives `n`. */
  lemma {:induction false} DecimalStringValue(n: nat)
    ensures DigitsValue(DecimalString(n), Decimal) == n
    decreases n
  {
    if n >= 10 {
      var r := DecimalString(n);
      assert r[..|r| - 1] == DecimalString(n / 10);
      DecimalStringValue(n / 10);
    }
  }

  function Pow10(k: nat): (p: nat)
    ensures p >= 1
  {
    if k == 0 then 1 else 10 * Pow10(k - 1)
  }

  /** `String(n)` has exactly `k + 1` digits when `10^k <= n < 10^(k+1)`. */
  lemma {:induction false} DecimalStringLength(n: nat, k: nat)
    requires Pow10(k) <= n < 10 * Pow10(k)
    ensures |DecimalString(n)| == k + 1
    decreases k
  {
    if k > 0 {
      var q := n / 10;
      assert n == 10 * q + n % 10;
      DecimalStringLength(q, k - 1);
    }
  }

  function Repeat(c: char, n: nat): (r: string)
    ensures |r| == n && forall i :: 0 <= i < n ==> r[i] == c
  {
    seq(n, _ => c)
  }

  /** `s.padStart(width, fill)`: `fill` repeated on the left up to `width`; never truncates. */
  function PadStart(s: string, width: nat, fill: char): (r: string)
    ensures |r| == if |s| < width then width else |s|
    ensures r[|r| - |s|..] == s
    ensures forall i :: 0 <= i < |r| - |s| ==> r[i] == fill
  {
    if |s| < width then Repeat(fill, width - |s|) + s else s
  }

  /** JavaScript's `a % b`: the remainder takes the sign of the dividend. */
  function JsRem(a: int, b: int): (r: int)
    requires b != 0
    ensures a >= 0 ==> 0 <= r < (if b > 0 then b else -b)
    ensures a < 0 ==> -(if b > 0 then b else -b) < r <= 0
    ensures (a - r) % (if b > 0 then b else -b) == 0
  {
    var m := if b > 0 then b else -b;
    if a >= 0 then
      MultipleMod(a / m, m);
      assert a - a % m == m * (a / m);
      a % m
    else
      MultipleMod(-((-a) / m), m);
      assert a + (-a) % m == m * -((-a) / m);
      -((-a) % m)
  }

  /** A multiple of `m` leaves no remainder. */
  lemma MultipleMod(q: int, m: int)
    requires m > 0
    ensures (m * q) % m == 0
  {
    var x := m * q;
    var d := q - x / m;
    assert m * d == x % m;
  }
}
