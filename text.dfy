/**
 * The string conversions the market adapter relies on: ASCII lower-casing
 * (`String.prototype.toLowerCase` on addresses), the decimal rendering of a
 * `bigint` (`bigint.toString()`), and the hexadecimal reading that
 * `parseInt(s, 16)` performs on the leading hex digits of a string.
 */
module Text {

  datatype Option<T> = None | Some(value: T)

  // ---------------------------------------------------------------------------
  // Lower-casing
  // ---------------------------------------------------------------------------

  predicate IsUpper(c: char) { 'A' <= c <= 'Z' }

  function LowerChar(c: char): (d: char)
    ensures !IsUpper(d)
    ensures IsUpper(c) ==> d as int == c as int + 32
    ensures !IsUpper(c) ==> d == c
  {
    if IsUpper(c) then (c as int + 32) as char else c
  }

  /** `s.toLowerCase()` restricted to the ASCII letters an address is made of. */
  function ToLower(s: string): (r: string)
    ensures |r| == |s|
    ensures forall i :: 0 <= i < |s| ==> r[i] == LowerChar(s[i])
  {
    seq(|s|, i requires 0 <= i < |s| => LowerChar(s[i]))
  }

  predicate IsLowerCase(s: string) {
    forall i :: 0 <= i < |s| ==> !IsUpper(s[i])
  }

  /** Lower-casing leaves no upper-case letter behind and is idempotent. */
  lemma ToLowerIdempotent(s: string)
    ensures IsLowerCase(ToLower(s))
    ensures ToLower(ToLower(s)) == ToLower(s)
  {
  }

  /** Lower-casing commutes with slicing, so a prefix of the lowered string is the lowered prefix. */
  lemma ToLowerSlice(s: string, i: nat, j: nat)
    requires i <= j <= |s|
    ensures ToLower(s)[i..j] == ToLower(s[i..j])
  {
  }

  // ---------------------------------------------------------------------------
  // Decimal rendering of integers (`bigint.toString()`)
  // ---------------------------------------------------------------------------

  predicate IsDigit(c: char) { '0' <= c <= '9' }

  function DigitChar(d: nat): (c: char)
    requires d < 10
    ensures IsDigit(c) && (c as int) - ('0' as int) == d
  {
    ('0' as int + d) as char
  }

  function DigitValue(c: char): (d: nat)
    requires IsDigit(c)
    ensures d < 10 && DigitChar(d) == c
  {
    (c as int) - ('0' as int)
  }

  predicate AllDigits(s: string) {
    forall i :: 0 <= i < |s| ==> IsDigit(s[i])
  }

  /** Decimal digits of `n`, most significant first, with no leading zero. */
  function NatToString(n: nat): (s: string)
    ensures |s| > 0 && AllDigits(s)
    ensures |s| > 1 ==> s[0] != '0'
    ensures s[0] == '0' <==> n == 0
  {
    if n < 10 then [DigitChar(n)] else NatToString(n / 10) + [DigitChar(n % 10)]
  }

  /** The value of a string of decimal digits; the inverse of `NatToString`. */
  function DecimalValue(s: string): nat
    requires AllDigits(s)
  {
    if s == [] then 0 else DecimalValue(s[..|s| - 1]) * 10 + DigitValue(s[|s| - 1])
  }

  lemma {:induction false} DecimalRoundTrip(n: nat)
    ensures DecimalValue(NatToString(n)) == n
  {
    var s := NatToString(n);
    if n >= 10 {
      DecimalRoundTrip(n / 10);
      assert s[..|s| - 1] == NatToString(n / 10);
    }
  }

  /** `x.toString()` for a `bigint` x: a minus sign before the magnitude when negative. */
  function IntToString(x: int): (s: string)
    ensures x < 0 ==> s == "-" + NatToString(-x)
    ensures x >= 0 ==> s == NatToString(x)
    ensures |s| > 0 && (s[0] == '-' <==> x < 0)
  {
    if x < 0 then "-" + NatToString(-x) else NatToString(x)
  }

  /** Reads back what `IntToString` writes. */
  function ParseInt(s: string): (r: Option<int>)
  {
    if |s| > 0 && s[0] == '-' && |s| > 1 && AllDigits(s[1..]) then Some(-(DecimalValue(s[1..]) as int))
    else if |s| > 0 && AllDigits(s) then Some(DecimalValue(s))
    else None
  }

  /** The decimal form of an integer is read back as the same integer, so no two integers share one. */
  lemma IntRoundTrip(x: int)
    ensures ParseInt(IntToString(x)) == Some(x)
  {
    if x < 0 {
      var s := IntToString(x);
      assert s[1..] == NatToString(-x);
      DecimalRoundTrip(-x);
    } else {
      DecimalRoundTrip(x);
    }
  }

  lemma IntToStringInjective(x: int, y: int)
    ensures IntToString(x) == IntToString(y) <==> x == y
  {
    if IntToString(x) == IntToString(y) {
      IntRoundTrip(x);
      IntRoundTrip(y);
    }
  }

  // ---------------------------------------------------------------------------
  // Hexadecimal reading (`parseInt(s, 16)`)
  // ---------------------------------------------------------------------------

  predicate IsHexDigit(c: char) {
    IsDigit(c) || 'a' <= c <= 'f' || 'A' <= c <= 'F'
  }

  predicate AllHex(s: string) {
    forall i :: 0 <= i < |s| ==> IsHexDigit(s[i])
  }

  function HexDigitValue(c: char): (d: nat)
    requires IsHexDigit(c)
    ensures d < 16
  {
    if IsDigit(c) then DigitValue(c)
    else if 'a' <= c <= 'f' then (c as int) - ('a' as int) + 10
    else (c as int) - ('A' as int) + 10
  }

  /** A hex digit keeps its value when lower-cased. */
  lemma HexDigitIgnoresCase(c: char)
    requires IsHexDigit(c)
    ensures IsHexDigit(LowerChar(c)) && HexDigitValue(LowerChar(c)) == HexDigitValue(c)
  {
  }

  function Pow16(k: nat): (p: nat)
    ensures p >= 1
  {
    if k == 0 then 1 else 16 * Pow16(k - 1)
  }

  /** The value of a string of hex digits, most significant first. */
  function HexValue(s: string): nat
    requires AllHex(s)
  {
    if s == [] then 0 else HexValue(s[..|s| - 1]) * 16 + HexDigitValue(s[|s| - 1])
  }

  /** k hex digits hold a value below 16^k. */
  lemma {:induction false} HexValueBound(s: string)
    requires AllHex(s)
    ensures HexValue(s) < Pow16(|s|)
  {
    if s != [] {
      HexValueBound(s[..|s| - 1]);
    }
  }

  /** Hex reading ignores the case of the letters a-f. */
  lemma {:induction false} HexValueIgnoresCase(s: string)
    requires AllHex(s)
    ensures AllHex(ToLower(s)) && HexValue(ToLower(s)) == HexValue(s)
  {
    if s != [] {
      var n := |s| - 1;
      HexValueIgnoresCase(s[..n]);
      HexDigitIgnoresCase(s[n]);
      ToLowerSlice(s, 0, n);
      assert ToLower(s)[..n] == ToLower(s[..n]);
    }
  }

  /** Length of the longest prefix of `s` made of hex digits. */
  function HexPrefixLength(s: string): (k: nat)
    ensures k <= |s| && AllHex(s[..k])
    ensures k < |s| ==> !IsHexDigit(s[k])
  {
    if s == [] || !IsHexDigit(s[0]) then 0 else 1 + HexPrefixLength(s[1..])
  }

  /** A JavaScript number that is either a value or `NaN`. */
  datatype Numeric = Num(value: nat) | NaN

  /**
   * `parseInt(s, 16)` on a string with no leading white space, sign or `0x`:
   * the value of the longest leading run of hex digits, `NaN` when there is none.
   */
  function ParseHex(s: string): (r: Numeric)
    ensures r.NaN? <==> (s == [] || !IsHexDigit(s[0]))
  {
    var k := HexPrefixLength(s);
    if k == 0 then NaN else Num(HexValue(s[..k]))
  }

  /** On a string made only of hex digits, `parseInt` reads all of it. */
  lemma ParseHexAllDigits(s: string)
    requires |s| > 0 && AllHex(s)
    ensures ParseHex(s) == Num(HexValue(s))
  {
    assert HexPrefixLength(s) == |s|;
    assert s[..|s|] == s;
  }

  /** `s.slice(begin, end)` for non-negative bounds, which JavaScript clamps to the length. */
  function Slice(s: string, begin: nat, end: nat): (r: string)
    ensures |r| <= |s|
    ensures begin <= end <= |s| ==> r == s[begin..end]
  {
    var b := if begin < |s| then begin else |s|;
    var e := if end < |s| then end else |s|;
    if b <= e then s[b..e] else []
  }
}
