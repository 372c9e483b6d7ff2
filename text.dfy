/**
 * Number-to-text conversions used by the formatters: decimal output of
 * unsigned and signed integers (`operator<<` on a uint64_t, std::to_string
 * on a long) and fixed-width lower-case hexadecimal (`std::hex` with
 * `std::setw(8)` and fill '0').
 */
module Text {
  const DecimalDigits: string := "0123456789"
  const HexDigits: string := "0123456789abcdef"

  predicate IsDecimalDigit(c: char) { '0' <= c <= '9' }
  predicate IsHexDigit(c: char) { c in HexDigits }

  function DigitValue(c: char): nat
  {
    if '0' <= c <= '9' then c as int - '0' as int else 0
  }

  function HexValueOf(c: char): nat
  {
    if '0' <= c <= '9' then c as int - '0' as int
    else if 'a' <= c <= 'f' then c as int - 'a' as int + 10
    else 0
  }

  /** The value a string of decimal digits denotes. */
  function DecimalValue(s: string): nat
  {
    if |s| == 0 then 0 else 10 * DecimalValue(s[..|s| - 1]) + DigitValue(s[|s| - 1])
  }

  /** The value a string of hexadecimal digits denotes. */
  function HexValue(s: string): nat
  {
    if |s| == 0 then 0 else 16 * HexValue(s[..|s| - 1]) + HexValueOf(s[|s| - 1])
  }

  function Pow16(k: nat): (p: nat)
    ensures p >= 1
  {
    if k == 0 then 1 else 16 * Pow16(k - 1)
  }

  /** Decimal text of a natural number, most significant digit first, without leading zeros. */
  function NatToString(n: nat): (s: string)
    ensures |s| >= 1 && forall i :: 0 <= i < |s| ==> IsDecimalDigit(s[i])
    ensures |s| > 1 ==> s[0] != '0'
    ensures DecimalValue(s) == n
    decreases n
  {
    if n < 10 then
      DecimalDigitValue(n);
      [DecimalDigits[n]]
    else
      var prefix := NatToString(n / 10);
      var d := DecimalDigits[n % 10];
      DecimalDigitValue(n % 10);
      DecimalValueSnoc(prefix, d);
      prefix + [d]
  }

  lemma DecimalDigitValue(k: nat)
    requires k < 10
    ensures IsDecimalDigit(DecimalDigits[k]) && DigitValue(DecimalDigits[k]) == k
  {
  }

  lemma DecimalValueSnoc(prefix: string, c: char)
    ensures DecimalValue(prefix + [c]) == 10 * DecimalValue(prefix) + DigitValue(c)
  {
    assert (prefix + [c])[..|prefix|] == prefix;
  }

  /** Decimal digits denote their value, so different numbers print differently. */
  lemma NatToStringInjective(m: nat, n: nat)
    requires NatToString(m) == NatToString(n)
    ensures m == n
  {
  }

  /** std::to_string of a signed integer: a minus sign before the magnitude of a negative value. */
  function IntToString(i: int): (s: string)
    ensures i < 0 <==> (|s| > 0 && s[0] == '-')
    ensures i >= 0 ==> s == NatToString(i)
    ensures i < 0 ==> s[1..] == NatToString(-i)
  {
    if i < 0 then "-" + NatToString(-i) else NatToString(i)
  }

  /** The low `width` hexadecimal digits of `w`, zero-filled on the left. */
  function HexPadded(w: nat, width: nat): (s: string)
    ensures |s| == width
    ensures forall i :: 0 <= i < |s| ==> IsHexDigit(s[i])
    ensures w < Pow16(width) ==> HexValue(s) == w
  {
    if width == 0 then ""
    else
      var prefix := HexPadded(w / 16, width - 1);
      var d := HexDigits[w % 16];
      HexDigitValue(w % 16);
      HexValueSnoc(prefix, d);
      LowerDigits(w, Pow16(width - 1));
      prefix + [d]
  }

  lemma HexDigitValue(k: nat)
    requires k < 16
    ensures IsHexDigit(HexDigits[k]) && HexValueOf(HexDigits[k]) == k
  {
  }

  lemma HexValueSnoc(prefix: string, c: char)
    ensures HexValue(prefix + [c]) == 16 * HexValue(prefix) + HexValueOf(c)
  {
    assert (prefix + [c])[..|prefix|] == prefix;
  }

  /** A value below 16 p leaves a quotient below p once its last digit is taken off. */
  lemma LowerDigits(w: nat, p: nat)
    ensures w < 16 * p ==> w / 16 < p
  {
  }

  /** Eight hexadecimal digits of a 32-bit word, as one `std::setw(8)` field prints it. */
  function Hex8(w: nat): (s: string)
    requires w < 0x1_0000_0000
    ensures |s| == 8 && forall i :: 0 <= i < 8 ==> IsHexDigit(s[i])
    ensures HexValue(s) == w
  {
    assert Pow16(8) == 0x1_0000_0000;
    HexPadded(w, 8)
  }
}
