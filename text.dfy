/**
 * Bytes, characters and the decimal numerals that printf's `%d` produces for
 * non-negative values.
 */
module Text {

  /** C's `unsigned char`, the element type of every buffer in the program. */
  type byte = x: int | 0 <= x < 256

  predicate IsDigit(c: char) { '0' <= c <= '9' }

  predicate AllDigits(s: string) { forall k | 0 <= k < |s| :: IsDigit(s[k]) }

  function DigitChar(d: nat): (c: char)
    requires d < 10
    ensures IsDigit(c) && c as int == '0' as int + d
  {
    ('0' as int + d) as char
  }

  /** The decimal numeral of `n`: at least one digit, and no leading zero. */
  function Decimal(n: nat): (s: string)
    ensures 1 <= |s| && AllDigits(s)
    ensures s[0] == '0' ==> n == 0
    decreases n
  {
    if n < 10 then [DigitChar(n)] else Decimal(n / 10) + [DigitChar(n % 10)]
  }

  /** The value a string of decimal digits denotes (an independent reader of numerals). */
  function DecimalValue(s: string): nat
    requires AllDigits(s)
    decreases |s|
  {
    if s == [] then 0
    else DecimalValue(s[..|s| - 1]) * 10 + (s[|s| - 1] as int - '0' as int)
  }

  /** Reading back the numeral of `n` gives `n`. */
  lemma {:induction false} DecimalRoundTrip(n: nat)
    ensures DecimalValue(Decimal(n)) == n
  {
    if n >= 10 {
      var s := Decimal(n);
      assert s[..|s| - 1] == Decimal(n / 10);
      DecimalRoundTrip(n / 10);
    }
  }

  /** Different numbers have different numerals. */
  lemma DecimalInjective(m: nat, n: nat)
    requires Decimal(m) == Decimal(n)
    ensures m == n
  {
    DecimalRoundTrip(m);
    DecimalRoundTrip(n);
  }

  function Pow10(k: nat): (p: nat)
    ensures p >= 1
  {
    if k == 0 then 1 else 10 * Pow10(k - 1)
  }

  /** A number below 10^k has at most k digits. */
  lemma {:induction false} DecimalLength(n: nat, k: nat)
    requires 1 <= k && n < Pow10(k)
    ensures |Decimal(n)| <= k
  {
    if n >= 10 {
      assert k >= 2;
      DecimalLength(n / 10, k - 1);
    }
  }

  /** Every character fits in one byte. */
  predicate IsNarrow(s: string) { forall k | 0 <= k < |s| :: s[k] as int < 256 }

  lemma DigitsAreNarrow(s: string)
    requires AllDigits(s)
    ensures IsNarrow(s)
  {
  }

  /** The bytes of a narrow string, one per character, as fprintf writes them. */
  function Ascii(s: string): (b: seq<byte>)
    requires IsNarrow(s)
    ensures |b| == |s| && forall k | 0 <= k < |s| :: b[k] == s[k] as int
  {
    seq(|s|, k requires 0 <= k < |s| => s[k] as int as byte)
  }

  /** The characters a sequence of bytes encodes. */
  function Chars(b: seq<byte>): (s: string)
    ensures |s| == |b| && forall k | 0 <= k < |b| :: s[k] as int == b[k]
  {
    seq(|b|, k requires 0 <= k < |b| => b[k] as char)
  }

  lemma CharsOfAscii(s: string)
    requires IsNarrow(s)
    ensures Chars(Ascii(s)) == s
  {
    var t := Chars(Ascii(s));
    assert |t| == |s|;
    forall k | 0 <= k < |s| ensures t[k] == s[k] {
      assert t[k] as int == s[k] as int;
    }
  }
}
