/**
 * The binary Netpbm graymap ("P5") that write_pgm_image emits: the text
 * header "P5 <width> <height> 255\n" followed by the raw pixel bytes, and a
 * reader for that header so that what is written can be read back.
 */
module Pgm {
  import opened Wrappers
  import opened Text

  const MAGIC := "P5"
  const MAX_GRAY := 255

  const SPACE: byte := 32
  const NEWLINE: byte := 10

  /** What fprintf writes for the format "%s %d %d %d\n" with MAGIC, width, height and MAX_GRAY. */
  function Header(width: nat, height: nat): seq<byte>
  {
    Ascii(MAGIC) + [SPACE] + Ascii(Decimal(width)) + [SPACE] + Ascii(Decimal(height)) + [SPACE] +
    Ascii(Decimal(MAX_GRAY)) + [NEWLINE]
  }

  /** The bytes of one output file: the header, then the pixels fwrite writes. */
  function Encode(width: nat, height: nat, pixels: seq<byte>): (b: seq<byte>)
    ensures |pixels| < |b| && b[|b| - |pixels|..] == pixels
  {
    Header(width, height) + pixels
  }

  /** A graymap as a reader sees it. */
  datatype Image = Image(width: nat, height: nat, maxGray: nat, pixels: seq<byte>)

  /** A number read from a byte stream and the bytes after it. */
  datatype Number = Number(value: nat, rest: seq<byte>)

  predicate IsDigitByte(x: byte) { '0' as int <= x <= '9' as int }

  /** The length of the run of digits that `b` starts with. */
  function LeadingDigits(b: seq<byte>): (k: nat)
    ensures k <= |b|
    ensures forall j | 0 <= j < k :: IsDigitByte(b[j])
    ensures k < |b| ==> !IsDigitByte(b[k])
  {
    if b == [] || !IsDigitByte(b[0]) then 0 else 1 + LeadingDigits(b[1..])
  }

  /** A decimal numeral at the front of `b`, read as far as its digits go. */
  function ParseNumber(b: seq<byte>): Option<Number>
  {
    var k := LeadingDigits(b);
    if k == 0 then None
    else
      var digits := Chars(b[..k]);
      assert AllDigits(digits) by {
        forall j | 0 <= j < k ensures IsDigit(digits[j]) {
          assert digits[j] as int == b[j];
        }
      }
      Some(Number(DecimalValue(digits), b[k..]))
  }

  /** The byte `c` at the front of `b`, which is then skipped. */
  function Expect(b: seq<byte>, c: byte): Option<seq<byte>>
  {
    if |b| > 0 && b[0] == c then Some(b[1..]) else None
  }

  /**
   * Reads a graymap in exactly the layout Encode writes: the magic, single
   * spaces between the numbers, one newline, then width * height pixels.
   */
  function Decode(b: seq<byte>): Option<Image>
  {
    var b :- Expect(b, 'P' as int);
    var b :- Expect(b, '5' as int);
    var b :- Expect(b, SPACE);
    var w :- ParseNumber(b);
    var b :- Expect(w.rest, SPACE);
    var h :- ParseNumber(b);
    var b :- Expect(h.rest, SPACE);
    var g :- ParseNumber(b);
    var pixels :- Expect(g.rest, NEWLINE);
    if |pixels| == w.value * h.value then Some(Image(w.value, h.value, g.value, pixels)) else None
  }

  lemma {:induction false} LeadingDigitsAppend(d: seq<byte>, rest: seq<byte>)
    requires forall j | 0 <= j < |d| :: IsDigitByte(d[j])
    requires rest == [] || !IsDigitByte(rest[0])
    ensures LeadingDigits(d + rest) == |d|
  {
    if d != [] {
      assert (d + rest)[1..] == d[1..] + rest;
      LeadingDigitsAppend(d[1..], rest);
    }
  }

  /** The numeral of `n`, followed by anything but a digit, reads back as `n`. */
  lemma ParseNumberOfDecimal(n: nat, rest: seq<byte>)
    requires rest == [] || !IsDigitByte(rest[0])
    ensures IsNarrow(Decimal(n))
    ensures ParseNumber(Ascii(Decimal(n)) + rest) == Some(Number(n, rest))
  {
    var s := Decimal(n);
    DigitsAreNarrow(s);
    var d := Ascii(s);
    LeadingDigitsAppend(d, rest);
    assert (d + rest)[..|d|] == d;
    assert (d + rest)[|d|..] == rest;
    CharsOfAscii(s);
    DecimalRoundTrip(n);
  }

  /** Reading back a file that Encode wrote gives its width, height, 255 and the pixels. */
  lemma DecodeEncode(width: nat, height: nat, pixels: seq<byte>)
    requires |pixels| == width * height
    ensures Decode(Encode(width, height, pixels)) == Some(Image(width, height, MAX_GRAY, pixels))
  {
    var aw, ah, ag := Ascii(Decimal(width)), Ascii(Decimal(height)), Ascii(Decimal(MAX_GRAY));
    var tail3 := [NEWLINE] + pixels;
    var tail2 := [SPACE] + (ag + tail3);
    var tail1 := [SPACE] + (ah + tail2);
    var b := ['P' as int, '5' as int, SPACE] + (aw + tail1);
    assert Ascii(MAGIC) == ['P' as int, '5' as int];
    assert Encode(width, height, pixels) == b;
    assert Expect(b, 'P' as int) == Some(b[1..]);
    assert Expect(b[1..], '5' as int) == Some(b[2..]);
    assert Expect(b[2..], SPACE) == Some(aw + tail1);
    ParseNumberOfDecimal(width, tail1);
    assert Expect(tail1, SPACE) == Some(ah + tail2);
    ParseNumberOfDecimal(height, tail2);
    assert Expect(tail2, SPACE) == Some(ag + tail3);
    ParseNumberOfDecimal(MAX_GRAY, tail3);
    assert Expect(tail3, NEWLINE) == Some(pixels);
  }
}
