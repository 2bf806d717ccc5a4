/**
 * The strings main and write_pgm_image build into fixed buffers of MAX_PATH
 * bytes: snprintf and strlcpy/strlcat keep what fits and report the length
 * they would have needed, and the program stops when that length does not
 * fit (leaving room for the terminating NUL).
 */
module Paths {
  import opened Text

  const MAX_PATH := 255

  /** A buffer's contents after a bounded write, and the length the call returned. */
  datatype Bounded = Bounded(text: string, length: nat)

  function Min(a: nat, b: nat): nat { if a <= b then a else b }

  /**
   * snprintf(buf, size, ...) of the already formatted `src`, and equally
   * strlcpy(buf, src, size): at most size - 1 characters are kept and the
   * full length of `src` is returned.
   */
  function BoundedCopy(src: string, size: nat): (r: Bounded)
    requires 0 < size
    ensures r.length == |src| && |r.text| < size && r.text <= src
    ensures r.length < size <==> r.text == src
  {
    Bounded(src[..Min(|src|, size - 1)], |src|)
  }

  /**
   * strlcat(buf, src, size) on a buffer holding `dst`: `src` is appended as
   * far as it fits and |dst| + |src| is returned.
   */
  function StrlCat(dst: string, src: string, size: nat): (r: Bounded)
    requires |dst| < size
    ensures r.length == |dst| + |src| && |r.text| < size && dst <= r.text <= dst + src
    ensures r.length < size <==> r.text == dst + src
  {
    Bounded(dst + src[..Min(|src|, size - 1 - |dst|)], |dst| + |src|)
  }

  /** The subdirectory of sample labelled `labelByte`: snprintf's "%s/%d/" of the output directory and the label. */
  function DirectoryText(out: string, labelByte: byte): string
  {
    out + "/" + Decimal(labelByte) + "/"
  }

  /** The file name of sample `index`: snprintf's "image%d.pgm". */
  function FilenameText(index: nat): string
  {
    "image" + Decimal(index) + ".pgm"
  }

  /** Where sample `index` with `labelByte` is written. */
  function SamplePath(out: string, labelByte: byte, index: nat): string
  {
    DirectoryText(out, labelByte) + FilenameText(index)
  }

  /** Every index an int can hold gives a file name far below MAX_PATH, so main's check on the snprintf of the file name never fires. */
  lemma FilenameFits(index: nat)
    requires index < 0x8000_0000
    ensures |FilenameText(index)| <= 19 < MAX_PATH
  {
    assert Pow10(10) == 10_000_000_000;
    DecimalLength(index, 10);
  }

  /** A run of digits ends at the first '/': two strings that agree and both put one after their digits split alike. */
  lemma SplitAtSlash(a: string, x: string, b: string, y: string)
    requires AllDigits(a) && AllDigits(b) && a + x == b + y
    requires |x| > 0 && x[0] == '/' && |y| > 0 && y[0] == '/'
    ensures a == b && x == y
  {
    var s := a + x;
    assert forall k | 0 <= k < |a| :: IsDigit(s[k]);
    assert forall k | 0 <= k < |b| :: IsDigit(s[k]);
    assert !IsDigit(s[|a|]) && !IsDigit(s[|b|]);
    assert |a| == |b|;
    assert a == s[..|a|] && b == s[..|b|];
    assert x == s[|a|..] && y == s[|b|..];
  }

  lemma DropPrefix(p: string, x: string, y: string)
    requires p + x == p + y
    ensures x == y
  {
    assert x == (p + x)[|p|..];
    assert y == (p + y)[|p|..];
  }

  lemma DropSuffix(x: string, y: string, q: string)
    requires x + q == y + q
    ensures x == y
  {
    assert x == (x + q)[..|x|];
    assert y == (y + q)[..|y|];
  }

  /** SamplePath, grouped as the injectivity proof reads it. */
  lemma SamplePathParts(out: string, labelByte: byte, index: nat)
    ensures SamplePath(out, labelByte, index) ==
            (out + "/") + (Decimal(labelByte) + ("/image" + (Decimal(index) + ".pgm")))
  {
  }

  /** No two samples share a path: the label and the index can be read back from it. */
  lemma SamplePathInjective(out: string, l1: byte, i1: nat, l2: byte, i2: nat)
    requires SamplePath(out, l1, i1) == SamplePath(out, l2, i2)
    ensures l1 == l2 && i1 == i2
  {
    var a1, a2, d1, d2 := Decimal(l1), Decimal(l2), Decimal(i1), Decimal(i2);
    var x1, x2 := "/image" + (d1 + ".pgm"), "/image" + (d2 + ".pgm");
    SamplePathParts(out, l1, i1);
    SamplePathParts(out, l2, i2);
    DropPrefix(out + "/", a1 + x1, a2 + x2);
    SplitAtSlash(a1, x1, a2, x2);
    DecimalInjective(l1, l2);
    DropPrefix("/image", d1 + ".pgm", d2 + ".pgm");
    DropSuffix(d1, d2, ".pgm");
    DecimalInjective(i1, i2);
  }
}
