/**
 * The two IDX inputs: a label file `[u32 2049][u32 count][count label bytes]`
 * and an image file `[u32 2051][u32 n][u32 height][u32 width][n*height*width
 * pixel bytes]`, every u32 big-endian. A file is its contents; reading is a
 * position in that sequence.
 */
module Idx {
  import opened Wrappers
  import opened Errors
  import opened Text

  const LABEL_MAGIC := 2049
  const IMAGE_MAGIC := 2051

  const TWO_31 := 0x8000_0000
  const TWO_32 := 0x1_0000_0000

  /** The unsigned number a big-endian byte string denotes. */
  function BigEndian(s: seq<byte>): nat
    decreases |s|
  {
    if s == [] then 0 else BigEndian(s[..|s| - 1]) * 256 + s[|s| - 1]
  }

  /** The big-endian u32 at `pos`, as ntohl produces it from the four bytes there. */
  function U32At(data: seq<byte>, pos: nat): (u: nat)
    requires pos + 4 <= |data|
    ensures u == data[pos] as int * 0x100_0000 + data[pos + 1] as int * 0x1_0000 + data[pos + 2] as int * 0x100 + data[pos + 3] as int
    ensures u < TWO_32
  {
    var s := data[pos..pos + 4];
    assert BigEndian(s[..1]) == s[0] by {
      assert s[..1][..0] == [];
    }
    assert BigEndian(s[..2]) == s[0] as int * 256 + s[1] by {
      assert s[..2][..1] == s[..1];
    }
    assert BigEndian(s[..3]) == (s[0] as int * 256 + s[1]) * 256 + s[2] by {
      assert s[..3][..2] == s[..2];
    }
    assert BigEndian(s) == ((s[0] as int * 256 + s[1]) * 256 + s[2]) * 256 + s[3] by {
      assert s[..3] == s[..|s| - 1];
    }
    BigEndian(s)
  }

  /** The value a u32 takes once stored in a 32-bit two's-complement `int`. */
  function ToInt32(u: nat): (v: int)
    requires u < TWO_32
    ensures -TWO_31 <= v < TWO_31
    ensures v == u || v == u - TWO_32
    ensures v > 0 <==> 0 < u < TWO_31
    ensures v >= 0 <==> u < TWO_31
  {
    if u < TWO_31 then u else u - TWO_32
  }

  /** A value read from a stream and the position just after it. */
  datatype Read = Read(value: int, next: nat)

  /** read_int: the next four bytes as a big-endian u32 held in an `int`. */
  function ReadInt(data: seq<byte>, pos: nat): (r: Result<Read, Error>)
    ensures r.Success? <==> pos + 4 <= |data|
    ensures r.Failure? ==> r.error == IntReadError
    ensures r.Success? ==> r.value.next == pos + 4 && r.value.value == ToInt32(U32At(data, pos))
  {
    if |data| < pos + 4 then Failure(IntReadError)
    else Success(Read(ToInt32(U32At(data, pos)), pos + 4))
  }

  /** The four bytes of `u` in network order: the inverse of read_int's decoding. */
  function U32Bytes(u: nat): (b: seq<byte>)
    requires u < TWO_32
    ensures |b| == 4
  {
    var b3, u1 := u % 256, u / 256;
    var b2, u2 := u1 % 256, u1 / 256;
    var b1, b0 := u2 % 256, u2 / 256;
    [b0, b1, b2, b3]
  }

  /** The four bytes U32Bytes(u), found anywhere in a file, decode to u. */
  lemma U32AtOfEncoded(data: seq<byte>, pos: nat, u: nat)
    requires u < TWO_32 && pos + 4 <= |data| && data[pos..pos + 4] == U32Bytes(u)
    ensures U32At(data, pos) == u
  {
    assert data[pos] == U32Bytes(u)[0] && data[pos + 1] == U32Bytes(u)[1];
    assert data[pos + 2] == U32Bytes(u)[2] && data[pos + 3] == U32Bytes(u)[3];
  }

  /** Encoding a u32 and reading it back, anywhere in a file, gives its int value. */
  lemma ReadIntOfEncoded(prefix: seq<byte>, u: nat, rest: seq<byte>)
    requires u < TWO_32
    ensures ReadInt(prefix + U32Bytes(u) + rest, |prefix|) == Success(Read(ToInt32(u), |prefix| + 4))
  {
    var data := prefix + U32Bytes(u) + rest;
    var p := |prefix|;
    assert data[p..p + 4] == U32Bytes(u);
    U32AtOfEncoded(data, p, u);
  }

  /** read_labels: the label bytes, exactly as many as the header declares. */
  function ParseLabels(data: seq<byte>): (r: Result<seq<byte>, Error>)
    ensures |data| < 4 ==> r == Failure(IntReadError)
    ensures 4 <= |data| && U32At(data, 0) != LABEL_MAGIC ==> r == Failure(NotALabelFile)
    ensures 4 <= |data| < 8 && U32At(data, 0) == LABEL_MAGIC ==> r == Failure(IntReadError)
    ensures 8 <= |data| && U32At(data, 0) == LABEL_MAGIC && r.Failure? ==> r.error == LabelReadError
    ensures r.Success? <==>
              8 <= |data| && U32At(data, 0) == LABEL_MAGIC &&
              U32At(data, 4) < TWO_31 && 8 + U32At(data, 4) <= |data|
    ensures r.Success? ==> r.value == data[8..8 + U32At(data, 4)]
  {
    var magic :- ReadInt(data, 0);
    if magic.value != LABEL_MAGIC then Failure(NotALabelFile)
    else
      var count :- ReadInt(data, magic.next);
      if count.value < 0 || |data| - count.next < count.value then Failure(LabelReadError)
      else Success(data[count.next..count.next + count.value])
  }

  /**
   * The decoded image file: `count` images of `height` rows by `width`
   * columns, stored one after another in `pixels`.
   */
  datatype ImageSet = ImageSet(count: nat, height: nat, width: nat, pixels: seq<byte>) {
    /** The size of one image. */
    function BlockSize(): nat { width * height }

    /** What read_images guarantees of its result. */
    predicate Valid() {
      0 < count < TWO_31 && 0 < height < TWO_31 && 0 < width < TWO_31 &&
      |pixels| == count * height * width
    }
  }

  /** The dimensions read_images takes from the header, once each is known to be positive. */
  datatype Dimensions = Dimensions(count: nat, height: nat, width: nat)

  /** The number of pixel bytes, num_images * height * width. */
  function Volume(d: Dimensions): nat { d.count * d.height * d.width }

  /** Whether the three header fields after the magic number are positive as signed ints. */
  predicate PositiveHeader(data: seq<byte>)
    requires 16 <= |data|
  {
    0 < U32At(data, 4) < TWO_31 && 0 < U32At(data, 8) < TWO_31 && 0 < U32At(data, 12) < TWO_31
  }

  /** The first half of read_images: the magic number, then n, height and width, in that order. */
  function ParseImageHeader(data: seq<byte>): (r: Result<Dimensions, Error>)
    ensures |data| < 4 ==> r == Failure(IntReadError)
    ensures 4 <= |data| && U32At(data, 0) != IMAGE_MAGIC ==> r == Failure(NotAnImageFile)
    ensures 4 <= |data| < 16 && U32At(data, 0) == IMAGE_MAGIC ==> r == Failure(IntReadError)
    ensures 16 <= |data| && U32At(data, 0) == IMAGE_MAGIC && !PositiveHeader(data) ==> r == Failure(BadImageHeader)
    ensures r.Success? <==> 16 <= |data| && U32At(data, 0) == IMAGE_MAGIC && PositiveHeader(data)
    ensures r.Success? ==> r.value == Dimensions(U32At(data, 4), U32At(data, 8), U32At(data, 12))
  {
    var magic :- ReadInt(data, 0);
    if magic.value != IMAGE_MAGIC then Failure(NotAnImageFile)
    else
      var n :- ReadInt(data, magic.next);
      var h :- ReadInt(data, n.next);
      var w :- ReadInt(data, h.next);
      if n.value <= 0 || h.value <= 0 || w.value <= 0 then Failure(BadImageHeader)
      else Success(Dimensions(n.value, h.value, w.value))
  }

  /** read_images: the header, then exactly n * height * width pixel bytes. */
  function ParseImages(data: seq<byte>): (r: Result<ImageSet, Error>)
    ensures ParseImageHeader(data).Failure? ==> r == Failure(ParseImageHeader(data).error)
    ensures ParseImageHeader(data).Success? ==>
              var d := ParseImageHeader(data).value;
              (r.Success? <==> 16 + Volume(d) <= |data|) &&
              (r.Failure? ==> r.error == ImageReadError) &&
              (r.Success? ==> r.value == ImageSet(d.count, d.height, d.width, data[16..16 + Volume(d)]))
    ensures r.Success? ==> r.value.Valid()
  {
    match ParseImageHeader(data)
    case Failure(e) => Failure(e)
    case Success(d) =>
      var size := Volume(d);
      if |data| - 16 < size then Failure(ImageReadError)
      else Success(ImageSet(d.count, d.height, d.width, data[16..16 + size]))
  }

  /** A label file holding `labels`, laid out as read_labels expects. */
  function LabelFile(labels: seq<byte>): seq<byte>
    requires |labels| < TWO_31
  {
    U32Bytes(LABEL_MAGIC) + U32Bytes(|labels|) + labels
  }

  /** An image file holding `images`, laid out as read_images expects. */
  function ImageFile(images: ImageSet): seq<byte>
    requires images.Valid()
  {
    U32Bytes(IMAGE_MAGIC) + U32Bytes(images.count) + U32Bytes(images.height) + U32Bytes(images.width) + images.pixels
  }

  /** read_labels accepts every well-formed label file and returns its labels. */
  lemma ParseLabelFile(labels: seq<byte>, trailing: seq<byte>)
    requires |labels| < TWO_31
    ensures ParseLabels(LabelFile(labels) + trailing) == Success(labels)
  {
    var data := LabelFile(labels) + trailing;
    ReadIntOfEncoded([], LABEL_MAGIC, U32Bytes(|labels|) + labels + trailing);
    assert data == [] + U32Bytes(LABEL_MAGIC) + (U32Bytes(|labels|) + labels + trailing);
    ReadIntOfEncoded(U32Bytes(LABEL_MAGIC), |labels|, labels + trailing);
    assert data == U32Bytes(LABEL_MAGIC) + U32Bytes(|labels|) + (labels + trailing);
    assert data[8..8 + |labels|] == labels;
  }

  /** read_images accepts every well-formed image file and returns its header and pixels. */
  lemma ParseImageFile(images: ImageSet, trailing: seq<byte>)
    requires images.Valid()
    ensures ParseImages(ImageFile(images) + trailing) == Success(images)
  {
    var data := ImageFile(images) + trailing;
    var m, n, h, w := U32Bytes(IMAGE_MAGIC), U32Bytes(images.count), U32Bytes(images.height), U32Bytes(images.width);
    assert data == m + n + h + w + (images.pixels + trailing);
    assert data[0..4] == m && data[4..8] == n && data[8..12] == h && data[12..16] == w;
    U32AtOfEncoded(data, 0, IMAGE_MAGIC);
    U32AtOfEncoded(data, 4, images.count);
    U32AtOfEncoded(data, 8, images.height);
    U32AtOfEncoded(data, 12, images.width);
    var d := Dimensions(images.count, images.height, images.width);
    assert ParseImageHeader(data) == Success(d);
    assert Volume(d) == |images.pixels|;
    assert data[16..16 + Volume(d)] == images.pixels;
  }

  /** An image file given where a label file is expected is rejected by its magic number. */
  lemma ImageFileIsNotALabelFile(images: ImageSet)
    requires images.Valid()
    ensures ParseLabels(ImageFile(images)) == Failure(NotALabelFile)
  {
    var data := ImageFile(images);
    assert data[..4] == U32Bytes(IMAGE_MAGIC);
  }

  /** A label file given where an image file is expected is rejected by its magic number. */
  lemma LabelFileIsNotAnImageFile(labels: seq<byte>)
    requires |labels| < TWO_31
    ensures ParseImages(LabelFile(labels)) == Failure(NotAnImageFile)
  {
    var data := LabelFile(labels);
    assert data[..4] == U32Bytes(LABEL_MAGIC);
  }

  /** A label file whose payload is shorter than its count is a read error. */
  lemma ShortLabelFile(count: nat, payload: seq<byte>)
    requires |payload| < count < TWO_31
    ensures ParseLabels(U32Bytes(LABEL_MAGIC) + U32Bytes(count) + payload) == Failure(LabelReadError)
  {
    var data := U32Bytes(LABEL_MAGIC) + U32Bytes(count) + payload;
    ReadIntOfEncoded([], LABEL_MAGIC, U32Bytes(count) + payload);
    assert data == [] + U32Bytes(LABEL_MAGIC) + (U32Bytes(count) + payload);
    ReadIntOfEncoded(U32Bytes(LABEL_MAGIC), count, payload);
  }
}
