/**
 * The pure and buffer utilities of the DirectShow capture helper used by
 * the Windows tests: clipping, FourCC codes as strings, in-place upper
 * casing, the I420 plane indexing of its decoder, and the fix-up that
 * turns a bare MJPEG frame into a JFIF image by splicing in the default
 * Huffman tables (Annex K.3 of ITU-T T.81) as one DHT marker segment.
 */
module CommandCam {
  import opened Bytes
  import opened Arith

  // ---------------------------------------------------------------- clip

  /** A decoded colour component clipped to 0..255. */
  function Clip(value: int): (r: Byte)
    ensures value < 0 ==> r == 0
    ensures value > 255 ==> r == 255
    ensures 0 <= value <= 255 ==> r == value
  {
    if value < 0 then 0 else if value > 255 then 255 else value
  }

  /** Clipping is the nearest value in range and leaves in-range values alone, so it is idempotent. */
  lemma ClipNearest(value: int, b: Byte)
    ensures Clip(Clip(value)) == Clip(value)
    ensures (if value < Clip(value) then Clip(value) - value else value - Clip(value))
         <= (if value < b then b - value else value - b)
  {
  }

  // ---------------------------------------------------------------- FourCC codes

  const BiRgb: nat := 0
  const BiBitfields: nat := 3

  /** ASCII lower-casing, as `strcasecmp` compares. */
  function Lower(c: Byte): Byte {
    if 65 <= c <= 90 then c + 32 else c
  }

  predicate EqualsIgnoringCase(s: seq<Byte>, t: string)
    requires forall i :: 0 <= i < |t| ==> t[i] as int < 256
  {
    |s| == |t| && forall i :: 0 <= i < |s| ==> Lower(s[i]) == Lower(t[i] as int)
  }

  /** The names that stand for uncompressed RGB. */
  predicate IsRgbName(s: seq<Byte>) {
    EqualsIgnoringCase(s, "RGB") || EqualsIgnoringCase(s, "RGB888") || EqualsIgnoringCase(s, "sRGB")
  }

  /** Character k (k < 4) of the code name lands in bits 8k .. 8k+7. */
  function Pack(s: seq<Byte>): (n: nat)
    ensures n < 0x1_0000_0000
  {
    (if |s| > 0 then s[0] as int else 0)
      + (if |s| > 1 then s[1] as int * 0x100 else 0)
      + (if |s| > 2 then s[2] as int * 0x1_0000 else 0)
      + (if |s| > 3 then s[3] as int * 0x100_0000 else 0)
  }

  /** `str2fourcc`: the RGB names give `BI_RGB`, any other name is packed little-endian from its first four characters. */
  function Str2Fourcc(s: seq<Byte>): (n: nat)
    ensures IsRgbName(s) ==> n == BiRgb
    ensures !IsRgbName(s) ==> n == Pack(s)
  {
    if IsRgbName(s) then BiRgb else Pack(s)
  }

  /** Byte k of a 32-bit code. */
  function CodeByte(n: nat, k: nat): Byte {
    (n / Power256(k)) % 256
  }

  function Power256(k: nat): (p: nat)
    ensures p >= 1
  {
    if k == 0 then 1 else 256 * Power256(k - 1)
  }

  /** A C string ends at its first NUL. */
  function UpToNul(s: seq<Byte>): (r: seq<Byte>)
    ensures |r| <= |s| && r == s[..|r|] && forall i :: 0 <= i < |r| ==> r[i] != 0
    ensures |r| < |s| ==> s[|r|] == 0
  {
    if s == [] || s[0] == 0 then [] else [s[0]] + UpToNul(s[1..])
  }

  /** The bytes of a Latin-1 string. */
  function Ascii(t: string): (s: seq<Byte>)
    requires forall i :: 0 <= i < |t| ==> t[i] as int < 256
    ensures |s| == |t| && forall i :: 0 <= i < |t| ==> s[i] == t[i] as int
  {
    if t == [] then [] else [t[0] as int] + Ascii(t[1..])
  }

  /** `fourcc2str`: the two RGB codes by name, any other code unpacked little-endian into a C string. */
  function Fourcc2Str(n: nat): (s: seq<Byte>)
    ensures n == BiRgb ==> s == Ascii("RGB")
    ensures n == BiBitfields ==> s == Ascii("RGB555")
    ensures n != BiRgb && n != BiBitfields ==> s == UpToNul([CodeByte(n, 0), CodeByte(n, 1), CodeByte(n, 2), CodeByte(n, 3)])
  {
    if n == BiRgb then Ascii("RGB")
    else if n == BiBitfields then Ascii("RGB555")
    else UpToNul([CodeByte(n, 0), CodeByte(n, 1), CodeByte(n, 2), CodeByte(n, 3)])
  }

  /** Unpacking recovers the four packed characters. */
  lemma {:induction false} UnpackPack(s: seq<Byte>)
    requires |s| == 4
    ensures forall k :: 0 <= k < 4 ==> CodeByte(Pack(s), k) == s[k]
  {
    var n := Pack(s);
    var b0, b1, b2, b3: nat := s[0], s[1], s[2], s[3];
    assert Power256(1) == 256 && Power256(2) == 0x1_0000 && Power256(3) == 0x100_0000;
    Digit(n, 1, 0, b0, b1 + 256 * (b2 + 256 * b3));
    Digit(n, 256, b0, b1, b2 + 256 * b3);
    Digit(n, 0x1_0000, b0 + 256 * b1, b2, b3);
    Digit(n, 0x100_0000, b0 + 256 * b1 + 0x1_0000 * b2, b3, 0);
  }

  /** The base-256 digit at place value p of low + p*b + p*256*high. */
  lemma Digit(n: nat, p: nat, low: nat, b: nat, high: nat)
    requires p > 0 && low < p && b < 256 && n == low + p * (b + 256 * high)
    ensures n / p % 256 == b
  {
    assert n == (b + 256 * high) * p + low;
    DivUnique(n, p, b + 256 * high, low);
    DivUnique(b + 256 * high, 256, high, b);
  }

  /**
   * Round trip: a four-character code name without NUL characters that is
   * not an RGB name is recovered from its code.
   */
  lemma {:induction false} Fourcc2StrOfStr2Fourcc(s: seq<Byte>)
    requires |s| == 4 && (forall i :: 0 <= i < 4 ==> s[i] != 0) && !IsRgbName(s)
    ensures Fourcc2Str(Str2Fourcc(s)) == s
  {
    var n := Pack(s);
    UnpackPack(s);
    assert n != BiRgb && n != BiBitfields by {
      assert n >= s[1] as int * 0x100 >= 0x100;
    }
    var bytes := [CodeByte(n, 0), CodeByte(n, 1), CodeByte(n, 2), CodeByte(n, 3)];
    assert bytes == s;
    assert UpToNul(s[3..]) == s[3..];
    assert UpToNul(s[2..]) == s[2..];
    assert UpToNul(s[1..]) == s[1..];
  }

  /** The packed FourCC constants of the capture helper are the codes of their names. */
  lemma Yuy2Fourcc()
    ensures Str2Fourcc(Ascii("YUY2")) == 0x32595559
  {
    Str2FourccOfName("YUY2");
  }

  lemma UyvyFourcc()
    ensures Str2Fourcc(Ascii("UYVY")) == 0x59565955
  {
    Str2FourccOfName("UYVY");
  }

  lemma Nv12Fourcc()
    ensures Str2Fourcc(Ascii("NV12")) == 0x3231564E
  {
    Str2FourccOfName("NV12");
  }

  lemma I420Fourcc()
    ensures Str2Fourcc(Ascii("I420")) == 0x30323449
  {
    Str2FourccOfName("I420");
  }

  lemma MjpgFourcc()
    ensures Str2Fourcc(Ascii("MJPG")) == 0x47504A4D
  {
    Str2FourccOfName("MJPG");
  }

  /** "rgb", in any case, names `BI_RGB`. */
  lemma RgbNameFourcc()
    ensures Str2Fourcc(Ascii("rgb")) == BiRgb
  {
    assert EqualsIgnoringCase(Ascii("rgb"), "RGB");
  }

  /** A four-character name not starting with `s` or `S` is packed character by character. */
  lemma Str2FourccOfName(t: string)
    requires |t| == 4 && forall i :: 0 <= i < 4 ==> t[i] as int < 256
    requires Lower(t[0] as int) != 's' as int
    ensures Str2Fourcc(Ascii(t)) == t[0] as int + t[1] as int * 0x100 + t[2] as int * 0x1_0000 + t[3] as int * 0x100_0000
  {
    NotRgbName(Ascii(t));
  }

  lemma NotRgbName(s: seq<Byte>)
    requires |s| == 4 && Lower(s[0]) != 's' as int
    ensures !IsRgbName(s)
  {
    assert !EqualsIgnoringCase(s, "sRGB") by {
      assert Lower(s[0]) != Lower("sRGB"[0] as int);
    }
  }

  // ---------------------------------------------------------------- strupcase

  /** `toupper` in the C locale. */
  function Upper(c: char): char {
    if 'a' <= c <= 'z' then (c as int - 32) as char else c
  }

  function UpcaseAll(s: seq<char>): (r: seq<char>)
    ensures |r| == |s| && forall i :: 0 <= i < |s| ==> r[i] == Upper(s[i])
  {
    seq(|s|, i requires 0 <= i < |s| => Upper(s[i]))
  }

  /** `strlen`: the characters before the first NUL. */
  function CLength(s: seq<char>): (n: nat)
    ensures n <= |s| && (forall i :: 0 <= i < n ==> s[i] != '\0') && (n < |s| ==> s[n] == '\0')
  {
    if s == [] || s[0] == '\0' then 0 else 1 + CLength(s[1..])
  }

  /** Upper-casing twice is upper-casing once. */
  lemma UpcaseIdempotent(s: seq<char>)
    ensures UpcaseAll(UpcaseAll(s)) == UpcaseAll(s)
  {
  }

  /** `strupcase`: every character before the terminator is upper-cased in place; the rest is untouched. */
  method StrUpcase(s: array<char>)
    modifies s
    ensures var len := CLength(old(s[..]));
      s[..] == UpcaseAll(old(s[..])[..len]) + old(s[..])[len..]
  {
    var len := CLength(s[..]);
    ghost var before := s[..];
    for i := 0 to len
      invariant forall k :: 0 <= k < i ==> s[k] == Upper(before[k])
      invariant forall k :: i <= k < s.Length ==> s[k] == before[k]
    {
      s[i] := Upper(s[i]);
    }
    assert s[..] == UpcaseAll(before[..len]) + before[len..];
  }

  // ---------------------------------------------------------------- I420 decoding indices

  /** Where `i420_rgb` reads the Y, U and V of pixel (row ii, column jj). */
  function I420Indices(w: nat, h: nat, ii: nat, jj: nat): (nat, nat, nat) {
    var tot := w * h;
    (ii * w + jj, ii / 2 * (w / 2) + jj / 2 + tot, ii / 2 * (w / 2) + jj / 2 + tot + tot / 4)
  }

  /**
   * For even dimensions Y is read from the luma plane, U from the next
   * quarter and V from the quarter after it: every read lies inside the
   * I420 frame of w*h*3/2 bytes.
   */
  lemma {:induction false} I420IndicesInPlanes(w: nat, h: nat, ii: nat, jj: nat)
    requires w % 2 == 0 && h % 2 == 0 && ii < h && jj < w
    ensures var (y, u, v) := I420Indices(w, h, ii, jj);
      && y < w * h
      && w * h <= u < w * h + w * h / 4
      && w * h + w * h / 4 <= v < w * h + w * h / 2
  {
    var a, b := w / 2, h / 2;
    var q := a * b;
    var tot := w * h;
    QuarterPlanes(w, h);
    GridIndex(ii, jj, h, w);
    HalfBelow(ii, h);
    HalfBelow(jj, w);
    var c := ii / 2 * a + jj / 2;
    GridIndex(ii / 2, jj / 2, b, a);
    assert c < q;
    var (y, u, v) := I420Indices(w, h, ii, jj);
    assert y == ii * w + jj;
    assert u == c + tot;
    assert v == c + tot + q;
  }

  /** The two chroma planes of an even-sized frame are a quarter of the luma plane each. */
  lemma QuarterPlanes(w: nat, h: nat)
    requires w % 2 == 0 && h % 2 == 0
    ensures var q := (w / 2) * (h / 2); w * h / 4 == q && w * h / 2 == 2 * q
  {
    var a, b := w / 2, h / 2;
    assert w * h == 4 * (a * b) by {
      assert w == 2 * a && h == 2 * b;
    }
    DivUnique(w * h, 4, a * b, 0);
    DivUnique(w * h, 2, 2 * (a * b), 0);
  }

  lemma HalfBelow(i: nat, n: nat)
    requires i < n && n % 2 == 0
    ensures i / 2 < n / 2
  {
  }

  /** Row ii of the decoded image goes to row h-1-ii of the bottom-up bitmap, 3 bytes per pixel. */
  function BitmapOffset(w: nat, h: nat, ii: nat, jj: nat): nat
    requires ii < h
  {
    (h - 1 - ii) * w * 3 + jj * 3
  }

  lemma {:induction false} BitmapOffsetInFrame(w: nat, h: nat, ii: nat, jj: nat)
    requires ii < h && jj < w
    ensures BitmapOffset(w, h, ii, jj) + 3 <= w * h * 3
  {
    var r := h - 1 - ii;
    assert (r * w + jj) * 3 == BitmapOffset(w, h, ii, jj);
    assert r * w + jj + 1 <= (r + 1) * w;
    MulMono(r + 1, h, w);
    MulMono(r * w + jj + 1, w * h, 3);
  }

  // ---------------------------------------------------------------- MJPEG fix-up

  /** SOI and a JFIF APP0 segment: 20 bytes. */
  const JpegHeader: seq<Byte> := [
    0xff, 0xd8, 0xff, 0xe0, 0x00, 0x10, 0x4a, 0x46, 0x49, 0x46, 0x00,
    0x01, 0x01, 0x00, 0x00, 0x00, 0x00, 0x00, 0x00, 0x00]

  const DhtSegmentSize: nat := 420
  const DhtSegmentHead: seq<Byte> := [0xFF, 0xC4, 0x01, 0xA2, 0x00]
  const DhtSegmentFrag: seq<Byte> := [
    0x00, 0x01, 0x02, 0x03, 0x04, 0x05, 0x06, 0x07, 0x08, 0x09,
    0x0a, 0x0b, 0x01, 0x00, 0x03, 0x01, 0x01, 0x01, 0x01, 0x01,
    0x01, 0x01, 0x01, 0x01, 0x00, 0x00, 0x00, 0x00, 0x00]
  const BitsDcLuminance: seq<Byte> := [0, 0, 1, 5, 1, 1, 1, 1, 1, 1, 0, 0, 0, 0, 0, 0, 0]
  const ValDc: seq<Byte> := [0, 1, 2, 3, 4, 5, 6, 7, 8, 9, 10, 11]
  const BitsAcLuminance: seq<Byte> := [0, 0, 2, 1, 3, 3, 2, 4, 3, 5, 5, 4, 4, 0, 0, 1, 0x7d]
  const ValAcLuminance: seq<Byte> := [
    0x01, 0x02, 0x03, 0x00, 0x04, 0x11, 0x05, 0x12,
    0x21, 0x31, 0x41, 0x06, 0x13, 0x51, 0x61, 0x07,
    0x22, 0x71, 0x14, 0x32, 0x81, 0x91, 0xa1, 0x08,
    0x23, 0x42, 0xb1, 0xc1, 0x15, 0x52, 0xd1, 0xf0,
    0x24, 0x33, 0x62, 0x72, 0x82, 0x09, 0x0a, 0x16,
    0x17, 0x18, 0x19, 0x1a, 0x25, 0x26, 0x27, 0x28,
    0x29, 0x2a, 0x34, 0x35, 0x36, 0x37, 0x38, 0x39,
    0x3a, 0x43, 0x44, 0x45, 0x46, 0x47, 0x48, 0x49,
    0x4a, 0x53, 0x54, 0x55, 0x56, 0x57, 0x58, 0x59,
    0x5a, 0x63, 0x64, 0x65, 0x66, 0x67, 0x68, 0x69,
    0x6a, 0x73, 0x74, 0x75, 0x76, 0x77, 0x78, 0x79,
    0x7a, 0x83, 0x84, 0x85, 0x86, 0x87, 0x88, 0x89,
    0x8a, 0x92, 0x93, 0x94, 0x95, 0x96, 0x97, 0x98,
    0x99, 0x9a, 0xa2, 0xa3, 0xa4, 0xa5, 0xa6, 0xa7,
    0xa8, 0xa9, 0xaa, 0xb2, 0xb3, 0xb4, 0xb5, 0xb6,
    0xb7, 0xb8, 0xb9, 0xba, 0xc2, 0xc3, 0xc4, 0xc5,
    0xc6, 0xc7, 0xc8, 0xc9, 0xca, 0xd2, 0xd3, 0xd4,
    0xd5, 0xd6, 0xd7, 0xd8, 0xd9, 0xda, 0xe1, 0xe2,
    0xe3, 0xe4, 0xe5, 0xe6, 0xe7, 0xe8, 0xe9, 0xea,
    0xf1, 0xf2, 0xf3, 0xf4, 0xf5, 0xf6, 0xf7, 0xf8,
    0xf9, 0xfa]
  const BitsAcChrominance: seq<Byte> := [0, 0, 2, 1, 2, 4, 4, 3, 4, 7, 5, 4, 4, 0, 1, 2, 0x77]
  const ValAcChrominance: seq<Byte> := [
    0x00, 0x01, 0x02, 0x03, 0x11, 0x04, 0x05, 0x21,
    0x31, 0x06, 0x12, 0x41, 0x51, 0x07, 0x61, 0x71,
    0x13, 0x22, 0x32, 0x81, 0x08, 0x14, 0x42, 0x91,
    0xa1, 0xb1, 0xc1, 0x09, 0x23, 0x33, 0x52, 0xf0,
    0x15, 0x62, 0x72, 0xd1, 0x0a, 0x16, 0x24, 0x34,
    0xe1, 0x25, 0xf1, 0x17, 0x18, 0x19, 0x1a, 0x26,
    0x27, 0x28, 0x29, 0x2a, 0x35, 0x36, 0x37, 0x38,
    0x39, 0x3a, 0x43, 0x44, 0x45, 0x46, 0x47, 0x48,
    0x49, 0x4a, 0x53, 0x54, 0x55, 0x56, 0x57, 0x58,
    0x59, 0x5a, 0x63, 0x64, 0x65, 0x66, 0x67, 0x68,
    0x69, 0x6a, 0x73, 0x74, 0x75, 0x76, 0x77, 0x78,
    0x79, 0x7a, 0x82, 0x83, 0x84, 0x85, 0x86, 0x87,
    0x88, 0x89, 0x8a, 0x92, 0x93, 0x94, 0x95, 0x96,
    0x97, 0x98, 0x99, 0x9a, 0xa2, 0xa3, 0xa4, 0xa5,
    0xa6, 0xa7, 0xa8, 0xa9, 0xaa, 0xb2, 0xb3, 0xb4,
    0xb5, 0xb6, 0xb7, 0xb8, 0xb9, 0xba, 0xc2, 0xc3,
    0xc4, 0xc5, 0xc6, 0xc7, 0xc8, 0xc9, 0xca, 0xd2,
    0xd3, 0xd4, 0xd5, 0xd6, 0xd7, 0xd8, 0xd9, 0xda,
    0xe2, 0xe3, 0xe4, 0xe5, 0xe6, 0xe7, 0xe8, 0xe9,
    0xea, 0xf2, 0xf3, 0xf4, 0xf5, 0xf6, 0xf7, 0xf8,
    0xf9, 0xfa]

  /** The bytes `append_dht_segment` writes, piece by piece. */
  function DhtSegment(): seq<Byte> {
    DhtSegmentHead + BitsDcLuminance[1..] + DhtSegmentFrag + ValDc
      + [0x10] + BitsAcLuminance[1..] + ValAcLuminance
      + [0x11] + BitsAcChrominance[1..] + ValAcChrominance
  }

  /** A Huffman table specification of a DHT segment (section B.2.4.2 of ITU-T T.81). */
  datatype HuffmanTable = HuffmanTable(tableClass: nat, id: nat, counts: seq<Byte>, values: seq<Byte>)

  /** The number of codes: the sum of the 16 counts L1..L16. */
  function CodeCount(counts: seq<Byte>): nat
    requires |counts| == 16
  {
    counts[0] as int + counts[1] + counts[2] + counts[3] + counts[4] + counts[5] + counts[6] + counts[7]
      + counts[8] + counts[9] + counts[10] + counts[11] + counts[12] + counts[13] + counts[14] + counts[15]
  }

  /** Tc and Th fit their nibbles, there are 16 code-length counts, and they add up to the number of values. */
  predicate WellFormedTable(t: HuffmanTable) {
    t.tableClass < 2 && t.id < 4 && |t.counts| == 16 && CodeCount(t.counts) == |t.values|
  }

  function TableBytes(t: HuffmanTable): seq<Byte>
    requires t.tableClass < 2 && t.id < 4
  {
    [t.tableClass * 16 + t.id] + t.counts + t.values
  }

  const DcLuminance := HuffmanTable(0, 0, BitsDcLuminance[1..], DhtSegmentFrag[..12])
  const DcChrominance := HuffmanTable(0, 1, DhtSegmentFrag[13..], ValDc)
  const AcLuminance := HuffmanTable(1, 0, BitsAcLuminance[1..], ValAcLuminance)
  const AcChrominance := HuffmanTable(1, 1, BitsAcChrominance[1..], ValAcChrominance)

  /**
   * The spliced segment is a DHT marker (0xFFC4), the length field 0x01A2
   * and the DC and AC tables for luminance and chrominance, one after the
   * other, each laid out as section B.2.4.2 of ITU-T T.81 lays out a table.
   */
  lemma DhtSegmentLayout()
    ensures DhtSegment() == [0xFF, 0xC4, 0x01, 0xA2]
      + TableBytes(DcLuminance) + TableBytes(DcChrominance) + TableBytes(AcLuminance) + TableBytes(AcChrominance)
  {
    FragSplit();
    HeadSplit();
    SegmentShape(DhtSegmentHead, BitsDcLuminance[1..], DhtSegmentFrag, ValDc,
      BitsAcLuminance[1..], ValAcLuminance, BitsAcChrominance[1..], ValAcChrominance);
    TablePieces();
  }

  /** Each table's bytes are its class-and-id byte followed by its pieces of the segment. */
  lemma TablePieces()
    ensures TableBytes(DcLuminance) == [0x00] + BitsDcLuminance[1..] + DhtSegmentFrag[..12]
    ensures TableBytes(DcChrominance) == [0x01] + DhtSegmentFrag[13..] + ValDc
    ensures TableBytes(AcLuminance) == [0x10] + BitsAcLuminance[1..] + ValAcLuminance
    ensures TableBytes(AcChrominance) == [0x11] + BitsAcChrominance[1..] + ValAcChrominance
  {
  }

  /** The segment's pieces, regrouped table by table once the head and the middle fragment are split. */
  lemma SegmentShape(head: seq<Byte>, bitsDc: seq<Byte>, frag: seq<Byte>, valDc: seq<Byte>,
                     bitsAcL: seq<Byte>, valAcL: seq<Byte>, bitsAcC: seq<Byte>, valAcC: seq<Byte>)
    requires head == [0xFF, 0xC4, 0x01, 0xA2] + [0x00]
    requires |frag| >= 13 && frag == frag[..12] + [0x01] + frag[13..]
    ensures head + bitsDc + frag + valDc + [0x10] + bitsAcL + valAcL + [0x11] + bitsAcC + valAcC
      == [0xFF, 0xC4, 0x01, 0xA2] + ([0x00] + bitsDc + frag[..12]) + ([0x01] + frag[13..] + valDc)
        + ([0x10] + bitsAcL + valAcL) + ([0x11] + bitsAcC + valAcC)
  {
    Regroup([0xFF, 0xC4, 0x01, 0xA2], bitsDc, frag[..12], frag[13..], valDc, bitsAcL, valAcL, bitsAcC, valAcC);
  }

  /** The segment is 420 bytes, and its length field counts all of them but the marker. */
  lemma DhtSegmentLength()
    ensures |DhtSegment()| == DhtSegmentSize
    ensures DhtSegment()[2] as int * 256 + DhtSegment()[3] == DhtSegmentSize - 2
  {
    assert DhtSegment()[..5] == DhtSegmentHead;
  }

  /** The fragment holds the DC luminance values, then Tc/Th of the DC chrominance table and its counts. */
  lemma FragSplit()
    ensures DhtSegmentFrag == DhtSegmentFrag[..12] + [0x01] + DhtSegmentFrag[13..]
  {
  }

  /** The head is the DHT marker, the length field and Tc/Th of the DC luminance table. */
  lemma HeadSplit()
    ensures DhtSegmentHead == [0xFF, 0xC4, 0x01, 0xA2] + [0x00]
  {
  }

  /** Each of the four tables is well formed: 12, 12, 162 and 162 values. */
  lemma DcTablesWellFormed()
    ensures WellFormedTable(DcLuminance) && |DcLuminance.values| == 12
    ensures WellFormedTable(DcChrominance) && |DcChrominance.values| == 12
  {
  }

  lemma AcTablesWellFormed()
    ensures WellFormedTable(AcLuminance) && |AcLuminance.values| == 162
    ensures WellFormedTable(AcChrominance) && |AcChrominance.values| == 162
  {
  }

  lemma Regroup(m: seq<Byte>, a: seq<Byte>, b: seq<Byte>, c: seq<Byte>, d: seq<Byte>,
                e: seq<Byte>, f: seq<Byte>, g: seq<Byte>, h: seq<Byte>)
    ensures (m + [0x00]) + a + (b + [0x01] + c) + d + [0x10] + e + f + [0x11] + g + h
      == m + ([0x00] + a + b) + ([0x01] + c + d) + ([0x10] + e + f) + ([0x11] + g + h)
  {
  }

  /** `append`: `src` is copied to `buf` at `at`, nothing else changes, and the position after it is returned. */
  method Append(buf: array<Byte>, at: nat, src: seq<Byte>) returns (next: nat)
    requires at + |src| <= buf.Length
    modifies buf
    ensures next == at + |src|
    ensures buf[..] == old(buf[..at]) + src + old(buf[next..])
  {
    for k := 0 to |src|
      invariant buf[..] == old(buf[..at]) + src[..k] + old(buf[at + k..])
    {
      buf[at + k] := src[k];
      assert src[..k + 1] == src[..k] + [src[k]];
    }
    assert src[..|src|] == src;
    next := at + |src|;
  }

  /** `*(buf++) = b`. */
  method Put(buf: array<Byte>, at: nat, b: Byte) returns (next: nat)
    requires at < buf.Length
    modifies buf
    ensures next == at + 1
    ensures buf[..] == old(buf[..at]) + [b] + old(buf[next..])
  {
    buf[at] := b;
    next := at + 1;
  }

  /** `append_dht_segment`: the 420 segment bytes are written at `at`, nothing else changes. */
  method AppendDhtSegment(buf: array<Byte>, at: nat) returns (next: nat)
    requires at + DhtSegmentSize <= buf.Length
    modifies buf
    ensures next == at + DhtSegmentSize
    ensures buf[..] == old(buf[..at]) + DhtSegment() + old(buf[next..])
  {
    next := AppendPieces(buf, at, DhtSegmentHead, BitsDcLuminance[1..], DhtSegmentFrag, ValDc,
      BitsAcLuminance[1..], ValAcLuminance, BitsAcChrominance[1..], ValAcChrominance);
  }

  /** The writes of `append_dht_segment`, in order, with the table contents as parameters. */
  method AppendPieces(buf: array<Byte>, at: nat, head: seq<Byte>, dcCounts: seq<Byte>, frag: seq<Byte>,
                      dcValues: seq<Byte>, acLumCounts: seq<Byte>, acLumValues: seq<Byte>,
                      acChrCounts: seq<Byte>, acChrValues: seq<Byte>) returns (next: nat)
    requires at + |head| + |dcCounts| + |frag| + |dcValues| + 1 + |acLumCounts| + |acLumValues|
      + 1 + |acChrCounts| + |acChrValues| <= buf.Length
    modifies buf
    ensures next == at + |head| + |dcCounts| + |frag| + |dcValues| + 1 + |acLumCounts| + |acLumValues|
      + 1 + |acChrCounts| + |acChrValues|
    ensures buf[..] == old(buf[..at]) + (head + dcCounts + frag + dcValues + [0x10] + acLumCounts + acLumValues
      + [0x11] + acChrCounts + acChrValues) + old(buf[next..])
  {
    ghost var before := buf[..];
    assert buf[..] == before[..at] + [] + before[at..];
    var p := AppendAfter(buf, at, head, before, at, []);
    p := AppendAfter(buf, p, dcCounts, before, at, head);
    p := AppendAfter(buf, p, frag, before, at, head + dcCounts);
    p := AppendAfter(buf, p, dcValues, before, at, head + dcCounts + frag);
    p := PutAfter(buf, p, 0x10, before, at, head + dcCounts + frag + dcValues);
    p := AppendAfter(buf, p, acLumCounts, before, at, head + dcCounts + frag + dcValues + [0x10]);
    p := AppendAfter(buf, p, acLumValues, before, at, head + dcCounts + frag + dcValues + [0x10] + acLumCounts);
    p := PutAfter(buf, p, 0x11, before, at,
      head + dcCounts + frag + dcValues + [0x10] + acLumCounts + acLumValues);
    p := AppendAfter(buf, p, acChrCounts, before, at,
      head + dcCounts + frag + dcValues + [0x10] + acLumCounts + acLumValues + [0x11]);
    next := AppendAfter(buf, p, acChrValues, before, at,
      head + dcCounts + frag + dcValues + [0x10] + acLumCounts + acLumValues + [0x11] + acChrCounts);
  }

  /** `append` right after the bytes `done` already written at `at` over the original contents `before`. */
  method AppendAfter(buf: array<Byte>, p: nat, src: seq<Byte>, ghost before: seq<Byte>, ghost at: nat,
                     ghost done: seq<Byte>) returns (next: nat)
    requires |before| == buf.Length && p == at + |done| && p + |src| <= buf.Length
    requires buf[..] == before[..at] + done + before[p..]
    modifies buf
    ensures next == p + |src|
    ensures buf[..] == before[..at] + (done + src) + before[next..]
  {
    ghost var prev := buf[..];
    next := Append(buf, p, src);
    Extend(buf[..], prev, before, at, done, p, src);
  }

  /** `*(buf++) = b` right after the bytes `done` already written at `at`. */
  method PutAfter(buf: array<Byte>, p: nat, b: Byte, ghost before: seq<Byte>, ghost at: nat,
                  ghost done: seq<Byte>) returns (next: nat)
    requires |before| == buf.Length && p == at + |done| && p < buf.Length
    requires buf[..] == before[..at] + done + before[p..]
    modifies buf
    ensures next == p + 1
    ensures buf[..] == before[..at] + (done + [b]) + before[next..]
  {
    ghost var prev := buf[..];
    next := Put(buf, p, b);
    Extend(buf[..], prev, before, at, done, p, [b]);
  }

  /** Bytes written over the whole of a buffer are all of it. */
  lemma Whole(now: seq<Byte>, before: seq<Byte>, written: seq<Byte>)
    requires |written| == |before| && now == before[..0] + written + before[|written|..]
    ensures now == written
  {
  }

  /** Writing `src` right after the bytes written so far extends them, keeping what lies before and after. */
  lemma Extend(now: seq<Byte>, prev: seq<Byte>, before: seq<Byte>, at: nat, done: seq<Byte>, p: nat, src: seq<Byte>)
    requires |prev| == |before| && p == at + |done| && p + |src| <= |before|
    requires prev == before[..at] + done + before[p..]
    requires now == prev[..p] + src + prev[p + |src|..]
    ensures now == before[..at] + (done + src) + before[p + |src|..]
  {
    assert prev[..p] == before[..at] + done;
    assert prev[p + |src|..] == before[p + |src|..];
  }

  /** The position of the first byte kept: past SOI, the marker and the segment whose length bytes are 4 and 5. */
  function Skip(b4: Byte, b5: Byte): nat {
    b4 * 256 + b5 + 4
  }

  /** `(imgBuffer[4] << 8) + imgBuffer[5] + 4` on `char`, which is signed on the Windows compilers. */
  function SkipAsWritten(b4: Byte, b5: Byte): int {
    Signed(b4) * 256 + Signed(b5) + 4
  }

  function Signed(b: Byte): int {
    if b < 128 then b else b - 256
  }

  /**
   * A segment length of 0x0090 gives a negative skip as written: the
   * truncation guard passes for every size and the copy would start 108
   * bytes before the frame, where the intended skip is 148.
   */
  lemma SkipAsWrittenNegative(size: nat)
    ensures SkipAsWritten(0x00, 0x90) == -108 && Skip(0x00, 0x90) == 148
    ensures !(size < SkipAsWritten(0x00, 0x90))
  {
  }

  /** The capture helper's frame buffer and its size. */
  class ImageBuffer {
    var img: array<Byte>
    var size: nat

    ghost predicate Valid()
      reads this
    {
      size <= img.Length
    }

    constructor (img: array<Byte>, size: nat)
      requires size <= img.Length
      ensures Valid() && this.img == img && this.size == size
    {
      this.img := img;
      this.size := size;
    }

    /**
     * `mjpeg_fix`: a truncated frame (shorter than the skip) is left as it
     * is; otherwise the frame becomes the JFIF header, the DHT segment and
     * the frame's bytes from the skip on, in a new buffer.
     */
    method MjpegFix()
      requires Valid() && img.Length >= 6
      modifies this
      ensures Valid()
      ensures var skip := Skip(old(img[4]), old(img[5]));
        old(size) < skip ==> img == old(img) && size == old(size)
      ensures var skip := Skip(old(img[4]), old(img[5]));
        old(size) >= skip ==> (fresh(img)
          && size == |JpegHeader| + DhtSegmentSize + old(size) - skip
          && img[..size] == JpegHeader + DhtSegment() + old(img[..])[skip..old(size)])
    {
      var skip := Skip(img[4], img[5]);
      if size < skip {
        return;
      }
      var tmpSize := |JpegHeader| + DhtSegmentSize + size - skip;
      var tmp := new Byte[tmpSize];
      ghost var before := tmp[..];
      assert tmp[..] == before[..0] + [] + before[0..];
      var p := AppendAfter(tmp, 0, JpegHeader, before, 0, []);
      ghost var prev := tmp[..];
      DhtSegmentLength();
      var q := AppendDhtSegment(tmp, p);
      Extend(tmp[..], prev, before, 0, JpegHeader, p, DhtSegment());
      q := AppendAfter(tmp, q, img[skip..size], before, 0, JpegHeader + DhtSegment());
      Whole(tmp[..], before, JpegHeader + DhtSegment() + img[skip..size]);
      img := tmp;
      size := tmpSize;
    }
  }
}
