/**
 * The hand-written RGB to UYVY and RGB to NV12 loops shared by the Linux
 * controller and the Windows controllers. The BT.601 colour formulas are
 * floating-point code and stay abstract (`Colour`); what is modelled is the
 * index layout: which input bytes each output byte is computed from, where
 * it is stored, and that every access stays inside the frames.
 */
module Yuv {
  import opened Bytes
  import opened Arith

  /** The three colour formulas, each from (red, green, blue) to one byte. */
  datatype Colour = Colour(
    y: ((Byte, Byte, Byte)) -> Byte,
    u: ((Byte, Byte, Byte)) -> Byte,
    v: ((Byte, Byte, Byte)) -> Byte)

  /** A packed pixel layout: bytes per pixel and the offsets of red, green and blue within a pixel. */
  datatype PixelLayout = PixelLayout(stride: nat, r: nat, g: nat, b: nat)

  predicate ValidLayout(l: PixelLayout) {
    l.r < l.stride && l.g < l.stride && l.b < l.stride
  }

  /** Packed RGB, 24 bits per pixel. */
  const Rgb24 := PixelLayout(3, 0, 1, 2)
  /** Packed RGBA, 32 bits per pixel. */
  const Rgba32 := PixelLayout(4, 0, 1, 2)

  /** The (red, green, blue) bytes of pixel i. */
  function PixelAt(px: seq<Byte>, l: PixelLayout, i: nat): (Byte, Byte, Byte)
    requires ValidLayout(l) && (i + 1) * l.stride <= |px|
  {
    (px[i * l.stride + l.r], px[i * l.stride + l.g], px[i * l.stride + l.b])
  }

  /** Per-channel truncating average of two pixels. */
  function Mix2(a: (Byte, Byte, Byte), b: (Byte, Byte, Byte)): (Byte, Byte, Byte) {
    ((a.0 + b.0) / 2, (a.1 + b.1) / 2, (a.2 + b.2) / 2)
  }

  /** Per-channel truncating average of a 2x2 block. */
  function Mix4(a: (Byte, Byte, Byte), b: (Byte, Byte, Byte), c: (Byte, Byte, Byte), d: (Byte, Byte, Byte)): (Byte, Byte, Byte) {
    ((a.0 + b.0 + c.0 + d.0) / 4, (a.1 + b.1 + c.1 + d.1) / 4, (a.2 + b.2 + c.2 + d.2) / 4)
  }

  // ---------------------------------------------------------------- UYVY

  function UyvyFrameSize(w: nat, h: nat): nat {
    h * w * 2
  }

  /**
   * Byte k of a UYVY frame is written when it lies in one of the w/2
   * four-byte groups of its row; with an odd width the last two bytes of
   * every row are not.
   */
  predicate UyvyWritten(w: nat, h: nat, k: nat) {
    w > 0 && k < h * (2 * w) && (k % (2 * w)) / 4 < w / 2
  }

  /** Row y, group x and position j of byte k sit at (y*w + 2x)*2 + j. */
  lemma UyvyDecompose(w: nat, h: nat, y: nat, x: nat, j: nat)
    requires y < h && x < w / 2 && j < 4
    ensures var k := (y * w + x * 2) * 2 + j;
      && k == y * (2 * w) + 4 * x + j
      && k / (2 * w) == y && k % (2 * w) == 4 * x + j
      && UyvyWritten(w, h, k) && UyvyPair(w, h, k) == y * w + 2 * x
      && k < UyvyFrameSize(w, h)
  {
    var k := (y * w + x * 2) * 2 + j;
    assert 4 * x + j < 2 * w;
    assert k == y * (2 * w) + (4 * x + j);
    DivUnique(k, 2 * w, y, 4 * x + j);
    GridIndex(y, 4 * x + j, h, 2 * w);
    UyvyFrameRows(w, h);
  }

  /** The UYVY frame is h rows of 2w bytes. */
  lemma UyvyFrameRows(w: nat, h: nat)
    ensures h * (2 * w) == UyvyFrameSize(w, h)
  {
  }

  /** The first pixel of the pair a written byte comes from; the pair lies inside a frame of w*h pixels. */
  function UyvyPair(w: nat, h: nat, k: nat): (p: nat)
    requires UyvyWritten(w, h, k)
    ensures p + 2 <= w * h
  {
    var y, x := k / (2 * w), (k % (2 * w)) / 4;
    DivBelow(k, 2 * w, h);
    PairBound(y, x, w, h);
    y * w + 2 * x
  }

  /** A pixel pair starting at column 2x of row y fits in a w x h frame. */
  lemma PairBound(y: nat, x: nat, w: nat, h: nat)
    requires y < h && x < w / 2
    ensures 0 <= y * w + 2 * x && y * w + 2 * x + 2 <= w * h
  {
    assert y * w + 2 * x + 2 <= (y + 1) * w;
    MulMono(y + 1, h, w);
  }

  /** The value of a written UYVY byte: U, Y0, V, Y1 of the pixel pair its group covers. */
  function UyvyByte(rgb: seq<Byte>, w: nat, h: nat, k: nat, c: Colour): Byte
    requires UyvyWritten(w, h, k) && |rgb| >= w * h * 3
  {
    var p := UyvyPair(w, h, k);
    var j := (k % (2 * w)) % 4;
    assert (p + 2) * 3 <= |rgb| by { MulMono(p + 2, w * h, 3); }
    GroupByte(PixelAt(rgb, Rgb24, p), PixelAt(rgb, Rgb24, p + 1), j, c)
  }

  /** Byte j of the group for pixels a and b: U and V of their average, Y of each. */
  function GroupByte(a: (Byte, Byte, Byte), b: (Byte, Byte, Byte), j: nat, c: Colour): Byte {
    if j == 0 then c.u(Mix2(a, b))
    else if j == 1 then c.y(a)
    else if j == 2 then c.v(Mix2(a, b))
    else c.y(b)
  }

  /**
   * The UYVY loop: every written byte receives its value, every other
   * byte of the output keeps its old contents.
   */
  method UyvyFrameFromRgb(rgb: array<Byte>, uyvy: array<Byte>, w: nat, h: nat, c: Colour)
    requires rgb != uyvy && rgb.Length >= w * h * 3 && uyvy.Length >= UyvyFrameSize(w, h)
    modifies uyvy
    ensures forall k :: 0 <= k < uyvy.Length ==>
      uyvy[k] == if UyvyWritten(w, h, k) then UyvyByte(rgb[..], w, h, k, c) else old(uyvy[k])
  {
    ghost var before := uyvy[..];
    var y := 0;
    while y < h
      invariant 0 <= y <= h
      invariant forall k :: 0 <= k < uyvy.Length ==>
        uyvy[k] == if UyvyWritten(w, h, k) && k < y * (2 * w) then UyvyByte(rgb[..], w, h, k, c) else before[k]
    {
      var x := 0;
      while x < w / 2
        invariant 0 <= x <= w / 2
        invariant forall k :: 0 <= k < uyvy.Length ==>
          uyvy[k] == if UyvyWritten(w, h, k) && k < y * (2 * w) + 4 * x then UyvyByte(rgb[..], w, h, k, c) else before[k]
      {
        UyvyStep(rgb, uyvy, w, h, y, x, c, before);
        x := x + 1;
      }
      UyvyRowTail(w, h, y);
      assert (y + 1) * (2 * w) == y * (2 * w) + 2 * w;
      y := y + 1;
    }
  }

  /** One group: reads the pixel pair (y*w + 2x) and stores U, Y0, V, Y1. */
  method UyvyStep(rgb: array<Byte>, uyvy: array<Byte>, w: nat, h: nat, y: nat, x: nat, c: Colour, ghost before: seq<Byte>)
    requires rgb != uyvy && rgb.Length >= w * h * 3 && uyvy.Length >= UyvyFrameSize(w, h)
    requires y < h && x < w / 2 && |before| == uyvy.Length
    requires forall k :: 0 <= k < uyvy.Length ==>
      uyvy[k] == if UyvyWritten(w, h, k) && k < y * (2 * w) + 4 * x then UyvyByte(rgb[..], w, h, k, c) else before[k]
    modifies uyvy
    ensures forall k :: 0 <= k < uyvy.Length ==>
      uyvy[k] == if UyvyWritten(w, h, k) && k < y * (2 * w) + 4 * (x + 1) then UyvyByte(rgb[..], w, h, k, c) else before[k]
  {
    var base := (y * w + x * 2) * 2;
    var p := y * w + x * 2;
    UyvyDecompose(w, h, y, x, 0);
    UyvyDecompose(w, h, y, x, 3);
    assert (p + 2) * 3 <= rgb.Length by { MulMono(p + 2, w * h, 3); }
    var a, b := PixelAt(rgb[..], Rgb24, p), PixelAt(rgb[..], Rgb24, p + 1);
    var mix := Mix2(a, b);
    uyvy[base] := c.u(mix);
    uyvy[base + 1] := c.y(a);
    uyvy[base + 2] := c.v(mix);
    uyvy[base + 3] := c.y(b);
    forall k | 0 <= k < uyvy.Length
      ensures uyvy[k] == if UyvyWritten(w, h, k) && k < y * (2 * w) + 4 * (x + 1) then UyvyByte(rgb[..], w, h, k, c) else before[k]
    {
      if base <= k < base + 4 {
        UyvyByteAt(rgb[..], w, h, y, x, k, c);
        if k == base {
        } else if k == base + 1 {
        } else if k == base + 2 {
        } else {
        }
      }
    }
  }

  /** A byte of group x of row y is written, and holds its byte of the group computed from pixels y*w + 2x and y*w + 2x + 1. */
  lemma UyvyByteAt(rgb: seq<Byte>, w: nat, h: nat, y: nat, x: nat, k: nat, c: Colour)
    requires |rgb| >= w * h * 3 && y < h && x < w / 2
    requires (y * w + x * 2) * 2 <= k < (y * w + x * 2) * 2 + 4
    ensures var p, base := y * w + x * 2, (y * w + x * 2) * 2;
      && (p + 2) * 3 <= |rgb| && UyvyWritten(w, h, k) && k < y * (2 * w) + 4 * (x + 1)
      && UyvyByte(rgb, w, h, k, c) == GroupByte(PixelAt(rgb, Rgb24, p), PixelAt(rgb, Rgb24, p + 1), k - base, c)
  {
    var p, base := y * w + x * 2, (y * w + x * 2) * 2;
    var j := k - base;
    UyvyDecompose(w, h, y, x, j);
    assert (4 * x + j) % 4 == j by { DivUnique(4 * x + j, 4, x, j); }
    assert (p + 2) * 3 <= |rgb| by { MulMono(p + 2, w * h, 3); }
  }

  /** Between the last group of row y and the next row there is nothing to write. */
  lemma UyvyRowTail(w: nat, h: nat, y: nat)
    requires y < h
    ensures forall k :: y * (2 * w) + 4 * (w / 2) <= k < (y + 1) * (2 * w) ==> !UyvyWritten(w, h, k)
  {
    forall k | y * (2 * w) + 4 * (w / 2) <= k < (y + 1) * (2 * w)
      ensures !UyvyWritten(w, h, k)
    {
      DivUnique(k, 2 * w, y, k - y * (2 * w));
    }
  }

  /** Byte j of group (y, x) is byte j of U, Y0, V, Y1 for pixels y*w + 2x and y*w + 2x + 1. */
  lemma UyvyGroupOrder(rgb: seq<Byte>, w: nat, h: nat, y: nat, x: nat, j: nat, c: Colour)
    requires y < h && x < w / 2 && j < 4 && |rgb| >= w * h * 3
    ensures var k, p := (y * w + x * 2) * 2 + j, y * w + 2 * x;
      && (p + 2) * 3 <= |rgb| && UyvyWritten(w, h, k)
      && UyvyByte(rgb, w, h, k, c) == GroupByte(PixelAt(rgb, Rgb24, p), PixelAt(rgb, Rgb24, p + 1), j, c)
  {
    UyvyDecompose(w, h, y, x, j);
    var p := y * w + 2 * x;
    assert (p + 2) * 3 <= |rgb| by { MulMono(p + 2, w * h, 3); }
  }

  /** With an even width every byte of the frame is written. */
  lemma UyvyEvenWidthCovers(w: nat, h: nat, k: nat)
    requires w > 0 && w % 2 == 0 && k < UyvyFrameSize(w, h)
    ensures UyvyWritten(w, h, k)
  {
    assert h * w * 2 == h * (2 * w);
  }

  /** With an odd width the last two bytes of every row keep their old contents. */
  lemma UyvyOddWidthSkipsLastColumn(w: nat, h: nat, y: nat, j: nat)
    requires w % 2 == 1 && y < h && j < 2
    ensures !UyvyWritten(w, h, (y * w + w - 1) * 2 + j)
  {
    var k := (y * w + w - 1) * 2 + j;
    assert k == y * (2 * w) + (2 * w - 2 + j);
    DivUnique(k, 2 * w, y, 2 * w - 2 + j);
  }

  /** Distinct groups never share a byte. */
  lemma UyvyGroupsDisjoint(w: nat, h: nat, y1: nat, x1: nat, j1: nat, y2: nat, x2: nat, j2: nat)
    requires y1 < h && x1 < w / 2 && j1 < 4 && y2 < h && x2 < w / 2 && j2 < 4
    requires (y1 * w + x1 * 2) * 2 + j1 == (y2 * w + x2 * 2) * 2 + j2
    ensures y1 == y2 && x1 == x2 && j1 == j2
  {
    UyvyDecompose(w, h, y1, x1, j1);
    UyvyDecompose(w, h, y2, x2, j2);
  }

  // ---------------------------------------------------------------- NV12

  function Nv12FrameSize(w: nat, h: nat): nat {
    (w + w / 2) * h
  }

  /** The NV12 frame size is w*h*3/2 for an even width, and not for an odd one once there are two rows. */
  lemma Nv12FrameSizeEvenWidth(w: nat, h: nat)
    ensures w % 2 == 0 ==> Nv12FrameSize(w, h) == w * h * 3 / 2
    ensures w % 2 == 1 && h >= 2 ==> Nv12FrameSize(w, h) < w * h * 3 / 2
  {
    var a := w / 2;
    var m := a * h;
    assert w * h == 2 * m + (w % 2) * h;
    assert Nv12FrameSize(w, h) == 3 * m + (w % 2) * h;
    if w % 2 == 0 {
      DivUnique(w * h * 3, 2, 3 * m, 0);
    } else {
      DivUnique(w * h * 3, 2, 3 * m + h + h / 2, h % 2);
    }
  }

  /** Bytes in the interleaved chroma plane: cy/2 rows of cx bytes. */
  function ChromaSize(cx: nat, cy: nat): nat {
    cy / 2 * cx
  }

  /** For even dimensions the two planes together are exactly the NV12 frame size. */
  lemma Nv12PlanesFillFrame(cx: nat, cy: nat)
    requires cx % 2 == 0 && cy % 2 == 0
    ensures cx * cy + ChromaSize(cx, cy) == Nv12FrameSize(cx, cy)
  {
    var a, b := cx / 2, cy / 2;
    assert cx * cy == 2 * (a * cy) && a * cy == cx * b by {
      assert cx == 2 * a && cy == 2 * b;
      assert a * cy == a * (2 * b) == 2 * (a * b);
      assert cx * b == 2 * (a * b);
    }
  }

  /** Index, within the chroma plane, of the U byte of the 2x2 block at even (x, y); V follows it. */
  function ChromaIndex(cx: nat, x: nat, y: nat): nat {
    y / 2 * cx + x
  }

  /** For even dimensions the U/V pair of each block lies in the plane, on row y/2 and column x. */
  lemma ChromaIndexLayout(cx: nat, cy: nat, x: nat, y: nat)
    requires cx % 2 == 0 && cy % 2 == 0 && x % 2 == 0 && y % 2 == 0 && x < cx && y < cy
    ensures ChromaIndex(cx, x, y) + 1 < ChromaSize(cx, cy)
    ensures ChromaIndex(cx, x, y) / cx == y / 2 && ChromaIndex(cx, x, y) % cx == x
    ensures (ChromaIndex(cx, x, y) + 1) / cx == y / 2 && (ChromaIndex(cx, x, y) + 1) % cx == x + 1
  {
    var i := ChromaIndex(cx, x, y);
    DivUnique(i, cx, y / 2, x);
    DivUnique(i + 1, cx, y / 2, x + 1);
    MulMono(y / 2 + 1, cy / 2, cx);
  }

  /** Distinct blocks write distinct chroma bytes. */
  lemma ChromaIndexInjective(cx: nat, cy: nat, x1: nat, y1: nat, x2: nat, y2: nat, d1: nat, d2: nat)
    requires cx % 2 == 0 && cy % 2 == 0 && d1 < 2 && d2 < 2
    requires x1 % 2 == 0 && y1 % 2 == 0 && x1 < cx && y1 < cy
    requires x2 % 2 == 0 && y2 % 2 == 0 && x2 < cx && y2 < cy
    requires ChromaIndex(cx, x1, y1) + d1 == ChromaIndex(cx, x2, y2) + d2
    ensures x1 == x2 && y1 == y2 && d1 == d2
  {
    ChromaIndexLayout(cx, cy, x1, y1);
    ChromaIndexLayout(cx, cy, x2, y2);
  }

  /** The block (x, y) that chroma byte i belongs to: row i/cx of the plane, column i%cx rounded down to even. */
  function ChromaBlock(cx: nat, i: nat): (b: (nat, nat))
    requires cx > 0
  {
    (i % cx - i % cx % 2, 2 * (i / cx))
  }

  /** Every chroma byte of an even-sized frame belongs to a block whose four pixels exist. */
  lemma ChromaBlockInFrame(cx: nat, cy: nat, i: nat)
    requires cx > 0 && cx % 2 == 0 && cy % 2 == 0 && i < ChromaSize(cx, cy)
    ensures ChromaBlock(cx, i).0 + 1 < cx && ChromaBlock(cx, i).1 + 1 < cy
  {
    assert i / cx < cy / 2 by {
      if i / cx >= cy / 2 {
        MulMono(cy / 2, i / cx, cx);
        assert false;
      }
    }
  }

  /** The source of a luma byte: the Y formula of pixel i of the input. */
  function LumaByte(px: seq<Byte>, l: PixelLayout, i: nat, c: Colour): Byte
    requires ValidLayout(l) && (i + 1) * l.stride <= |px|
  {
    c.y(PixelAt(px, l, i))
  }

  /** The chroma input of the 2x2 block at (x, y): the average of its four pixels. */
  function BlockMix(px: seq<Byte>, l: PixelLayout, cx: nat, cy: nat, x: nat, y: nat): (Byte, Byte, Byte)
    requires ValidLayout(l) && x + 1 < cx && y + 1 < cy && |px| >= cx * cy * l.stride
  {
    BlockInFrame(cx, cy, x, y, l.stride);
    Mix4(PixelAt(px, l, y * cx + x), PixelAt(px, l, y * cx + x + 1),
         PixelAt(px, l, (y + 1) * cx + x), PixelAt(px, l, (y + 1) * cx + x + 1))
  }

  /** The four pixels of a block lie inside the frame. */
  lemma BlockInFrame(cx: nat, cy: nat, x: nat, y: nat, s: nat)
    requires x + 1 < cx && y + 1 < cy
    ensures ((y + 1) * cx + x + 2) * s <= cx * cy * s
    ensures (y * cx + x + 2) * s <= cx * cy * s
  {
    MulMono(y + 2, cy, cx);
    assert (y + 1) * cx + x + 2 <= (y + 2) * cx;
    MulMono((y + 1) * cx + x + 2, cx * cy, s);
    MulMono(y * cx + x + 2, cx * cy, s);
  }

  /** Byte k of an even-sized NV12 frame: the luma of pixel k, then alternately U and V of each block. */
  function Nv12Byte(px: seq<Byte>, l: PixelLayout, cx: nat, cy: nat, k: nat, c: Colour): Byte
    requires ValidLayout(l) && cx % 2 == 0 && cy % 2 == 0 && |px| >= cx * cy * l.stride
    requires k < cx * cy + ChromaSize(cx, cy)
  {
    if k < cx * cy then
      assert (k + 1) * l.stride <= |px| by { MulMono(k + 1, cx * cy, l.stride); }
      LumaByte(px, l, k, c)
    else
      var i := k - cx * cy;
      ChromaBlockInFrame(cx, cy, i);
      var mix := BlockMix(px, l, cx, cy, ChromaBlock(cx, i).0, ChromaBlock(cx, i).1);
      if i % cx % 2 == 0 then c.u(mix) else c.v(mix)
  }

  /** The pair at `ChromaIndex` holds U and V of the block's average. */
  lemma ChromaPairBytes(px: seq<Byte>, l: PixelLayout, cx: nat, cy: nat, x: nat, y: nat, c: Colour)
    requires ValidLayout(l) && cx % 2 == 0 && cy % 2 == 0 && |px| >= cx * cy * l.stride
    requires x % 2 == 0 && y % 2 == 0 && x < cx && y < cy
    ensures ChromaIndex(cx, x, y) + 1 < ChromaSize(cx, cy)
    ensures Nv12Byte(px, l, cx, cy, cx * cy + ChromaIndex(cx, x, y), c) == c.u(BlockMix(px, l, cx, cy, x, y))
    ensures Nv12Byte(px, l, cx, cy, cx * cy + ChromaIndex(cx, x, y) + 1, c) == c.v(BlockMix(px, l, cx, cy, x, y))
  {
    var i := ChromaIndex(cx, x, y);
    ChromaIndexLayout(cx, cy, x, y);
    assert ChromaBlock(cx, i) == (x, y);
    assert ChromaBlock(cx, i + 1) == (x, y);
    assert (cx * cy + i) - cx * cy == i;
    assert (cx * cy + i + 1) - cx * cy == i + 1;
  }

  /** The luma loop: the Y formula of pixel i lands in byte i for every i < cx*cy, and nothing else changes. */
  method LumaPlane(px: array<Byte>, l: PixelLayout, out: array<Byte>, cx: nat, cy: nat, c: Colour)
    requires px != out && ValidLayout(l) && px.Length >= cx * cy * l.stride && out.Length >= cx * cy
    modifies out
    ensures forall k :: 0 <= k < out.Length ==>
      out[k] == if k < cx * cy then LumaByte(px[..], l, k, c) else old(out[k])
  {
    var i := 0;
    while i < cx * cy
      invariant 0 <= i <= cx * cy
      invariant forall k :: 0 <= k < out.Length ==>
        out[k] == if k < i then LumaByte(px[..], l, k, c) else old(out[k])
    {
      MulMono(i + 1, cx * cy, l.stride);
      out[i] := LumaByte(px[..], l, i, c);
      i := i + 1;
    }
  }

  /** The chroma bytes written once blocks up to row y and column x are done. */
  predicate ChromaDone(cx: nat, cy: nat, k: nat, n: nat) {
    cx * cy <= k < cx * cy + ChromaSize(cx, cy) && k - cx * cy < n
  }

  /**
   * The chroma loop over even (x, y): the U and V of each 2x2 block go to
   * `ChromaIndex` and the byte after it; with even dimensions this fills
   * the chroma plane exactly and nothing else changes.
   */
  method ChromaPlane(px: array<Byte>, l: PixelLayout, out: array<Byte>, cx: nat, cy: nat, c: Colour)
    requires px != out && ValidLayout(l) && px.Length >= cx * cy * l.stride
    requires cx % 2 == 0 && cy % 2 == 0 && out.Length >= cx * cy + ChromaSize(cx, cy)
    modifies out
    ensures forall k :: 0 <= k < out.Length ==>
      out[k] == if cx * cy <= k < cx * cy + ChromaSize(cx, cy) then Nv12Byte(px[..], l, cx, cy, k, c) else old(out[k])
  {
    ghost var before := out[..];
    var y := 0;
    ghost var n := 0;
    while y < cy
      invariant 0 <= y <= cy && y % 2 == 0 && n == y / 2 * cx
      invariant forall k :: 0 <= k < out.Length ==>
        out[k] == if ChromaDone(cx, cy, k, n) then Nv12Byte(px[..], l, cx, cy, k, c) else before[k]
    {
      var x := 0;
      while x < cx
        invariant 0 <= x <= cx && x % 2 == 0 && n == y / 2 * cx + x
        invariant forall k :: 0 <= k < out.Length ==>
          out[k] == if ChromaDone(cx, cy, k, n) then Nv12Byte(px[..], l, cx, cy, k, c) else before[k]
      {
        ChromaStep(px, l, out, cx, cy, x, y, c, before);
        x, n := x + 2, n + 2;
      }
      NextChromaRow(y, cx);
      y := y + 2;
    }
  }

  /** Two image rows further down, the chroma plane is one row of cx bytes further on. */
  lemma NextChromaRow(y: nat, cx: nat)
    ensures (y + 2) / 2 * cx == y / 2 * cx + cx
  {
    assert (y + 2) / 2 == y / 2 + 1;
  }

  /** One 2x2 block: its average goes through the U and V formulas into two adjacent chroma bytes. */
  method ChromaStep(px: array<Byte>, l: PixelLayout, out: array<Byte>, cx: nat, cy: nat, x: nat, y: nat, c: Colour, ghost before: seq<Byte>)
    requires px != out && ValidLayout(l) && px.Length >= cx * cy * l.stride
    requires cx % 2 == 0 && cy % 2 == 0 && out.Length >= cx * cy + ChromaSize(cx, cy)
    requires x % 2 == 0 && y % 2 == 0 && x < cx && y < cy && |before| == out.Length
    requires forall k :: 0 <= k < out.Length ==>
      out[k] == if ChromaDone(cx, cy, k, y / 2 * cx + x) then Nv12Byte(px[..], l, cx, cy, k, c) else before[k]
    modifies out
    ensures forall k :: 0 <= k < out.Length ==>
      out[k] == if ChromaDone(cx, cy, k, y / 2 * cx + x + 2) then Nv12Byte(px[..], l, cx, cy, k, c) else before[k]
  {
    var i := cx * cy + ChromaIndex(cx, x, y);
    ChromaPairBytes(px[..], l, cx, cy, x, y, c);
    var mix := BlockMix(px[..], l, cx, cy, x, y);
    out[i] := c.u(mix);
    out[i + 1] := c.v(mix);
  }

  /**
   * The NV12 conversion of nv12.h and yuv.cpp (packed RGB input): for even
   * dimensions every byte of the `nv12_frame_size` frame is its `Nv12Byte`.
   */
  method Nv12FrameFromRgb(rgb: array<Byte>, nv12: array<Byte>, w: nat, h: nat, c: Colour)
    requires rgb != nv12 && w % 2 == 0 && h % 2 == 0 && rgb.Length >= w * h * 3
    requires nv12.Length >= Nv12FrameSize(w, h)
    modifies nv12
    ensures w * h + ChromaSize(w, h) == Nv12FrameSize(w, h)
    ensures forall k :: 0 <= k < Nv12FrameSize(w, h) ==> nv12[k] == Nv12Byte(rgb[..], Rgb24, w, h, k, c)
    ensures forall k :: Nv12FrameSize(w, h) <= k < nv12.Length ==> nv12[k] == old(nv12[k])
  {
    Nv12PlanesFillFrame(w, h);
    LumaPlane(rgb, Rgb24, nv12, w, h, c);
    ChromaPlane(rgb, Rgb24, nv12, w, h, c);
  }
}
