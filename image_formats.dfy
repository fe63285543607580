/**
 * The frame-layout layer shared by the native backends: the canonical
 * pixel formats the sessions switch on, exact frame sizes, and the plane
 * offsets, strides and row counts that every conversion wrapper hands to the
 * conversion library. The library's pixel arithmetic itself is not modelled:
 * a wrapper call is recorded as the planes it reads and writes plus the
 * signed height it forwards.
 */
module ImageFormats {
  import opened Arith

  /** Canonical FourCC codes the sessions distinguish; every other code is `Other`. */
  datatype Fourcc = RAW | BG24 | J400 | I420 | NV12 | YUY2 | UYVY | ABGR | ARGB | Other(code: nat)

  /**
   * Byte layouts, named after the order in memory (so the library's ARGB is
   * `Bgra` and its ABGR is `Rgba`).
   */
  datatype Layout = Rgb | Bgr | Bgra | Rgba | Gray | I420L | Nv12L | I422L | Yuyv | Uyvy

  /** The memory layout a canonical code stands for, when the model knows it. */
  function LayoutOf(f: Fourcc): (l: Layout)
    requires !f.Other?
  {
    match f
    case RAW => Rgb
    case BG24 => Bgr
    case J400 => Gray
    case I420 => I420L
    case NV12 => Nv12L
    case YUY2 => Yuyv
    case UYVY => Uyvy
    case ABGR => Rgba
    case ARGB => Bgra
  }

  function Abs(h: int): nat { if h < 0 then -h else h }

  function BgraFrameSize(w: nat, h: nat): nat { w * h * 4 }
  function GrayFrameSize(w: nat, h: nat): nat { w * h }
  function I420FrameSize(w: nat, h: nat): nat { w * h * 3 / 2 }
  function I422FrameSize(w: nat, h: nat): nat { w * h * 2 }

  /** The size of one frame in a layout; the aliases of the source resolve here. */
  function FrameSize(l: Layout, w: nat, h: nat): nat {
    match l
    case Bgra | Rgba => BgraFrameSize(w, h)
    case Rgb | Bgr => w * h * 3
    case Gray => GrayFrameSize(w, h)
    case I420L | Nv12L => I420FrameSize(w, h)
    case I422L | Yuyv | Uyvy => I422FrameSize(w, h)
  }

  /** One plane handed to the library: start offset, stride in bytes, rows. */
  datatype Plane = Plane(offset: nat, stride: nat, rows: nat)

  function End(p: Plane): nat { p.offset + p.stride * p.rows }

  /** Bytes per pixel of the first plane of a layout. */
  function PixelStride(l: Layout): nat {
    match l
    case Bgra | Rgba => 4
    case Rgb | Bgr => 3
    case Yuyv | Uyvy => 2
    case Gray | I420L | Nv12L | I422L => 1
  }

  /**
   * The planes a wrapper passes for a frame in layout `l`; `h` is the
   * absolute height. Chroma planes use truncated halves of width and height.
   */
  function Planes(l: Layout, w: nat, h: nat): (ps: seq<Plane>)
    ensures |ps| >= 1 && ps[0] == Plane(0, w * PixelStride(l), h)
  {
    match l
    case I420L =>
      [Plane(0, w, h), Plane(w * h, w / 2, h / 2), Plane(w * h + (w / 2) * (h / 2), w / 2, h / 2)]
    case Nv12L =>
      [Plane(0, w, h), Plane(w * h, w, h / 2)]
    case I422L =>
      [Plane(0, w, h), Plane(w * h, w / 2, h), Plane(w * h + (w / 2) * h, w / 2, h)]
    case _ =>
      [Plane(0, w * PixelStride(l), h)]
  }

  /** The conversion wrappers of the frame-layout layer, by their source names. */
  datatype Wrapper =
    | GrayToBgra | RgbToBgra | BgraToRgba | BgraToBgra | RgbaToRgba | RgbToI420 | BgrToBgra | BgrToI420
    | BgraToNv12 | BgraToUyvy | I420ToNv12 | I420ToBgra | I420ToRgba | Nv12ToI420
    | Nv12ToBgra | Nv12ToRgba | I420ToUyvy | YuyvToNv12 | YuyvToI420 | YuyvToI422
    | YuyvToBgra | UyvyToNv12 | I422ToUyvy | UyvyToBgra

  function Source(f: Wrapper): Layout {
    match f
    case GrayToBgra => Gray
    case RgbToBgra | RgbToI420 => Rgb
    case BgrToBgra | BgrToI420 => Bgr
    case BgraToRgba | BgraToBgra | BgraToNv12 | BgraToUyvy => Bgra
    case RgbaToRgba => Rgba
    case I420ToNv12 | I420ToBgra | I420ToRgba | I420ToUyvy => I420L
    case Nv12ToI420 | Nv12ToBgra | Nv12ToRgba => Nv12L
    case YuyvToNv12 | YuyvToI420 | YuyvToI422 | YuyvToBgra => Yuyv
    case UyvyToNv12 | UyvyToBgra => Uyvy
    case I422ToUyvy => I422L
  }

  function Target(f: Wrapper): Layout {
    match f
    case GrayToBgra | RgbToBgra | BgraToBgra | BgrToBgra | I420ToBgra | Nv12ToBgra
      | YuyvToBgra | UyvyToBgra => Bgra
    case BgraToRgba | RgbaToRgba | I420ToRgba | Nv12ToRgba => Rgba
    case RgbToI420 | BgrToI420 | Nv12ToI420 | YuyvToI420 => I420L
    case BgraToNv12 | I420ToNv12 | YuyvToNv12 | UyvyToNv12 => Nv12L
    case BgraToUyvy | I420ToUyvy | I422ToUyvy => Uyvy
    case YuyvToI422 => I422L
  }

  /** What a wrapper hands to the library: planes read, planes written, width, signed height. */
  datatype Call = Call(f: Wrapper, src: seq<Plane>, dst: seq<Plane>, width: nat, height: int)

  /**
   * A wrapper invoked with width `w` and signed height `h`: plane offsets are
   * computed from the absolute height, and only the signed height reaches the
   * library, where a negative value flips the image vertically.
   */
  function Invoke(f: Wrapper, w: nat, h: int): (c: Call)
    ensures c.f == f && c.width == w && c.height == h
    ensures forall p :: p in c.src ==> End(p) <= FrameSize(Source(f), w, Abs(h))
    ensures forall p :: p in c.dst ==> End(p) <= FrameSize(Target(f), w, Abs(h))
  {
    PlanesFit(Source(f), w, Abs(h));
    PlanesFit(Target(f), w, Abs(h));
    Call(f, Planes(Source(f), w, Abs(h)), Planes(Target(f), w, Abs(h)), w, h)
  }

  /** The two chroma planes of I420 together take at most half the luma plane. */
  lemma I420ChromaFits(w: nat, h: nat)
    ensures w * h + 2 * ((w / 2) * (h / 2)) <= I420FrameSize(w, h)
  {
    var a, b, n := w / 2, h / 2, w * h;
    MulMono(2 * a, w, 2 * b);
    MulMono(2 * b, h, w);
    assert (2 * a) * (2 * b) == 4 * (a * b);
    assert 4 * (a * b) <= n;
    assert w * h * 3 == 3 * n;
  }

  lemma Nv12ChromaFits(w: nat, h: nat)
    ensures w * h + w * (h / 2) <= I420FrameSize(w, h)
  {
    var b, n := h / 2, w * h;
    MulMono(2 * b, h, w);
    assert 2 * (w * b) <= n;
    assert w * h * 3 == 3 * n;
  }

  lemma I422ChromaFits(w: nat, h: nat)
    ensures w * h + 2 * ((w / 2) * h) <= I422FrameSize(w, h)
  {
    var a := w / 2;
    MulMono(2 * a, w, h);
  }

  /**
   * Every plane a wrapper passes for layout `l` ends within that layout's
   * frame size; in particular the I420 V plane, the NV12 interleaved chroma
   * plane and the I422 V plane fit.
   */
  lemma PlanesFit(l: Layout, w: nat, h: nat)
    ensures forall p :: p in Planes(l, w, h) ==> End(p) <= FrameSize(l, w, h)
  {
    var ps := Planes(l, w, h);
    match l
    case I420L =>
      I420ChromaFits(w, h);
      assert End(ps[2]) == w * h + 2 * ((w / 2) * (h / 2));
    case Nv12L =>
      Nv12ChromaFits(w, h);
    case I422L =>
      I422ChromaFits(w, h);
      assert End(ps[2]) == w * h + 2 * ((w / 2) * h);
    case _ =>
  }
}
