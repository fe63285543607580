/**
 * The older Windows controllers (packed RGB input in controller.cpp,
 * packed RGBA input in controller.c): a process-wide running flag around
 * the OBS video queue, and a `virtual_video` that converts each frame into
 * a freshly allocated NV12 buffer and queues its two planes.
 */
module WindowsControllers {
  import opened Bytes
  import opened Yuv

  /** What one `virtual_video` did: nothing while stopped, nothing when the allocation failed, or the queued planes. */
  datatype VideoOutcome =
    | NotRunning
    | OutOfMemory
    | Queued(nv12: array<Byte>, uvOffset: nat, linesizes: (nat, nat))

  /** The file-scope state of one controller: the running flag and the queue's frame size. */
  class Controller {
    /** The packed input layout `virtual_video` reads. */
    const input: PixelLayout
    var running: bool
    var width: nat
    var height: nat

    /** controller.cpp: packed RGB input. */
    constructor Rgb()
      ensures input == Rgb24 && !running
    {
      input := Rgb24;
      running := false;
      width := 0;
      height := 0;
    }

    /** controller.c: packed RGBA input. */
    constructor Rgba()
      ensures input == Rgba32 && !running
    {
      input := Rgba32;
      running := false;
      width := 0;
      height := 0;
    }

    /**
     * Starting: refused (false, nothing changes) while running; otherwise
     * the flag becomes true exactly when the queue was created.
     */
    method Start(w: nat, h: nat, queueCreated: bool) returns (ok: bool)
      modifies this
      ensures old(running) ==> !ok && running && width == old(width) && height == old(height)
      ensures !old(running) ==> ok == queueCreated && running == queueCreated
      ensures ok ==> width == w && height == h
    {
      if running {
        return false;
      }
      if !queueCreated {
        running := false;
        return false;
      }
      width, height := w, h;
      running := true;
      return true;
    }

    /** Stopping closes the queue once; stopping again changes nothing. */
    method Stop()
      modifies this
      ensures !running && width == old(width) && height == old(height)
    {
      if !running {
        return;
      }
      running := false;
    }

    function IsRunning(): (b: bool)
      reads this
      ensures b <==> running
    {
      running
    }

    /**
     * One frame: nothing while stopped or when the `(cx + cx/2)*cy`
     * allocation fails; otherwise every byte of the fresh NV12 buffer is
     * its `Nv12Byte` for the controller's input layout, the UV plane starts
     * at `cx*cy`, and the linesizes handed to the queue are `{cx, cx/2}`.
     */
    method VirtualVideo(px: array<Byte>, c: Colour, allocOk: bool) returns (o: VideoOutcome)
      requires ValidLayout(input)
      requires running ==> width % 2 == 0 && height % 2 == 0 && px.Length >= width * height * input.stride
      ensures !running ==> o == NotRunning
      ensures running && !allocOk ==> o == OutOfMemory
      ensures running && allocOk ==> (o.Queued? && fresh(o.nv12)
        && o.nv12.Length == Nv12FrameSize(width, height) == width * height + ChromaSize(width, height)
        && o.uvOffset == width * height && o.linesizes == (width, width / 2)
        && forall k :: 0 <= k < o.nv12.Length ==> o.nv12[k] == Nv12Byte(px[..], input, width, height, k, c))
    {
      if !running {
        return NotRunning;
      }
      if !allocOk {
        return OutOfMemory;
      }
      var nv12 := new Byte[(width + width / 2) * height];
      Nv12PlanesFillFrame(width, height);
      LumaPlane(px, input, nv12, width, height, c);
      ChromaPlane(px, input, nv12, width, height, c);
      o := Queued(nv12, width * height, (width, width / 2));
    }
  }

  /** The chroma index controller.c computes for block (x, y): `y*cx/4 + x/2`. */
  function ChromaIndexAsWritten(cx: nat, x: nat, y: nat): nat {
    y * cx / 4 + x / 2
  }

  /**
   * With cx = 4 the V byte of block (0, 0) and the U byte of block (2, 0)
   * land on the same chroma byte, where `ChromaIndex` keeps them apart.
   */
  lemma ChromaIndexAsWrittenOverlaps()
    ensures ChromaIndexAsWritten(4, 0, 0) + 1 == ChromaIndexAsWritten(4, 2, 0)
    ensures ChromaIndex(4, 0, 0) + 1 < ChromaIndex(4, 2, 0)
  {
  }

  /** Every as-written index stays in the first half of the chroma plane, so its second half is never written. */
  lemma {:induction false} ChromaIndexAsWrittenHalf(cx: nat, cy: nat, x: nat, y: nat)
    requires cx % 2 == 0 && cy % 2 == 0 && x % 2 == 0 && y % 2 == 0 && x < cx && y < cy && cx > 0
    ensures ChromaIndexAsWritten(cx, x, y) + 1 <= ChromaSize(cx, cy) / 2 + cx / 2
  {
    var a, b := cx / 2, y / 2;
    assert y * cx == 4 * (b * a) by {
      assert y == 2 * b && cx == 2 * a;
    }
    assert y * cx / 4 == b * a by { Arith.DivUnique(y * cx, 4, b * a, 0); }
    assert ChromaIndexAsWritten(cx, x, y) == b * a + x / 2;
    assert b + 1 <= cy / 2;
    var m := cy / 2;
    assert ChromaSize(cx, cy) == 2 * (m * a) by {
      assert cx == 2 * a;
    }
    assert b * a + a <= m * a by {
      Arith.MulMono(b + 1, m, a);
    }
  }

  /** The (red, green, blue) controller.c hands to the Y formula for pixel i: `rgba[4i], rgba[4i+1], rgba[4i+1]`. */
  function LumaInputAsWritten(rgba: seq<Byte>, i: nat): (Byte, Byte, Byte)
    requires 4 * i + 2 < |rgba|
  {
    (rgba[4 * i], rgba[4 * i + 1], rgba[4 * i + 1])
  }

  /** For a pixel whose green and blue differ, the as-written luma input is not the pixel's colour. */
  lemma LumaInputAsWrittenDropsBlue()
    ensures var px: seq<Byte> := [10, 20, 30, 255];
      LumaInputAsWritten(px, 0) != PixelAt(px, Rgba32, 0)
  {
  }
}
