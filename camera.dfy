/**
 * The Python `Camera` front end: it tries the registered backends (or the
 * one named) in order, keeps the first that constructs, and validates each
 * frame's shape before counting it and handing it to that backend.
 */
module Camera {
  import opened Wrappers
  import Decimal

  /** The Python exceptions the front end raises itself. */
  datatype PyError = KeyError(key: string) | RuntimeError(msg: string) | ValueError(msg: string)

  /** A NumPy array as the front end inspects it: its shape and, for a 3-dimensional frame, its pixels in row-major order. */
  datatype Frame = Frame(shape: seq<nat>, pixels: seq<seq<int>>)

  /** In a 3-dimensional frame every pixel has `shape[2]` channels. */
  predicate Consistent(f: Frame) {
    |f.shape| == 3 ==> forall i :: 0 <= i < |f.pixels| ==> |f.pixels[i]| == f.shape[2]
  }

  /** One line of the combined construction error. */
  function ErrorLine(name: string, msg: string): string {
    "'" + name + "' backend: " + msg
  }

  /** `'\n'.join(lines)`. */
  function JoinLines(lines: seq<string>): (s: string)
    ensures lines == [] ==> s == ""
    ensures |lines| == 1 ==> s == lines[0]
  {
    if lines == [] then "" else if |lines| == 1 then lines[0] else JoinLines(lines[..|lines| - 1]) + "\n" + lines[|lines| - 1]
  }

  /** The newline-separated message holds every line, in order: its length is theirs plus one separator between each two. */
  lemma {:induction false} JoinLinesLength(lines: seq<string>)
    requires |lines| >= 1
    ensures |JoinLines(lines)| == SumLengths(lines) + |lines| - 1
  {
    if |lines| > 1 {
      JoinLinesLength(lines[..|lines| - 1]);
      assert lines[..|lines| - 1] + [lines[|lines| - 1]] == lines;
      SumLengthsAppend(lines[..|lines| - 1], lines[|lines| - 1]);
    }
  }

  function SumLengths(lines: seq<string>): nat {
    if lines == [] then 0 else |lines[0]| + SumLengths(lines[1..])
  }

  lemma {:induction false} SumLengthsAppend(lines: seq<string>, l: string)
    ensures SumLengths(lines + [l]) == SumLengths(lines) + |l|
  {
    if lines != [] {
      assert (lines + [l])[1..] == lines[1..] + [l];
      SumLengthsAppend(lines[1..], l);
    }
  }

  /** A backend argument that is absent or empty names no backend (`if backend:`). */
  predicate Named(backend: Option<string>) {
    backend.Some? && backend.value != ""
  }

  /** The names the loop tries: only the one named, else every registered backend in order. */
  function Candidates(registered: seq<string>, backend: Option<string>): seq<string> {
    if Named(backend) then [backend.value] else registered
  }

  /** The construction error lines for the first n candidates. */
  function ErrorLines(names: seq<string>, construct: string -> Construction, n: nat): (lines: seq<string>)
    requires n <= |names| && forall j :: 0 <= j < n ==> construct(names[j]).Failed?
    ensures |lines| == n
  {
    seq(n, j requires 0 <= j < n => ErrorLine(names[j], construct(names[j]).msg))
  }

  /** What constructing one backend gives: a backend whose `device()` reports the string, or an exception's text. */
  datatype Construction = Built(device: string) | Failed(msg: string)

  /**
   * The fallback loop: the first candidate that constructs wins; every
   * earlier one failed and contributed one error line, in order; with no
   * winner every candidate contributed one.
   */
  method Fallback(names: seq<string>, construct: string -> Construction) returns (chosen: int, errors: seq<string>)
    ensures -1 <= chosen < |names|
    ensures chosen >= 0 ==> construct(names[chosen]).Built?
    ensures forall j :: 0 <= j < (if chosen >= 0 then chosen else |names|) ==> construct(names[j]).Failed?
    ensures errors == ErrorLines(names, construct, if chosen >= 0 then chosen else |names|)
  {
    errors := [];
    var i := 0;
    while i < |names|
      invariant 0 <= i <= |names|
      invariant forall j :: 0 <= j < i ==> construct(names[j]).Failed?
      invariant errors == ErrorLines(names, construct, i)
    {
      var attempt := construct(names[i]);
      if attempt.Built? {
        return i, errors;
      }
      errors := errors + [ErrorLine(names[i], attempt.msg)];
      i := i + 1;
    }
    return -1, errors;
  }

  /** `repr` of a shape tuple: `(480, 640, 3)`, `(5,)`, `()`. */
  function ShapeRepr(shape: seq<nat>): string {
    if |shape| == 1 then "(" + Decimal.ToDecimal(shape[0]) + ",)" else "(" + Items(shape) + ")"
  }

  function Items(shape: seq<nat>): string {
    if shape == [] then "" else if |shape| == 1 then Decimal.ToDecimal(shape[0])
    else Items(shape[..|shape| - 1]) + ", " + Decimal.ToDecimal(shape[|shape| - 1])
  }

  function DimensionsMessage(shape: seq<nat>, width: int, height: int): string {
    "mismatching frame dimensions: " + ShapeRepr(shape) + " != (" + SignedDecimal(height) + ", " + SignedDecimal(width) + ", 3)"
  }

  function SignedDecimal(n: int): string {
    if n < 0 then "-" + Decimal.ToDecimal(-n) else Decimal.ToDecimal(n)
  }

  const ChannelsMessage := "invalid number of color channels, must be RGB or (deprecated) RGBA"

  /** The frame the backend receives: an RGBA frame loses its alpha channel, any other frame passes as it is. */
  function Forwarded(f: Frame): (g: Frame)
    requires Consistent(f)
    ensures |f.shape| == 3 && f.shape[2] == 4 ==> (g.shape == [f.shape[0], f.shape[1], 3] && |g.pixels| == |f.pixels|
      && forall i :: 0 <= i < |f.pixels| ==> g.pixels[i] == f.pixels[i][..3])
    ensures !(|f.shape| == 3 && f.shape[2] == 4) ==> g == f
    ensures Consistent(g)
  {
    if |f.shape| == 3 && f.shape[2] == 4 then
      Frame([f.shape[0], f.shape[1], 3], seq(|f.pixels|, i requires 0 <= i < |f.pixels| => f.pixels[i][..3]))
    else
      f
  }

  /** The shape check of `send`: `None` when the frame is accepted, else the `ValueError` raised. */
  function Validate(f: Frame, width: int, height: int): (e: Option<PyError>)
    ensures e.None? <==> |f.shape| == 3 && f.shape[0] == height && f.shape[1] == width && f.shape[2] in {3, 4}
    ensures e.Some? && !(|f.shape| == 3 && f.shape[0] == height && f.shape[1] == width) ==> e.value == ValueError(DimensionsMessage(f.shape, width, height))
    ensures e.Some? && |f.shape| == 3 && f.shape[0] == height && f.shape[1] == width ==> e.value == ValueError(ChannelsMessage)
  {
    if |f.shape| != 3 || f.shape[0] != height || f.shape[1] != width then Some(ValueError(DimensionsMessage(f.shape, width, height)))
    else if f.shape[2] == 4 then None
    else if f.shape[2] != 3 then Some(ValueError(ChannelsMessage))
    else None
  }


  /** Every frame the backend receives is a (height, width, 3) RGB frame with three channels per pixel. */
  lemma ForwardedIsRgb(f: Frame, width: int, height: int)
    requires Consistent(f) && Validate(f, width, height).None?
    ensures Forwarded(f).shape == [height as nat, width as nat, 3]
    ensures forall i :: 0 <= i < |Forwarded(f).pixels| ==> |Forwarded(f).pixels[i]| == 3
  {
  }

  class Camera {
    const width: int
    const height: int
    const fps: real
    /** The name of the backend that constructed. */
    const backend: string
    /** What the backend's `device()` reports. */
    const device: string
    var framesSent: nat
    /** The frames handed to the backend's `send`, in order. */
    var sent: seq<Frame>
    /** How many times the backend's `close` was called. */
    var closes: nat

    constructor Built(width: int, height: int, fps: real, backend: string, device: string)
      ensures this.width == width && this.height == height && this.fps == fps
      ensures this.backend == backend && this.device == device
      ensures framesSent == 0 && sent == [] && closes == 0
    {
      this.width := width;
      this.height := height;
      this.fps := fps;
      this.backend := backend;
      this.device := device;
      framesSent := 0;
      sent := [];
      closes := 0;
    }

    /**
     * `send`: a frame of the wrong shape raises `ValueError` and changes
     * nothing; an accepted frame is counted once and handed on, RGBA
     * frames without their alpha channel.
     */
    method Send(frame: Frame) returns (r: Option<PyError>)
      requires Consistent(frame)
      modifies this
      ensures r == Validate(frame, width, height)
      ensures r.None? ==> framesSent == old(framesSent) + 1 && sent == old(sent) + [Forwarded(frame)]
      ensures r.Some? ==> framesSent == old(framesSent) && sent == old(sent)
      ensures closes == old(closes)
    {
      r := Validate(frame, width, height);
      if r.Some? {
        return;
      }
      framesSent := framesSent + 1;
      sent := sent + [Forwarded(frame)];
    }

    /** `close` delegates to the backend. */
    method Close()
      modifies this
      ensures closes == old(closes) + 1 && framesSent == old(framesSent) && sent == old(sent)
    {
      closes := closes + 1;
    }
  }

  /**
   * Construction: a named backend is looked up (an unknown name is a
   * `KeyError`) and tried alone; an empty or absent name tries every
   * registered backend in order. The first that constructs is kept; if none
   * does, a `RuntimeError` carries one line per failure.
   */
  method Open(width: int, height: int, fps: real, backend: Option<string>, registered: seq<string>, construct: string -> Construction)
    returns (r: Result<Camera, PyError>)
    ensures Named(backend) && backend.value !in registered ==> r == Err(KeyError(backend.value))
    ensures r.Ok? ==> (!Named(backend) || backend.value in registered)
    ensures (!Named(backend) || backend.value in registered)
      && (exists i :: 0 <= i < |Candidates(registered, backend)| && construct(Candidates(registered, backend)[i]).Built?)
      ==> r.Ok?
    ensures r.Ok? ==> (var names := Candidates(registered, backend);
      exists i :: 0 <= i < |names| && names[i] == r.value.backend && construct(names[i]) == Built(r.value.device)
        && forall j :: 0 <= j < i ==> construct(names[j]).Failed?)
    ensures r.Ok? ==> (fresh(r.value) && r.value.width == width && r.value.height == height && r.value.fps == fps
      && r.value.framesSent == 0 && r.value.sent == [] && r.value.closes == 0)
    ensures (!Named(backend) || backend.value in registered)
      && (forall j :: 0 <= j < |Candidates(registered, backend)| ==> construct(Candidates(registered, backend)[j]).Failed?)
      ==> r == Err(PyError.RuntimeError(JoinLines(ErrorLines(Candidates(registered, backend), construct, |Candidates(registered, backend)|))))
  {
    if Named(backend) && backend.value !in registered {
      return Err(KeyError(backend.value));
    }
    var names := Candidates(registered, backend);
    var chosen, errors := Fallback(names, construct);
    if chosen < 0 {
      return Err(PyError.RuntimeError(JoinLines(errors)));
    }
    var cam := new Camera.Built(width, height, fps, names[chosen], construct(names[chosen]).device);
    return Ok(cam);
  }
}
