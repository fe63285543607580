/**
 * The v4l2loopback session (Linux): a writable loopback device under
 * /dev/video*, configured once with the native pixel format, to which
 * every `send` writes one whole frame.
 */
module V4l2Loopback {
  import opened Wrappers
  import opened ImageFormats
  import opened Conversion
  import opened DeviceRegistry
  import Decimal

  /** Why `open` failed, as `errno` tells it; `text` is what `strerror` reports for other codes. */
  datatype OpenError = Denied | NoEntry | OtherErrno(text: string)

  /** What the kernel answers for one device path: the `open`, the capability query and its fields. */
  datatype Probe = Probe(openResult: Result<(), OpenError>, capsQueried: bool, isOutput: bool, driver: string)

  /**
   * The kernel as one construction sees it: the answers for every path, and
   * the outcome of the format configuration (`strerror` text on failure).
   */
  datatype Kernel = Kernel(probe: string -> Probe, configure: Result<(), string>)

  const Passthrough: set<Fourcc> := {J400, I420, NV12, YUY2, UYVY}

  /**
   * The plan chosen from the canonical input format: packed RGB and BGR are
   * converted into one I420 output buffer; the five formats the driver takes
   * as they are are forwarded from the caller's frame with no buffer at all.
   */
  function PlanFor(f: Fourcc, w: nat, h: nat): (r: Result<Plan, Exc>)
    ensures r.Ok? <==> f in {RAW, BG24} + Passthrough
    ensures r.Ok? ==> Sound(r.value, f, w, h) && r.value.tmp.None?
    ensures f in {RAW, BG24} ==> r.Ok? && r.value.native == I420 && r.value.out == Some(I420FrameSize(w, h))
    ensures f in Passthrough ==> r.Ok? && r.value.native == f && r.value.out.None? && r.value.steps == []
    ensures r.Err? ==> r.error == RuntimeError("Unsupported image format.")
  {
    match f
    case RAW => Ok(Plan(I420, None, Some(I420FrameSize(w, h)), [Step(RgbToI420, Caller, Output, false)]))
    case BG24 => Ok(Plan(I420, None, Some(I420FrameSize(w, h)), [Step(BgrToI420, Caller, Output, false)]))
    case J400 => Ok(Plan(f, None, None, []))
    case I420 => Ok(Plan(f, None, None, []))
    case NV12 => Ok(Plan(f, None, None, []))
    case YUY2 => Ok(Plan(f, None, None, []))
    case UYVY => Ok(Plan(f, None, None, []))
    case _ => Err(RuntimeError("Unsupported image format."))
  }

  function DevicePath(i: nat): string {
    "/dev/video" + Decimal.ToDecimal(i)
  }

  const NotFound := "No v4l2 loopback device found at /dev/video[0-99]. "
    + "Did you run 'modprobe v4l2loopback'? See also pyvirtualcam's documentation."

  /**
   * Opening and checking one device path. A name this process already uses
   * is refused before `open` is attempted. Missing permission is a runtime
   * error; every other rejection is an invalid argument.
   */
  function TryOpen(active: set<string>, name: string, p: Probe): (r: Result<(), Exc>)
    ensures r.Ok? <==> name !in active && p.openResult.Ok? && p.capsQueried && p.isOutput && p.driver == "v4l2 loopback"
    ensures name in active ==> r == Err(InvalidArgument("Device " + name + " is already in use."))
    ensures r.Err? && r.error.RuntimeError? <==> name !in active && p.openResult == Err(Denied)
    ensures r.Err? ==> r.error.RuntimeError? || r.error.InvalidArgument?
  {
    if name in active then
      Err(InvalidArgument("Device " + name + " is already in use."))
    else if p.openResult.Err? then
      match p.openResult.error
      case Denied => Err(RuntimeError("Could not access " + name + " due to missing permissions. "
                        + "Did you add your user to the 'video' group? "
                        + "Run 'usermod -a -G video myusername' and log out and in again."))
      case NoEntry => Err(InvalidArgument("Device " + name + " does not exist."))
      case OtherErrno(text) => Err(InvalidArgument("Device " + name + " could not be opened: " + text))
    else if !p.capsQueried then
      Err(InvalidArgument("Device capabilities of " + name + " could not be queried."))
    else if !p.isOutput then
      Err(InvalidArgument("Device " + name + " is not a video output device."))
    else if p.driver != "v4l2 loopback" then
      Err(InvalidArgument("Device " + name + " is not a V4L2 device."))
    else
      Ok(())
  }

  function Attempt(active: set<string>, probe: string -> Probe, i: nat): Result<(), Exc> {
    TryOpen(active, DevicePath(i), probe(DevicePath(i)))
  }

  /** The outcome `try_open` would have for each of /dev/video0 .. /dev/video99, in order. */
  function Attempts(active: set<string>, probe: string -> Probe): (a: seq<Result<(), Exc>>)
    ensures |a| == 100 && forall i :: 0 <= i < 100 ==> a[i] == Attempt(active, probe, i)
  {
    seq(100, i requires 0 <= i => Attempt(active, probe, i))
  }

  /** The scan moves past candidate `i`: its rejection was an invalid argument. */
  predicate Skips(a: seq<Result<(), Exc>>, i: nat)
    requires i < |a|
  {
    a[i].Err? && a[i].error.InvalidArgument?
  }

  /** How a scan over candidate indices ends. */
  datatype ScanResult = Found(index: nat) | Aborted(index: nat, error: Exc) | Exhausted

  /**
   * The outcome of the scan over the attempts from `i` on: the first index
   * that opens, the first error that is not an invalid argument, or
   * exhaustion once the last candidate was skipped.
   */
  function ScanFrom(a: seq<Result<(), Exc>>, i: nat): ScanResult
    requires i <= |a|
    decreases |a| - i
  {
    if i == |a| then Exhausted
    else if a[i].Ok? then Found(i)
    else if !a[i].error.InvalidArgument? then Aborted(i, a[i].error)
    else ScanFrom(a, i + 1)
  }

  /**
   * What the scan from `i` on promises: the index it stops at opens or
   * fails with another error than an invalid argument, and every one
   * between `i` and it was skipped; exhaustion means every remaining index
   * was skipped.
   */
  lemma {:induction false} ScanFromSpec(a: seq<Result<(), Exc>>, i: nat)
    requires i <= |a|
    ensures var r := ScanFrom(a, i);
      && (r.Found? ==> i <= r.index < |a| && a[r.index].Ok? && forall j :: i <= j < r.index ==> Skips(a, j))
      && (r.Aborted? ==> (i <= r.index < |a| && a[r.index] == Err(r.error) && !r.error.InvalidArgument?
            && forall j :: i <= j < r.index ==> Skips(a, j)))
      && (r.Exhausted? ==> forall j :: i <= j < |a| ==> Skips(a, j))
    decreases |a| - i
  {
    if i < |a| && a[i].Err? && a[i].error.InvalidArgument? {
      ScanFromSpec(a, i + 1);
    }
  }

  /**
   * The scan over /dev/video0 .. /dev/video99 without a hint: it returns
   * the first index whose device opens and checks out, provided every
   * earlier one was rejected as an invalid argument; any other error, a
   * runtime error, ends the scan at once; otherwise the scan runs out of
   * candidates.
   */
  method ScanDevices(active: set<string>, probe: string -> Probe) returns (r: ScanResult)
    ensures r == ScanFrom(Attempts(active, probe), 0)
    ensures r.Found? ==> (r.index < 100 && Attempt(active, probe, r.index).Ok?
      && forall j :: 0 <= j < r.index ==> Skips(Attempts(active, probe), j))
    ensures r.Aborted? ==> (r.index < 100 && Attempt(active, probe, r.index) == Err(r.error) && r.error.RuntimeError?
      && forall j :: 0 <= j < r.index ==> Skips(Attempts(active, probe), j))
    ensures r.Exhausted? ==> forall j :: 0 <= j < 100 ==> Skips(Attempts(active, probe), j)
  {
    ghost var a := Attempts(active, probe);
    ScanFromSpec(a, 0);
    var i := 0;
    while i < 100
      invariant 0 <= i <= 100
      invariant ScanFrom(a, i) == ScanFrom(a, 0)
    {
      var attempt := Attempt(active, probe, i);
      assert a[i] == attempt;
      if attempt.Ok? {
        return Found(i);
      }
      if !attempt.error.InvalidArgument? {
        return Aborted(i, attempt.error);
      }
      i := i + 1;
    }
    return Exhausted;
  }

  class Session {
    const width: nat
    const height: nat
    const fourcc: Fourcc
    const plan: Plan
    /** `_out_frame_size`: the bytes every write hands to the driver. */
    const outFrameSize: nat
    const registry: Registry<string>
    var running: bool
    var device: string
    /** `_camera_fd` refers to an open descriptor. */
    var fdOpen: bool

    ghost predicate Valid()
      reads this
    {
      PlanFor(fourcc, width, height) == Ok(plan) && outFrameSize == FrameSize(LayoutOf(plan.native), width, height)
    }

    constructor Started(registry: Registry<string>, width: nat, height: nat, fourcc: Fourcc, plan: Plan, device: string)
      requires PlanFor(fourcc, width, height) == Ok(plan)
      ensures Valid() && running && fdOpen
      ensures this.registry == registry && this.width == width && this.height == height
      ensures this.fourcc == fourcc && this.plan == plan && this.device == device
    {
      this.width := width;
      this.height := height;
      this.fourcc := fourcc;
      this.plan := plan;
      this.outFrameSize := FrameSize(LayoutOf(plan.native), width, height);
      this.registry := registry;
      this.running := true;
      this.device := device;
      this.fdOpen := true;
    }

    /** Stopping closes the device and gives up the claim; a second stop changes nothing. */
    method Stop()
      modifies this, registry
      ensures !running && device == old(device)
      ensures old(running) ==> !fdOpen && registry.active == old(registry.active) - {device}
      ensures !old(running) ==> fdOpen == old(fdOpen) && registry.active == old(registry.active)
    {
      if !running {
        return;
      }
      fdOpen := false;
      running := false;
      registry.Release(device);
    }

    /**
     * One frame: nothing while stopped; otherwise the plan's calls run and
     * exactly `outFrameSize` bytes are written from the final buffer, which
     * holds that many. A failed write is only reported, never raised.
     */
    method Send(writeOk: bool) returns (o: SendOutcome)
      requires Valid()
      ensures !running ==> o == Stopped
      ensures running ==> (o.Sent? && o.calls == Run(plan, width, height) && o.from == Final(plan)
        && o.bytes == outFrameSize && o.handedOver == writeOk)
      ensures o.Sent? ==> o.bytes == Readable(plan, fourcc, o.from, width, height)
      ensures o.Sent? && plan.steps == [] ==> o.from == Caller && o.calls == []
    {
      if !running {
        return Stopped;
      }
      RunStaysInBuffers(plan, fourcc, width, height);
      o := Sent(Run(plan, width, height), Final(plan), outFrameSize, writeOk);
    }

    function Device(): (d: string)
      reads this
      ensures d == device
    {
      device
    }

    function NativeFourcc(): (f: Fourcc)
      reads this
      requires Valid()
      ensures fourcc in {RAW, BG24} ==> f == I420
      ensures fourcc in Passthrough ==> f == fourcc
    {
      plan.native
    }
  }

  /**
   * Construction: the format is checked before any device is touched; a
   * hint is tried exactly once, otherwise the /dev/video scan picks the
   * device; the claim is made only once the format configuration succeeded.
   */
  function NotConfigured(name: string, reason: string): string {
    "Virtual camera device " + name + " could not be configured: " + reason
  }

  /**
   * The device a construction settles on once the format is known to be
   * supported, before the configuration: the hint if `TryOpen` accepts it,
   * otherwise the device the scan finds; or the error that ends the attempt.
   */
  function Chosen(active: set<string>, hint: Option<string>, probe: string -> Probe): (r: Result<string, Exc>)
    ensures hint.Some? ==> (r.Ok? <==> TryOpen(active, hint.value, probe(hint.value)).Ok?)
    ensures hint.Some? && r.Ok? ==> r.value == hint.value
    ensures hint.None? ==> (r.Ok? <==> ScanFrom(Attempts(active, probe), 0).Found?)
    ensures hint.None? && r.Ok? ==> r.value == DevicePath(ScanFrom(Attempts(active, probe), 0).index)
    ensures hint.None? && ScanFrom(Attempts(active, probe), 0).Exhausted? ==> r == Err(RuntimeError(NotFound))
  {
    if hint.Some? then
      var attempt := TryOpen(active, hint.value, probe(hint.value));
      if attempt.Err? then Err(attempt.error) else Ok(hint.value)
    else
      match ScanFrom(Attempts(active, probe), 0)
      case Aborted(_, e) => Err(e)
      case Exhausted => Err(RuntimeError(NotFound))
      case Found(i) => Ok(DevicePath(i))
  }

  method Open(registry: Registry<string>, width: nat, height: nat, fourcc: Fourcc, hint: Option<string>, kernel: Kernel)
    returns (r: Result<Session, Exc>)
    modifies registry
    ensures PlanFor(fourcc, width, height).Err? ==> r == Err(PlanFor(fourcc, width, height).error)
    ensures PlanFor(fourcc, width, height).Ok? ==>
      var c := Chosen(old(registry.active), hint, kernel.probe);
      && (c.Err? ==> r == Err(c.error))
      && (c.Ok? && kernel.configure.Err? ==> r == Err(RuntimeError(NotConfigured(c.value, kernel.configure.error))))
      && (c.Ok? && kernel.configure.Ok? ==> r.Ok? && r.value.device == c.value)
    ensures r.Err? ==> registry.active == old(registry.active)
    ensures r.Ok? ==> (fresh(r.value) && r.value.Valid() && r.value.running && r.value.registry == registry
      && r.value.width == width && r.value.height == height && r.value.fourcc == fourcc
      && r.value.plan == PlanFor(fourcc, width, height).value
      && r.value.device !in old(registry.active)
      && TryOpen(old(registry.active), r.value.device, kernel.probe(r.value.device)).Ok?
      && (hint.Some? ==> r.value.device == hint.value)
      && kernel.configure.Ok?
      && registry.active == old(registry.active) + {r.value.device})
  {
    var plan := PlanFor(fourcc, width, height);
    if plan.Err? {
      return Err(plan.error);
    }
    var name: string;
    if hint.Some? {
      name := hint.value;
      var attempt := TryOpen(registry.active, name, kernel.probe(name));
      if attempt.Err? {
        return Err(attempt.error);
      }
    } else {
      var found := ScanDevices(registry.active, kernel.probe);
      match found
      case Aborted(_, e) => return Err(e);
      case Exhausted => return Err(RuntimeError(NotFound));
      case Found(i) => name := DevicePath(i);
    }
    if kernel.configure.Err? {
      return Err(RuntimeError(NotConfigured(name, kernel.configure.error)));
    }
    var s := new Session.Started(registry, width, height, fourcc, plan.value, name);
    registry.Claim(name);
    return Ok(s);
  }
}
