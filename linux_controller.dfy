/**
 * The older Linux controller: a context object that scans /dev/video0..99
 * for a v4l2loopback output device this process does not already use,
 * configures it for UYVY and converts every packed RGB frame into its own
 * UYVY buffer before writing the whole buffer to the device.
 */
module LinuxController {
  import opened Wrappers
  import opened Bytes
  import opened Yuv
  import opened DeviceRegistry
  import Decimal

  /** How `open` of a device path ended: success, EACCES, or any other errno. */
  datatype OpenResult = Opened | Denied | Failed

  /** What the kernel answers for one device: the `open`, whether the capability query worked, and its fields. */
  datatype Probe = Probe(open: OpenResult, capsQueried: bool, isOutput: bool, driver: string)

  /** The kernel as one start sees it: the probe of every index and the outcome of `VIDIOC_S_FMT` (`strerror` text on failure). */
  datatype Kernel = Kernel(probe: nat -> Probe, configure: Result<(), string>)

  const AlreadyStarted := "virtual camera output already started"
  const NotFound := "No v4l2 loopback device found at /dev/video[0-99]. "
    + "Did you run 'modprobe v4l2loopback'? See also pyvirtualcam's documentation."
  /** The number of device indices the scan tries. */
  const Candidates: nat := 100

  function DevicePath(i: nat): string {
    "/dev/video" + Decimal.ToDecimal(i)
  }

  function DeniedMessage(i: nat): string {
    "Could not access " + DevicePath(i) + " due to missing permissions. "
      + "Did you add your user to the 'video' group? "
      + "Run 'usermod -a -G video myusername' and log out and in again."
  }

  function NotConfigured(i: nat, reason: string): string {
    "Virtual camera device " + DevicePath(i) + " could not be configured: " + reason
  }

  /** A device that opened, answered the capability query, is an output and is driven by v4l2loopback. */
  predicate Usable(p: Probe) {
    p.open == Opened && p.capsQueried && p.isOutput && p.driver == "v4l2 loopback"
  }

  /** The scan moves past index j: it is in use here, or it was rejected for a reason other than missing permission. */
  predicate Skipped(active: set<nat>, probe: nat -> Probe, j: nat) {
    j in active || (probe(j).open != Denied && !Usable(probe(j)))
  }

  datatype ScanResult = Found(index: nat) | DeniedAt(index: nat) | Exhausted

  /** The outcome of the scan from index `i` on. */
  function ScanFrom(active: set<nat>, probe: nat -> Probe, i: nat): ScanResult
    requires i <= Candidates
    decreases Candidates - i
  {
    if i == Candidates then Exhausted
    else if i in active then ScanFrom(active, probe, i + 1)
    else if probe(i).open == Denied then DeniedAt(i)
    else if Usable(probe(i)) then Found(i)
    else ScanFrom(active, probe, i + 1)
  }

  /**
   * The index scan: the first index that is not skipped decides, either as
   * the device found or as a permission error; with none, the scan is
   * exhausted.
   */
  method ScanIndices(active: set<nat>, probe: nat -> Probe) returns (r: ScanResult)
    ensures r.Found? ==> (r.index < Candidates && r.index !in active && Usable(probe(r.index))
      && forall j :: 0 <= j < r.index ==> Skipped(active, probe, j))
    ensures r.DeniedAt? ==> (r.index < Candidates && r.index !in active && probe(r.index).open == Denied
      && forall j :: 0 <= j < r.index ==> Skipped(active, probe, j))
    ensures r.Exhausted? <==> forall j :: 0 <= j < Candidates ==> Skipped(active, probe, j)
    ensures r == ScanFrom(active, probe, 0)
  {
    var i := 0;
    while i < Candidates
      invariant 0 <= i <= Candidates
      invariant forall j :: 0 <= j < i ==> Skipped(active, probe, j)
      invariant ScanFrom(active, probe, i) == ScanFrom(active, probe, 0)
    {
      if i in active {
        i := i + 1;
        continue;
      }
      var p := probe(i);
      if p.open == Denied {
        assert !Skipped(active, probe, i);
        return DeniedAt(i);
      }
      if Usable(p) {
        assert !Skipped(active, probe, i);
        return Found(i);
      }
      i := i + 1;
    }
    return Exhausted;
  }

  /** What one `send` did: nothing while stopped, or one write of `bytes` bytes that succeeded or was only reported. */
  datatype Written = NotRunning | Wrote(bytes: nat, ok: bool)

  /** The controller context: what `virtual_output_start` fills in and `virtual_output_stop` winds down. */
  class Context {
    var running: bool
    var fdOpen: bool
    var device: string
    var index: nat
    var width: nat
    var height: nat
    var buffer: array<Byte>

    ghost predicate Valid()
      reads this
    {
      buffer.Length == UyvyFrameSize(width, height)
    }

    constructor ()
      ensures Valid() && !running && !fdOpen && device == ""
    {
      running := false;
      fdOpen := false;
      device := "";
      index := 0;
      width := 0;
      height := 0;
      buffer := new Byte[0];
    }

    /**
     * Starting: refused while running; otherwise the scan picks the device,
     * which is configured for UYVY; only then is the context filled in and
     * the index claimed. Every failure leaves the claims unchanged.
     */
    method Start(registry: Registry<nat>, w: nat, h: nat, kernel: Kernel) returns (r: Result<(), Exc>)
      requires Valid()
      modifies this, registry
      ensures Valid()
      ensures old(running) ==> r == Err(LogicError(AlreadyStarted))
      ensures r.Err? ==> (running == old(running) && registry.active == old(registry.active)
        && device == old(device) && width == old(width) && height == old(height))
      ensures !old(running) && kernel.configure.Ok?
        && (forall i :: 0 <= i < Candidates ==> kernel.probe(i).open != Denied)
        ==> (r.Ok? <==> exists i :: 0 <= i < Candidates && i !in old(registry.active) && Usable(kernel.probe(i)))
      ensures !old(running) && (forall j :: 0 <= j < Candidates ==> Skipped(old(registry.active), kernel.probe, j))
        ==> r == Err(RuntimeError(NotFound))
      ensures !old(running) ==>
        var scan := ScanFrom(old(registry.active), kernel.probe, 0);
        && (scan.DeniedAt? ==> r == Err(RuntimeError(DeniedMessage(scan.index))))
        && (scan.Exhausted? ==> r == Err(RuntimeError(NotFound)))
        && (scan.Found? && kernel.configure.Err? ==>
              r == Err(RuntimeError(NotConfigured(scan.index, kernel.configure.error))))
        && (scan.Found? && kernel.configure.Ok? ==> r.Ok? && index == scan.index)
      ensures r.Ok? ==> (!old(running) && running && fdOpen && 0 <= index < Candidates && kernel.configure.Ok?
        && index !in old(registry.active) && Usable(kernel.probe(index))
        && (forall j :: 0 <= j < index ==> Skipped(old(registry.active), kernel.probe, j))
        && device == DevicePath(index) && width == w && height == h && fresh(buffer)
        && registry.active == old(registry.active) + {index})
    {
      if running {
        return Err(LogicError(AlreadyStarted));
      }
      var found := ScanIndices(registry.active, kernel.probe);
      var i: nat;
      match found
      case DeniedAt(j) =>
        assert kernel.probe(j).open == Denied && !Skipped(registry.active, kernel.probe, j);
        return Err(RuntimeError(DeniedMessage(j)));
      case Exhausted =>
        forall i | 0 <= i < Candidates && i !in registry.active
          ensures !Usable(kernel.probe(i))
        {
          assert Skipped(registry.active, kernel.probe, i);
        }
        return Err(RuntimeError(NotFound));
      case Found(j) =>
        i := j;
        assert Usable(kernel.probe(i)) && !Skipped(registry.active, kernel.probe, i);
      if kernel.configure.Err? {
        return Err(RuntimeError(NotConfigured(i, kernel.configure.error)));
      }
      Fill(i, w, h);
      registry.Claim(i);
      r := Ok(());
    }

    /** The context of a started output on device i: open, with a fresh UYVY frame buffer. */
    method Fill(i: nat, w: nat, h: nat)
      modifies this
      ensures Valid() && running && fdOpen && device == DevicePath(i) && index == i
      ensures width == w && height == h && fresh(buffer)
    {
      running := true;
      fdOpen := true;
      device := DevicePath(i);
      index := i;
      width := w;
      height := h;
      buffer := new Byte[h * w * 2];
    }

    /** Stopping closes the device and releases the index; a second stop changes nothing. */
    method Stop(registry: Registry<nat>)
      modifies this, registry
      ensures !running && device == old(device) && index == old(index) && buffer == old(buffer)
      ensures width == old(width) && height == old(height)
      ensures old(running) ==> !fdOpen && registry.active == old(registry.active) - {old(index)}
      ensures !old(running) ==> fdOpen == old(fdOpen) && registry.active == old(registry.active)
    {
      if !running {
        return;
      }
      fdOpen := false;
      running := false;
      registry.Release(index);
    }

    /**
     * One frame of packed RGB: nothing while stopped; otherwise the frame
     * is converted into the context's UYVY buffer and the whole buffer,
     * `uyvy_frame_size` bytes, is written. A failed write is only reported.
     */
    method Send(rgb: array<Byte>, c: Colour, writeOk: bool) returns (o: Written)
      requires Valid() && rgb != buffer
      requires running ==> rgb.Length >= width * height * 3
      modifies buffer
      ensures !running ==> o == NotRunning && buffer[..] == old(buffer[..])
      ensures running ==> o == Wrote(UyvyFrameSize(width, height), writeOk)
      ensures running ==> forall k :: 0 <= k < buffer.Length ==>
        buffer[k] == if UyvyWritten(width, height, k) then UyvyByte(rgb[..], width, height, k, c) else old(buffer[k])
    {
      if !running {
        return NotRunning;
      }
      UyvyFrameFromRgb(rgb, buffer, width, height, c);
      o := Wrote(buffer.Length, writeOk);
    }

    function Device(): (d: string)
      reads this
      ensures d == device
    {
      device
    }
  }
}
