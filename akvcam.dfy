/**
 * The AkVirtualCamera session on Windows: cameras are read from the
 * registry keys the AkVCam manager writes, a manager process is started
 * in streaming mode, and frames are piped to its standard input row by row.
 */
module AkVCam {
  import opened Wrappers
  import opened Bytes
  import opened ImageFormats
  import opened Decimal
  import opened DeviceRegistry
  import opened Arith

  datatype CameraInfo = CameraInfo(desc: string, id: string)

  /**
   * The values under HKLM\SOFTWARE\Webcamoid\VirtualCamera: the camera
   * count, each numbered camera's description and id, and the manager's
   * installation path; None is a failed read.
   */
  datatype Keys = Keys(
    size: Option<int>,
    description: nat -> Option<string>,
    id: nat -> Option<string>,
    installPath: Option<string>)

  const NoCount := "Unable to get number of available cameras"
  const NoCameras := "No cameras avaliable. Did you add one device using AkVCamManager add-device?"
  const AllInUse := "All cameras being used..."
  const NoInstallPath := "Unable to get akvcam installation path."
  /** snprintf writes at most this many characters of the command line (plus the terminator). */
  const CommandCapacity := 1023

  /** With a hint the camera described by it is wanted; without one, the first camera not in use. */
  predicate Wanted(active: set<string>, hint: Option<string>, desc: string) {
    (hint.Some? && desc == hint.value) || (hint.None? && desc !in active)
  }

  /**
   * The camera loop from index i up to count: the first wanted camera, or
   * None; a description or id that cannot be read aborts it.
   */
  function ScanFrom(active: set<string>, hint: Option<string>, keys: Keys, i: nat, count: int): Result<Option<CameraInfo>, Exc>
    decreases count - i
  {
    if i > count then Ok(None)
    else if keys.description(i).None? then Err(RuntimeError("Unable to get camera " + ToDecimal(i) + " description."))
    else if keys.id(i).None? then Err(RuntimeError("Unable to get camera " + ToDecimal(i) + " id."))
    else if Wanted(active, hint, keys.description(i).value) then Ok(Some(CameraInfo(keys.description(i).value, keys.id(i).value)))
    else ScanFrom(active, hint, keys, i + 1, count)
  }

  /** The loop as it runs, over cameras 1 to count. */
  method ScanCameras(active: set<string>, hint: Option<string>, keys: Keys, count: int) returns (r: Result<Option<CameraInfo>, Exc>)
    ensures r == ScanFrom(active, hint, keys, 1, count)
  {
    var i: nat := 1;
    while i <= count
      invariant 1 <= i <= if count < 1 then 1 else count + 1
      invariant ScanFrom(active, hint, keys, 1, count) == ScanFrom(active, hint, keys, i, count)
      decreases count - i
    {
      var desc := keys.description(i);
      if desc.None? {
        return Err(RuntimeError("Unable to get camera " + ToDecimal(i) + " description."));
      }
      var id := keys.id(i);
      if id.None? {
        return Err(RuntimeError("Unable to get camera " + ToDecimal(i) + " id."));
      }
      if Wanted(active, hint, desc.value) {
        return Ok(Some(CameraInfo(desc.value, id.value)));
      }
      i := i + 1;
    }
    return Ok(None);
  }

  /** A picked camera is a readable, wanted camera in range, and every camera before it was readable and not wanted. */
  lemma {:induction false} ScanFromPicks(active: set<string>, hint: Option<string>, keys: Keys, i: nat, count: int, c: CameraInfo)
    requires ScanFrom(active, hint, keys, i, count) == Ok(Some(c))
    ensures exists k: nat :: (i <= k <= count && keys.description(k) == Some(c.desc) && keys.id(k) == Some(c.id)
      && Wanted(active, hint, c.desc)
      && forall j: nat :: i <= j < k ==> keys.description(j).Some? && !Wanted(active, hint, keys.description(j).value))
    decreases count - i
  {
    if keys.description(i).Some? && keys.id(i).Some? && !Wanted(active, hint, keys.description(i).value) {
      ScanFromPicks(active, hint, keys, i + 1, count, c);
      var k: nat :| i + 1 <= k <= count && keys.description(k) == Some(c.desc) && keys.id(k) == Some(c.id)
        && Wanted(active, hint, c.desc)
        && forall j: nat :: i + 1 <= j < k ==> keys.description(j).Some? && !Wanted(active, hint, keys.description(j).value);
      assert forall j: nat :: i <= j < k ==> keys.description(j).Some? && !Wanted(active, hint, keys.description(j).value);
    }
  }

  /** No camera picked and no error: every camera in range was read and none was wanted. */
  lemma {:induction false} ScanFromNone(active: set<string>, hint: Option<string>, keys: Keys, i: nat, count: int)
    requires ScanFrom(active, hint, keys, i, count) == Ok(None)
    ensures forall k: nat :: i <= k <= count ==>
      (keys.description(k).Some? && keys.id(k).Some? && !Wanted(active, hint, keys.description(k).value))
    decreases count - i
  {
    if i <= count {
      ScanFromNone(active, hint, keys, i + 1, count);
    }
  }

  /**
   * The camera selection as written: a count below zero is refused, but a
   * count of zero passes every check with no camera selected, and the
   * constructor then reads the id of that missing camera.
   */
  function SelectAsWritten(active: set<string>, hint: Option<string>, keys: Keys): Result<Option<CameraInfo>, Exc> {
    if keys.size.None? then Err(RuntimeError(NoCount))
    else if keys.size.value < 0 then Err(RuntimeError(NoCameras))
    else if hint.Some? && hint.value in active then Err(InvalidArgument("Device " + hint.value + " is already in use."))
    else match ScanFrom(active, hint, keys, 1, keys.size.value)
      case Err(e) => Err(e)
      case Ok(None) => if keys.size.value > 0 then Err(RuntimeError(AllInUse)) else Ok(None)
      case Ok(Some(c)) => Ok(Some(c))
  }

  /** With zero cameras registered the as-written selection succeeds without a camera. */
  lemma SelectAsWrittenZeroCameras(active: set<string>, keys: Keys)
    requires keys.size == Some(0)
    ensures SelectAsWritten(active, None, keys) == Ok(None)
  {
  }

  /** The selection with the count check the error message describes: no camera at all is refused. */
  function Select(active: set<string>, hint: Option<string>, keys: Keys): Result<CameraInfo, Exc> {
    if keys.size.None? then Err(RuntimeError(NoCount))
    else if keys.size.value <= 0 then Err(RuntimeError(NoCameras))
    else if hint.Some? && hint.value in active then Err(InvalidArgument("Device " + hint.value + " is already in use."))
    else match ScanFrom(active, hint, keys, 1, keys.size.value)
      case Err(e) => Err(e)
      case Ok(None) => Err(RuntimeError(AllInUse))
      case Ok(Some(c)) => Ok(c)
  }

  /** Away from a zero count the corrected selection agrees with the code as written. */
  lemma SelectMatchesAsWritten(active: set<string>, hint: Option<string>, keys: Keys)
    requires keys.size != Some(0)
    ensures match SelectAsWritten(active, hint, keys)
      case Ok(c) => c.Some? && Select(active, hint, keys) == Ok(c.value)
      case Err(e) => Select(active, hint, keys) == Err(e)
  {
  }

  /**
   * A selected camera is a registered one (index 1 to the count) that is
   * not in use by this process: the hinted camera when there is a hint,
   * otherwise the first free one.
   */
  lemma SelectPicksFreeCamera(active: set<string>, hint: Option<string>, keys: Keys)
    requires Select(active, hint, keys).Ok?
    ensures var c := Select(active, hint, keys).value;
      && c.desc !in active
      && (hint.Some? ==> c.desc == hint.value)
      && exists k: nat :: 1 <= k <= keys.size.value && keys.description(k) == Some(c.desc) && keys.id(k) == Some(c.id)
  {
    var c := Select(active, hint, keys).value;
    ScanFromPicks(active, hint, keys, 1, keys.size.value, c);
  }

  /** A registry string as `getStringRegistry` stores it: sized by the byte count, which counts the terminator. */
  function Terminated(v: Option<string>): (r: Option<string>)
    ensures r.Some? <==> v.Some?
    ensures r.Some? ==> |r.value| == |v.value| + 1 && r.value[|v.value|] == '\0' && r.value[..|v.value|] == v.value
  {
    if v.None? then None else Some(v.value + "\0")
  }

  /** The registry values as the constructor sees them: every description and id keeps its trailing NUL. */
  function AsRead(keys: Keys): Keys {
    keys.(description := (i: nat) => Terminated(keys.description(i)), id := (i: nat) => Terminated(keys.id(i)))
  }

  /** A hint whose last character is not a NUL never equals a description as read, so the loop never picks one. */
  lemma {:induction false} ScanAsReadNeverMatches(active: set<string>, hint: string, keys: Keys, i: nat, count: int)
    requires hint == [] || hint[|hint| - 1] != '\0'
    ensures ScanFrom(active, Some(hint), AsRead(keys), i, count).Ok? ==>
      ScanFrom(active, Some(hint), AsRead(keys), i, count).value.None?
    ensures (forall k: nat :: i <= k <= count ==> keys.description(k).Some? && keys.id(k).Some?) ==>
      ScanFrom(active, Some(hint), AsRead(keys), i, count) == Ok(None)
    decreases count - i
  {
    var read := AsRead(keys);
    if i <= count && read.description(i).Some? && read.id(i).Some? {
      var desc := read.description(i).value;
      assert read.description(i) == Terminated(keys.description(i));
      assert |desc| == |keys.description(i).value| + 1;
      assert desc[|desc| - 1] == '\0';
      assert !Wanted(active, Some(hint), desc);
      ScanAsReadNeverMatches(active, hint, keys, i + 1, count);
    }
  }

  /**
   * As written, a hinted construction never selects a camera: every
   * description carries its NUL, so with readable keys and at least one
   * camera the hint ends in "All cameras being used...".
   */
  lemma HintedSelectionAsReadFails(active: set<string>, hint: string, keys: Keys)
    requires hint == [] || hint[|hint| - 1] != '\0'
    ensures SelectAsWritten(active, Some(hint), AsRead(keys)).Ok? ==>
      SelectAsWritten(active, Some(hint), AsRead(keys)).value.None?
    ensures keys.size.Some? && keys.size.value > 0 && hint !in active
      && (forall k: nat :: 1 <= k <= keys.size.value ==> keys.description(k).Some? && keys.id(k).Some?)
      ==> SelectAsWritten(active, Some(hint), AsRead(keys)) == Err(RuntimeError(AllInUse))
  {
    if keys.size.Some? {
      ScanAsReadNeverMatches(active, hint, keys, 1, keys.size.value);
    }
  }

  /** Without a hint, the selection reports every camera in use only when every registered camera is. */
  lemma SelectFailsOnlyWhenAllInUse(active: set<string>, keys: Keys)
    requires Select(active, None, keys) == Err(RuntimeError(AllInUse))
    ensures forall k: nat :: 1 <= k <= keys.size.value ==>
      (keys.description(k).Some? && keys.description(k).value in active)
  {
    ScanFromErrors(active, None, keys, 1, keys.size.value);
    assert AllInUse[0] == 'A';
    ScanFromNone(active, None, keys, 1, keys.size.value);
  }

  /** The loop's own errors are the unreadable-key messages. */
  lemma {:induction false} ScanFromErrors(active: set<string>, hint: Option<string>, keys: Keys, i: nat, count: int)
    ensures var r := ScanFrom(active, hint, keys, i, count);
      r.Err? ==> r.error.RuntimeError? && |r.error.msg| > 0 && r.error.msg[0] == 'U'
    decreases count - i
  {
    if i <= count && keys.description(i).Some? && keys.id(i).Some? && !Wanted(active, hint, keys.description(i).value) {
      ScanFromErrors(active, hint, keys, i + 1, count);
    }
  }

  /** The pixel format name handed to the manager. */
  function StreamFormat(f: Fourcc): (r: Result<string, Exc>)
    ensures r.Ok? <==> f in {RAW, NV12, YUY2, UYVY}
    ensures r.Err? ==> r.error == RuntimeError("Unsupported image format.")
  {
    match f
    case RAW => Ok("RGB24")
    case NV12 => Ok("NV12")
    case YUY2 => Ok("YUY2")
    case UYVY => Ok("UYVY")
    case _ => Err(RuntimeError("Unsupported image format."))
  }

  /** The full manager command line, before it is cut to the buffer. */
  function FullCommand(installPath: string, id: string, format: string, width: nat, height: nat): string {
    "\"" + installPath + "\\x64\\AkVCamManager.exe\" stream " + id + " " + format + " "
      + ToDecimal(width) + " " + ToDecimal(height)
  }

  /** The command line as snprintf leaves it in the 1024-byte buffer: cut, never overrun. */
  function Command(installPath: string, id: string, format: string, width: nat, height: nat): (cmd: string)
    ensures |cmd| <= CommandCapacity
    ensures cmd <= FullCommand(installPath, id, format, width, height)
    ensures |FullCommand(installPath, id, format, width, height)| <= CommandCapacity ==>
      cmd == FullCommand(installPath, id, format, width, height)
  {
    var full := FullCommand(installPath, id, format, width, height);
    if |full| <= CommandCapacity then full else full[..CommandCapacity]
  }

  /** Decimal text of a signed value, as std::to_string writes it. */
  function SignedDecimal(x: int): string {
    if x < 0 then "-" + ToDecimal(-x) else ToDecimal(x)
  }

  /** Every chunk has the given length. */
  predicate Chunked(chunks: seq<seq<Byte>>, len: nat) {
    forall k :: 0 <= k < |chunks| ==> |chunks[k]| == len
  }

  /** The writes of the send as written: every byte of every row is the frame's first byte. */
  predicate RepeatsFirstByte(writes: seq<seq<Byte>>, frame: seq<Byte>, rowLen: nat, rows: nat) {
    && |writes| == rows && Chunked(writes, rowLen)
    && (|frame| > 0 ==> forall k, b :: 0 <= k < |writes| && 0 <= b < |writes[k]| ==> writes[k][b] == frame[0])
  }

  /** A one-pixel frame whose bytes differ is not what the pipe receives from the send as written. */
  lemma SendAsWrittenLosesFrame(writes: seq<seq<Byte>>)
    requires RepeatsFirstByte(writes, [1, 2, 3], 3, 1)
    ensures Flatten(writes) != [1, 2, 3]
  {
    assert writes[..0] == [];
    assert Flatten(writes) == writes[0];
    assert writes[0][1] == 1;
  }

  class Session {
    const width: nat
    const height: nat
    const fourcc: Fourcc
    const camera: CameraInfo
    const command: string
    const registry: Registry<string>
    /** The row buffer of 3 * width bytes. */
    const buffer: array<Byte>
    var running: bool

    ghost predicate Valid()
      reads this
    {
      buffer.Length == 3 * width
    }

    constructor Started(registry: Registry<string>, width: nat, height: nat, fourcc: Fourcc, camera: CameraInfo, command: string)
      ensures Valid() && running && fresh(buffer)
      ensures this.registry == registry && this.width == width && this.height == height && this.fourcc == fourcc
      ensures this.camera == camera && this.command == command
    {
      this.width := width;
      this.height := height;
      this.fourcc := fourcc;
      this.camera := camera;
      this.command := command;
      this.registry := registry;
      this.buffer := new Byte[3 * width];
      this.running := true;
    }

    /** The first stop gives the camera back to the process-wide set; later ones do nothing. */
    method Stop()
      modifies this, registry
      ensures !running
      ensures old(running) ==> registry.active == old(registry.active) - {camera.desc}
      ensures !old(running) ==> registry.active == old(registry.active)
    {
      if !running {
        return;
      }
      registry.Release(camera.desc);
      running := false;
    }

    /**
     * One frame, as written: each of the height rows fills the buffer
     * with the frame's first byte (the index expression is a comma
     * expression) and writes 3 * width bytes.
     */
    method SendAsWritten(frame: seq<Byte>) returns (writes: seq<seq<Byte>>)
      requires Valid() && |frame| == 3 * width * height
      modifies buffer
      ensures !running ==> writes == []
      ensures running ==> RepeatsFirstByte(writes, frame, 3 * width, height)
    {
      writes := [];
      if !running {
        return;
      }
      var y := 0;
      while y < height
        invariant 0 <= y <= height
        invariant RepeatsFirstByte(writes, frame, 3 * width, y)
      {
        var b := 0;
        while b < 3 * width
          invariant 0 <= b <= 3 * width
          invariant forall j :: 0 <= j < b ==> buffer[j] == frame[0]
        {
          buffer[b] := frame[0];
          b := b + 1;
        }
        writes := writes + [buffer[..]];
        y := y + 1;
      }
    }

    /**
     * One frame, copying row y of the frame into the buffer before it is
     * written: the pipe receives the frame itself, in rows of 3 * width
     * bytes.
     */
    method Send(frame: seq<Byte>) returns (writes: seq<seq<Byte>>)
      requires Valid() && |frame| == 3 * width * height
      modifies buffer
      ensures !running ==> writes == []
      ensures running ==> (|writes| == height && Chunked(writes, 3 * width) && Flatten(writes) == frame)
    {
      writes := [];
      if !running {
        return;
      }
      var rowLen := 3 * width;
      var y, off := 0, 0;
      while y < height
        invariant 0 <= y <= height
        invariant off == y * rowLen && off <= |frame|
        invariant |writes| == y && Chunked(writes, rowLen)
        invariant Flatten(writes) == frame[..off]
      {
        assert off + rowLen <= |frame| by {
          MulMono(y + 1, height, rowLen);
        }
        LoadRow(frame, off);
        ghost var row := buffer[..];
        FlattenAppend(writes, row);
        assert frame[..off + rowLen] == frame[..off] + row;
        writes := writes + [buffer[..]];
        y, off := y + 1, off + rowLen;
      }
      assert frame[..off] == frame;
    }

    /** Row staging: the buffer receives the 3 * width frame bytes from `off` on. */
    method LoadRow(frame: seq<Byte>, off: nat)
      requires Valid() && off + 3 * width <= |frame|
      modifies buffer
      ensures buffer[..] == frame[off..off + 3 * width]
    {
      var b := 0;
      while b < 3 * width
        invariant 0 <= b <= 3 * width
        invariant forall j :: 0 <= j < b ==> buffer[j] == frame[off + j]
      {
        buffer[b] := frame[off + b];
        b := b + 1;
      }
    }

    /** The device name: the description of the selected camera. */
    function Device(): (d: string)
      reads this
      ensures d == camera.desc
    {
      camera.desc
    }

    /** The device name as written: the member it returns is never assigned. */
    function DeviceAsWritten(): (d: string)
      ensures |d| == 0
    {
      ""
    }

    function NativeFourcc(): (f: Fourcc)
      ensures !f.Other? && LayoutOf(f) == Yuyv
    {
      YUY2
    }
  }

  /** The as-written device name differs from the camera actually streamed to. */
  lemma DeviceAsWrittenLosesName(s: Session)
    requires s.camera.desc != ""
    ensures s.DeviceAsWritten() != s.Device()
  {
  }

  /**
   * Construction: the camera selection, the format name, the manager's
   * installation path and the start of the manager process, in that
   * order; the camera is claimed only when all of them succeeded.
   */
  method Open(registry: Registry<string>, width: nat, height: nat, fourcc: Fourcc, hint: Option<string>, keys: Keys,
              spawn: Result<(), int>)
    returns (r: Result<Session, Exc>)
    modifies registry
    ensures Select(old(registry.active), hint, keys).Err? ==> r == Err(Select(old(registry.active), hint, keys).error)
    ensures r.Err? ==> registry.active == old(registry.active)
    ensures r.Ok? <==> (Select(old(registry.active), hint, keys).Ok? && StreamFormat(fourcc).Ok?
      && keys.installPath.Some? && spawn.Ok?)
    ensures r.Ok? ==> (fresh(r.value) && r.value.Valid() && r.value.running && r.value.registry == registry
      && r.value.camera == Select(old(registry.active), hint, keys).value
      && r.value.width == width && r.value.height == height && r.value.fourcc == fourcc
      && r.value.command == Command(keys.installPath.value, r.value.camera.id, StreamFormat(fourcc).value, width, height)
      && registry.active == old(registry.active) + {r.value.camera.desc})
  {
    if keys.size.None? {
      return Err(RuntimeError(NoCount));
    }
    var count := keys.size.value;
    if count <= 0 {
      return Err(RuntimeError(NoCameras));
    }
    if hint.Some? && hint.value in registry.active {
      return Err(InvalidArgument("Device " + hint.value + " is already in use."));
    }
    var scan := ScanCameras(registry.active, hint, keys, count);
    if scan.Err? {
      return Err(scan.error);
    }
    if scan.value.None? {
      return Err(RuntimeError(AllInUse));
    }
    var camera := scan.value.value;
    var format := StreamFormat(fourcc);
    if format.Err? {
      return Err(format.error);
    }
    if keys.installPath.None? {
      return Err(RuntimeError(NoInstallPath));
    }
    if spawn.Err? {
      return Err(RuntimeError("Unable to create AkVCam process." + SignedDecimal(spawn.error)));
    }
    var cmd := Command(keys.installPath.value, camera.id, format.value, width, height);
    var s := new Session.Started(registry, width, height, fourcc, camera, cmd);
    registry.Claim(camera.desc);
    return Ok(s);
  }
}
