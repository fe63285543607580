/**
 * The Unity video capture session (the second Unity-based Windows
 * backend): a device hint is either a camera index or a camera name, and
 * every frame is turned into a vertically flipped BGRA frame in memory
 * (libyuv's ARGB) for the capture filter's shared memory.
 */
module UnityVideoCapture {
  import opened Wrappers
  import opened ImageFormats
  import opened Conversion
  import opened Decimal

  /** The number of camera slots the capture library defines. */
  const MaxCameras := 74

  const NoSuchIndex := "No camera registered with this index."
  const NoSuchName := "No camera registered with this name."
  const NoneRegistered := "No camera registered. Did you install any camera?"

  /** -1 for the empty string and for any string with a character outside '0'..'9'; else its decimal value. */
  function ParseIntSpec(s: string): int {
    if s == [] || !AllDigits(s) then -1 else ValueOf(s)
  }

  /** The digit loop: reads left to right, accumulating result * 10 + digit, and gives up at the first non-digit. */
  method ParseInt(s: string) returns (r: int)
    ensures r == ParseIntSpec(s)
  {
    if s == [] {
      return -1;
    }
    var result: nat := 0;
    var k := 0;
    while k < |s|
      invariant 0 <= k <= |s|
      invariant AllDigits(s[..k]) && result == ValueOf(s[..k])
    {
      if !IsDigit(s[k]) {
        assert !AllDigits(s);
        return -1;
      }
      assert s[..k + 1][..k] == s[..k];
      result := result * 10 + DigitValue(s[k]);
      k := k + 1;
    }
    assert s[..k] == s;
    return result;
  }

  /** The decimal spelling of an index parses back to it. */
  lemma ParseIntRoundTrip(n: nat)
    ensures ParseIntSpec(ToDecimal(n)) == n
  {
    ValueOfToDecimal(n);
  }

  /** Leading zeros are accepted: they do not change the value. */
  lemma {:induction false} ParseIntLeadingZero(s: string)
    requires s != [] && AllDigits(s)
    ensures ParseIntSpec("0" + s) == ParseIntSpec(s)
    decreases |s|
  {
    var t := "0" + s;
    assert AllDigits(t);
    assert t[..|t| - 1] == "0" + s[..|s| - 1];
    if |s| == 1 {
      assert t[..|t| - 1] == "0";
      assert ValueOf("0") == ValueOf("0"[..0]) * 10 + 0;
    } else {
      ParseIntLeadingZero(s[..|s| - 1]);
    }
  }

  /** Text that is not all digits, such as a camera name, is never read as an index. */
  lemma ParseIntRejects(s: string, k: nat)
    requires k < |s| && !IsDigit(s[k])
    ensures ParseIntSpec(s) == -1
  {
  }

  /**
   * The name search as written: `get_name` receives the device string by
   * value, so the string compared with the hint is the session's device
   * name, which stays empty; a non-empty name never matches.
   */
  method FindNameAsWritten(names: nat -> Option<string>, name: string) returns (r: Result<int, Exc>)
    ensures |name| > 0 ==> r == Err(RuntimeError(NoSuchName))
  {
    var device := "";
    var i := 0;
    while i < MaxCameras
      invariant 0 <= i <= MaxCameras
    {
      if names(i).Some? && device == name {
        return Ok(i);
      }
      i := i + 1;
    }
    return Err(RuntimeError(NoSuchName));
  }

  /** The name search comparing each registered camera's name: the first slot registered under the name. */
  method FindName(names: nat -> Option<string>, name: string) returns (r: Result<int, Exc>)
    ensures r.Ok? ==> (0 <= r.value < MaxCameras && names(r.value) == Some(name)
      && forall j :: 0 <= j < r.value ==> names(j) != Some(name))
    ensures r.Err? ==> (r.error == RuntimeError(NoSuchName)
      && forall j :: 0 <= j < MaxCameras ==> names(j) != Some(name))
  {
    var i := 0;
    while i < MaxCameras
      invariant 0 <= i <= MaxCameras
      invariant forall j :: 0 <= j < i ==> names(j) != Some(name)
    {
      if names(i) == Some(name) {
        return Ok(i);
      }
      i := i + 1;
    }
    return Err(RuntimeError(NoSuchName));
  }

  /** Without a hint: the first registered slot. */
  method FindFirst(names: nat -> Option<string>) returns (r: Result<int, Exc>)
    ensures r.Ok? ==> (0 <= r.value < MaxCameras && names(r.value).Some?
      && forall j :: 0 <= j < r.value ==> names(j).None?)
    ensures r.Err? ==> (r.error == RuntimeError(NoneRegistered)
      && forall j :: 0 <= j < MaxCameras ==> names(j).None?)
  {
    var i := 0;
    while i < MaxCameras
      invariant 0 <= i <= MaxCameras
      invariant forall j :: 0 <= j < i ==> names(j).None?
    {
      if names(i).Some? {
        return Ok(i);
      }
      i := i + 1;
    }
    return Err(RuntimeError(NoneRegistered));
  }

  /**
   * The slot a hint selects: a hint reading as an index below 74 names
   * that slot, which must be registered; any other non-empty hint is a
   * camera name, looked up by the corrected comparison; an empty hint
   * leaves the slot at -1; no hint takes the first registered slot.
   */
  method SelectSlot(hint: Option<string>, names: nat -> Option<string>) returns (r: Result<int, Exc>)
    ensures hint.Some? && 0 <= ParseIntSpec(hint.value) < MaxCameras ==>
      (if names(ParseIntSpec(hint.value)).Some? then r == Ok(ParseIntSpec(hint.value))
       else r == Err(RuntimeError(NoSuchIndex)))
    ensures hint.Some? && !(0 <= ParseIntSpec(hint.value) < MaxCameras) && |hint.value| > 0 ==>
      ((r.Ok? ==> (0 <= r.value < MaxCameras && names(r.value) == hint
          && forall j :: 0 <= j < r.value ==> names(j) != hint))
      && (r.Err? ==> r.error == RuntimeError(NoSuchName) && forall j :: 0 <= j < MaxCameras ==> names(j) != hint))
    ensures hint == Some("") ==> r == Ok(-1)
    ensures hint.None? ==>
      ((r.Ok? ==> (0 <= r.value < MaxCameras && names(r.value).Some?
          && forall j :: 0 <= j < r.value ==> names(j).None?))
      && (r.Err? ==> r.error == RuntimeError(NoneRegistered) && forall j :: 0 <= j < MaxCameras ==> names(j).None?))
  {
    if hint.None? {
      r := FindFirst(names);
      return;
    }
    var name := hint.value;
    var i := ParseInt(name);
    if i != -1 && i < MaxCameras {
      if names(i).None? {
        return Err(RuntimeError(NoSuchIndex));
      }
      return Ok(i);
    }
    if |name| > 0 {
      r := FindName(names, name);
      return;
    }
    return Ok(i);
  }

  const ViaTmp: set<Fourcc> := {RAW, BG24, J400, I420, NV12, YUY2, UYVY}

  /** The wrapper turning a frame of format `f` into BGRA. */
  function ToBgra(f: Fourcc): (g: Wrapper)
    requires f in ViaTmp
    ensures Source(g) == LayoutOf(f) && Target(g) == Bgra
  {
    match f
    case RAW => RgbToBgra
    case BG24 => BgrToBgra
    case J400 => GrayToBgra
    case I420 => I420ToBgra
    case NV12 => Nv12ToBgra
    case YUY2 => YuyvToBgra
    case UYVY => UyvyToBgra
  }

  /**
   * What `send` runs: every supported input is converted into the BGRA
   * scratch buffer (BGRA frames are read in place), then copied to the
   * output buffer with the negated height, which flips the image.
   */
  function PlanFor(f: Fourcc, w: nat, h: nat): (r: Result<Plan, Exc>)
    ensures r.Ok? <==> f in ViaTmp + {ARGB}
    ensures r.Ok? ==> (Sound(r.value, f, w, h) && r.value.native == ARGB
      && r.value.tmp == Some(BgraFrameSize(w, h)) && r.value.out == Some(BgraFrameSize(w, h))
      && Final(r.value) == Output
      && r.value.steps[|r.value.steps| - 1] == Step(BgraToBgra, if f == ARGB then Caller else Tmp, Output, true)
      && forall i :: 0 <= i < |r.value.steps| - 1 ==> !r.value.steps[i].flip)
    ensures r.Err? ==> r.error == LogicError("This format is currently not supported.")
  {
    var size := Some(BgraFrameSize(w, h));
    if f in ViaTmp then
      var p := Plan(ARGB, size, size, [Step(ToBgra(f), Caller, Tmp, false), Step(BgraToBgra, Tmp, Output, true)]);
      assert WritesOwnBuffer(p, 0, w, h) && WritesOwnBuffer(p, 1, w, h);
      Ok(p)
    else if f == ARGB then
      var p := Plan(ARGB, size, size, [Step(BgraToBgra, Caller, Output, true)]);
      assert WritesOwnBuffer(p, 0, w, h);
      Ok(p)
    else
      Err(LogicError("This format is currently not supported."))
  }

  class Session {
    const width: nat
    const height: nat
    const fourcc: Fourcc
    /** The slot handed to the shared-memory sender (-1 after an empty hint). */
    const slot: int
    /** The bytes each scratch buffer holds: one BGRA frame. */
    const size: nat
    var running: bool

    ghost predicate Valid()
      reads this
    {
      size == BgraFrameSize(width, height)
    }

    constructor Started(width: nat, height: nat, fourcc: Fourcc, slot: int)
      ensures Valid() && running
      ensures this.width == width && this.height == height && this.fourcc == fourcc && this.slot == slot
    {
      this.width := width;
      this.height := height;
      this.fourcc := fourcc;
      this.slot := slot;
      this.size := BgraFrameSize(width, height);
      this.running := true;
    }

    /** The first stop deletes the sender; later ones do nothing. */
    method Stop()
      modifies this
      ensures !running
    {
      if !running {
        return;
      }
      running := false;
    }

    /**
     * One frame: nothing once stopped; the format is only checked here,
     * so an unsupported one fails every send; otherwise the plan runs and
     * the whole flipped BGRA output buffer is handed to the sender.
     */
    method Send() returns (r: Result<SendOutcome, Exc>)
      requires Valid()
      ensures !running ==> r == Ok(Stopped)
      ensures running ==> (PlanFor(fourcc, width, height).Err? <==> r.Err?)
      ensures running && r.Err? ==> r.error == LogicError("This format is currently not supported.")
      ensures r.Ok? && running ==> (r.value.Sent? && r.value.calls == Run(PlanFor(fourcc, width, height).value, width, height)
        && r.value.from == Output && r.value.bytes == size && r.value.handedOver
        && r.value.calls[|r.value.calls| - 1].height == -(height as int))
    {
      if !running {
        return Ok(Stopped);
      }
      var plan := PlanFor(fourcc, width, height);
      if plan.Err? {
        return Err(plan.error);
      }
      RunStaysInBuffers(plan.value, fourcc, width, height);
      return Ok(Sent(Run(plan.value, width, height), Final(plan.value), size, true));
    }

    function NativeFourcc(): (f: Fourcc)
      ensures !f.Other? && LayoutOf(f) == Bgra
    {
      ARGB
    }
  }

  /**
   * Construction: the slot selection, then the sender, which must report
   * itself ready; the format is not checked here.
   */
  method Open(width: nat, height: nat, fourcc: Fourcc, hint: Option<string>, names: nat -> Option<string>, senderReady: bool)
    returns (r: Result<Session, Exc>)
    ensures r.Ok? ==> (fresh(r.value) && r.value.Valid() && r.value.running
      && r.value.width == width && r.value.height == height && r.value.fourcc == fourcc && senderReady
      && (r.value.slot == -1 || (0 <= r.value.slot < MaxCameras && names(r.value.slot).Some?)))
    ensures !senderReady ==> r.Err?
  {
    var slot := SelectSlot(hint, names);
    if slot.Err? {
      return Err(slot.error);
    }
    if !senderReady {
      return Err(RuntimeError("The camera cannot be properly initialized."));
    }
    var s := new Session.Started(width, height, fourcc, slot.value);
    return Ok(s);
  }
}
