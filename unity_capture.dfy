/**
 * The Unity Capture session (Windows): cameras are registered under
 * numbered registry keys; frames reach the filter through shared memory,
 * always as RGBA, flipped vertically by the last conversion step.
 */
module UnityCapture {
  import opened Wrappers
  import opened ImageFormats
  import opened Conversion
  import opened DeviceRegistry

  /** Number of camera slots the shared-memory library supports (`'z' - '0'`). */
  const MaxCapNum: nat := 74

  /** Characters `rtrim` drops: C-locale white space (9..13, 32) and control characters (0..31, 127). */
  predicate Trimmable(c: char) {
    c as int <= 32 || c as int == 127
  }

  /** `s` without its trailing run of trimmable characters. */
  function TrimEnd(s: string): string {
    if s != [] && Trimmable(s[|s| - 1]) then TrimEnd(s[..|s| - 1]) else s
  }

  /** `rtrim`: the end of the string is searched backwards for the last character to keep. */
  method RTrim(s: string) returns (t: string)
    ensures t == TrimEnd(s)
  {
    var n := |s|;
    assert s[..n] == s;
    while n > 0 && Trimmable(s[n - 1])
      invariant 0 <= n <= |s|
      invariant TrimEnd(s[..n]) == TrimEnd(s)
    {
      assert s[..n][..n - 1] == s[..n - 1];
      n := n - 1;
    }
    t := s[..n];
  }

  /**
   * What trimming keeps: a prefix of the input, everything dropped is
   * trimmable, and the result does not end in a trimmable character.
   */
  lemma {:induction false} TrimEndSpec(s: string)
    ensures |TrimEnd(s)| <= |s| && TrimEnd(s) == s[..|TrimEnd(s)|]
    ensures forall k :: |TrimEnd(s)| <= k < |s| ==> Trimmable(s[k])
    ensures TrimEnd(s) == [] || !Trimmable(TrimEnd(s)[|TrimEnd(s)| - 1])
    decreases |s|
  {
    if s != [] && Trimmable(s[|s| - 1]) {
      var p := s[..|s| - 1];
      TrimEndSpec(p);
      assert TrimEnd(s) == TrimEnd(p);
      assert p[..|TrimEnd(p)|] == s[..|TrimEnd(p)|];
    }
  }

  lemma TrimEndIdempotent(s: string)
    ensures TrimEnd(TrimEnd(s)) == TrimEnd(s)
  {
    TrimEndSpec(s);
  }

  /** `get_name`: the registry value of slot `i` (`raw` is the registry), trimmed. */
  function GetName(raw: nat -> Option<string>, i: nat): (r: Option<string>)
    ensures r.Some? <==> raw(i).Some?
    ensures r.Some? ==> r.value == TrimEnd(raw(i).value)
  {
    match raw(i)
    case None => None
    case Some(v) => Some(TrimEnd(v))
  }

  /** Slot `i` holds a camera the scan without a hint may not take: none registered, or in use. */
  predicate Unavailable(active: set<string>, raw: nat -> Option<string>, i: nat) {
    GetName(raw, i).None? || GetName(raw, i).value in active
  }

  const NoSuchName := "No camera registered with this name."
  const AllInUse := "All cameras are already in use."
  const NoneRegistered := "No camera registered. Did you install any camera?"

  /** The outcome of the search for `name` from slot `i` on. */
  function NamedFrom(raw: nat -> Option<string>, name: string, i: nat): Result<nat, Exc>
    requires i <= MaxCapNum
    decreases MaxCapNum - i
  {
    if i == MaxCapNum then Err(RuntimeError(NoSuchName))
    else if GetName(raw, i) == Some(name) then Ok(i)
    else NamedFrom(raw, name, i + 1)
  }

  /**
   * The outcome of the search for a free camera from slot `i` on;
   * `seen` says whether an earlier slot held a registered camera.
   */
  function FreeFrom(active: set<string>, raw: nat -> Option<string>, i: nat, seen: bool): Result<nat, Exc>
    requires i <= MaxCapNum
    decreases MaxCapNum - i
  {
    if i == MaxCapNum then
      if seen then Err(RuntimeError(AllInUse)) else Err(RuntimeError(NoneRegistered))
    else if GetName(raw, i).Some? && GetName(raw, i).value !in active then Ok(i)
    else FreeFrom(active, raw, i + 1, seen || GetName(raw, i).Some?)
  }

  /** The slot a construction selects, by name or the first free one, or the selection's error. */
  function Selection(active: set<string>, raw: nat -> Option<string>, hint: Option<string>): Result<nat, Exc> {
    if hint.None? then FreeFrom(active, raw, 0, false)
    else if hint.value in active then Err(InvalidArgument("Device " + hint.value + " is already in use."))
    else NamedFrom(raw, hint.value, 0)
  }

  /**
   * Selection with a name: a name in use is refused at once; otherwise the
   * lowest slot registered under that name is taken.
   */
  method SelectNamed(active: set<string>, raw: nat -> Option<string>, name: string) returns (r: Result<nat, Exc>)
    ensures name in active ==> r == Err(InvalidArgument("Device " + name + " is already in use."))
    ensures r.Ok? ==> (name !in active && r.value < MaxCapNum && GetName(raw, r.value) == Some(name)
      && forall j :: 0 <= j < r.value ==> GetName(raw, j) != Some(name))
    ensures name !in active && r.Err? ==> (r.error == RuntimeError("No camera registered with this name.")
      && forall j :: 0 <= j < MaxCapNum ==> GetName(raw, j) != Some(name))
    ensures r == Selection(active, raw, Some(name))
  {
    if name in active {
      return Err(InvalidArgument("Device " + name + " is already in use."));
    }
    var i := 0;
    while i < MaxCapNum
      invariant 0 <= i <= MaxCapNum
      invariant forall j :: 0 <= j < i ==> GetName(raw, j) != Some(name)
      invariant NamedFrom(raw, name, i) == NamedFrom(raw, name, 0)
    {
      if GetName(raw, i) == Some(name) {
        return Ok(i);
      }
      i := i + 1;
    }
    return Err(RuntimeError(NoSuchName));
  }

  /**
   * Selection without a hint: the lowest slot whose camera is registered
   * and not in use. Failure says whether any camera was registered at all.
   */
  method SelectFree(active: set<string>, raw: nat -> Option<string>) returns (r: Result<nat, Exc>)
    ensures r.Ok? ==> (r.value < MaxCapNum && !Unavailable(active, raw, r.value)
      && forall j :: 0 <= j < r.value ==> Unavailable(active, raw, j))
    ensures r.Err? ==> forall j :: 0 <= j < MaxCapNum ==> Unavailable(active, raw, j)
    ensures r.Err? ==> (r.error == RuntimeError(AllInUse)
      <==> exists j :: 0 <= j < MaxCapNum && GetName(raw, j).Some?)
    ensures r.Err? ==> (r.error == RuntimeError(AllInUse) || r.error == RuntimeError(NoneRegistered))
    ensures r == Selection(active, raw, None)
  {
    var foundOne := false;
    var i := 0;
    while i < MaxCapNum
      invariant 0 <= i <= MaxCapNum
      invariant forall j :: 0 <= j < i ==> Unavailable(active, raw, j)
      invariant foundOne <==> exists j :: 0 <= j < i && GetName(raw, j).Some?
      invariant FreeFrom(active, raw, i, foundOne) == FreeFrom(active, raw, 0, false)
    {
      if GetName(raw, i).Some? {
        foundOne := true;
        if GetName(raw, i).value !in active {
          return Ok(i);
        }
      }
      i := i + 1;
    }
    if foundOne {
      return Err(RuntimeError(AllInUse));
    }
    return Err(RuntimeError(NoneRegistered));
  }

  const NeedsTmp: set<Fourcc> := {RAW, BG24, J400, YUY2, UYVY}

  function ToBgra(f: Fourcc): (g: Wrapper)
    requires f in NeedsTmp
    ensures Source(g) == LayoutOf(f) && Target(g) == Bgra
  {
    match f
    case RAW => RgbToBgra
    case BG24 => BgrToBgra
    case J400 => GrayToBgra
    case YUY2 => YuyvToBgra
    case UYVY => UyvyToBgra
  }

  /**
   * The plan: the output is always an RGBA frame; formats the library
   * cannot turn into RGBA directly go through a BGRA scratch buffer. The
   * last step always receives the negated height.
   */
  function PlanFor(f: Fourcc, w: nat, h: nat): (r: Result<Plan, Exc>)
    ensures r.Ok? <==> f in NeedsTmp + {ABGR, I420, NV12}
    ensures r.Ok? ==> (Sound(r.value, f, w, h) && r.value.native == ABGR
      && r.value.out == Some(BgraFrameSize(w, h)))
    ensures r.Err? ==> r.error == RuntimeError("Unsupported image format.")
  {
    if f in NeedsTmp then
      ViaScratchSound(ABGR, f, ToBgra(f), BgraToRgba, true, w, h);
      Ok(ViaScratch(ABGR, ToBgra(f), BgraToRgba, true, w, h))
    else if f == I420 then
      DirectSound(ABGR, f, I420ToRgba, true, w, h);
      Ok(Direct(ABGR, I420ToRgba, true, w, h))
    else if f == NV12 then
      DirectSound(ABGR, f, Nv12ToRgba, true, w, h);
      Ok(Direct(ABGR, Nv12ToRgba, true, w, h))
    else if f == ABGR then
      DirectSound(ABGR, f, RgbaToRgba, true, w, h);
      Ok(Direct(ABGR, RgbaToRgba, true, w, h))
    else
      Err(RuntimeError("Unsupported image format."))
  }

  /**
   * Only the formats the library cannot turn into RGBA directly use the
   * BGRA scratch buffer, and only the last call flips the image.
   */
  lemma PlanForShape(f: Fourcc, w: nat, h: nat)
    requires PlanFor(f, w, h).Ok?
    ensures var p := PlanFor(f, w, h).value;
      && (p.tmp.Some? <==> f in NeedsTmp)
      && (f in NeedsTmp ==> p.tmp == Some(BgraFrameSize(w, h)))
      && p.steps != [] && p.steps[|p.steps| - 1].flip
      && forall i :: 0 <= i < |p.steps| - 1 ==> !p.steps[i].flip
  {
  }

  class Session {
    const width: nat
    const height: nat
    const fourcc: Fourcc
    const plan: Plan
    const slot: nat
    const registry: Registry<string>
    var device: string
    var running: bool
    /** `_shm` still refers to the shared-memory sender. */
    var shmAttached: bool

    ghost predicate Valid()
      reads this
    {
      PlanFor(fourcc, width, height) == Ok(plan)
    }

    constructor Started(registry: Registry<string>, width: nat, height: nat, fourcc: Fourcc, plan: Plan,
                        slot: nat, device: string)
      requires PlanFor(fourcc, width, height) == Ok(plan)
      ensures Valid() && running && shmAttached
      ensures this.registry == registry && this.width == width && this.height == height
      ensures this.fourcc == fourcc && this.plan == plan && this.slot == slot && this.device == device
    {
      this.width := width;
      this.height := height;
      this.fourcc := fourcc;
      this.plan := plan;
      this.slot := slot;
      this.registry := registry;
      this.device := device;
      this.running := true;
      this.shmAttached := true;
    }

    method Stop()
      modifies this, registry
      ensures !running && device == old(device)
      ensures old(running) ==> !shmAttached && registry.active == old(registry.active) - {device}
      ensures !old(running) ==> shmAttached == old(shmAttached) && registry.active == old(registry.active)
    {
      if !running {
        return;
      }
      shmAttached := false;
      running := false;
      registry.Release(device);
    }

    /**
     * One frame: nothing while stopped or while no application reads the
     * camera; otherwise the plan runs and the whole RGBA output buffer is
     * handed to shared memory, the last call having flipped the image.
     */
    method Send(shmReady: bool) returns (o: SendOutcome)
      requires Valid()
      ensures !running ==> o == Stopped
      ensures running && !shmReady ==> o == NotReady
      ensures running && shmReady ==> (o.Sent? && o.calls == Run(plan, width, height)
        && o.from == Output && o.bytes == BgraFrameSize(width, height) && o.handedOver)
      ensures o.Sent? ==> (o.calls[|o.calls| - 1].height == -(height as int)
        && forall i :: 0 <= i < |o.calls| - 1 ==> o.calls[i].height == height as int)
      ensures o.Sent? ==> o.bytes == Readable(plan, fourcc, o.from, width, height)
    {
      if !running {
        return Stopped;
      }
      if !shmReady {
        return NotReady;
      }
      RunStaysInBuffers(plan, fourcc, width, height);
      o := Sent(Run(plan, width, height), Final(plan), BgraFrameSize(width, height), true);
    }

    function Device(): (d: string)
      reads this
      ensures d == device
    {
      device
    }

    function NativeFourcc(): (f: Fourcc)
      ensures !f.Other? && LayoutOf(f) == Rgba
    {
      ABGR
    }
  }

  /**
   * Construction: the camera slot is selected first (by name or the first
   * free one), then the format is checked; only then is the camera claimed.
   */
  method Open(registry: Registry<string>, width: nat, height: nat, fourcc: Fourcc, hint: Option<string>,
              raw: nat -> Option<string>)
    returns (r: Result<Session, Exc>)
    modifies registry
    ensures r.Err? ==> registry.active == old(registry.active)
    ensures hint.Some? && hint.value in old(registry.active) ==> r.Err? && r.error.InvalidArgument?
    ensures var sel := Selection(old(registry.active), raw, hint);
      && (sel.Err? ==> r == Err(sel.error))
      && (sel.Ok? && PlanFor(fourcc, width, height).Err? ==> r == Err(PlanFor(fourcc, width, height).error))
      && (r.Ok? <==> sel.Ok? && PlanFor(fourcc, width, height).Ok?)
      && (r.Ok? ==> r.value.slot == sel.value)
    ensures r.Ok? ==> (fresh(r.value) && r.value.Valid() && r.value.running && r.value.registry == registry
      && r.value.width == width && r.value.height == height && r.value.fourcc == fourcc
      && r.value.slot < MaxCapNum && GetName(raw, r.value.slot) == Some(r.value.device)
      && r.value.device !in old(registry.active)
      && (hint.Some? ==> r.value.device == hint.value)
      && registry.active == old(registry.active) + {r.value.device})
  {
    var selected: Result<nat, Exc>;
    if hint.Some? {
      selected := SelectNamed(registry.active, raw, hint.value);
    } else {
      selected := SelectFree(registry.active, raw);
    }
    if selected.Err? {
      return Err(selected.error);
    }
    var slot := selected.value;
    var device := GetName(raw, slot).value;
    var plan := PlanFor(fourcc, width, height);
    if plan.Err? {
      return Err(plan.error);
    }
    var s := new Session.Started(registry, width, height, fourcc, plan.value, slot, device);
    registry.Claim(device);
    return Ok(s);
  }
}
