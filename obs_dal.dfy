/**
 * The OBS session through the DAL plug-in (OBS 28 and later on older
 * macOS): frames are converted to UYVY and pushed to OBS's Mach server.
 */
module ObsDal {
  import opened Wrappers
  import opened ImageFormats
  import opened Conversion
  import opened MacPlan
  import opened MachTime

  const DeviceName := "OBS Virtual Camera"
  const OnlyDevice := "This backend supports only the '" + DeviceName + "' device."
  const NotInstalled := "OBS Virtual Camera is not installed in your system. "
    + "Use the Virtual Camera function in OBS to trigger installation."
  const Outdated := "Your OBS Virtual Camera version is not supported. Upgrade to OBS 28 or higher. "
    + "After upgrading, use the Virtual Camera function once in OBS to trigger installation of the virtual camera."

  /** What the system answers during one construction. */
  datatype System = System(
    pluginInstalled: bool,
    /** CFBundleShortVersionString of the installed plug-in, when its Info.plist has one. */
    pluginVersion: Option<string>,
    poolCreated: bool,
    serverStarted: bool)

  predicate HasPrefix(s: string, p: string) {
    |p| <= |s| && s[..|p|] == p
  }

  /** Plug-ins shipped with OBS 26 and 27 speak an older protocol. */
  predicate OutdatedPlugin(version: Option<string>) {
    version.Some? && (HasPrefix(version.value, "26.") || HasPrefix(version.value, "27."))
  }

  class Session {
    const width: nat
    const height: nat
    const fourcc: Fourcc
    const plan: Plan
    const numer: U32
    const denom: U32
    /** Whether the Mach server still runs; it is dropped by the first stop. */
    var serverUp: bool
    /** How many times the pixel-buffer pool was released. */
    var releases: nat

    ghost predicate Valid()
      reads this
    {
      PlanFor(fourcc, width, height) == Ok(plan) && denom > 0
    }

    constructor Started(width: nat, height: nat, fourcc: Fourcc, plan: Plan, numer: U32, denom: U32)
      requires PlanFor(fourcc, width, height) == Ok(plan) && denom > 0
      ensures Valid() && serverUp && releases == 0
      ensures this.width == width && this.height == height && this.fourcc == fourcc && this.plan == plan
      ensures this.numer == numer && this.denom == denom
    {
      this.width := width;
      this.height := height;
      this.fourcc := fourcc;
      this.plan := plan;
      this.numer := numer;
      this.denom := denom;
      this.serverUp := true;
      this.releases := 0;
    }

    /** The first stop shuts the server down and releases the pool; later ones do nothing. */
    method Stop()
      modifies this
      ensures !serverUp
      ensures releases == old(releases) + (if old(serverUp) then 1 else 0)
    {
      if !serverUp {
        return;
      }
      serverUp := false;
      releases := releases + 1;
    }

    /**
     * One frame at Mach time `now`: nothing happens once stopped;
     * otherwise the plan runs and the pool buffer is handed to the server
     * with the time scaled to nanoseconds.
     */
    method Send(now: U64, poolOk: bool, dstSize: int) returns (o: SendOutcome, stamp: nat)
      requires Valid()
      ensures !serverUp ==> o == Stopped
      ensures serverUp ==> (o.Sent? && o.calls == Run(plan, width, height) && o.from == Final(plan)
        && o.handedOver == poolOk
        && o.bytes == (if poolOk && dstSize == I422FrameSize(width, height) then I422FrameSize(width, height) else 0))
      ensures o.Sent? ==> o.bytes <= Readable(plan, fourcc, o.from, width, height)
      ensures o.Sent? && o.handedOver ==> stamp == ScaleMachTime(now, numer, denom)
    {
      if !serverUp {
        return Stopped, 0;
      }
      stamp := ScaleMachTime(now, numer, denom);
      RunStaysInBuffers(plan, fourcc, width, height);
      o := Deliver(Run(plan, width, height), Final(plan), I422FrameSize(width, height), poolOk, dstSize);
    }

    function Device(): (d: string)
      ensures d == DeviceName
    {
      DeviceName
    }

    function NativeFourcc(): (f: Fourcc)
      ensures !f.Other? && LayoutOf(f) == Uyvy
    {
      UYVY
    }
  }

  /**
   * Construction, with its checks in order: the plug-in must be installed
   * and newer than OBS 27, the hint may only name OBS's camera, the format
   * must be supported, and the pixel-buffer pool and the Mach server must
   * come up. The timebase is the one the system reports.
   */
  method Open(width: nat, height: nat, fourcc: Fourcc, hint: Option<string>, sys: System, numer: U32, denom: U32)
    returns (r: Result<Session, Exc>)
    requires denom > 0
    ensures !sys.pluginInstalled ==> r == Err(RuntimeError(NotInstalled))
    ensures sys.pluginInstalled && OutdatedPlugin(sys.pluginVersion) ==> r == Err(RuntimeError(Outdated))
    ensures sys.pluginInstalled && !OutdatedPlugin(sys.pluginVersion) && hint.Some? && hint.value != DeviceName ==>
      r == Err(InvalidArgument(OnlyDevice))
    ensures r.Ok? <==> (sys.pluginInstalled && !OutdatedPlugin(sys.pluginVersion)
      && (hint.None? || hint.value == DeviceName) && PlanFor(fourcc, width, height).Ok?
      && sys.poolCreated && sys.serverStarted)
    ensures r.Ok? ==> (fresh(r.value) && r.value.Valid() && r.value.serverUp
      && r.value.width == width && r.value.height == height && r.value.fourcc == fourcc
      && r.value.numer == numer && r.value.denom == denom)
  {
    if !sys.pluginInstalled {
      return Err(RuntimeError(NotInstalled));
    }
    if OutdatedPlugin(sys.pluginVersion) {
      return Err(RuntimeError(Outdated));
    }
    if hint.Some? && hint.value != DeviceName {
      return Err(InvalidArgument(OnlyDevice));
    }
    var plan := PlanFor(fourcc, width, height);
    if plan.Err? {
      return Err(plan.error);
    }
    if !sys.poolCreated {
      return Err(RuntimeError("unable to allocate pixel buffer pool"));
    }
    if !sys.serverStarted {
      return Err(RuntimeError("virtual camera output could not be started"));
    }
    var s := new Session.Started(width, height, fourcc, plan.value, numer, denom);
    return Ok(s);
  }

  /** Sending after stop is a no-op, and stopping twice releases the pool once. */
  method StopIsFinal(s: Session, now: U64)
    returns (o: SendOutcome)
    requires s.Valid() && s.serverUp && s.releases == 0
    modifies s
    ensures o == Stopped && s.releases == 1
  {
    s.Stop();
    s.Stop();
    var stamp;
    o, stamp := s.Send(now, true, I422FrameSize(s.width, s.height));
  }
}
