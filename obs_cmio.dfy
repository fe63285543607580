/**
 * The OBS session through the macOS camera extension (CoreMediaIO): one
 * instance per process, guarded by a static lock; frames are enqueued on
 * the second stream of the device whose UID is OBS's.
 */
module ObsCmio {
  import opened Wrappers
  import opened ImageFormats
  import opened Conversion
  import opened MacPlan

  const DeviceName := "OBS Virtual Camera"
  /** The error a construction fails with when no device has OBS's UID. */
  const NotInstalled := "OBS Virtual Camera is not installed in your system. "
    + "Use the Virtual Camera function in OBS 30.0 or later to trigger the installation "
    + "and activate the System Extension in System Settings. "
    + "You may need to restart your machine after that. [Device not found]"
  const OnlyObsDevice := "This backend supports only the '" + DeviceName + "' device."
  const MultipleCameras := "Multiple cameras are not supported by this backend."
  const NoPool := "unable to allocate pixel buffer pool"
  const NoStream := "Stream not found"
  const NotStarted := "Couldn't start stream"
  const ObsDeviceUid := "7626645E-4425-469E-9D8B-97E0FA59AC75"

  /** The process-wide mutex; a session holds it from construction until it is destroyed. */
  class InstanceLock {
    var held: bool

    constructor ()
      ensures !held
    {
      held := false;
    }
  }

  /** One CoreMediaIO device: its object id and its UID string. */
  datatype CmioDevice = CmioDevice(id: nat, uid: string)

  /** What CoreMediaIO answers during one construction. */
  datatype System = System(poolCreated: bool, devices: seq<CmioDevice>, streamsOf: nat -> seq<nat>, streamStarted: bool)

  /** The id of the first device whose UID is OBS's, or 0 when none has it. */
  function FirstObsId(devices: seq<CmioDevice>): nat {
    if devices == [] then 0
    else if devices[0].uid == ObsDeviceUid then devices[0].id
    else FirstObsId(devices[1..])
  }

  /** The device loop, which stops at the first device whose UID is OBS's. */
  method FindObsDevice(devices: seq<CmioDevice>) returns (id: nat)
    ensures (forall k :: 0 <= k < |devices| ==> devices[k].uid != ObsDeviceUid) ==> id == 0
    ensures (exists k :: 0 <= k < |devices| && devices[k].uid == ObsDeviceUid) ==>
      exists k :: 0 <= k < |devices| && devices[k].uid == ObsDeviceUid && id == devices[k].id
        && forall j :: 0 <= j < k ==> devices[j].uid != ObsDeviceUid
    ensures id == FirstObsId(devices)
  {
    id := 0;
    var k := 0;
    while k < |devices|
      invariant 0 <= k <= |devices|
      invariant id == 0
      invariant forall j :: 0 <= j < k ==> devices[j].uid != ObsDeviceUid
      invariant FirstObsId(devices[k..]) == FirstObsId(devices)
    {
      assert devices[k..][1..] == devices[k + 1..];
      if devices[k].uid == ObsDeviceUid {
        id := devices[k].id;
        return;
      }
      k := k + 1;
    }
  }

  class Session {
    const width: nat
    const height: nat
    const fourcc: Fourcc
    const plan: Plan
    const deviceId: nat
    const streamId: nat
    const lock: InstanceLock
    var streaming: bool
    /** How many times the format description and pixel-buffer pool were released. */
    var releases: nat

    ghost predicate Valid()
      reads this
    {
      PlanFor(fourcc, width, height) == Ok(plan)
    }

    constructor Started(lock: InstanceLock, width: nat, height: nat, fourcc: Fourcc, plan: Plan, deviceId: nat, streamId: nat)
      requires PlanFor(fourcc, width, height) == Ok(plan)
      ensures Valid() && streaming && releases == 0
      ensures this.lock == lock && this.width == width && this.height == height && this.fourcc == fourcc
      ensures this.plan == plan && this.deviceId == deviceId && this.streamId == streamId
    {
      this.width := width;
      this.height := height;
      this.fourcc := fourcc;
      this.plan := plan;
      this.deviceId := deviceId;
      this.streamId := streamId;
      this.lock := lock;
      this.streaming := true;
      this.releases := 0;
    }

    /** Stopping is not guarded: every call stops the stream and releases the resources again. */
    method Stop()
      modifies this
      ensures !streaming && releases == old(releases) + 1
    {
      streaming := false;
      releases := releases + 1;
    }

    /** Destroying the session releases the lock, so that a new instance may be created. */
    method Destroy()
      modifies lock
      ensures !lock.held
    {
      lock.held := false;
    }

    /**
     * One frame: fails when there is no stream; otherwise the plan runs,
     * then a pool buffer receives the UYVY frame when its size matches and
     * is enqueued. A failed allocation drops the frame without an error.
     */
    method Send(poolOk: bool, dstSize: int) returns (r: Result<SendOutcome, Exc>)
      requires Valid()
      ensures streamId == 0 <==> r == Err(RuntimeError("Stream does not exist."))
      ensures r.Ok? ==> (r.value.Sent? && r.value.calls == Run(plan, width, height)
        && r.value.from == Final(plan) && r.value.handedOver == poolOk
        && r.value.bytes == (if poolOk && dstSize == I422FrameSize(width, height) then I422FrameSize(width, height) else 0))
      ensures r.Ok? ==> r.value.bytes <= Readable(plan, fourcc, r.value.from, width, height)
    {
      if streamId == 0 {
        return Err(RuntimeError("Stream does not exist."));
      }
      RunStaysInBuffers(plan, fourcc, width, height);
      var o := Deliver(Run(plan, width, height), Final(plan), I422FrameSize(width, height), poolOk, dstSize);
      return Ok(o);
    }

    function Device(): (d: string)
      ensures d == DeviceName
    {
      DeviceName
    }

    function NativeFourcc(): (f: Fourcc)
      ensures !f.Other? && LayoutOf(f) == Uyvy
    {
      UYVY
    }
  }

  /**
   * Construction: a hint naming another device is refused before the lock
   * is even looked at; a held lock refuses every further instance; then
   * the format, the pixel-buffer pool, the device lookup by UID, the
   * stream at index 1 and the stream start are checked in order. The lock
   * is kept only by a session that was built.
   */
  method Open(lock: InstanceLock, width: nat, height: nat, fourcc: Fourcc, hint: Option<string>, sys: System)
    returns (r: Result<Session, Exc>)
    modifies lock
    ensures hint.Some? && hint.value != DeviceName ==>
      r == Err(InvalidArgument(OnlyObsDevice))
    ensures (hint.None? || hint.value == DeviceName) && old(lock.held) ==>
      r == Err(RuntimeError(MultipleCameras))
    ensures r.Err? ==> lock.held == old(lock.held)
    ensures (hint.None? || hint.value == DeviceName) && !old(lock.held) ==>
      var plan := PlanFor(fourcc, width, height);
      var id := FirstObsId(sys.devices);
      && (plan.Err? ==> r == Err(plan.error))
      && (plan.Ok? && !sys.poolCreated ==> r == Err(RuntimeError(NoPool)))
      && (plan.Ok? && sys.poolCreated && id == 0 ==> r == Err(RuntimeError(NotInstalled)))
      && (plan.Ok? && sys.poolCreated && id != 0 && |sys.streamsOf(id)| < 2 ==> r == Err(RuntimeError(NoStream)))
      && (plan.Ok? && sys.poolCreated && id != 0 && |sys.streamsOf(id)| >= 2 && !sys.streamStarted ==>
            r == Err(RuntimeError(NotStarted)))
      && (plan.Ok? && sys.poolCreated && id != 0 && |sys.streamsOf(id)| >= 2 && sys.streamStarted ==> r.Ok?)
    ensures r.Ok? ==> r.value.deviceId == FirstObsId(sys.devices)
    ensures r.Ok? ==> (fresh(r.value) && r.value.Valid() && r.value.streaming && r.value.lock == lock
      && !old(lock.held) && lock.held
      && r.value.width == width && r.value.height == height && r.value.fourcc == fourcc
      && r.value.deviceId != 0 && sys.streamStarted
      && (exists k :: 0 <= k < |sys.devices| && sys.devices[k].uid == ObsDeviceUid && sys.devices[k].id == r.value.deviceId)
      && |sys.streamsOf(r.value.deviceId)| >= 2 && r.value.streamId == sys.streamsOf(r.value.deviceId)[1])
  {
    if hint.Some? && hint.value != DeviceName {
      return Err(InvalidArgument(OnlyObsDevice));
    }
    if lock.held {
      return Err(RuntimeError(MultipleCameras));
    }
    var plan := PlanFor(fourcc, width, height);
    if plan.Err? {
      return Err(plan.error);
    }
    if !sys.poolCreated {
      return Err(RuntimeError(NoPool));
    }
    var deviceId := FindObsDevice(sys.devices);
    if deviceId == 0 {
      return Err(RuntimeError(NotInstalled));
    }
    var streams := sys.streamsOf(deviceId);
    if |streams| < 2 {
      return Err(RuntimeError(NoStream));
    }
    if !sys.streamStarted {
      return Err(RuntimeError(NotStarted));
    }
    var s := new Session.Started(lock, width, height, fourcc, plan.value, deviceId, streams[1]);
    lock.held := true;
    return Ok(s);
  }

  /** A second instance cannot be built while the first one lives, whatever its arguments. */
  method SecondInstanceRefused(width: nat, height: nat, fourcc: Fourcc, sys: System)
    returns (first: Result<Session, Exc>, second: Result<Session, Exc>)
    ensures first.Ok? ==> second == Err(RuntimeError(MultipleCameras))
  {
    var lock := new InstanceLock();
    first := Open(lock, width, height, fourcc, None, sys);
    second := Open(lock, width, height, fourcc, None, sys);
  }
}
