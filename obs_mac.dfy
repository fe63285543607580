/**
 * The OBS session through the macOS system camera extension (the variant
 * built on the extension's CoreMediaIO stream, without a UID lookup):
 * the device is the second one CoreMediaIO lists and the stream its
 * second stream.
 */
module ObsMac {
  import opened Wrappers
  import opened ImageFormats
  import opened Conversion
  import opened MacPlan
  import opened MachTime

  const DeviceName := "OBS Virtual Camera"

  /** What CoreMediaIO answers during one construction: device ids, and stream ids per device id. */
  datatype System = System(poolCreated: bool, devices: seq<nat>, streamsOf: nat -> seq<nat>)

  /**
   * The device loop: the element at index 1 is taken whatever its UID;
   * with fewer than two devices the id stays 0.
   */
  method PickDevice(devices: seq<nat>) returns (id: nat)
    ensures |devices| >= 2 ==> id == devices[1]
    ensures |devices| < 2 ==> id == 0
  {
    id := 0;
    var i := 0;
    while i < |devices|
      invariant 0 <= i <= |devices|
      invariant i <= 1
      invariant id == 0
    {
      if i == 1 {
        id := devices[i];
        return;
      }
      i := i + 1;
    }
  }

  class Session {
    const width: nat
    const height: nat
    const fourcc: Fourcc
    const plan: Plan
    const deviceId: nat
    const streamId: nat
    const numer: U32
    const denom: U32
    var streaming: bool
    /** How many times the format description and pixel-buffer pool were released. */
    var releases: nat

    ghost predicate Valid()
      reads this
    {
      PlanFor(fourcc, width, height) == Ok(plan) && denom > 0
    }

    constructor Started(width: nat, height: nat, fourcc: Fourcc, plan: Plan, deviceId: nat, streamId: nat,
                        numer: U32, denom: U32)
      requires PlanFor(fourcc, width, height) == Ok(plan) && denom > 0
      ensures Valid() && streaming && releases == 0
      ensures this.width == width && this.height == height && this.fourcc == fourcc && this.plan == plan
      ensures this.deviceId == deviceId && this.streamId == streamId
      ensures this.numer == numer && this.denom == denom
    {
      this.width := width;
      this.height := height;
      this.fourcc := fourcc;
      this.plan := plan;
      this.deviceId := deviceId;
      this.streamId := streamId;
      this.numer := numer;
      this.denom := denom;
      this.streaming := true;
      this.releases := 0;
    }

    /** Stopping is not guarded: each call stops the stream and releases the resources again. */
    method Stop()
      modifies this
      ensures !streaming && releases == old(releases) + 1
    {
      streaming := false;
      releases := releases + 1;
    }

    /**
     * One frame at Mach time `now`; there is no stopped check, so a frame
     * is converted and enqueued even after stop.
     */
    method Send(now: U64, poolOk: bool, dstSize: int) returns (o: SendOutcome, stamp: nat)
      requires Valid()
      ensures o.Sent? && o.calls == Run(plan, width, height) && o.from == Final(plan)
      ensures o.handedOver == poolOk
      ensures o.bytes == (if poolOk && dstSize == I422FrameSize(width, height) then I422FrameSize(width, height) else 0)
      ensures o.bytes <= Readable(plan, fourcc, o.from, width, height)
      ensures stamp == ScaleMachTime(now, numer, denom)
    {
      stamp := ScaleMachTime(now, numer, denom);
      RunStaysInBuffers(plan, fourcc, width, height);
      o := Deliver(Run(plan, width, height), Final(plan), I422FrameSize(width, height), poolOk, dstSize);
    }

    function Device(): (d: string)
      ensures d == DeviceName
    {
      DeviceName
    }

    function NativeFourcc(): (f: Fourcc)
      ensures !f.Other? && LayoutOf(f) == Uyvy
    {
      UYVY
    }
  }

  /**
   * Construction: the device hint is not looked at; the format and the
   * pixel-buffer pool are checked, the extension activation is requested,
   * and the second stream of the picked device is read. Reading it from a
   * list of fewer than two streams raises the Objective-C range
   * exception; the result of starting the stream is ignored.
   */
  method Open(width: nat, height: nat, fourcc: Fourcc, hint: Option<string>, sys: System, numer: U32, denom: U32)
    returns (r: Result<Session, Exc>)
    requires denom > 0
    ensures PlanFor(fourcc, width, height).Err? ==> r == Err(RuntimeError("Unsupported image format."))
    ensures r.Ok? <==> (PlanFor(fourcc, width, height).Ok? && sys.poolCreated
      && |sys.streamsOf(if |sys.devices| >= 2 then sys.devices[1] else 0)| >= 2)
    ensures r.Err? && PlanFor(fourcc, width, height).Ok? && sys.poolCreated ==>
      r == Err(ObjCException("NSRangeException"))
    ensures r.Ok? ==> (fresh(r.value) && r.value.Valid() && r.value.streaming
      && r.value.width == width && r.value.height == height && r.value.fourcc == fourcc
      && r.value.deviceId == (if |sys.devices| >= 2 then sys.devices[1] else 0)
      && r.value.streamId == sys.streamsOf(r.value.deviceId)[1]
      && r.value.numer == numer && r.value.denom == denom)
  {
    var plan := PlanFor(fourcc, width, height);
    if plan.Err? {
      return Err(plan.error);
    }
    if !sys.poolCreated {
      return Err(RuntimeError("unable to allocate pixel buffer pool"));
    }
    var deviceId := PickDevice(sys.devices);
    var streams := sys.streamsOf(deviceId);
    if |streams| < 2 {
      return Err(ObjCException("NSRangeException"));
    }
    var s := new Session.Started(width, height, fourcc, plan.value, deviceId, streams[1], numer, denom);
    return Ok(s);
  }
}
