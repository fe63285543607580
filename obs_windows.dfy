/**
 * The OBS session on Windows: frames go to OBS's shared-memory video
 * queue, always as NV12 (a Y plane followed by interleaved UV).
 */
module ObsWindows {
  import opened Wrappers
  import opened ImageFormats
  import opened Conversion

  const DeviceName := "OBS Virtual Camera"

  /**
   * The plan: RGB and BGR go through an I420 scratch buffer, gray through
   * a BGRA one; I420, YUYV and UYVY are converted straight into the NV12
   * output; NV12 is forwarded from the caller's frame.
   */
  function PlanFor(f: Fourcc, w: nat, h: nat): (r: Result<Plan, Exc>)
    ensures r.Ok? <==> f in {RAW, BG24, J400, I420, NV12, YUY2, UYVY}
    ensures r.Ok? ==> (Sound(r.value, f, w, h) && r.value.native == NV12
      && (f != NV12 ==> r.value.out == Some(I420FrameSize(w, h))))
    ensures r.Err? ==> r.error == RuntimeError("Unsupported image format.")
  {
    match f
    case RAW => ViaScratchSound(NV12, f, RgbToI420, I420ToNv12, false, w, h); Ok(ViaScratch(NV12, RgbToI420, I420ToNv12, false, w, h))
    case BG24 => ViaScratchSound(NV12, f, BgrToI420, I420ToNv12, false, w, h); Ok(ViaScratch(NV12, BgrToI420, I420ToNv12, false, w, h))
    case J400 => ViaScratchSound(NV12, f, GrayToBgra, BgraToNv12, false, w, h); Ok(ViaScratch(NV12, GrayToBgra, BgraToNv12, false, w, h))
    case I420 => DirectSound(NV12, f, I420ToNv12, false, w, h); Ok(Direct(NV12, I420ToNv12, false, w, h))
    case YUY2 => DirectSound(NV12, f, YuyvToNv12, false, w, h); Ok(Direct(NV12, YuyvToNv12, false, w, h))
    case UYVY => DirectSound(NV12, f, UyvyToNv12, false, w, h); Ok(Direct(NV12, UyvyToNv12, false, w, h))
    case NV12 => Ok(Plan(NV12, None, None, []))
    case _ => Err(RuntimeError("Unsupported image format."))
  }

  /**
   * The scratch buffer: I420-sized for RGB and BGR, BGRA-sized for gray;
   * I420, YUYV and UYVY convert in one call without one; NV12 is forwarded
   * without any buffer.
   */
  lemma PlanForScratch(f: Fourcc, w: nat, h: nat)
    ensures var r := PlanFor(f, w, h);
      && (f in {RAW, BG24} ==> r.Ok? && r.value.tmp == Some(I420FrameSize(w, h)))
      && (f == J400 ==> r.Ok? && r.value.tmp == Some(BgraFrameSize(w, h)))
      && (f in {I420, YUY2, UYVY} ==> r.Ok? && r.value.tmp.None? && |r.value.steps| == 1)
      && (f == NV12 ==> r == Ok(Plan(NV12, None, None, [])))
  {
  }

  /** What one write hands to the queue: the two plane starts within the frame and their line sizes. */
  datatype QueueWrite = QueueWrite(from: Buffer, yOffset: nat, uvOffset: nat, yLinesize: nat, uvLinesize: nat)

  class Session {
    const width: nat
    const height: nat
    const fourcc: Fourcc
    const plan: Plan
    var running: bool
    /** `_vq` refers to an open video queue. */
    var queueOpen: bool

    ghost predicate Valid()
      reads this
    {
      PlanFor(fourcc, width, height) == Ok(plan)
    }

    constructor Started(width: nat, height: nat, fourcc: Fourcc, plan: Plan)
      requires PlanFor(fourcc, width, height) == Ok(plan)
      ensures Valid() && running && queueOpen
      ensures this.width == width && this.height == height && this.fourcc == fourcc && this.plan == plan
    {
      this.width := width;
      this.height := height;
      this.fourcc := fourcc;
      this.plan := plan;
      this.running := true;
      this.queueOpen := true;
    }

    method Stop()
      modifies this
      ensures !running
      ensures old(running) ==> !queueOpen
      ensures !old(running) ==> queueOpen == old(queueOpen)
    {
      if !running {
        return;
      }
      queueOpen := false;
      running := false;
    }

    /**
     * One frame: nothing while stopped; otherwise the plan runs and the NV12
     * frame in the final buffer is written to the queue as its Y plane at the
     * start and its UV plane `width * height` bytes further on, with line
     * sizes `width` and `width / 2`.
     */
    method Send() returns (o: SendOutcome, q: Option<QueueWrite>)
      requires Valid()
      ensures !running ==> o == Stopped && q.None?
      ensures running ==> (o.Sent? && o.calls == Run(plan, width, height) && o.from == Final(plan)
        && o.bytes == I420FrameSize(width, height) && o.handedOver
        && q == Some(QueueWrite(o.from, 0, width * height, width, width / 2)))
      ensures o.Sent? && fourcc == NV12 ==> o.from == Caller && o.calls == []
      ensures o.Sent? ==> o.bytes == Readable(plan, fourcc, o.from, width, height)
      ensures q.Some? ==> (q.value.uvOffset == Planes(Nv12L, width, height)[1].offset
        && q.value.uvOffset <= o.bytes)
    {
      if !running {
        return Stopped, None;
      }
      RunStaysInBuffers(plan, fourcc, width, height);
      PlanesFit(Nv12L, width, height);
      o := Sent(Run(plan, width, height), Final(plan), I420FrameSize(width, height), true);
      q := Some(QueueWrite(Final(plan), 0, width * height, width, width / 2));
    }

    function Device(): (d: string)
      ensures d == DeviceName
    {
      DeviceName
    }

    function NativeFourcc(): (f: Fourcc)
      ensures !f.Other? && LayoutOf(f) == Nv12L
    {
      NV12
    }
  }

  /**
   * Construction: a missing OBS registration fails first, then a hint
   * naming any other device, then an unsupported format; the session runs
   * only once the video queue exists.
   */
  method Open(width: nat, height: nat, fourcc: Fourcc, hint: Option<string>, obsRegistered: bool, queueCreated: bool)
    returns (r: Result<Session, Exc>)
    ensures !obsRegistered ==> r == Err(RuntimeError("OBS Virtual Camera device not found! Did you install OBS?"))
    ensures obsRegistered && hint.Some? && hint.value != DeviceName ==>
      r == Err(InvalidArgument("This backend supports only the '" + DeviceName + "' device."))
    ensures !queueCreated ==> r.Err?
    ensures r.Ok? ==> (fresh(r.value) && r.value.Valid() && r.value.running && r.value.queueOpen
      && r.value.width == width && r.value.height == height && r.value.fourcc == fourcc)
    ensures r.Ok? <==> (obsRegistered && (hint.None? || hint.value == DeviceName)
      && PlanFor(fourcc, width, height).Ok? && queueCreated)
  {
    if !obsRegistered {
      return Err(RuntimeError("OBS Virtual Camera device not found! Did you install OBS?"));
    }
    if hint.Some? && hint.value != DeviceName {
      return Err(InvalidArgument("This backend supports only the '" + DeviceName + "' device."));
    }
    var plan := PlanFor(fourcc, width, height);
    if plan.Err? {
      return Err(plan.error);
    }
    if !queueCreated {
      return Err(RuntimeError("virtual camera output could not be started"));
    }
    var s := new Session.Started(width, height, fourcc, plan.value);
    return Ok(s);
  }
}
