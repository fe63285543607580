/**
 * The conversion table the three macOS backends share (CMIO extension,
 * DAL plugin, and the camera-extension variant): every supported input
 * ends up as UYVY.
 */
module MacPlan {
  import opened Wrappers
  import opened ImageFormats
  import opened Conversion

  /**
   * RGB, BGR and gray go through BGRA; NV12 through I420; YUYV through
   * I422; I420 converts directly; UYVY is forwarded from the caller's
   * frame. The output buffer always has the UYVY frame size.
   */
  function PlanFor(f: Fourcc, w: nat, h: nat): (r: Result<Plan, Exc>)
    ensures r.Ok? <==> f in {RAW, BG24, J400, I420, NV12, YUY2, UYVY}
    ensures r.Ok? ==> (Sound(r.value, f, w, h) && r.value.native == UYVY
      && (f != UYVY ==> r.value.out == Some(I422FrameSize(w, h))))
    ensures r.Err? ==> r.error == RuntimeError("Unsupported image format.")
  {
    match f
    case RAW => ViaScratchSound(UYVY, f, RgbToBgra, BgraToUyvy, false, w, h); Ok(ViaScratch(UYVY, RgbToBgra, BgraToUyvy, false, w, h))
    case BG24 => ViaScratchSound(UYVY, f, BgrToBgra, BgraToUyvy, false, w, h); Ok(ViaScratch(UYVY, BgrToBgra, BgraToUyvy, false, w, h))
    case J400 => ViaScratchSound(UYVY, f, GrayToBgra, BgraToUyvy, false, w, h); Ok(ViaScratch(UYVY, GrayToBgra, BgraToUyvy, false, w, h))
    case I420 => DirectSound(UYVY, f, I420ToUyvy, false, w, h); Ok(Direct(UYVY, I420ToUyvy, false, w, h))
    case NV12 => ViaScratchSound(UYVY, f, Nv12ToI420, I420ToUyvy, false, w, h); Ok(ViaScratch(UYVY, Nv12ToI420, I420ToUyvy, false, w, h))
    case YUY2 => ViaScratchSound(UYVY, f, YuyvToI422, I422ToUyvy, false, w, h); Ok(ViaScratch(UYVY, YuyvToI422, I422ToUyvy, false, w, h))
    case UYVY => Ok(Plan(UYVY, None, None, []))
    case _ => Err(RuntimeError("Unsupported image format."))
  }

  /**
   * The scratch buffer: the BGRA frame size for the RGB, BGR and gray
   * inputs, the I420 size for NV12, the I422 size for YUYV; I420 needs
   * none and converts in one call; UYVY is forwarded without any buffer.
   */
  lemma PlanForScratch(f: Fourcc, w: nat, h: nat)
    ensures var r := PlanFor(f, w, h);
      && (f in {RAW, BG24, J400} ==> r.Ok? && r.value.tmp == Some(BgraFrameSize(w, h)))
      && (f == NV12 ==> r.Ok? && r.value.tmp == Some(I420FrameSize(w, h)))
      && (f == YUY2 ==> r.Ok? && r.value.tmp == Some(I422FrameSize(w, h)))
      && (f == I420 ==> r.Ok? && r.value.tmp.None? && |r.value.steps| == 1)
      && (f == UYVY ==> r == Ok(Plan(UYVY, None, None, [])))
  {
  }

  /**
   * The tail every macOS `send` shares once the plan ran: a failed
   * pixel-buffer allocation drops the frame; otherwise the frame is copied
   * only when the pool buffer has exactly the UYVY frame size, and the
   * buffer is handed on either way.
   */
  function Deliver(calls: seq<Call>, from: Buffer, frameSize: nat, poolOk: bool, dstSize: int): (o: SendOutcome)
    ensures o.Sent? && o.calls == calls && o.from == from
    ensures o.handedOver == poolOk
    ensures o.bytes == (if poolOk && dstSize == frameSize then frameSize else 0)
  {
    if !poolOk then Sent(calls, from, 0, false)
    else if dstSize == frameSize then Sent(calls, from, frameSize, true)
    else Sent(calls, from, 0, true)
  }
}
