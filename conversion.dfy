/**
 * Conversion plans: what a session decides once, at construction, from the
 * canonical input format — the format it hands to the device (the native
 * format), which scratch buffers exist and how large they are, and the zero
 * to two wrapper calls every `send` runs. A plan is sound when each call
 * reads what the previous one wrote, each written buffer has exactly the
 * frame size of the layout written into it, and the last call produces the
 * native layout.
 */
module Conversion {
  import opened Wrappers
  import opened ImageFormats

  /** The memory a plan step reads or writes: the caller's frame or one of the two scratch buffers. */
  datatype Buffer = Caller | Tmp | Output

  /** One wrapper call; `flip` means the signed height handed over is the negated frame height. */
  datatype Step = Step(f: Wrapper, src: Buffer, dst: Buffer, flip: bool)

  datatype Plan = Plan(native: Fourcc, tmp: Option<nat>, out: Option<nat>, steps: seq<Step>)

  /** The byte size of a scratch buffer the plan allocates; the caller's frame is not allocated. */
  function Allocated(p: Plan, b: Buffer): Option<nat> {
    match b
    case Caller => None
    case Tmp => p.tmp
    case Output => p.out
  }

  /** The buffer whose contents reach the device after all steps ran. */
  function Final(p: Plan): Buffer {
    if p.steps == [] then Caller else p.steps[|p.steps| - 1].dst
  }

  /** Step `i` writes a scratch buffer allocated with the frame size of the layout it receives. */
  predicate WritesOwnBuffer(p: Plan, i: nat, w: nat, h: nat)
    requires i < |p.steps|
  {
    var s := p.steps[i];
    s.dst != Caller && Allocated(p, s.dst) == Some(FrameSize(Target(s.f), w, h))
  }

  predicate Sound(p: Plan, input: Fourcc, w: nat, h: nat) {
    && !input.Other? && !p.native.Other?
    && |p.steps| <= 2
    && (p.steps == [] ==> p.native == input)
    && (forall i :: 0 <= i < |p.steps| ==> WritesOwnBuffer(p, i, w, h))
    && (|p.steps| > 0 ==>
          && p.steps[0].src == Caller
          && Source(p.steps[0].f) == LayoutOf(input)
          && Target(p.steps[|p.steps| - 1].f) == LayoutOf(p.native))
    && (|p.steps| == 2 ==>
          && p.steps[1].src == p.steps[0].dst
          && p.steps[1].dst != p.steps[0].dst
          && Source(p.steps[1].f) == Target(p.steps[0].f))
  }

  /** One call converting the caller's frame straight into the output buffer. */
  function Direct(native: Fourcc, f: Wrapper, flip: bool, w: nat, h: nat): Plan {
    Plan(native, None, Some(FrameSize(Target(f), w, h)), [Step(f, Caller, Output, flip)])
  }

  /** Two calls: the first fills the scratch buffer, the second converts it into the output buffer. */
  function ViaScratch(native: Fourcc, first: Wrapper, second: Wrapper, flip: bool, w: nat, h: nat): Plan {
    Plan(native, Some(FrameSize(Target(first), w, h)), Some(FrameSize(Target(second), w, h)),
      [Step(first, Caller, Tmp, false), Step(second, Tmp, Output, flip)])
  }

  /** A direct plan is sound when its call reads the input layout and writes the native one. */
  lemma DirectSound(native: Fourcc, input: Fourcc, f: Wrapper, flip: bool, w: nat, h: nat)
    requires !input.Other? && !native.Other?
    requires Source(f) == LayoutOf(input) && Target(f) == LayoutOf(native)
    ensures Sound(Direct(native, f, flip, w, h), input, w, h)
  {
    var p := Direct(native, f, flip, w, h);
    forall i | 0 <= i < |p.steps|
      ensures WritesOwnBuffer(p, i, w, h)
    {
      assert i == 0;
    }
  }

  /** A plan through the scratch buffer is sound when each call reads what the previous one wrote. */
  lemma ViaScratchSound(native: Fourcc, input: Fourcc, first: Wrapper, second: Wrapper, flip: bool, w: nat, h: nat)
    requires !input.Other? && !native.Other?
    requires Source(first) == LayoutOf(input) && Source(second) == Target(first) && Target(second) == LayoutOf(native)
    ensures Sound(ViaScratch(native, first, second, flip, w, h), input, w, h)
  {
    var p := ViaScratch(native, first, second, flip, w, h);
    forall i | 0 <= i < |p.steps|
      ensures WritesOwnBuffer(p, i, w, h)
    {
      assert i == 0 || i == 1;
    }
  }

  /** The wrapper calls `send` makes for a frame of width `w` and height `h`, in order. */
  function Run(p: Plan, w: nat, h: nat): (calls: seq<Call>)
    ensures |calls| == |p.steps|
  {
    seq(|p.steps|, i requires 0 <= i < |p.steps| =>
      Invoke(p.steps[i].f, w, if p.steps[i].flip then -(h as int) else h))
  }

  /** How large the memory a step reads is: the input frame for the caller, else the allocation. */
  function Readable(p: Plan, input: Fourcc, b: Buffer, w: nat, h: nat): nat
    requires !input.Other?
  {
    match Allocated(p, b)
    case Some(n) => n
    case None => FrameSize(LayoutOf(input), w, h)
  }

  /**
   * Under a sound plan every plane every call reads or writes lies inside
   * the memory the plan provides: the caller's frame (of the input format's
   * size) or a scratch buffer (of its allocated size). The buffer that
   * reaches the device holds a whole frame of the native format.
   */
  lemma {:induction false} RunStaysInBuffers(p: Plan, input: Fourcc, w: nat, h: nat)
    requires Sound(p, input, w, h)
    ensures forall i, pl :: 0 <= i < |p.steps| && pl in Run(p, w, h)[i].src ==>
      End(pl) <= Readable(p, input, p.steps[i].src, w, h)
    ensures forall i, pl :: 0 <= i < |p.steps| && pl in Run(p, w, h)[i].dst ==>
      p.steps[i].dst != Caller && End(pl) <= Readable(p, input, p.steps[i].dst, w, h)
    ensures Readable(p, input, Final(p), w, h) == FrameSize(LayoutOf(p.native), w, h)
  {
    var calls := Run(p, w, h);
    forall i, pl | 0 <= i < |p.steps| && pl in calls[i].src
      ensures End(pl) <= Readable(p, input, p.steps[i].src, w, h)
    {
      var s := p.steps[i];
      var signed := if s.flip then -(h as int) else h;
      assert calls[i] == Invoke(s.f, w, signed) && Abs(signed) == h;
      assert End(pl) <= FrameSize(Source(s.f), w, h);
      if i == 0 {
        assert s.src == Caller;
      } else {
        assert i == 1 && WritesOwnBuffer(p, 0, w, h);
      }
    }
    forall i, pl | 0 <= i < |p.steps| && pl in calls[i].dst
      ensures p.steps[i].dst != Caller && End(pl) <= Readable(p, input, p.steps[i].dst, w, h)
    {
      var s := p.steps[i];
      var signed := if s.flip then -(h as int) else h;
      assert calls[i] == Invoke(s.f, w, signed) && Abs(signed) == h;
      assert End(pl) <= FrameSize(Target(s.f), w, h);
      assert WritesOwnBuffer(p, i, w, h);
    }
    if p.steps != [] {
      assert WritesOwnBuffer(p, |p.steps| - 1, w, h);
    }
  }

  /** What one `send` did: nothing (stopped, or the sink not ready), or the calls it made and what it handed on. */
  datatype SendOutcome =
    | Stopped
    | NotReady
    | Sent(calls: seq<Call>, from: Buffer, bytes: nat, handedOver: bool)
}
