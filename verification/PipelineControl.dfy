// Flags and program counters: what stop, the done flags and main's joins imply, and how little the
// decode thread can still do once stop is set.

module PipelineControl {
  import opened Limits
  import opened Pipeline

  predicate Joined(m: MainPc) {
    m.MDrainDec? || m.MDrainEnc? || m.MDone?
  }

  predicate RgaGone(r: RgaPc) {
    r.RExit? || r.RDone?
  }

  // A thread leaves only after stop; the done flags are the program counters of the threads.
  ghost predicate FlagsInv(s: State) {
    && (s.capture.CDone? || s.decode.DDone? || RgaGone(s.rga) || s.encode.EExit? || s.encode.EDone? || !s.main.MRun?
        ==> s.ctl.stop)
    && (s.ctl.rgaDone <==> s.rga.RDone?)
    && (s.ctl.encodeDone <==> s.encode.EDone?)
  }

  // The recycle thread leaves its queue empty and nobody can fill it again, so main's own drain of
  // that queue finds nothing.
  ghost predicate RecyclerInv(s: State) {
    && (s.recycler.YDone? ==> s.dec.mppRecycle == [] && s.ctl.rgaDone)
    && (s.recycler.YDrain? ==> s.recycler.batch != [])
    && (Joined(s.main) ==> AllJoined(s))
    && (s.main.MDrainDec? ==> s.main.batch == [])
    && (s.main.MDrainEnc? || s.main.MDone? ==> s.enc.encodeInput == [])
    && (s.main.MDone? ==> s.cam.ready == [] && s.cam.recycle == [])
  }

  ghost predicate ControlInv(s: State) {
    FlagsInv(s) && RecyclerInv(s)
  }

  // A step that leaves everybody else's counters alone, and what it may change.
  ghost predicate FlagsGrow(s: State, t: State) {
    && (s.ctl.stop ==> t.ctl.stop)
    && (s.ctl.outputDone ==> t.ctl.outputDone)
  }

  lemma CaptureKeepsControl(s: State, c: CaptureStep)
    requires CaptureEnabled(s, c) && ControlInv(s)
    ensures ControlInv(CaptureApply(s, c)) && FlagsGrow(s, CaptureApply(s, c))
  {
  }

  lemma DecodeKeepsControl(s: State, d: DecodeStep)
    requires DecodeEnabled(s, d) && ControlInv(s)
    ensures ControlInv(DecodeApply(s, d)) && FlagsGrow(s, DecodeApply(s, d))
  {
  }

  lemma RgaKeepsControl(s: State, r: RgaStep)
    requires RgaEnabled(s, r) && ControlInv(s)
    ensures ControlInv(RgaApply(s, r)) && FlagsGrow(s, RgaApply(s, r))
  {
  }

  lemma EncodeKeepsControl(s: State, e: EncodeStep)
    requires EncodeEnabled(s, e) && ControlInv(s)
    ensures ControlInv(EncodeApply(s, e)) && FlagsGrow(s, EncodeApply(s, e))
  {
  }

  lemma MainKeepsControl(s: State, m: MainStep)
    requires MainEnabled(s, m) && ControlInv(s)
    ensures ControlInv(MainApply(s, m)) && FlagsGrow(s, MainApply(s, m))
  {
  }

  lemma StepKeepsControl(s: State, a: Step)
    requires Enabled(s, a) && ControlInv(s)
    ensures ControlInv(Apply(s, a)) && FlagsGrow(s, Apply(s, a))
  {
    match a
    case Capture(c) => CaptureKeepsControl(s, c);
    case Decode(d) => DecodeKeepsControl(s, d);
    case Rga(r) => RgaKeepsControl(s, r);
    case Encode(e) => EncodeKeepsControl(s, e);
    case Main(m) => MainKeepsControl(s, m);
    case _ =>
  }

  // ----- the frames that can still reach the decoder -----

  function FrameInHand(d: DecodePc): nat {
    if HasFrame(d) then 1 else 0
  }

  // The capture thread may still deliver one frame when it is past its last test of stop.
  function CaptureCredit(c: CapturePc): nat {
    if c.CRead? || c.CHave? then 1 else 0
  }

  // Frames the decode thread can still handle once stop is set.
  function Credit(s: State): nat {
    |s.cam.ready| + FrameInHand(s.decode) + CaptureCredit(s.capture)
  }

  // Frames that can still become an output in `rgaConsume`.
  function Undecoded(s: State): nat {
    |s.cam.ready| + (if HasFrame(s.decode) && !s.decode.DReturn? then 1 else 0) + CaptureCredit(s.capture)
  }

  function Handled(a: Step): nat {
    if a == Decode(ReturnFrame) then 1 else 0
  }

  ghost predicate FramesSame(s: State, t: State) {
    t.cam.ready == s.cam.ready && t.decode == s.decode && t.capture == s.capture
  }

  lemma OthersLeaveFrames(s: State, a: Step)
    requires Enabled(s, a) && (a.Rga? || a.Recycle? || a.Encode?)
    ensures FramesSame(s, Apply(s, a))
  {
  }

  lemma CreditFalls(s: State, a: Step)
    requires Enabled(s, a) && s.ctl.stop
    ensures Credit(Apply(s, a)) + Handled(a) <= Credit(s)
  {
    if a.Rga? || a.Recycle? || a.Encode? { OthersLeaveFrames(s, a); }
  }

  // ----- outputs stranded behind the RGA thread -----

  const TAIL: nat := MAX_READY + 2

  ghost predicate TailInv(s: State) {
    && (RgaGone(s.rga) ==> |s.dec.orphans| + |s.dec.rgaConsume| + Undecoded(s) <= TAIL)
    && (!s.main.MDone? ==> s.dec.orphans == [])
  }

  lemma CaptureKeepsTail(s: State, c: CaptureStep)
    requires CaptureEnabled(s, c) && ControlInv(s) && TailInv(s)
    ensures TailInv(CaptureApply(s, c))
  {
  }

  lemma DecodeKeepsTail(s: State, d: DecodeStep)
    requires DecodeEnabled(s, d) && TailInv(s)
    ensures TailInv(DecodeApply(s, d))
  {
  }

  lemma RgaKeepsTail(s: State, r: RgaStep)
    requires RgaEnabled(s, r) && TailInv(s) && |s.cam.ready| <= MAX_READY && ControlInv(s)
    ensures TailInv(RgaApply(s, r))
  {
  }

  lemma EncodeKeepsTail(s: State, e: EncodeStep)
    requires EncodeEnabled(s, e) && TailInv(s)
    ensures TailInv(EncodeApply(s, e))
  {
  }

  lemma StepKeepsTail(s: State, a: Step)
    requires Enabled(s, a) && ControlInv(s) && TailInv(s) && |s.cam.ready| <= MAX_READY
    ensures TailInv(Apply(s, a))
  {
    match a
    case Capture(c) => CaptureKeepsTail(s, c);
    case Decode(d) => DecodeKeepsTail(s, d);
    case Rga(r) => RgaKeepsTail(s, r);
    case Encode(e) => EncodeKeepsTail(s, e);
    case _ =>
  }
}
