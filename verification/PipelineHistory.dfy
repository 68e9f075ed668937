// What the steps of a run add up to: retries, discarded frames and lost slots, counted over the run and
// tied to the state it leads to.

module PipelineHistory {
  import opened Wrappers
  import opened Limits
  import opened FrameStamps
  import opened Populations
  import opened Lines
  import opened CameraDevice
  import opened Pipeline
  import opened PipelineCamera
  import opened PipelineDecoder
  import opened PipelineRga
  import opened PipelineControl
  import opened PipelineOrder
  import opened PipelineTheorems

  // ----- what stops the pipeline -----

  predicate CaptureStops(s: State, c: CaptureStep) {
    match c
    case RequeueOne(endOk, queueOk) =>
      s.capture.CRequeue? && s.capture.batch != [] && !(queueOk && (s.capture.batch[0] in s.cam.dev.open ==> endOk))
    case ReadFailed => true
    case ReadUnopened(_) => true
    case ReadOversized(_, _, _, _) => true
    case _ => false
  }

  // The steps that stop it: a refused requeue, a failed camera read, the 2000th failed copy of an output,
  // a failed import of the slots, a push refused for the 201st time, a slot that cannot be returned, the
  // encode-output thread and main itself.
  predicate Stops(s: State, a: Step) {
    match a
    case Capture(c) => CaptureStops(s, c)
    case Rga(CopyFails) => s.rga.RCopy? && s.rga.n + 1 >= 2000
    case Rga(TransformFails) => s.rga.RTransform? && s.rga.n + 1 >= 2000
    case Rga(ImportSlots(ok)) => !ok
    case Encode(HandleFailure) => s.encode.EFailed? && s.encode.f + 1 > 200
    case Encode(RecycleSlot) =>
      s.encode.EPushed? && !(s.enc.slots.ready && s.encode.t < |s.enc.slots.inUse|)
    case Main(OutputStops) => true
    case Main(MainStops) => true
    case _ => false
  }

  lemma CaptureStopsIff(s: State, c: CaptureStep)
    requires CaptureEnabled(s, c)
    ensures CaptureApply(s, c).ctl.stop <==> s.ctl.stop || CaptureStops(s, c)
  {
  }

  lemma RgaStopsIff(s: State, r: RgaStep)
    requires RgaEnabled(s, r)
    ensures RgaApply(s, r).ctl.stop <==> s.ctl.stop || Stops(s, Rga(r))
  {
  }

  lemma EncodeStopsIff(s: State, e: EncodeStep)
    requires EncodeEnabled(s, e)
    ensures EncodeApply(s, e).ctl.stop <==> s.ctl.stop || Stops(s, Encode(e))
  {
  }

  lemma StepStopsIff(s: State, a: Step)
    requires Enabled(s, a)
    ensures Apply(s, a).ctl.stop <==> s.ctl.stop || Stops(s, a)
  {
    match a
    case Capture(c) => CaptureStopsIff(s, c);
    case Rga(r) => RgaStopsIff(s, r);
    case Encode(e) => EncodeStopsIff(s, e);
    case _ =>
  }

  ghost predicate HasStopped(s: State, run: seq<Step>)
    requires ValidRun(s, run)
    decreases |run|
  {
    run != [] && (HasStopped(s, run[..|run| - 1]) || Stops(After(s, run[..|run| - 1]), run[|run| - 1]))
  }

  // In every run the pipeline is stopped if and only if such a step was taken; a read to be retried, a
  // failed decode or a retried copy or push never stops it.
  lemma {:induction false} StoppedIff(n: nat, run: seq<Step>)
    requires ValidRun(Init(n), run)
    ensures After(Init(n), run).ctl.stop <==> HasStopped(Init(n), run)
    decreases |run|
  {
    if run == [] {
    } else {
      var p := run[..|run| - 1];
      StoppedIff(n, p);
      StepStopsIff(After(Init(n), p), run[|run| - 1]);
    }
  }

  // ----- when a thread leaves -----

  // Which threads have left their loop.
  datatype Left = Left(capture: bool, decode: bool, rga: bool, recycler: bool, encode: bool, output: bool)

  function Gone(s: State): Left {
    Left(s.capture.CDone?, s.decode.DDone?, s.rga.RExit? || s.rga.RDone?, s.recycler.YDone?,
         s.encode.EExit? || s.encode.EDone?, s.ctl.outputDone)
  }

  // A thread leaves its loop when it sees the stop flag at a test, or at a wait whose queue is empty, or
  // after a failure that stops the pipeline; the recycle thread waits for the RGA thread to be done, the
  // encode-output thread for the encode-input thread.
  predicate Leaves(s: State, a: Step) {
    match a
    case Capture(TestStop) => s.ctl.stop
    case Capture(TestStopAgain) => s.ctl.stop
    case Capture(c) => CaptureStops(s, c)
    case Decode(NextFrame) => s.ctl.stop && s.cam.ready == []
    case Rga(NextOutput) => s.ctl.stop && s.dec.rgaConsume == []
    case Recycle(swap) => swap && s.ctl.stop && s.ctl.rgaDone && s.dec.mppRecycle == []
    case Encode(NextSlot) => s.ctl.stop && s.enc.encodeInput == []
    case Encode(TestStopBeforeEncode) => s.ctl.stop
    case Encode(HandleFailure) => s.ctl.stop || Stops(s, a)
    case Encode(RecycleSlot) => Stops(s, a)
    case Main(OutputStops) => true
    case Main(OutputLeaves) => s.ctl.stop && s.ctl.encodeDone
    case _ => false
  }

  lemma CaptureActsAlone(s: State, c: CaptureStep)
    requires CaptureEnabled(s, c)
    ensures var t := CaptureApply(s, c);
            && t.decode == s.decode && t.rga == s.rga && t.recycler == s.recycler && t.encode == s.encode
            && t.ctl.outputDone == s.ctl.outputDone
  {
  }

  lemma CaptureLeavesIff(s: State, c: CaptureStep)
    requires CaptureEnabled(s, c)
    ensures Gone(CaptureApply(s, c)) == Gone(s).(capture := Leaves(s, Capture(c))) && !Gone(s).capture
  {
    CaptureActsAlone(s, c);
  }

  lemma DecodeActsAlone(s: State, d: DecodeStep)
    requires DecodeEnabled(s, d)
    ensures var t := DecodeApply(s, d);
            && t.capture == s.capture && t.rga == s.rga && t.recycler == s.recycler && t.encode == s.encode
            && t.ctl == s.ctl
  {
  }

  lemma OnlyWaitEndsDecode(s: State, d: DecodeStep)
    requires DecodeEnabled(s, d)
    ensures !s.decode.DDone?
    ensures DecodeApply(s, d).decode.DDone? <==> d.NextFrame? && s.ctl.stop && s.cam.ready == []
  {
  }

  lemma DecodeLeavesIff(s: State, d: DecodeStep)
    requires DecodeEnabled(s, d)
    ensures Gone(DecodeApply(s, d)) == Gone(s).(decode := Leaves(s, Decode(d))) && !Gone(s).decode
  {
    DecodeActsAlone(s, d);
    OnlyWaitEndsDecode(s, d);
  }

  lemma RgaActsAlone(s: State, r: RgaStep)
    requires RgaEnabled(s, r)
    ensures var t := RgaApply(s, r);
            && t.capture == s.capture && t.decode == s.decode && t.recycler == s.recycler && t.encode == s.encode
            && t.ctl.outputDone == s.ctl.outputDone
  {
  }

  lemma OnlyWaitEndsRga(s: State, r: RgaStep)
    requires RgaEnabled(s, r)
    ensures !s.rga.RDone? && (s.rga.RExit? ==> r.SignalDone?)
    ensures RgaApply(s, r).rga.RExit? || RgaApply(s, r).rga.RDone? <==>
      s.rga.RExit? || (r.NextOutput? && s.ctl.stop && s.dec.rgaConsume == [])
  {
  }

  lemma RgaLeavesIff(s: State, r: RgaStep)
    requires RgaEnabled(s, r)
    ensures Gone(RgaApply(s, r)) == Gone(s).(rga := Gone(s).rga || Leaves(s, Rga(r)))
    ensures Gone(s).rga ==> !Leaves(s, Rga(r))
  {
    RgaActsAlone(s, r);
    OnlyWaitEndsRga(s, r);
  }

  lemma RecycleLeavesIff(s: State, swap: bool)
    requires RecycleEnabled(s, swap)
    ensures Gone(RecycleApply(s, swap)) == Gone(s).(recycler := Leaves(s, Recycle(swap))) && !Gone(s).recycler
  {
  }

  lemma EncodeActsAlone(s: State, e: EncodeStep)
    requires EncodeEnabled(s, e)
    ensures var t := EncodeApply(s, e);
            && t.capture == s.capture && t.decode == s.decode && t.rga == s.rga && t.recycler == s.recycler
            && t.ctl.outputDone == s.ctl.outputDone
  {
  }

  lemma EncodeEnds(s: State, e: EncodeStep)
    requires EncodeEnabled(s, e)
    ensures !s.encode.EDone? && (s.encode.EExit? ==> e.SignalEncodeDone?)
    ensures EncodeApply(s, e).encode.EExit? || EncodeApply(s, e).encode.EDone? <==>
      s.encode.EExit? || Leaves(s, Encode(e))
  {
  }

  lemma EncodeLeavesIff(s: State, e: EncodeStep)
    requires EncodeEnabled(s, e)
    ensures Gone(EncodeApply(s, e)) == Gone(s).(encode := Gone(s).encode || Leaves(s, Encode(e)))
    ensures Gone(s).encode ==> !Leaves(s, Encode(e))
  {
    EncodeActsAlone(s, e);
    EncodeEnds(s, e);
  }

  lemma MainLeavesIff(s: State, m: MainStep)
    requires MainEnabled(s, m)
    ensures Gone(MainApply(s, m)) == Gone(s).(output := Gone(s).output || Leaves(s, Main(m)))
    ensures Gone(s).output ==> !Leaves(s, Main(m))
  {
  }

  // A step changes who has left exactly then.
  lemma LeavesIff(s: State, a: Step)
    requires Enabled(s, a)
    ensures Gone(Apply(s, a)) != Gone(s) <==> Leaves(s, a)
  {
    match a
    case Capture(c) => CaptureLeavesIff(s, c);
    case Decode(d) => DecodeLeavesIff(s, d);
    case Rga(r) => RgaLeavesIff(s, r);
    case Recycle(swap) => RecycleLeavesIff(s, swap);
    case Encode(e) => EncodeLeavesIff(s, e);
    case Main(m) => MainLeavesIff(s, m);
  }

  // ----- the drain at the head of a decode call -----

  // A holder that was pending when the call began is being drained, or free already.
  predicate ComesFree(s: State, h: nat) {
    || (s.decode.DEnter? && h in s.dec.pool.pending)
    || (s.decode.DDrain? && (h in s.decode.local || h in s.dec.pool.free))
  }

  lemma DecodeFrees(s: State, d: DecodeStep, h: nat)
    requires DecodeEnabled(s, d) && ComesFree(s, h) && !d.DrainDone?
    ensures ComesFree(DecodeApply(s, d), h)
  {
    if d.RecycleOne? {
      assert s.decode.local == [s.decode.local[0]] + s.decode.local[1..];
    }
  }

  lemma OthersFreeNoLess(s: State, a: Step, h: nat)
    requires Enabled(s, a) && !a.Decode?
    ensures var t := Apply(s, a);
            && t.decode == s.decode && t.dec.pool.free == s.dec.pool.free
            && (h in s.dec.pool.pending ==> h in t.dec.pool.pending)
  {
  }

  // In every run the drain at the head of a decode call gets through every holder pending at its start:
  // when nothing is left to drain, each of them is free.
  lemma {:induction false} EntryDrainFrees(n: nat, early: seq<Step>, run: seq<Step>, h: nat)
    requires ValidRun(Init(n), run) && ValidRun(Init(n), early) && early <= run
    requires After(Init(n), early).decode.DEnter? && h in After(Init(n), early).dec.pool.pending
    requires forall k :: |early| <= k < |run| ==> run[k] != Decode(DrainDone)
    ensures ComesFree(After(Init(n), run), h)
    ensures After(Init(n), run).decode.DDrain? && After(Init(n), run).decode.local == [] ==>
      h in After(Init(n), run).dec.pool.free
    decreases |run|
  {
    if early == run {
    } else {
      var p, a := run[..|run| - 1], run[|run| - 1];
      EntryDrainFrees(n, early, p, h);
      match a
      case Decode(d) => DecodeFrees(After(Init(n), p), d, h);
      case _ => OthersFreeNoLess(After(Init(n), p), a, h);
    }
  }

  // ----- failed copies -----

  function CopyFailure(a: Step, k: nat): nat {
    match a
    case Rga(NextOutput) => 0
    case Rga(CopyFails) => k + 1
    case Rga(TransformFails) => k + 1
    case _ => k
  }

  // Failed attempts to copy since the RGA thread took its last output.
  function FailedCopies(run: seq<Step>): nat {
    if run == [] then 0 else CopyFailure(run[|run| - 1], FailedCopies(run[..|run| - 1]))
  }

  // The count in the program counter is the true one, and reaching the limit stops the pipeline.
  predicate CopiesCounted(s: State, k: nat) {
    if s.rga.RTest? || s.rga.RCopy? || s.rga.RTransform? then k == s.rga.n && k < MAX_RGA_RETRY
    else k <= MAX_RGA_RETRY && (k == MAX_RGA_RETRY ==> s.ctl.stop)
  }

  lemma RgaCounts(s: State, r: RgaStep, k: nat)
    requires RgaEnabled(s, r) && CopiesCounted(s, k)
    ensures CopiesCounted(RgaApply(s, r), CopyFailure(Rga(r), k))
  {
  }

  lemma OthersLeaveRga(s: State, a: Step)
    requires Enabled(s, a) && !a.Rga?
    ensures Apply(s, a).rga == s.rga
  {
  }

  lemma StepCounts(s: State, a: Step, k: nat)
    requires Enabled(s, a) && ControlInv(s) && CopiesCounted(s, k)
    ensures CopiesCounted(Apply(s, a), CopyFailure(a, k))
  {
    match a
    case Rga(r) => RgaCounts(s, r, k);
    case _ =>
      OthersLeaveRga(s, a);
      StepKeepsControl(s, a);
  }

  lemma {:induction false} CopiesAreCounted(n: nat, run: seq<Step>)
    requires ValidRun(Init(n), run)
    ensures CopiesCounted(After(Init(n), run), FailedCopies(run))
    decreases |run|
  {
    if run == [] {
    } else {
      var p, a := run[..|run| - 1], run[|run| - 1];
      CopiesAreCounted(n, p);
      RunControl(n, p);
      StepCounts(After(Init(n), p), a, FailedCopies(p));
    }
  }

  // ----- refused pushes -----

  function PushBackCount(a: Step, k: nat): nat {
    match a
    case Encode(PushOk(_)) => 0
    case Encode(PushBack) => k + 1
    case _ => k
  }

  // How often a slot was pushed back since the encoder last accepted one.
  function PushBacks(run: seq<Step>): nat {
    if run == [] then 0 else PushBackCount(run[|run| - 1], PushBacks(run[..|run| - 1]))
  }

  function SlotAfter(s: State, a: Step, t: Option<nat>): Option<nat> {
    match a
    case Encode(PushOk(_)) => None
    case Encode(PushBack) => if s.encode.EBack? then Some(s.encode.t) else t
    case _ => t
  }

  // The slot that was pushed back last, if the encoder has accepted none since.
  ghost function PushedBack(s: State, run: seq<Step>): Option<nat>
    requires ValidRun(s, run)
    decreases |run|
  {
    if run == [] then None
    else SlotAfter(After(s, run[..|run| - 1]), run[|run| - 1], PushedBack(s, run[..|run| - 1]))
  }

  // While the thread retries it holds the slot pushed back, or finds it at the front of its queue.
  predicate PushesCounted(s: State, k: nat, t: Option<nat>) {
    match s.encode
    case EWait(f) => k == f <= MAX_PUSH_RETRY && (k > 0 ==> s.enc.encodeInput != [] && t == Some(s.enc.encodeInput[0]))
    case EHave(u, f) => k == f <= MAX_PUSH_RETRY && (k > 0 ==> t == Some(u))
    case EPushing(u, f) => k == f <= MAX_PUSH_RETRY && (k > 0 ==> t == Some(u))
    case EFailed(u, f) => k == f <= MAX_PUSH_RETRY && (k > 0 ==> t == Some(u))
    case EBack(u, f) => k + 1 == f <= MAX_PUSH_RETRY && (k > 0 ==> t == Some(u))
    case EPushed(_) => k == 0
    case _ => k <= MAX_PUSH_RETRY
  }

  lemma EncodeCounts(s: State, e: EncodeStep, k: nat, t: Option<nat>)
    requires EncodeEnabled(s, e) && PushesCounted(s, k, t)
    ensures PushesCounted(EncodeApply(s, e), PushBackCount(Encode(e), k), SlotAfter(s, Encode(e), t))
  {
  }

  // Other threads only append to the queue until main takes it, and main waits for the thread to leave.
  lemma OthersKeepFront(s: State, a: Step)
    requires Enabled(s, a) && !a.Encode? && ControlInv(s)
    ensures Apply(s, a).encode == s.encode
    ensures s.encode.EWait? && s.enc.encodeInput != [] ==>
      Apply(s, a).enc.encodeInput != [] && Apply(s, a).enc.encodeInput[0] == s.enc.encodeInput[0]
  {
    MainActsLast(s, a);
  }

  lemma StepCountsPushes(s: State, a: Step, k: nat, t: Option<nat>)
    requires Enabled(s, a) && ControlInv(s) && PushesCounted(s, k, t)
    ensures PushesCounted(Apply(s, a), PushBackCount(a, k), SlotAfter(s, a, t))
  {
    match a
    case Encode(e) => EncodeCounts(s, e, k, t);
    case _ => OthersKeepFront(s, a);
  }

  lemma {:induction false} PushesAreCounted(n: nat, run: seq<Step>)
    requires ValidRun(Init(n), run)
    ensures PushesCounted(After(Init(n), run), PushBacks(run), PushedBack(Init(n), run))
    decreases |run|
  {
    if run == [] {
    } else {
      var p, a := run[..|run| - 1], run[|run| - 1];
      PushesAreCounted(n, p);
      RunControl(n, p);
      StepCountsPushes(After(Init(n), p), a, PushBacks(p), PushedBack(Init(n), p));
    }
  }

  // In every run an output is attempted at most 2000 times, the last failure stops the pipeline, and no
  // slot is pushed back more than 200 times before the encoder accepts one.
  lemma {:induction false} RetriesAreBounded(n: nat, run: seq<Step>)
    requires ValidRun(Init(n), run)
    ensures FailedCopies(run) <= 2000 && PushBacks(run) <= 200
    ensures FailedCopies(run) == 2000 ==> After(Init(n), run).ctl.stop
  {
    CopiesAreCounted(n, run);
    PushesAreCounted(n, run);
  }

  // The slot pushed back is the next one the encode thread takes, whatever the RGA thread adds meanwhile.
  lemma {:induction false} RetryTakesSameSlot(n: nat, run: seq<Step>)
    requires ValidRun(Init(n), run) && PushBacks(run) > 0 && After(Init(n), run).encode.EWait?
    ensures var s := After(Init(n), run);
            && PushedBack(Init(n), run).Some? && Enabled(s, Encode(NextSlot))
            && Apply(s, Encode(NextSlot)).encode == EHave(PushedBack(Init(n), run).value, PushBacks(run))
  {
    PushesAreCounted(n, run);
  }

  // ----- discarded frames -----

  function DecodeDiscards(s: State, d: DecodeStep): nat {
    match d
    case RejectEarly => 1
    case EndRefused => 1
    case RejectLate => 1
    case NoBuffer => 1
    case DecodeFails => 1
    case PublishOutput => if s.decode.DWritten? && s.decode.x in s.dec.pool.inflight then 1 else 0
    case InvalidOutput => 1
    case _ => 0
  }

  function RgaDiscards(s: State, r: RgaStep): nat {
    match r
    case TestStopInRetry => if s.ctl.stop then 1 else 0
    case CopyFails => if s.rga.RCopy? && s.rga.n + 1 >= 2000 then 1 else 0
    case TransformFails => if s.rga.RTransform? && s.rga.n + 1 >= 2000 then 1 else 0
    case ImportSlots(ok) => if ok then 0 else 1
    case TestStopBeforePush => if s.ctl.stop then 1 else 0
    case _ => 0
  }

  // How many frames a step discards.
  function Discarded(s: State, a: Step): nat {
    match a
    case Capture(EnterReady) => if |s.cam.ready| >= 12 then 1 else 0
    case Decode(d) => DecodeDiscards(s, d)
    case Rga(r) => RgaDiscards(s, r)
    case Encode(TestStopBeforeEncode) => if s.ctl.stop then 1 else 0
    case Encode(HandleFailure) => if s.ctl.stop || (s.encode.EFailed? && s.encode.f + 1 > 200) then 1 else 0
    case Main(TakeInputs) => |s.enc.encodeInput|
    case Main(ClearQueues) => |s.cam.ready| + |s.dec.rgaConsume| + |s.enc.encodeInput|
    case _ => 0
  }

  ghost function AllDiscarded(s: State, run: seq<Step>): (r: nat)
    requires ValidRun(s, run)
    decreases |run|
  {
    if run == [] then 0
    else AllDiscarded(s, run[..|run| - 1]) + Discarded(After(s, run[..|run| - 1]), run[|run| - 1])
  }

  // Frames that were accepted or are still under way.
  function Kept(s: State): nat {
    |s.enc.accepted| + |s.enc.encodeInput| + |s.dec.rgaConsume| + |s.cam.ready|
    + (if EncodeHasSlot(s.encode) && !s.encode.EPushed? then 1 else 0)
    + (if RgaHasOutput(s.rga) && !s.rga.ROut? then 1 else 0)
    + (if HasFrame(s.decode) && !s.decode.DReturn? then 1 else 0)
    + (if s.capture.CHave? then 1 else 0)
  }

  // They are the frames of the line in flight.
  lemma KeptIsLine(s: State)
    ensures Kept(s) == |FrontOf(s) + BackOf(s)|
  {
    assert |FrontOf(s)| == |s.enc.accepted| + |EncodeLine(s.enc, s.encode)| + |s.enc.encodeInput|
        + |RgaLine(s.dec, s.enc, s.rga)|;
    assert |BackOf(s)|
      == |s.dec.rgaConsume| + |DecodeLine(s.cam, s.dec, s.decode)| + |s.cam.ready| + |CaptureLine(s.cam, s.capture)|;
  }

  lemma CaptureAccounts(s: State, c: CaptureStep)
    requires CaptureEnabled(s, c)
    ensures var t := CaptureApply(s, c);
            Kept(t) + Discarded(s, Capture(c)) - |t.cam.captured| == Kept(s) - |s.cam.captured|
  {
  }

  lemma DecodeAccounts(s: State, d: DecodeStep)
    requires DecodeEnabled(s, d)
    ensures var t := DecodeApply(s, d);
            Kept(t) + Discarded(s, Decode(d)) == Kept(s) && t.cam.captured == s.cam.captured
  {
  }

  lemma RgaAccounts(s: State, r: RgaStep)
    requires RgaEnabled(s, r)
    ensures var t := RgaApply(s, r);
            Kept(t) + Discarded(s, Rga(r)) == Kept(s) && t.cam.captured == s.cam.captured
  {
  }

  lemma EncodeAccounts(s: State, e: EncodeStep)
    requires EncodeEnabled(s, e)
    ensures var t := EncodeApply(s, e);
            Kept(t) + Discarded(s, Encode(e)) == Kept(s) && t.cam.captured == s.cam.captured
  {
  }

  lemma MainAccounts(s: State, m: MainStep)
    requires MainEnabled(s, m)
    ensures var t := MainApply(s, m);
            Kept(t) + Discarded(s, Main(m)) == Kept(s) && t.cam.captured == s.cam.captured
  {
  }

  lemma StepAccounts(s: State, a: Step)
    requires Enabled(s, a)
    ensures var t := Apply(s, a);
            Kept(t) + Discarded(s, a) - |t.cam.captured| == Kept(s) - |s.cam.captured|
  {
    match a
    case Capture(c) => CaptureAccounts(s, c);
    case Decode(d) => DecodeAccounts(s, d);
    case Rga(r) => RgaAccounts(s, r);
    case Encode(e) => EncodeAccounts(s, e);
    case Main(m) => MainAccounts(s, m);
    case Recycle(_) =>
  }

  // In every run each captured frame was accepted, is under way, or was discarded by one counted step.
  lemma {:induction false} FramesConserved(n: nat, run: seq<Step>)
    requires ValidRun(Init(n), run)
    ensures |FrontOf(After(Init(n), run)) + BackOf(After(Init(n), run))| + AllDiscarded(Init(n), run)
         == |After(Init(n), run).cam.captured|
    decreases |run|
  {
    KeptIsLine(After(Init(n), run));
    if run == [] {
    } else {
      var p := run[..|run| - 1];
      FramesConserved(n, p);
      KeptIsLine(After(Init(n), p));
      StepAccounts(After(Init(n), p), run[|run| - 1]);
    }
  }

  // Nothing is under way between camera and encoder.
  predicate Drained(s: State) {
    Kept(s) == |s.enc.accepted|
  }

  // A line as long as the capture history names every frame.
  lemma {:induction false} FullFromStart(l: seq<Stamp>, captured: seq<int>, k: nat)
    requires Line(l, captured) && |l| == |captured| && k < |l|
    ensures k <= l[k].frame
  {
    if k == 0 {
    } else {
      FullFromStart(l, captured, k - 1);
    }
  }

  lemma {:induction false} FullFromEnd(l: seq<Stamp>, captured: seq<int>, k: nat)
    requires Line(l, captured) && |l| == |captured| && k < |l|
    ensures l[k].frame <= k
    decreases |l| - k
  {
    if k + 1 == |l| {
    } else {
      FullFromEnd(l, captured, k + 1);
    }
  }

  lemma FullLine(l: seq<Stamp>, captured: seq<int>, i: nat)
    requires Line(l, captured) && |l| == |captured| && i < |l|
    ensures l[i] == Stamp(captured[i], captured[i], i)
  {
    FullFromStart(l, captured, i);
    FullFromEnd(l, captured, i);
    assert True(l[i], captured);
  }

  // A run that discards nothing delivers everything: once nothing is under way, the encoder has received
  // exactly the captured frames, in order and each with its own time.
  lemma {:induction false} NothingDiscardedAllAccepted(n: nat, run: seq<Step>, i: nat)
    requires ValidRun(Init(n), run) && Drained(After(Init(n), run))
    requires i < |After(Init(n), run).cam.captured|
    requires AllDiscarded(Init(n), run) == 0
    ensures var s := After(Init(n), run);
            && |s.enc.accepted| == |s.cam.captured|
            && s.enc.accepted[i] == Stamp(s.cam.captured[i], s.cam.captured[i], i)
  {
    var s := After(Init(n), run);
    FramesConserved(n, run);
    KeptIsLine(s);
    AcceptedInOrder(n, run);
    FullLine(s.enc.accepted, s.cam.captured, i);
  }

  // ----- stranded camera buffers -----

  // A failed camera call that leaves buffers behind: a refused requeue, a frame whose window could not be
  // opened, or an oversized frame that was not queued again.
  predicate StrandsBuffer(s: State, a: Step) {
    match a
    case Capture(RequeueOne(endOk, queueOk)) =>
      s.capture.CRequeue? && s.capture.batch != [] && !RequeueOk(s.cam.dev, s.capture.batch[0], endOk, queueOk)
    case Capture(ReadUnopened(_)) => true
    case Capture(ReadOversized(_, _, _, queueOk)) => !queueOk
    case _ => false
  }

  ghost predicate Strands(s: State, run: seq<Step>)
    requires ValidRun(s, run)
    decreases |run|
  {
    run != [] && (Strands(s, run[..|run| - 1]) || StrandsBuffer(After(s, run[..|run| - 1]), run[|run| - 1]))
  }

  lemma CaptureStrands(s: State, c: CaptureStep)
    requires CaptureEnabled(s, c)
    ensures CaptureApply(s, c).main == s.main
    ensures CaptureApply(s, c).cam.stranded != [] <==> s.cam.stranded != [] || StrandsBuffer(s, Capture(c))
  {
  }

  lemma OthersStrandNothing(s: State, a: Step)
    requires Enabled(s, a) && !a.Capture? && a != Main(ClearQueues)
    ensures Apply(s, a).cam.stranded == s.cam.stranded && (s.main.MDone? ==> Apply(s, a).main.MDone?)
  {
  }

  // Until main clears the queues a buffer is stranded if and only if such a camera call failed.
  lemma {:induction false} StrandedIff(n: nat, run: seq<Step>)
    requires ValidRun(Init(n), run) && !After(Init(n), run).main.MDone?
    ensures After(Init(n), run).cam.stranded != [] <==> Strands(Init(n), run)
    decreases |run|
  {
    if run == [] {
    } else {
      var p := run[..|run| - 1];
      match run[|run| - 1] {
        case Capture(c) => CaptureStrands(After(Init(n), p), c);
        case a => OthersStrandNothing(After(Init(n), p), a);
      }
      StrandedIff(n, p);
    }
  }

  // In a run without such a failure every granted buffer is in exactly one of driver, capture thread,
  // ready queue, decode thread and recycle queue, until main clears the queues.
  lemma {:induction false} NoBufferStranded(n: nat, run: seq<Step>, b: nat)
    requires ValidRun(Init(n), run) && !After(Init(n), run).main.MDone? && !Strands(Init(n), run)
    ensures var s := After(Init(n), run);
            s.cam.dev.driver[b] + CaptureHolds(s.capture, b) + Count(s.cam.ready, b) + DecodeHolds(s.decode, b)
            + Count(s.cam.recycle, b) == One(b, n)
  {
    StrandedIff(n, run);
    CameraConserved(n, run, b);
  }

  // ----- lost slots -----

  // The RGA thread sees the stop flag with a filled slot in hand.
  predicate LosesSlot(s: State, a: Step) {
    a == Rga(TestStopBeforePush) && s.ctl.stop
  }

  ghost predicate Loses(s: State, run: seq<Step>)
    requires ValidRun(s, run)
    decreases |run|
  {
    run != [] && (Loses(s, run[..|run| - 1]) || LosesSlot(After(s, run[..|run| - 1]), run[|run| - 1]))
  }

  lemma RgaLoses(s: State, r: RgaStep)
    requires RgaEnabled(s, r)
    ensures RgaApply(s, r).main == s.main
    ensures RgaApply(s, r).enc.lost != [] <==> s.enc.lost != [] || LosesSlot(s, Rga(r))
  {
  }

  lemma OthersLoseNothing(s: State, a: Step)
    requires Enabled(s, a) && !a.Rga? && a != Main(ClearQueues)
    ensures Apply(s, a).enc.lost == s.enc.lost && (s.main.MDone? ==> Apply(s, a).main.MDone?)
  {
  }

  lemma {:induction false} LostIff(n: nat, run: seq<Step>)
    requires ValidRun(Init(n), run) && !After(Init(n), run).main.MDone?
    ensures After(Init(n), run).enc.lost != [] <==> Loses(Init(n), run)
    decreases |run|
  {
    if run == [] {
    } else {
      var p := run[..|run| - 1];
      match run[|run| - 1] {
        case Rga(r) => RgaLoses(After(Init(n), p), r);
        case a => OthersLoseNothing(After(Init(n), p), a);
      }
      LostIff(n, p);
    }
  }

  // When main has drained the encode queue, all slots of a ready pool are available if and only if the
  // RGA thread never saw the stop flag with a filled slot in hand.
  lemma {:induction false} AllSlotsBackIff(n: nat, run: seq<Step>)
    requires ValidRun(Init(n), run) && After(Init(n), run).main == MDrainEnc([])
    requires After(Init(n), run).enc.slots.ready
    ensures (forall t: nat :: t < 48 ==> Count(After(Init(n), run).enc.slots.available, t) == 1)
       <==> !Loses(Init(n), run)
  {
    var s := After(Init(n), run);
    LostIff(n, run);
    RunInv(n, run);
    if s.enc.lost == [] {
      forall t: nat | t < POOL_SIZE
        ensures Count(s.enc.slots.available, t) == 1
      {
        SlotsAfterDrain(n, run, t);
      }
    } else {
      var t := s.enc.lost[0];
      CountMember(s.enc.lost, t);
      SlotIsSomewhere(s, t);
    }
  }
}
