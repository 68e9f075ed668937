// Termination after stop: a measure that every step except the decode thread's idle wait decreases, and
// the proof that some thread can always take such a step until main is done.

module PipelineShutdown {
  import opened Pipeline

  // ----- the measure -----

  // What one item in a queue still costs: a pending holder, a recycle request, a decoder output for the
  // recycle thread or the RGA thread, a slot for the encoder, a captured frame.
  const W_PENDING: nat := 3
  const W_REQUEST: nat := 4
  const W_RECYCLE: nat := 6
  const W_OUTPUT: nat := 9
  const W_SLOT: nat := 2
  const W_FRAME: nat := 21

  function CaptureRank(c: CapturePc): nat {
    match c
    case CDone => 0
    case CTest => 1
    case CRequeue(batch) => W_FRAME + 6 + |batch|
    case CTake => W_FRAME + 7
    case CDrop(_) => 3
    case CHave(_) => W_FRAME + 4
    case CRead => W_FRAME + 5
  }

  function DecodeRank(d: DecodePc): nat {
    match d
    case DDone => 0
    case DWait => 1
    case DReturn(_) => 3
    case DPublish(_, _) => W_OUTPUT + 4
    case DWritten(_, _, _) => W_OUTPUT + 5
    case DSubmitted(_, _, _) => W_OUTPUT + 6
    case DBuffer(_, _, _) => W_OUTPUT + 7
    case DHolder(_, _) => W_OUTPUT + 8
    case DAcquire(_) => W_OUTPUT + 9
    case DCheck(_) => W_OUTPUT + 10
    case DDrain(_, local, waiting) => W_OUTPUT + (if waiting then 10 else 11) + |local|
    case DEnter(_) => W_OUTPUT + 12
  }

  function RgaRank(r: RgaPc): nat {
    match r
    case RDone => 0
    case RExit => 1
    case RWait => 2
    case ROut(_) => W_RECYCLE + 3
    case RTest(_, _) => W_RECYCLE + 4
    case RGot(_, _) => W_RECYCLE + 4
    case RTransform(_, _, _) => W_RECYCLE + 5
    case RCopy(_, _) => W_RECYCLE + 6
    case RPush(_, _) => W_RECYCLE + W_SLOT + 4
  }

  function RecyclerRank(y: RecyclePc): nat {
    match y
    case YDone => 0
    case YWait => 1
    case YDrain(batch) => 2 + W_REQUEST * |batch|
  }

  function EncodeRank(e: EncodePc): nat {
    match e
    case EDone => 0
    case EExit => 1
    case EWait(_) => 2
    case EHave(_, _) => 3
    case EPushed(_) => 3
    case EFailed(_, _) => 3
    case EPushing(_, _) => 4
    case EBack(_, _) => 5
  }

  function MainRank(m: MainPc): nat {
    match m
    case MDone => 0
    case MDrainEnc(batch) => 1 + |batch|
    case MDrainDec(batch) => 2 + W_REQUEST * |batch|
    case MJoin => 3
    case MRun => 4
  }

  function CameraWork(c: CameraSide): nat {
    W_FRAME * |c.ready| + |c.recycle|
  }

  function DecoderWork(d: DecoderSide): nat {
    W_PENDING * |d.pool.pending| + W_OUTPUT * |d.rgaConsume| + W_RECYCLE * |d.mppRecycle|
  }

  function EncoderWork(c: EncoderSide): nat {
    W_SLOT * |c.encodeInput| + (if c.imported then 0 else 1) + (if c.slots.ready then 0 else 1)
  }

  function Measure(s: State): nat {
    CameraWork(s.cam) + DecoderWork(s.dec) + EncoderWork(s.enc)
    + CaptureRank(s.capture) + DecodeRank(s.decode) + RgaRank(s.rga) + RecyclerRank(s.recycler) + EncodeRank(s.encode)
    + MainRank(s.main) + (if s.ctl.outputDone then 0 else 1)
  }

  // The only step that may leave everything as it is: waiting for a holder with nothing pending.
  predicate IdleWait(s: State, a: Step) {
    a == Decode(WaitForHolder) && s.dec.pool.pending == []
  }

  lemma CaptureDecreases(s: State, c: CaptureStep)
    requires CaptureEnabled(s, c) && s.ctl.stop
    ensures Measure(CaptureApply(s, c)) < Measure(s)
  {
  }

  // A recycle request adds at most one pending holder.
  lemma RequestCost(d: DecoderSide, x: nat)
    ensures DecoderWork(RequestRecycle(d, x)) <= DecoderWork(d) + W_PENDING
  {
  }

  lemma DecodeRestDecreases(s: State, d: DecodeStep)
    requires DecodeEnabled(s, d)
    requires !(d.NextFrame? || d.SwapPending? || d.RecycleOne? || d.DrainDone? || d.WaitForHolder? || d.TakeHolder?
        || d.TakeBuffer?)
    ensures Measure(DecodeApply(s, d)) < Measure(s)
  {
    match d
    case InvalidOutput => RequestCost(s.dec, s.decode.x);
    case _ =>
  }

  lemma DecodeDecreases(s: State, d: DecodeStep)
    requires DecodeEnabled(s, d) && s.ctl.stop && !IdleWait(s, Decode(d))
    ensures Measure(DecodeApply(s, d)) < Measure(s)
  {
    if d.NextFrame? || d.SwapPending? || d.RecycleOne? || d.DrainDone? || d.WaitForHolder? || d.TakeHolder?
        || d.TakeBuffer? {
    } else {
      DecodeRestDecreases(s, d);
    }
  }

  lemma RgaDecreases(s: State, r: RgaStep)
    requires RgaEnabled(s, r) && s.ctl.stop
    ensures Measure(RgaApply(s, r)) < Measure(s)
  {
  }

  lemma RecycleDecreases(s: State, swap: bool)
    requires RecycleEnabled(s, swap)
    ensures Measure(RecycleApply(s, swap)) < Measure(s)
  {
    if !swap {
      RequestCost(s.dec, s.recycler.batch[0]);
    }
  }

  lemma EncodeDecreases(s: State, e: EncodeStep)
    requires EncodeEnabled(s, e) && s.ctl.stop
    ensures Measure(EncodeApply(s, e)) < Measure(s)
  {
  }

  lemma MainDecreases(s: State, m: MainStep)
    requires MainEnabled(s, m)
    ensures Measure(MainApply(s, m)) < Measure(s)
  {
    if m.DrainOutput? {
      RequestCost(s.dec, s.main.batch[0]);
    }
  }

  // Once stop is set every step that is not the idle wait brings the pipeline closer to its end.
  lemma StepDecreases(s: State, a: Step)
    requires Enabled(s, a) && s.ctl.stop && !IdleWait(s, a)
    ensures Measure(Apply(s, a)) < Measure(s)
  {
    match a
    case Capture(c) => CaptureDecreases(s, c);
    case Decode(d) => DecodeDecreases(s, d);
    case Rga(r) => RgaDecreases(s, r);
    case Recycle(swap) => RecycleDecreases(s, swap);
    case Encode(e) => EncodeDecreases(s, e);
    case Main(m) => MainDecreases(s, m);
  }
}
