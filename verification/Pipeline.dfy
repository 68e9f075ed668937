// The threads of the pipeline as a labelled transition system. Each region that holds a mutex, each
// test of an atomic flag and each call into a device is one step; a label says which thread moves and
// which outcome the device chose. Waits on condition variables are guards.

module Pipeline {
  import opened Limits
  import opened FrameStamps
  import opened Populations
  import opened DecoderPool
  import opened RgaPool
  import opened CameraDevice

  // ----- program counters, with what a thread holds -----

  datatype CapturePc =
    | CTest                       // test of stop at the head of the loop
    | CTake                       // about to take the recycle queue
    | CRequeue(batch: seq<nat>)   // giving the batch back to the driver, then testing stop again
    | CRead                       // inside camera_read_frame
    | CHave(b: nat)               // about to enter the ready queue
    | CDrop(b: nat)               // about to hand the dropped buffer to the recycle queue
    | CDone

  datatype DecodePc =
    | DWait
    | DEnter(b: nat)                                     // at the head of MppDecode
    | DDrain(b: nat, local: seq<nat>, waiting: bool)     // recycling holders
    | DCheck(b: nat)                                     // argument checks and end of the CPU window
    | DAcquire(b: nat)                                   // asking for a holder
    | DHolder(b: nat, h: nat)                            // asking the group for a buffer
    | DBuffer(b: nat, h: nat, x: nat)                    // preparing the task
    | DSubmitted(b: nat, h: nat, x: nat)                 // task submitted
    | DWritten(b: nat, h: nat, x: nat)                   // descriptor written
    | DPublish(b: nat, x: nat)                           // output in flight, not yet queued
    | DReturn(b: nat)                                    // about to hand the camera buffer back
    | DDone

  datatype RgaPc =
    | RWait
    | RTest(x: nat, n: nat)               // test of stop in the retry loop, n failures so far
    | RCopy(x: nat, n: nat)               // inside Copy, no slot yet
    | RTransform(x: nat, n: nat, t: nat)  // inside Copy with slot t
    | RGot(x: nat, t: nat)                // Copy succeeded
    | RPush(x: nat, t: nat)               // stop was not set, about to push
    | ROut(x: nat)                        // about to hand the decoder output back
    | RExit
    | RDone

  datatype RecyclePc =
    | YWait
    | YDrain(batch: seq<nat>)
    | YDone

  datatype EncodePc =
    | EWait(f: nat)
    | EHave(t: nat, f: nat)
    | EPushing(t: nat, f: nat)   // inside EncodePushFrame
    | EFailed(t: nat, f: nat)    // the push failed
    | EBack(t: nat, f: nat)      // about to push the slot back to the front
    | EPushed(t: nat)            // the push succeeded
    | EExit
    | EDone

  datatype MainPc =
    | MRun
    | MJoin
    | MDrainDec(batch: seq<nat>)
    | MDrainEnc(batch: seq<nat>)
    | MDone

  // The flags the threads share.
  datatype Control = Control(stop: bool, rgaDone: bool, encodeDone: bool, outputDone: bool)

  // `stranded` are camera buffers that no thread will touch again, `captured` the capture times.
  datatype CameraSide = CameraSide(dev: Device, ready: seq<nat>, recycle: seq<nat>, stranded: seq<nat>,
                                   captured: seq<int>)

  // `orphans` are decoder outputs that no thread will touch again; the counters record refused recycle
  // requests and duplicate descriptors.
  datatype DecoderSide = DecoderSide(pool: Pool, rgaConsume: seq<nat>, mppRecycle: seq<nat>, orphans: seq<nat>,
                                     notInFlight: nat, duplicates: nat)

  // `lost` are slots that no thread will touch again, `accepted` the stamps the encoder received.
  datatype EncoderSide = EncoderSide(slots: Slots, imported: bool, encodeInput: seq<nat>, lost: seq<nat>,
                                     accepted: seq<Stamp>)

  datatype State = State(ctl: Control, cam: CameraSide, dec: DecoderSide, enc: EncoderSide, capture: CapturePc,
                         decode: DecodePc, rga: RgaPc, recycler: RecyclePc, encode: EncodePc, main: MainPc)

  // n camera buffers were granted and all are queued; nothing else has happened.
  function Init(n: nat): State {
    State(Control(false, false, false, false),
          CameraSide(Device(Everyone(n), {}, {}, false, seq(n, i => BLANK), []), [], [], [], []),
          DecoderSide(FRESH_POOL, [], [], [], 0, 0),
          EncoderSide(UNREADY_SLOTS, false, [], [], []),
          CTest, DWait, RWait, YWait, EWait(0), MRun)
  }

  function Stopped(s: State): State {
    s.(ctl := s.ctl.(stop := true))
  }

  // ----- labels -----

  datatype CaptureStep =
    | TestStop
    | TakeRecycled
    | RequeueOne(endOk: bool, queueOk: bool)
    | TestStopAgain
    | ReadRetry
    | ReadFailed
    | ReadUnopened(b: nat)
    | ReadOversized(b: nat, ts: int, endOk: bool, queueOk: bool)
    | ReadFrame(b: nat, ts: int)
    | EnterReady
    | EnterRecycle

  datatype DecodeStep =
    | NextFrame
    | SwapPending
    | RecycleOne
    | DrainDone
    | RejectEarly
    | EndRefused
    | RejectLate
    | CheckedOk
    | TakeHolder
    | WaitForHolder
    | NoBuffer
    | TakeBuffer(x: nat)
    | DecodeFails
    | SubmitTask
    | WriteDescriptor
    | PublishOutput
    | InvalidOutput
    | EnterRgaConsume
    | ReturnFrame

  datatype RgaStep =
    | NextOutput
    | TestStopInRetry
    | InitPool
    | CopyFails
    | TakeSlot
    | TransformFails
    | TransformOk
    | ImportSlots(ok: bool)
    | TestStopBeforePush
    | EnterEncodeInput
    | EnterMppRecycle
    | SignalDone

  datatype EncodeStep =
    | NextSlot
    | TestStopBeforeEncode
    | PushOk(id: nat)
    | PushFails
    | HandleFailure
    | PushBack
    | RecycleSlot
    | SignalEncodeDone

  // Steps of main, and the two ways the encode-output thread touches the shared flags: it stops the
  // pipeline on an error or at the end of the stream, or leaves once the input side is done.
  datatype MainStep =
    | OutputStops
    | OutputLeaves
    | MainStops
    | MainJoins
    | DrainOutput
    | TakeInputs
    | DrainInput
    | ClearQueues

  datatype Step =
    | Capture(c: CaptureStep)
    | Decode(d: DecodeStep)
    | Rga(r: RgaStep)
    | Recycle(swap: bool)
    | Encode(e: EncodeStep)
    | Main(m: MainStep)

  // ----- capture thread -----

  predicate CaptureEnabled(s: State, c: CaptureStep) {
    match c
    case TestStop => s.capture.CTest?
    case TakeRecycled => s.capture.CTake?
    case RequeueOne(_, _) => s.capture.CRequeue? && s.capture.batch != [] && s.capture.batch[0] < |s.cam.dev.stamp|
    case TestStopAgain => s.capture == CRequeue([])
    case ReadRetry => s.capture.CRead?
    case ReadFailed => s.capture.CRead?
    case ReadUnopened(b) => s.capture.CRead? && b in s.cam.dev.driver
    case ReadOversized(b, _, _, _) => s.capture.CRead? && b in s.cam.dev.driver && b < |s.cam.dev.stamp|
    case ReadFrame(b, ts) => s.capture.CRead? && b in s.cam.dev.driver && b < |s.cam.dev.stamp| && ts >= 0
    case EnterReady => s.capture.CHave?
    case EnterRecycle => s.capture.CDrop?
  }

  function DoTakeRecycled(s: State): State {
    s.(capture := CRequeue(s.cam.recycle), cam := s.cam.(recycle := []))
  }

  // A refused requeue ends the thread; the rest of the batch is left behind.
  function DoRequeueOne(s: State, endOk: bool, queueOk: bool): State
    requires CaptureEnabled(s, RequeueOne(endOk, queueOk))
  {
    var batch := s.capture.batch;
    var dev := Requeue(s.cam.dev, batch[0], endOk, queueOk);
    if RequeueOk(s.cam.dev, batch[0], endOk, queueOk) then
      s.(cam := s.cam.(dev := dev), capture := CRequeue(batch[1..]))
    else
      Stopped(s).(cam := s.cam.(dev := dev, stranded := s.cam.stranded + batch), capture := CDone)
  }

  function DoReadUnopened(s: State, b: nat): State {
    Stopped(s).(capture := CDone,
                cam := s.cam.(dev := DequeueUnopened(s.cam.dev, b), stranded := s.cam.stranded + [b]))
  }

  function DoReadOversized(s: State, b: nat, ts: int, endOk: bool, queueOk: bool): State
    requires b < |s.cam.dev.stamp|
  {
    Stopped(s).(capture := CDone,
                cam := s.cam.(dev := DequeueOversized(s.cam.dev, b, ts, endOk, queueOk),
                              stranded := s.cam.stranded + Maybe(!queueOk, b)))
  }

  function DoReadFrame(s: State, b: nat, ts: int): State
    requires b < |s.cam.dev.stamp|
  {
    s.(capture := CHave(b),
       cam := s.cam.(dev := Dequeue(s.cam.dev, b, ts, |s.cam.captured|), captured := s.cam.captured + [ts]))
  }

  // A full ready queue drops its oldest frame.
  function DoEnterReady(s: State): State
    requires s.capture.CHave?
  {
    var q := s.cam.ready;
    if |q| >= MAX_READY then s.(cam := s.cam.(ready := q[1..] + [s.capture.b]), capture := CDrop(q[0]))
    else s.(cam := s.cam.(ready := q + [s.capture.b]), capture := CTest)
  }

  function DoEnterRecycle(s: State): State
    requires s.capture.CDrop?
  {
    s.(cam := s.cam.(recycle := s.cam.recycle + [s.capture.b]), capture := CTest)
  }

  function CaptureApply(s: State, c: CaptureStep): State
    requires CaptureEnabled(s, c)
  {
    match c
    case TestStop => s.(capture := if s.ctl.stop then CDone else CTake)
    case TakeRecycled => DoTakeRecycled(s)
    case RequeueOne(endOk, queueOk) => DoRequeueOne(s, endOk, queueOk)
    case TestStopAgain => s.(capture := if s.ctl.stop then CDone else CRead)
    case ReadRetry => s.(capture := CTest)
    case ReadFailed => Stopped(s).(capture := CDone)
    case ReadUnopened(b) => DoReadUnopened(s, b)
    case ReadOversized(b, ts, endOk, queueOk) => DoReadOversized(s, b, ts, endOk, queueOk)
    case ReadFrame(b, ts) => DoReadFrame(s, b, ts)
    case EnterReady => DoEnterReady(s)
    case EnterRecycle => DoEnterRecycle(s)
  }

  // ----- decode thread -----

  // Places from which a decode that has a buffer can still fail.
  predicate HasBuffer(d: DecodePc) {
    d.DBuffer? || d.DSubmitted? || d.DWritten?
  }

  // Between taking a frame and handing it back the decode thread holds one camera buffer.
  predicate HasFrame(d: DecodePc) {
    !d.DWait? && !d.DDone?
  }

  predicate DecodeEnabled(s: State, d: DecodeStep) {
    match d
    case NextFrame => s.decode.DWait? && (s.cam.ready != [] || s.ctl.stop)
    case SwapPending => s.decode.DEnter?
    case RecycleOne => s.decode.DDrain? && s.decode.local != []
    case DrainDone => s.decode.DDrain? && s.decode.local == []
    case RejectEarly => s.decode.DCheck?
    case EndRefused => s.decode.DCheck? && s.decode.b in s.cam.dev.open
    case RejectLate => s.decode.DCheck?
    case CheckedOk => s.decode.DCheck?
    case TakeHolder => s.decode.DAcquire? && s.dec.pool.free != []
    case WaitForHolder => s.decode.DAcquire? && s.dec.pool.free == []
    case NoBuffer => s.decode.DHolder?
    case TakeBuffer(x) => s.decode.DHolder? && x in s.dec.pool.unused
    case DecodeFails => HasBuffer(s.decode)
    case SubmitTask => s.decode.DBuffer?
    case WriteDescriptor => s.decode.DSubmitted? && s.decode.x < |s.dec.pool.desc| && s.decode.b < |s.cam.dev.stamp|
    case PublishOutput => s.decode.DWritten?
    case InvalidOutput => s.decode.DPublish?
    case EnterRgaConsume => s.decode.DPublish?
    case ReturnFrame => s.decode.DReturn?
  }

  // A request to recycle a decoder output; a refusal is counted.
  function RequestRecycle(d: DecoderSide, x: nat): DecoderSide {
    if x in d.pool.inflight then d.(pool := QueueForRecycle(d.pool, x)) else d.(notInFlight := d.notInFlight + 1)
  }

  function WithPool(s: State, p: Pool, d: DecodePc): State {
    s.(dec := s.dec.(pool := p), decode := d)
  }

  function DoNextFrame(s: State): State {
    var q := s.cam.ready;
    if q == [] then s.(decode := DDone) else s.(decode := DEnter(q[0]), cam := s.cam.(ready := q[1..]))
  }

  // Only this thread adds free holders, so after the pause the drain alone decides what changes.
  function DoWaitForHolder(s: State): State
    requires s.decode.DAcquire?
  {
    var p := s.dec.pool;
    if p.pending == [] then s else WithPool(s, TakePending(p), DDrain(s.decode.b, p.pending, true))
  }

  function DoEndRead(s: State, d: DecodePc): State
    requires s.decode.DCheck?
  {
    s.(cam := s.cam.(dev := EndRead(s.cam.dev, s.decode.b, true)), decode := d)
  }

  function DoSubmit(s: State): State
    requires s.decode.DBuffer?
  {
    s.(cam := s.cam.(dev := Submit(s.cam.dev, s.decode.b)), decode := DSubmitted(s.decode.b, s.decode.h, s.decode.x))
  }

  // The packet carries the repaired stamp of the camera buffer, the descriptor that of the frame.
  function DoWriteDescriptor(s: State): State
    requires s.decode.DSubmitted? && s.decode.x < |s.dec.pool.desc| && s.decode.b < |s.cam.dev.stamp|
  {
    WithPool(s, WriteDesc(s.dec.pool, s.decode.x, Repaired(Repaired(s.cam.dev.stamp[s.decode.b]))),
             DWritten(s.decode.b, s.decode.h, s.decode.x))
  }

  function DoPublish(s: State): State
    requires s.decode.DWritten?
  {
    var b, h, x := s.decode.b, s.decode.h, s.decode.x;
    if x in s.dec.pool.inflight then
      s.(dec := s.dec.(pool := Abandon(s.dec.pool, h, x), duplicates := s.dec.duplicates + 1), decode := DReturn(b))
    else WithPool(s, Publish(s.dec.pool, h, x), DPublish(b, x))
  }

  function DoInvalidOutput(s: State): State
    requires s.decode.DPublish?
  {
    s.(dec := RequestRecycle(s.dec, s.decode.x), decode := DReturn(s.decode.b))
  }

  function DoEnterRgaConsume(s: State): State
    requires s.decode.DPublish?
  {
    s.(dec := s.dec.(rgaConsume := s.dec.rgaConsume + [s.decode.x]), decode := DReturn(s.decode.b))
  }

  function DoReturnFrame(s: State): State
    requires s.decode.DReturn?
  {
    s.(cam := s.cam.(recycle := s.cam.recycle + [s.decode.b]), decode := DWait)
  }

  function DecodeApply(s: State, d: DecodeStep): State
    requires DecodeEnabled(s, d)
  {
    var p := s.dec.pool;
    match d
    case NextFrame => DoNextFrame(s)
    case SwapPending => WithPool(s, TakePending(p), DDrain(s.decode.b, p.pending, false))
    case RecycleOne => WithPool(s, RecycleHolder(p, s.decode.local[0]),
        DDrain(s.decode.b, s.decode.local[1..], s.decode.waiting))
    case DrainDone => s.(decode := if s.decode.waiting then DAcquire(s.decode.b) else DCheck(s.decode.b))
    case RejectEarly => s.(decode := DReturn(s.decode.b))
    case EndRefused => s.(decode := DReturn(s.decode.b))
    case RejectLate => DoEndRead(s, DReturn(s.decode.b))
    case CheckedOk => DoEndRead(s, DAcquire(s.decode.b))
    case TakeHolder => WithPool(s, AcquireHolder(p), DHolder(s.decode.b, p.free[0]))
    case WaitForHolder => DoWaitForHolder(s)
    case NoBuffer => WithPool(s, ReturnHolder(p, s.decode.h), DReturn(s.decode.b))
    case TakeBuffer(x) => WithPool(s, GetBuffer(p, x), DBuffer(s.decode.b, s.decode.h, x))
    case DecodeFails => WithPool(s, Abandon(p, s.decode.h, s.decode.x), DReturn(s.decode.b))
    case SubmitTask => DoSubmit(s)
    case WriteDescriptor => DoWriteDescriptor(s)
    case PublishOutput => DoPublish(s)
    case InvalidOutput => DoInvalidOutput(s)
    case EnterRgaConsume => DoEnterRgaConsume(s)
    case ReturnFrame => DoReturnFrame(s)
  }

  // ----- RGA thread -----

  // The pool has one flag and one descriptor per slot.
  predicate Sized(s: State) {
    |s.enc.slots.inUse| == |s.enc.slots.stamp|
  }

  predicate RgaEnabled(s: State, r: RgaStep) {
    match r
    case NextOutput => s.rga.RWait? && (s.dec.rgaConsume != [] || s.ctl.stop)
    case TestStopInRetry => s.rga.RTest?
    case InitPool => s.rga.RCopy? && !s.enc.slots.ready
    case CopyFails => s.rga.RCopy?
    case TakeSlot => s.rga.RCopy? && s.enc.slots.available != [] && s.enc.slots.available[0] < |s.enc.slots.inUse|
    case TransformFails => s.rga.RTransform? && Sized(s)
    case TransformOk => s.rga.RTransform? && s.rga.t < |s.enc.slots.stamp| && s.rga.x < |s.dec.pool.desc|
    case ImportSlots(_) => s.rga.RGot? && !s.enc.imported && Sized(s)
    case TestStopBeforePush => s.rga.RGot? && s.enc.imported
    case EnterEncodeInput => s.rga.RPush?
    case EnterMppRecycle => s.rga.ROut?
    case SignalDone => s.rga.RExit?
  }

  function WithSlots(s: State, p: Slots): State {
    s.(enc := s.enc.(slots := p))
  }

  // After the n-th failed attempt: give up at the limit, otherwise retry.
  function CopyFailed(s: State, x: nat, n: nat): State {
    if n >= MAX_RGA_RETRY then Stopped(s).(rga := ROut(x)) else s.(rga := RTest(x, n))
  }

  function DoNextOutput(s: State): State {
    var q := s.dec.rgaConsume;
    if q == [] then s.(rga := RExit) else s.(rga := RTest(q[0], 0), dec := s.dec.(rgaConsume := q[1..]))
  }

  function DoTransformOk(s: State): State
    requires s.rga.RTransform? && s.rga.t < |s.enc.slots.stamp| && s.rga.x < |s.dec.pool.desc|
  {
    WithSlots(s, StampSlot(s.enc.slots, s.rga.t, Repaired(s.dec.pool.desc[s.rga.x]))).(rga := RGot(s.rga.x, s.rga.t))
  }

  function DoImport(s: State, ok: bool): State
    requires s.rga.RGot? && Sized(s)
  {
    if ok then s.(enc := s.enc.(imported := true))
    else Stopped(WithSlots(s, ReturnSlot(s.enc.slots, s.rga.t))).(rga := ROut(s.rga.x))
  }

  // A slot that was filled when stop is seen is neither pushed nor returned.
  function DoTestStopBeforePush(s: State): State
    requires s.rga.RGot?
  {
    if s.ctl.stop then s.(enc := s.enc.(lost := s.enc.lost + [s.rga.t]), rga := ROut(s.rga.x))
    else s.(rga := RPush(s.rga.x, s.rga.t))
  }

  function DoEnterEncodeInput(s: State): State
    requires s.rga.RPush?
  {
    s.(enc := s.enc.(encodeInput := s.enc.encodeInput + [s.rga.t]), rga := ROut(s.rga.x))
  }

  function RgaApply(s: State, r: RgaStep): State
    requires RgaEnabled(s, r)
  {
    match r
    case NextOutput => DoNextOutput(s)
    case TestStopInRetry => s.(rga := if s.ctl.stop then ROut(s.rga.x) else RCopy(s.rga.x, s.rga.n))
    case InitPool => WithSlots(s, Initialized(s.enc.slots))
    case CopyFails => CopyFailed(s, s.rga.x, s.rga.n + 1)
    case TakeSlot =>
      WithSlots(s, AcquireSlot(s.enc.slots)).(rga := RTransform(s.rga.x, s.rga.n, s.enc.slots.available[0]))
    case TransformFails => CopyFailed(WithSlots(s, ReturnSlot(s.enc.slots, s.rga.t)), s.rga.x, s.rga.n + 1)
    case TransformOk => DoTransformOk(s)
    case ImportSlots(ok) => DoImport(s, ok)
    case TestStopBeforePush => DoTestStopBeforePush(s)
    case EnterEncodeInput => DoEnterEncodeInput(s)
    case EnterMppRecycle => s.(dec := s.dec.(mppRecycle := s.dec.mppRecycle + [s.rga.x]), rga := RWait)
    case SignalDone => s.(ctl := s.ctl.(rgaDone := true), rga := RDone)
  }

  // ----- decoder-output recycle thread -----

  predicate RecycleEnabled(s: State, swap: bool) {
    if swap then s.recycler.YWait? && (s.dec.mppRecycle != [] || (s.ctl.stop && s.ctl.rgaDone))
    else s.recycler.YDrain? && s.recycler.batch != []
  }

  function RecycleApply(s: State, swap: bool): State
    requires RecycleEnabled(s, swap)
  {
    if swap then
      if s.dec.mppRecycle == [] then s.(recycler := YDone)
      else s.(recycler := YDrain(s.dec.mppRecycle), dec := s.dec.(mppRecycle := []))
    else
      var batch := s.recycler.batch;
      s.(dec := RequestRecycle(s.dec, batch[0]), recycler := if |batch| == 1 then YWait else YDrain(batch[1..]))
  }

  // ----- encode-input thread -----

  predicate EncodeEnabled(s: State, e: EncodeStep) {
    match e
    case NextSlot => s.encode.EWait? && (s.enc.encodeInput != [] || s.ctl.stop)
    case TestStopBeforeEncode => s.encode.EHave? && Sized(s)
    case PushOk(_) => s.encode.EPushing? && s.encode.t < |s.enc.slots.stamp|
    case PushFails => s.encode.EPushing?
    case HandleFailure => s.encode.EFailed? && Sized(s)
    case PushBack => s.encode.EBack?
    case RecycleSlot => s.encode.EPushed? && Sized(s)
    case SignalEncodeDone => s.encode.EExit?
  }

  function GiveSlot(s: State, t: nat, e: EncodePc): State
    requires Sized(s)
  {
    WithSlots(s, ReturnSlot(s.enc.slots, t)).(encode := e)
  }

  function DoNextSlot(s: State): State
    requires s.encode.EWait?
  {
    var q := s.enc.encodeInput;
    if q == [] then s.(encode := EExit)
    else s.(encode := EHave(q[0], s.encode.f), enc := s.enc.(encodeInput := q[1..]))
  }

  // The encoder takes frame number `id` of its own count, with the slot's timestamps.
  function DoPushOk(s: State, id: nat): State
    requires s.encode.EPushing? && s.encode.t < |s.enc.slots.stamp|
  {
    var st := InputStamp(s.enc.slots.stamp[s.encode.t], id, DEFAULT_FPS);
    s.(enc := s.enc.(accepted := s.enc.accepted + [st]), encode := EPushed(s.encode.t))
  }

  function DoHandleFailure(s: State): State
    requires s.encode.EFailed? && Sized(s)
  {
    if s.ctl.stop then GiveSlot(s, s.encode.t, EExit)
    else if s.encode.f + 1 <= MAX_PUSH_RETRY then s.(encode := EBack(s.encode.t, s.encode.f + 1))
    else Stopped(GiveSlot(s, s.encode.t, EExit))
  }

  function DoPushBack(s: State): State
    requires s.encode.EBack?
  {
    s.(enc := s.enc.(encodeInput := [s.encode.t] + s.enc.encodeInput), encode := EWait(s.encode.f))
  }

  function DoRecycleSlot(s: State): State
    requires s.encode.EPushed? && Sized(s)
  {
    if CanReturn(s.enc.slots, s.encode.t) then GiveSlot(s, s.encode.t, EWait(0)) else Stopped(s).(encode := EExit)
  }

  function EncodeApply(s: State, e: EncodeStep): State
    requires EncodeEnabled(s, e)
  {
    match e
    case NextSlot => DoNextSlot(s)
    case TestStopBeforeEncode =>
      if s.ctl.stop then GiveSlot(s, s.encode.t, EExit) else s.(encode := EPushing(s.encode.t, s.encode.f))
    case PushOk(id) => DoPushOk(s, id)
    case PushFails => s.(encode := EFailed(s.encode.t, s.encode.f))
    case HandleFailure => DoHandleFailure(s)
    case PushBack => DoPushBack(s)
    case RecycleSlot => DoRecycleSlot(s)
    case SignalEncodeDone => s.(ctl := s.ctl.(encodeDone := true), encode := EDone)
  }

  // ----- encode-output thread (its effect on the others) and main -----

  predicate AllJoined(s: State) {
    s.capture.CDone? && s.decode.DDone? && s.rga.RDone? && s.encode.EDone? && s.ctl.outputDone && s.recycler.YDone?
  }

  predicate MainEnabled(s: State, m: MainStep) {
    match m
    case OutputStops => !s.ctl.outputDone
    case OutputLeaves => !s.ctl.outputDone && s.ctl.stop && s.ctl.encodeDone
    case MainStops => s.main.MRun?
    case MainJoins => s.main.MJoin? && AllJoined(s)
    case DrainOutput => s.main.MDrainDec? && s.main.batch != []
    case TakeInputs => s.main == MDrainDec([])
    case DrainInput => s.main.MDrainEnc? && s.main.batch != [] && Sized(s)
    case ClearQueues => s.main == MDrainEnc([])
  }

  function DoClear(s: State): State {
    s.(cam := s.cam.(stranded := s.cam.stranded + s.cam.ready + s.cam.recycle, ready := [], recycle := []),
       dec := s.dec.(orphans := s.dec.orphans + s.dec.rgaConsume + s.dec.mppRecycle, rgaConsume := [],
           mppRecycle := []),
       enc := s.enc.(lost := s.enc.lost + s.enc.encodeInput, encodeInput := []),
       main := MDone)
  }

  function MainApply(s: State, m: MainStep): State
    requires MainEnabled(s, m)
  {
    match m
    case OutputStops => s.(ctl := s.ctl.(stop := true, outputDone := true))
    case OutputLeaves => s.(ctl := s.ctl.(outputDone := true))
    case MainStops => Stopped(s).(main := MJoin)
    case MainJoins => s.(main := MDrainDec(s.dec.mppRecycle), dec := s.dec.(mppRecycle := []))
    case DrainOutput => s.(dec := RequestRecycle(s.dec, s.main.batch[0]), main := MDrainDec(s.main.batch[1..]))
    case TakeInputs => s.(main := MDrainEnc(s.enc.encodeInput), enc := s.enc.(encodeInput := []))
    case DrainInput => WithSlots(s, ReturnSlot(s.enc.slots, s.main.batch[0])).(main := MDrainEnc(s.main.batch[1..]))
    case ClearQueues => DoClear(s)
  }

  // ----- steps and runs -----

  predicate Enabled(s: State, a: Step) {
    match a
    case Capture(c) => CaptureEnabled(s, c)
    case Decode(d) => DecodeEnabled(s, d)
    case Rga(r) => RgaEnabled(s, r)
    case Recycle(swap) => RecycleEnabled(s, swap)
    case Encode(e) => EncodeEnabled(s, e)
    case Main(m) => MainEnabled(s, m)
  }

  function Apply(s: State, a: Step): State
    requires Enabled(s, a)
  {
    match a
    case Capture(c) => CaptureApply(s, c)
    case Decode(d) => DecodeApply(s, d)
    case Rga(r) => RgaApply(s, r)
    case Recycle(swap) => RecycleApply(s, swap)
    case Encode(e) => EncodeApply(s, e)
    case Main(m) => MainApply(s, m)
  }

  // A run from `s` that takes enabled steps only, and the state it leads to.
  ghost predicate ValidRun(s: State, run: seq<Step>)
    decreases |run|, 0
  {
    run != [] ==>
      ValidRun(s, run[..|run| - 1]) && Enabled(After(s, run[..|run| - 1]), run[|run| - 1])
  }

  ghost function After(s: State, run: seq<Step>): State
    requires ValidRun(s, run)
    decreases |run|, 1
  {
    if run == [] then s else Apply(After(s, run[..|run| - 1]), run[|run| - 1])
  }
}
