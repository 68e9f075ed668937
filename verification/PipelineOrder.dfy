// Frames in flight, in order: the stamps of all frames between capture and encoder form one line that
// stays strictly increasing, whatever is dropped, fails or is retried.

module PipelineOrder {
  import opened Limits
  import opened FrameStamps
  import opened Populations
  import opened Lines
  import opened DecoderPool
  import opened RgaPool
  import opened Pipeline
  import opened PipelineCamera
  import opened PipelineDecoder
  import opened PipelineRga

  // ----- the segments of the line -----

  function EncodeLine(c: EncoderSide, e: EncodePc): seq<Stamp> {
    if EncodeHasSlot(e) && !e.EPushed? then [StampOf(c.slots.stamp, e.t)] else []
  }

  function EncodeQueue(c: EncoderSide): seq<Stamp> {
    Stamps(c.slots.stamp, c.encodeInput)
  }

  function RgaLine(d: DecoderSide, c: EncoderSide, r: RgaPc): seq<Stamp> {
    if r.RTest? || r.RCopy? || r.RTransform? then [StampOf(d.pool.desc, r.x)]
    else if r.RGot? || r.RPush? then [StampOf(c.slots.stamp, r.t)]
    else []
  }

  function RgaQueue(d: DecoderSide): seq<Stamp> {
    Stamps(d.pool.desc, d.rgaConsume)
  }

  function DecodeLine(c: CameraSide, d: DecoderSide, e: DecodePc): seq<Stamp> {
    if e.DPublish? then [StampOf(d.pool.desc, e.x)]
    else if HasFrame(e) && !e.DReturn? then [StampOf(c.dev.stamp, e.b)]
    else []
  }

  function ReadyQueue(c: CameraSide): seq<Stamp> {
    Stamps(c.dev.stamp, c.ready)
  }

  function CaptureLine(c: CameraSide, h: CapturePc): seq<Stamp> {
    if h.CHave? then [StampOf(c.dev.stamp, h.b)] else []
  }

  function FrontOf(s: State): seq<Stamp> {
    Front(s.enc.accepted, EncodeLine(s.enc, s.encode), EncodeQueue(s.enc), RgaLine(s.dec, s.enc, s.rga))
  }

  function BackOf(s: State): seq<Stamp> {
    Back(RgaQueue(s.dec), DecodeLine(s.cam, s.dec, s.decode), ReadyQueue(s.cam), CaptureLine(s.cam, s.capture))
  }

  // Between writing and publishing, the descriptor repeats the stamp of the frame in hand.
  ghost predicate Copied(s: State) {
    s.decode.DWritten? ==> StampOf(s.dec.pool.desc, s.decode.x) == StampOf(s.cam.dev.stamp, s.decode.b)
  }

  ghost predicate OrderInv(s: State) {
    Line(FrontOf(s) + BackOf(s), s.cam.captured) && Copied(s)
  }

  lemma NothingCaptured(s: State)
    requires s.enc.accepted == [] && s.enc.encodeInput == [] && s.dec.rgaConsume == [] && s.cam.ready == []
    requires s.encode.EWait? && s.rga.RWait? && s.decode.DWait? && s.capture.CTest?
    ensures OrderInv(s)
  {
    assert FrontOf(s) + BackOf(s) == [];
  }

  lemma InitOrder(n: nat)
    ensures OrderInv(Init(n))
  {
    NothingCaptured(Init(n));
  }

  // ----- capture thread -----

  // Stamps under which the waiting frames and the frame being decoded read as before.
  ghost predicate FramesReadSame(s: State, stamps: seq<Stamp>) {
    && Stamps(stamps, s.cam.ready) == ReadyQueue(s.cam)
    && (HasFrame(s.decode) ==> StampOf(stamps, s.decode.b) == StampOf(s.cam.dev.stamp, s.decode.b))
  }

  // A stamp may be written into a buffer that is neither waiting nor being decoded.
  lemma WriteAside(s: State, b: nat, st: Stamp)
    requires b < |s.cam.dev.stamp| && Count(s.cam.ready, b) == 0 && DecodeHolds(s.decode, b) == 0
    ensures FramesReadSame(s, s.cam.dev.stamp[b := st])
  {
    StampsElsewhere(s.cam.dev.stamp, b, st, s.cam.ready);
  }

  // A capture step without a frame in hand, before or after.
  lemma NoFrameOrder(s: State, t: State)
    requires OrderInv(s) && t.enc == s.enc && t.dec == s.dec && t.decode == s.decode && t.rga == s.rga
        && t.encode == s.encode
    requires !s.capture.CHave? && !t.capture.CHave? && t.cam.captured == s.cam.captured && t.cam.ready == s.cam.ready
    requires FramesReadSame(s, t.cam.dev.stamp)
    ensures OrderInv(t)
  {
  }

  lemma RequeueOneOrder(s: State, endOk: bool, queueOk: bool, n: nat)
    requires CaptureEnabled(s, RequeueOne(endOk, queueOk)) && CameraInv(s, n) && OrderInv(s)
    ensures OrderInv(DoRequeueOne(s, endOk, queueOk))
  {
    var b := s.capture.batch[0];
    assert Places(s.cam, s.capture, s.decode, b) == One(b, n);
    WriteAside(s, b, BLANK);
    NoFrameOrder(s, DoRequeueOne(s, endOk, queueOk));
  }

  lemma ReadOversizedOrder(s: State, b: nat, ts: int, endOk: bool, queueOk: bool, n: nat)
    requires CaptureEnabled(s, ReadOversized(b, ts, endOk, queueOk)) && CameraInv(s, n) && OrderInv(s)
    ensures OrderInv(DoReadOversized(s, b, ts, endOk, queueOk))
  {
    assert Places(s.cam, s.capture, s.decode, b) == One(b, n);
    WriteAside(s, b, Stamp(ts, ts, 0));
    NoFrameOrder(s, DoReadOversized(s, b, ts, endOk, queueOk));
  }

  lemma NewestLast(f: seq<Stamp>, o: seq<Stamp>, d: seq<Stamp>, y: seq<Stamp>, st: Stamp)
    ensures f + Back(o, d, y, [st]) == f + Back(o, d, y, []) + [st]
  {
  }

  lemma ReadFrameOrder(s: State, b: nat, ts: int, n: nat)
    requires CaptureEnabled(s, ReadFrame(b, ts)) && CameraInv(s, n) && OrderInv(s)
    ensures OrderInv(DoReadFrame(s, b, ts))
  {
    var t := DoReadFrame(s, b, ts);
    var st := Stamp(ts, ts, |s.cam.captured|);
    assert Places(s.cam, s.capture, s.decode, b) == One(b, n);
    WriteAside(s, b, st);
    assert CaptureLine(t.cam, t.capture) == [st];
    NewestLast(FrontOf(s), RgaQueue(s.dec), DecodeLine(s.cam, s.dec, s.decode), ReadyQueue(s.cam), st);
  }

  lemma EnterReadyOrder(s: State)
    requires s.capture.CHave? && OrderInv(s)
    ensures OrderInv(DoEnterReady(s))
  {
    var q, x := s.cam.ready, s.capture.b;
    var st := StampOf(s.cam.dev.stamp, x);
    var o, d := RgaQueue(s.dec), DecodeLine(s.cam, s.dec, s.decode);
    if |q| >= MAX_READY {
      StampsPush(s.cam.dev.stamp, q[1..], x);
      DropOldest(FrontOf(s), o, d, StampOf(s.cam.dev.stamp, q[0]), Stamps(s.cam.dev.stamp, q[1..]), [st],
          s.cam.captured);
    } else {
      StampsPush(s.cam.dev.stamp, q, x);
      QueueCaptured(o, d, ReadyQueue(s.cam), st);
    }
  }

  lemma WaitingAreOrdered(f: seq<Stamp>, o: seq<Stamp>, d: seq<Stamp>, y: seq<Stamp>, x: Stamp, captured: seq<int>,
      k: nat)
    requires Line(f + Back(o, d, y, [x]), captured) && 0 < k < |y + [x]|
    ensures (y + [x])[0].frame < (y + [x])[k].frame
  {
    var pre := f + o + d;
    assert f + Back(o, d, y, [x]) == pre + (y + [x]);
    assert (pre + (y + [x]))[|pre|] == (y + [x])[0] && (pre + (y + [x]))[|pre| + k] == (y + [x])[k];
  }

  // The frame a full ready queue drops is older than every frame that stays, the new one included, and
  // the new one is last.
  lemma DropsOldest(s: State, i: nat)
    requires s.capture.CHave? && OrderInv(s) && |s.cam.ready| >= MAX_READY
    requires i < |s.cam.ready|
    ensures var t := DoEnterReady(s);
            && t.capture.CDrop? && |t.cam.ready| == |s.cam.ready| && t.cam.ready[|t.cam.ready| - 1] == s.capture.b
            && StampOf(s.cam.dev.stamp, t.capture.b).frame < StampOf(s.cam.dev.stamp, t.cam.ready[i]).frame
  {
    var st, q, x := s.cam.dev.stamp, s.cam.ready, s.capture.b;
    var t := DoEnterReady(s);
    assert t.cam.ready == q[1..] + [x];
    assert q + [x] == [q[0]] + t.cam.ready;
    StampsPush(st, q, x);
    StampsAt(st, q + [x], 0);
    StampsAt(st, q + [x], i + 1);
    WaitingAreOrdered(FrontOf(s), RgaQueue(s.dec), DecodeLine(s.cam, s.dec, s.decode), ReadyQueue(s.cam),
        StampOf(st, x),
                      s.cam.captured, i + 1);
  }

  lemma CaptureKeepsOrder(s: State, c: CaptureStep, n: nat)
    requires CaptureEnabled(s, c) && CameraInv(s, n) && OrderInv(s)
    ensures OrderInv(CaptureApply(s, c))
  {
    match c
    case ReadFrame(b, ts) => ReadFrameOrder(s, b, ts, n);
    case EnterReady => EnterReadyOrder(s);
    case RequeueOne(endOk, queueOk) => RequeueOneOrder(s, endOk, queueOk, n);
    case ReadOversized(b, ts, endOk, queueOk) => ReadOversizedOrder(s, b, ts, endOk, queueOk, n);
    case _ => NoFrameOrder(s, CaptureApply(s, c));
  }

  // ----- decode thread -----

  // A step of the decode thread that changes neither stamps nor queues.
  ghost predicate OnlyDecode(s: State, t: State) {
    && t.enc == s.enc && t.rga == s.rga && t.encode == s.encode && t.capture == s.capture
    && t.cam.dev.stamp == s.cam.dev.stamp && t.cam.ready == s.cam.ready && t.cam.captured == s.cam.captured
    && t.dec.pool.desc == s.dec.pool.desc && t.dec.rgaConsume == s.dec.rgaConsume
  }

  predicate Carries(d: DecodeStep) {
    d.SwapPending? || d.RecycleOne? || d.DrainDone? || d.CheckedOk? || d.TakeHolder? || d.WaitForHolder?
        || d.TakeBuffer?
    || d.SubmitTask? || d.ReturnFrame?
  }

  predicate Drops(d: DecodeStep) {
    d.RejectEarly? || d.EndRefused? || d.RejectLate? || d.NoBuffer? || d.DecodeFails? || d.InvalidOutput?
  }

  lemma CarriesFrame(s: State, d: DecodeStep)
    requires DecodeEnabled(s, d) && Carries(d)
    ensures OnlyDecode(s, DecodeApply(s, d)) && !DecodeApply(s, d).decode.DWritten?
  {
  }

  lemma CarriesShape(s: State, d: DecodeStep)
    requires DecodeEnabled(s, d) && Carries(d)
    ensures var t := DecodeApply(s, d);
            OnlyDecode(s, t) && DecodeLine(t.cam, t.dec, t.decode) == DecodeLine(s.cam, s.dec, s.decode)
                && !t.decode.DWritten?
  {
    CarriesFrame(s, d);
  }

  lemma DropsOrder(s: State, t: State)
    requires OrderInv(s) && OnlyDecode(s, t) && t.decode.DReturn?
    ensures OrderInv(t)
  {
    DropDecode(FrontOf(s), RgaQueue(s.dec), DecodeLine(s.cam, s.dec, s.decode), ReadyQueue(s.cam),
               CaptureLine(s.cam, s.capture), s.cam.captured);
  }

  lemma NextFrameOrder(s: State)
    requires s.decode.DWait? && OrderInv(s)
    ensures OrderInv(DoNextFrame(s))
  {
    var q := s.cam.ready;
    if q != [] {
      TakeReady(RgaQueue(s.dec), StampOf(s.cam.dev.stamp, q[0]), Stamps(s.cam.dev.stamp, q[1..]),
          CaptureLine(s.cam, s.capture));
    }
  }

  lemma EnterRgaConsumeOrder(s: State)
    requires s.decode.DPublish? && OrderInv(s)
    ensures OrderInv(DoEnterRgaConsume(s))
  {
    StampsPush(s.dec.pool.desc, s.dec.rgaConsume, s.decode.x);
    QueueDecoded(RgaQueue(s.dec), StampOf(s.dec.pool.desc, s.decode.x), ReadyQueue(s.cam),
        CaptureLine(s.cam, s.capture));
  }

  // The stamp of the frame in hand is on the line, so it is true.
  lemma FrameInHandIsTrue(s: State)
    requires OrderInv(s) && HasBuffer(s.decode)
    ensures True(StampOf(s.cam.dev.stamp, s.decode.b), s.cam.captured)
  {
    var st := StampOf(s.cam.dev.stamp, s.decode.b);
    BackAround(FrontOf(s), RgaQueue(s.dec), [st], ReadyQueue(s.cam), CaptureLine(s.cam, s.capture));
    MemberIsTrue(FrontOf(s) + RgaQueue(s.dec), st, ReadyQueue(s.cam) + CaptureLine(s.cam, s.capture), s.cam.captured);
  }

  lemma WriteDescriptorOrder(s: State)
    requires DecodeEnabled(s, WriteDescriptor) && OrderInv(s)
    requires Count(s.dec.rgaConsume, s.decode.x) == 0 && RgaHolds(s.rga, s.decode.x) == 0
    ensures OrderInv(DoWriteDescriptor(s))
  {
    FrameInHandIsTrue(s);
    var st := s.cam.dev.stamp[s.decode.b];
    StampsElsewhere(s.dec.pool.desc, s.decode.x, st, s.dec.rgaConsume);
  }

  lemma NotInFlight(p: Pool, e: DecodePc)
    requires PoolAgrees(p, e) && HasBuffer(e)
    ensures e.x !in p.inflight
  {
    HeldBufferIsExclusive(p, [], e.h, e.x);
  }

  // The descriptor a decode writes is nowhere in use.
  lemma DescriptorIsFree(s: State)
    requires DecoderInv(s) && HasBuffer(s.decode)
    ensures Count(s.dec.rgaConsume, s.decode.x) == 0 && RgaHolds(s.rga, s.decode.x) == 0
    ensures Count(s.dec.mppRecycle, s.decode.x) == 0 && BatchHolds(s.recycler, s.decode.x) == 0
    ensures s.decode.x !in s.dec.pool.inflight
  {
    var x := s.decode.x;
    NotInFlight(s.dec.pool, s.decode);
    assert Reached(s.dec, s.decode, s.rga, s.recycler, s.main, x) == InFlight(s.dec.pool, x);
  }

  lemma DecodeKeepsOrder(s: State, d: DecodeStep)
    requires DecodeEnabled(s, d) && DecoderInv(s) && OrderInv(s)
    ensures OrderInv(DecodeApply(s, d))
  {
    if Carries(d) {
      CarriesShape(s, d);
    } else if Drops(d) {
      DropsOrder(s, DecodeApply(s, d));
    } else {
      match d
      case NextFrame => NextFrameOrder(s);
      case EnterRgaConsume => EnterRgaConsumeOrder(s);
      case WriteDescriptor =>
        DescriptorIsFree(s);
        WriteDescriptorOrder(s);
      case PublishOutput =>
        DescriptorIsFree(s);
    }
  }

  // ----- RGA thread -----

  ghost predicate BackSame(s: State, t: State) {
    && t.cam == s.cam && t.decode == s.decode && t.capture == s.capture && t.dec.pool == s.dec.pool
  }

  lemma NextOutputOrder(s: State)
    requires s.rga.RWait? && OrderInv(s)
    ensures OrderInv(DoNextOutput(s))
  {
    var q := s.dec.rgaConsume;
    if q != [] {
      TakeDecoded(s.enc.accepted, EncodeLine(s.enc, s.encode), EncodeQueue(s.enc), StampOf(s.dec.pool.desc, q[0]),
                  Stamps(s.dec.pool.desc, q[1..]), DecodeLine(s.cam, s.dec, s.decode), ReadyQueue(s.cam),
                  CaptureLine(s.cam, s.capture));
    }
  }

  // Slot stamps under which everything on its way into the encoder reads as before.
  ghost predicate SlotsReadSame(s: State, stamps: seq<Stamp>) {
    && Stamps(stamps, s.enc.encodeInput) == EncodeQueue(s.enc)
    && (EncodeHasSlot(s.encode) ==> StampOf(stamps, s.encode.t) == StampOf(s.enc.slots.stamp, s.encode.t))
  }

  // The slot of the RGA thread is in nobody else's hands, so its stamp may be written.
  lemma WriteRgaSlot(s: State, st: Stamp)
    requires SlotInv(s) && RgaHasSlot(s.rga) && s.rga.t < |s.enc.slots.stamp|
    ensures SlotsReadSame(s, s.enc.slots.stamp[s.rga.t := st])
  {
    assert SlotPlaces(s.enc, s.rga, s.encode, s.main, s.rga.t) == InUse(s.enc.slots, s.rga.t);
    StampsElsewhere(s.enc.slots.stamp, s.rga.t, st, s.enc.encodeInput);
  }

  ghost predicate RgaOnly(s: State, t: State) {
    && BackSame(s, t) && t.dec.rgaConsume == s.dec.rgaConsume && t.encode == s.encode
    && t.enc.accepted == s.enc.accepted && t.enc.encodeInput == s.enc.encodeInput
    && SlotsReadSame(s, t.enc.slots.stamp)
  }

  // The RGA thread gives up its frame.
  lemma RgaDropsOrder(s: State, t: State)
    requires OrderInv(s) && RgaOnly(s, t) && t.rga.ROut?
    ensures OrderInv(t)
  {
    DropRga(s.enc.accepted, EncodeLine(s.enc, s.encode), EncodeQueue(s.enc), RgaLine(s.dec, s.enc, s.rga), BackOf(s),
            s.cam.captured);
  }

  // The RGA thread keeps its frame.
  lemma RgaCarriesOrder(s: State, t: State)
    requires OrderInv(s) && RgaOnly(s, t) && RgaLine(t.dec, t.enc, t.rga) == RgaLine(s.dec, s.enc, s.rga)
    ensures OrderInv(t)
  {
  }

  // The decoder output in the RGA thread's hands carries a true stamp.
  lemma OutputInHandIsTrue(s: State)
    requires OrderInv(s) && s.rga.RTransform?
    ensures True(StampOf(s.dec.pool.desc, s.rga.x), s.cam.captured)
  {
    var st := StampOf(s.dec.pool.desc, s.rga.x);
    FrontAround(s.enc.accepted, EncodeLine(s.enc, s.encode), EncodeQueue(s.enc), [st], BackOf(s));
    MemberIsTrue(s.enc.accepted + EncodeLine(s.enc, s.encode) + EncodeQueue(s.enc), st, BackOf(s), s.cam.captured);
  }

  lemma TransformOkOrder(s: State)
    requires RgaEnabled(s, TransformOk) && SlotInv(s) && OrderInv(s)
    ensures OrderInv(DoTransformOk(s))
  {
    OutputInHandIsTrue(s);
    var st := s.dec.pool.desc[s.rga.x];
    WriteRgaSlot(s, st);
    RgaCarriesOrder(s, DoTransformOk(s));
  }

  // Returning the RGA thread's slot blanks at most that slot's stamp.
  lemma ReturnedReadsSame(s: State)
    requires SlotInv(s) && RgaHasSlot(s.rga)
    ensures SlotsReadSame(s, ReturnSlot(s.enc.slots, s.rga.t).stamp)
  {
    if CanReturn(s.enc.slots, s.rga.t) && s.enc.slots.inUse[s.rga.t] {
      WriteRgaSlot(s, BLANK);
    }
  }

  lemma TransformFailsOrder(s: State)
    requires RgaEnabled(s, TransformFails) && SlotInv(s) && OrderInv(s)
    ensures OrderInv(RgaApply(s, TransformFails))
  {
    ReturnedReadsSame(s);
    var t := RgaApply(s, TransformFails);
    if t.rga.ROut? { RgaDropsOrder(s, t); } else { RgaCarriesOrder(s, t); }
  }

  lemma ImportOrder(s: State, ok: bool)
    requires RgaEnabled(s, ImportSlots(ok)) && SlotInv(s) && OrderInv(s)
    ensures OrderInv(DoImport(s, ok))
  {
    ReturnedReadsSame(s);
    if ok { RgaCarriesOrder(s, DoImport(s, ok)); } else { RgaDropsOrder(s, DoImport(s, ok)); }
  }

  // Before the pool is ready nothing can be queued for the encoder.
  lemma UnreadyIsEmpty(s: State)
    requires SlotInv(s) && !s.enc.slots.ready
    ensures s.enc.encodeInput == [] && !EncodeHasSlot(s.encode)
  {
    forall x: nat
      ensures Count(s.enc.encodeInput, x) == 0 && EncodeSlot(s.encode, x) == 0
    {
      assert SlotPlaces(s.enc, s.rga, s.encode, s.main, x) == InUse(s.enc.slots, x);
    }
    CountFirst(s.enc.encodeInput);
    assert EncodeHasSlot(s.encode) ==> EncodeSlot(s.encode, s.encode.t) == 1;
  }

  lemma InitPoolOrder(s: State)
    requires RgaEnabled(s, InitPool) && SlotInv(s) && OrderInv(s)
    ensures OrderInv(RgaApply(s, InitPool))
  {
    UnreadyIsEmpty(s);
  }

  lemma EnterEncodeInputOrder(s: State)
    requires s.rga.RPush? && OrderInv(s)
    ensures OrderInv(DoEnterEncodeInput(s))
  {
    StampsPush(s.enc.slots.stamp, s.enc.encodeInput, s.rga.t);
    QueueTransformed(s.enc.accepted, EncodeLine(s.enc, s.encode), EncodeQueue(s.enc),
        StampOf(s.enc.slots.stamp, s.rga.t));
  }

  lemma RgaKeepsOrder(s: State, r: RgaStep)
    requires RgaEnabled(s, r) && SlotInv(s) && OrderInv(s)
    ensures OrderInv(RgaApply(s, r))
  {
    match r
    case NextOutput => NextOutputOrder(s);
    case TransformOk => TransformOkOrder(s);
    case TransformFails => TransformFailsOrder(s);
    case ImportSlots(ok) => ImportOrder(s, ok);
    case InitPool => InitPoolOrder(s);
    case EnterEncodeInput => EnterEncodeInputOrder(s);
    case TestStopInRetry => if s.ctl.stop { RgaDropsOrder(s, RgaApply(s, r)); }
    case CopyFails => if s.rga.n + 1 >= MAX_RGA_RETRY { RgaDropsOrder(s, RgaApply(s, r)); }
    case TestStopBeforePush => if s.ctl.stop { RgaDropsOrder(s, RgaApply(s, r)); }
    case _ => RgaCarriesOrder(s, RgaApply(s, r));
  }

  // ----- encode-input thread -----

  lemma EncodeSlotIsAside(s: State)
    requires SlotInv(s) && EncodeHasSlot(s.encode)
    ensures Count(s.enc.encodeInput, s.encode.t) == 0 && RgaSlot(s.rga, s.encode.t) == 0
  {
    assert SlotPlaces(s.enc, s.rga, s.encode, s.main, s.encode.t) == InUse(s.enc.slots, s.encode.t);
  }

  // The encode thread gives its slot back; a frame that was not accepted leaves the line.
  lemma GiveSlotOrder(s: State, e: EncodePc)
    requires OrderInv(s) && EncodeHasSlot(s.encode) && !EncodeHasSlot(e) && Sized(s)
    requires Count(s.enc.encodeInput, s.encode.t) == 0 && RgaSlot(s.rga, s.encode.t) == 0
    ensures OrderInv(GiveSlot(s, s.encode.t, e))
  {
    var t := GiveSlot(s, s.encode.t, e);
    if t.enc.slots.stamp != s.enc.slots.stamp {
      StampsElsewhere(s.enc.slots.stamp, s.encode.t, BLANK, s.enc.encodeInput);
    }
    assert RgaLine(t.dec, t.enc, t.rga) == RgaLine(s.dec, s.enc, s.rga);
    DropEncode(s.enc.accepted, EncodeLine(s.enc, s.encode), EncodeQueue(s.enc), RgaLine(s.dec, s.enc, s.rga), BackOf(s),
               s.cam.captured);
  }

  lemma NextSlotOrder(s: State)
    requires s.encode.EWait? && OrderInv(s)
    ensures OrderInv(DoNextSlot(s))
  {
    var q := s.enc.encodeInput;
    if q != [] {
      TakeForEncode(s.enc.accepted, StampOf(s.enc.slots.stamp, q[0]), Stamps(s.enc.slots.stamp, q[1..]),
                    RgaLine(s.dec, s.enc, s.rga));
    }
  }

  lemma PushBackOrder(s: State)
    requires s.encode.EBack? && OrderInv(s)
    ensures OrderInv(DoPushBack(s))
  {
    StampsFront(s.enc.slots.stamp, s.encode.t, s.enc.encodeInput);
    TakeForEncode(s.enc.accepted, StampOf(s.enc.slots.stamp, s.encode.t), EncodeQueue(s.enc),
        RgaLine(s.dec, s.enc, s.rga));
  }

  lemma PushOkOrder(s: State, id: nat)
    requires EncodeEnabled(s, PushOk(id)) && OrderInv(s)
    ensures OrderInv(DoPushOk(s, id))
  {
    var st := s.enc.slots.stamp[s.encode.t];
    FrontAround(s.enc.accepted, [st], EncodeQueue(s.enc), RgaLine(s.dec, s.enc, s.rga), BackOf(s));
    MemberIsTrue(s.enc.accepted, st, EncodeQueue(s.enc) + RgaLine(s.dec, s.enc, s.rga) + BackOf(s), s.cam.captured);
    Accept(s.enc.accepted, st, EncodeQueue(s.enc), RgaLine(s.dec, s.enc, s.rga));
  }

  lemma EncodeKeepsOrder(s: State, e: EncodeStep)
    requires EncodeEnabled(s, e) && SlotInv(s) && OrderInv(s)
    ensures OrderInv(EncodeApply(s, e))
  {
    if EncodeHasSlot(s.encode) { EncodeSlotIsAside(s); }
    match e
    case NextSlot => NextSlotOrder(s);
    case TestStopBeforeEncode => if s.ctl.stop { GiveSlotOrder(s, EExit); }
    case PushOk(id) => PushOkOrder(s, id);
    case PushFails =>
    case HandleFailure =>
      if s.ctl.stop || s.encode.f + 1 > MAX_PUSH_RETRY { GiveSlotOrder(s, EExit); }
    case PushBack => PushBackOrder(s);
    case RecycleSlot => if CanReturn(s.enc.slots, s.encode.t) { GiveSlotOrder(s, EWait(0)); }
    case SignalEncodeDone =>
  }

  // ----- main -----

  // Main returns a slot that nobody else has.
  lemma DrainInputOrder(s: State)
    requires MainEnabled(s, DrainInput) && SlotInv(s) && OrderInv(s)
    ensures OrderInv(MainApply(s, DrainInput))
  {
    var x := s.main.batch[0];
    assert SlotPlaces(s.enc, s.rga, s.encode, s.main, x) == InUse(s.enc.slots, x);
    var t := MainApply(s, DrainInput);
    if t.enc.slots.stamp != s.enc.slots.stamp {
      StampsElsewhere(s.enc.slots.stamp, x, BLANK, s.enc.encodeInput);
    }
    assert RgaLine(t.dec, t.enc, t.rga) == RgaLine(s.dec, s.enc, s.rga);
  }

  lemma DropQueue(a: seq<Stamp>, q: seq<Stamp>, b: seq<Stamp>, captured: seq<int>)
    requires Line(Front(a, [], q, []) + b, captured)
    ensures Line(Front(a, [], [], []) + b, captured)
  {
    assert Front(a, [], q, []) + b == a + q + b;
    Removed(a, q, b, captured);
    assert Front(a, [], [], []) == a;
  }

  // What the encoder accepted heads the line.
  lemma AcceptedFirst(s: State)
    requires OrderInv(s)
    ensures Line(s.enc.accepted, s.cam.captured)
  {
    var a, e, q, r := s.enc.accepted, EncodeLine(s.enc, s.encode), EncodeQueue(s.enc), RgaLine(s.dec, s.enc, s.rga);
    FrontAround(a, e, q, r, BackOf(s));
    assert a + e + (q + r + BackOf(s)) == a + (e + (q + r + BackOf(s)));
    OnlyAccepted(a, e + (q + r + BackOf(s)), s.cam.captured);
  }

  lemma TakeInputsOrder(s: State)
    requires s.main == MDrainDec([]) && AllJoined(s) && OrderInv(s)
    ensures OrderInv(MainApply(s, TakeInputs))
  {
    AcceptedFirst(s);
    var t := MainApply(s, TakeInputs);
    DropQueue(s.enc.accepted, EncodeQueue(s.enc), BackOf(s), s.cam.captured);
    assert FrontOf(t) == Front(s.enc.accepted, [], [], []);
  }

  lemma ClearOrder(s: State)
    requires s.main == MDrainEnc([]) && AllJoined(s) && OrderInv(s)
    ensures OrderInv(DoClear(s))
  {
    AcceptedFirst(s);
    var t := DoClear(s);
    assert FrontOf(t) + BackOf(t) == s.enc.accepted;
  }

  lemma MainKeepsOrder(s: State, m: MainStep)
    requires MainEnabled(s, m) && SlotInv(s) && OrderInv(s)
    requires m.TakeInputs? || m.ClearQueues? ==> AllJoined(s)
    ensures OrderInv(MainApply(s, m))
  {
    match m
    case TakeInputs => TakeInputsOrder(s);
    case DrainInput => DrainInputOrder(s);
    case ClearQueues => ClearOrder(s);
    case DrainOutput => assert MainApply(s, m).dec.pool.desc == s.dec.pool.desc;
    case _ =>
  }

  // ----- all steps -----

  lemma RecycleKeepsOrder(s: State, swap: bool)
    requires RecycleEnabled(s, swap) && OrderInv(s)
    ensures OrderInv(RecycleApply(s, swap))
  {
    var t := RecycleApply(s, swap);
    assert t.dec.pool.desc == s.dec.pool.desc && t.dec.rgaConsume == s.dec.rgaConsume;
  }

  lemma StepKeepsOrder(s: State, a: Step, n: nat)
    requires Enabled(s, a) && CameraInv(s, n) && DecoderInv(s) && SlotInv(s) && OrderInv(s)
    requires a == Main(TakeInputs) || a == Main(ClearQueues) ==> AllJoined(s)
    ensures OrderInv(Apply(s, a))
  {
    match a
    case Capture(c) => CaptureKeepsOrder(s, c, n);
    case Decode(d) => DecodeKeepsOrder(s, d);
    case Rga(r) => RgaKeepsOrder(s, r);
    case Recycle(swap) => RecycleKeepsOrder(s, swap);
    case Encode(e) => EncodeKeepsOrder(s, e);
    case Main(m) => MainKeepsOrder(s, m);
  }
}
