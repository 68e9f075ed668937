// RGA output slots in the pipeline: each slot in use is with exactly one thread or queue.

module PipelineRga {
  import opened Limits
  import opened FrameStamps
  import opened Populations
  import opened RgaPool
  import opened Pipeline

  predicate RgaHasSlot(r: RgaPc) {
    r.RTransform? || r.RGot? || r.RPush?
  }

  predicate EncodeHasSlot(e: EncodePc) {
    !e.EWait? && !e.EExit? && !e.EDone?
  }

  function RgaSlot(r: RgaPc, t: nat): nat {
    if RgaHasSlot(r) && r.t == t then 1 else 0
  }

  function EncodeSlot(e: EncodePc, t: nat): nat {
    if EncodeHasSlot(e) && e.t == t then 1 else 0
  }

  function MainSlot(m: MainPc, t: nat): nat {
    if m.MDrainEnc? then Count(m.batch, t) else 0
  }

  // In how many places outside the pool slot `t` is.
  function SlotPlaces(c: EncoderSide, r: RgaPc, e: EncodePc, m: MainPc, t: nat): nat {
    RgaSlot(r, t) + Count(c.encodeInput, t) + EncodeSlot(e, t) + MainSlot(m, t) + Count(c.lost, t)
  }

  ghost predicate SlotsOnce(s: State) {
    forall t: nat :: SlotPlaces(s.enc, s.rga, s.encode, s.main, t) == InUse(s.enc.slots, t)
  }

  // The only slot that goes missing is one that was filled when the RGA thread saw the stop flag.
  ghost predicate LostInv(s: State) {
    !s.main.MDone? ==>
      && |s.enc.lost| <= 1
      && (s.enc.lost != [] ==> s.ctl.stop && !s.rga.RCopy? && !RgaHasSlot(s.rga))
  }

  ghost predicate SlotInv(s: State) {
    SlotsInv(s.enc.slots) && SlotsOnce(s) && LostInv(s)
  }

  lemma InitSlots(n: nat)
    ensures SlotInv(Init(n))
  {
    UnreadySlots();
  }

  // ----- RGA thread -----

  ghost predicate SlotKept(s: State, t: State) {
    && t.enc.slots == s.enc.slots && t.enc.encodeInput == s.enc.encodeInput && t.enc.lost == s.enc.lost
    && t.encode == s.encode && t.main == s.main
    && RgaHasSlot(t.rga) == RgaHasSlot(s.rga) && (RgaHasSlot(s.rga) ==> t.rga.t == s.rga.t)
    && (s.ctl.stop ==> t.ctl.stop)
    && (s.ctl.stop && t.rga.RCopy? ==> s.rga.RCopy?)
  }

  lemma SlotKeptInv(s: State, t: State)
    requires SlotInv(s) && SlotKept(s, t)
    ensures SlotInv(t)
  {
    forall u: nat ensures SlotPlaces(t.enc, t.rga, t.encode, t.main, u) == InUse(t.enc.slots, u) {
      assert SlotPlaces(s.enc, s.rga, s.encode, s.main, u) == InUse(s.enc.slots, u);
    }
  }

  predicate RgaMovesSlot(r: RgaStep) {
    r.InitPool? || r.TakeSlot? || r.TransformFails? || r.TransformOk? || r == ImportSlots(false)
    || r.TestStopBeforePush? || r.EnterEncodeInput?
  }

  lemma TakeSlotInv(s: State)
    requires RgaEnabled(s, TakeSlot) && SlotInv(s)
    ensures SlotInv(RgaApply(s, TakeSlot))
  {
    AcquireSlotKeeps(s.enc.slots);
    var t := RgaApply(s, TakeSlot);
    forall u: nat ensures SlotPlaces(t.enc, t.rga, t.encode, t.main, u) == InUse(t.enc.slots, u) {
      assert SlotPlaces(s.enc, s.rga, s.encode, s.main, u) == InUse(s.enc.slots, u);
    }
  }

  // A slot in the hands of the RGA or encode thread is in use.
  lemma HeldSlot(s: State, t: nat)
    requires SlotsInv(s.enc.slots) && SlotsOnce(s)
    requires SlotPlaces(s.enc, s.rga, s.encode, s.main, t) >= 1
    ensures InUse(s.enc.slots, t) == 1 && CanReturn(s.enc.slots, t)
  {
    assert SlotPlaces(s.enc, s.rga, s.encode, s.main, t) == InUse(s.enc.slots, t);
  }

  // The RGA thread returns its slot and goes on without it.
  lemma RgaReturnsSlot(s: State, t: State)
    requires SlotInv(s) && RgaHasSlot(s.rga)
    requires t.enc == s.enc.(slots := ReturnSlot(s.enc.slots, s.rga.t)) && t.encode == s.encode && t.main == s.main
    requires !RgaHasSlot(t.rga)
    ensures SlotInv(t)
  {
    HeldSlot(s, s.rga.t);
    ReturnSlotKeeps(s.enc.slots, s.rga.t);
    forall u: nat ensures SlotPlaces(t.enc, t.rga, t.encode, t.main, u) == InUse(t.enc.slots, u) {
      assert SlotPlaces(s.enc, s.rga, s.encode, s.main, u) == InUse(s.enc.slots, u);
    }
  }

  lemma InitPoolInv(s: State)
    requires RgaEnabled(s, InitPool) && SlotInv(s)
    ensures SlotInv(RgaApply(s, InitPool))
  {
    InitializedKeeps(s.enc.slots);
    var t := RgaApply(s, InitPool);
    forall u: nat ensures SlotPlaces(t.enc, t.rga, t.encode, t.main, u) == InUse(t.enc.slots, u) {
      assert SlotPlaces(s.enc, s.rga, s.encode, s.main, u) == InUse(s.enc.slots, u);
    }
  }

  lemma TransformOkInv(s: State)
    requires RgaEnabled(s, TransformOk) && SlotInv(s)
    ensures SlotInv(DoTransformOk(s))
  {
    StampSlotKeeps(s.enc.slots, s.rga.t, Repaired(s.dec.pool.desc[s.rga.x]));
    var t := DoTransformOk(s);
    forall u: nat ensures SlotPlaces(t.enc, t.rga, t.encode, t.main, u) == InUse(t.enc.slots, u) {
      assert SlotPlaces(s.enc, s.rga, s.encode, s.main, u) == InUse(s.enc.slots, u);
    }
  }

  lemma TestStopBeforePushInv(s: State)
    requires s.rga.RGot? && SlotInv(s)
    ensures SlotInv(DoTestStopBeforePush(s))
  {
    var t := DoTestStopBeforePush(s);
    forall u: nat ensures SlotPlaces(t.enc, t.rga, t.encode, t.main, u) == InUse(t.enc.slots, u) {
      assert SlotPlaces(s.enc, s.rga, s.encode, s.main, u) == InUse(s.enc.slots, u);
      CountPush(s.enc.lost, s.rga.t, u);
    }
  }

  lemma EnterEncodeInputInv(s: State)
    requires s.rga.RPush? && SlotInv(s)
    ensures SlotInv(DoEnterEncodeInput(s))
  {
    var t := DoEnterEncodeInput(s);
    forall u: nat ensures SlotPlaces(t.enc, t.rga, t.encode, t.main, u) == InUse(t.enc.slots, u) {
      assert SlotPlaces(s.enc, s.rga, s.encode, s.main, u) == InUse(s.enc.slots, u);
      CountPush(s.enc.encodeInput, s.rga.t, u);
    }
  }

  lemma RgaKeepsSlots(s: State, r: RgaStep)
    requires RgaEnabled(s, r) && SlotInv(s)
    ensures SlotInv(RgaApply(s, r))
  {
    if !RgaMovesSlot(r) {
      SlotKeptInv(s, RgaApply(s, r));
    } else {
      match r
      case InitPool => InitPoolInv(s);
      case TakeSlot => TakeSlotInv(s);
      case TransformFails => RgaReturnsSlot(s, RgaApply(s, r));
      case TransformOk => TransformOkInv(s);
      case ImportSlots(_) => RgaReturnsSlot(s, RgaApply(s, r));
      case TestStopBeforePush => TestStopBeforePushInv(s);
      case EnterEncodeInput => EnterEncodeInputInv(s);
    }
  }

  // ----- encode-input thread -----

  lemma NextSlotInv(s: State)
    requires s.encode.EWait? && SlotInv(s)
    ensures SlotInv(DoNextSlot(s))
  {
    var t := DoNextSlot(s);
    forall u: nat ensures SlotPlaces(t.enc, t.rga, t.encode, t.main, u) == InUse(t.enc.slots, u) {
      assert SlotPlaces(s.enc, s.rga, s.encode, s.main, u) == InUse(s.enc.slots, u);
    }
  }

  lemma PushBackInv(s: State)
    requires s.encode.EBack? && SlotInv(s)
    ensures SlotInv(DoPushBack(s))
  {
    var t := DoPushBack(s);
    forall u: nat ensures SlotPlaces(t.enc, t.rga, t.encode, t.main, u) == InUse(t.enc.slots, u) {
      assert SlotPlaces(s.enc, s.rga, s.encode, s.main, u) == InUse(s.enc.slots, u);
      CountFront(s.enc.encodeInput, s.encode.t, u);
    }
  }

  lemma EncodeReturnsSlot(s: State, e: EncodePc)
    requires SlotInv(s) && EncodeHasSlot(s.encode) && !EncodeHasSlot(e) && Sized(s)
    ensures CanReturn(s.enc.slots, s.encode.t)
    ensures SlotInv(GiveSlot(s, s.encode.t, e))
  {
    HeldSlot(s, s.encode.t);
    ReturnSlotKeeps(s.enc.slots, s.encode.t);
    var t := GiveSlot(s, s.encode.t, e);
    forall u: nat ensures SlotPlaces(t.enc, t.rga, t.encode, t.main, u) == InUse(t.enc.slots, u) {
      assert SlotPlaces(s.enc, s.rga, s.encode, s.main, u) == InUse(s.enc.slots, u);
    }
  }

  // The encode thread keeps its slot and only moves on.
  lemma EncodeKeptInv(s: State, t: State)
    requires SlotInv(s) && t.enc.slots == s.enc.slots && t.enc.encodeInput == s.enc.encodeInput
        && t.enc.lost == s.enc.lost
    requires t.rga == s.rga && t.main == s.main && (s.ctl.stop ==> t.ctl.stop)
    requires EncodeHasSlot(t.encode) == EncodeHasSlot(s.encode)
        && (EncodeHasSlot(s.encode) ==> t.encode.t == s.encode.t)
    ensures SlotInv(t)
  {
    forall u: nat ensures SlotPlaces(t.enc, t.rga, t.encode, t.main, u) == InUse(t.enc.slots, u) {
      assert SlotPlaces(s.enc, s.rga, s.encode, s.main, u) == InUse(s.enc.slots, u);
    }
  }

  lemma EncodeKeepsSlots(s: State, e: EncodeStep)
    requires EncodeEnabled(s, e) && SlotInv(s)
    ensures SlotInv(EncodeApply(s, e))
  {
    match e
    case NextSlot => NextSlotInv(s);
    case TestStopBeforeEncode =>
      if s.ctl.stop { EncodeReturnsSlot(s, EExit); } else { EncodeKeptInv(s, EncodeApply(s, e)); }
    case PushOk(_) => EncodeKeptInv(s, EncodeApply(s, e));
    case PushFails => EncodeKeptInv(s, EncodeApply(s, e));
    case HandleFailure =>
      if !s.ctl.stop && s.encode.f + 1 <= MAX_PUSH_RETRY {
        EncodeKeptInv(s, EncodeApply(s, e));
      } else {
        EncodeReturnsSlot(s, EExit);
      }
    case PushBack => PushBackInv(s);
    case RecycleSlot => EncodeReturnsSlot(s, EWait(0));
    case SignalEncodeDone => EncodeKeptInv(s, EncodeApply(s, e));
  }

  // ----- main -----

  lemma DrainInputInv(s: State)
    requires MainEnabled(s, DrainInput) && SlotInv(s)
    ensures SlotInv(MainApply(s, DrainInput))
  {
    var x := s.main.batch[0];
    HeldSlot(s, x);
    ReturnSlotKeeps(s.enc.slots, x);
    var t := MainApply(s, DrainInput);
    forall u: nat ensures SlotPlaces(t.enc, t.rga, t.encode, t.main, u) == InUse(t.enc.slots, u) {
      assert SlotPlaces(s.enc, s.rga, s.encode, s.main, u) == InUse(s.enc.slots, u);
    }
  }

  lemma MainQueuesSlots(s: State, m: MainStep)
    requires MainEnabled(s, m) && !m.DrainInput? && SlotInv(s)
    ensures SlotInv(MainApply(s, m))
  {
    var t := MainApply(s, m);
    forall u: nat ensures SlotPlaces(t.enc, t.rga, t.encode, t.main, u) == InUse(t.enc.slots, u) {
      assert SlotPlaces(s.enc, s.rga, s.encode, s.main, u) == InUse(s.enc.slots, u);
      CountAppend(s.enc.lost, s.enc.encodeInput, u);
    }
  }

  // ----- all steps -----

  lemma OthersLeaveSlots(s: State, a: Step)
    requires Enabled(s, a) && (a.Capture? || a.Decode? || a.Recycle?)
    ensures SlotKept(s, Apply(s, a))
  {
  }

  lemma StepKeepsSlots(s: State, a: Step)
    requires Enabled(s, a) && SlotInv(s)
    ensures SlotInv(Apply(s, a))
  {
    match a
    case Rga(r) => RgaKeepsSlots(s, r);
    case Encode(e) => EncodeKeepsSlots(s, e);
    case Main(m) =>
      if m.DrainInput? { DrainInputInv(s); } else { MainQueuesSlots(s, m); }
    case _ =>
      OthersLeaveSlots(s, a);
      SlotKeptInv(s, Apply(s, a));
  }
}
