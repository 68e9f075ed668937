// Runs that exist: some schedule takes every captured frame to the encoder, some run hands over an open
// window, and some shutdown loses a slot.

module PipelineProgress {
  import opened Wrappers
  import opened Limits
  import opened FrameStamps
  import opened Populations
  import opened DecoderPool
  import opened RgaPool
  import opened CameraDevice
  import opened Pipeline
  import opened PipelineCamera
  import opened PipelineDecoder
  import opened PipelineRga
  import opened PipelineWindows
  import opened PipelineTheorems
  import opened PipelineHistory
  import opened PipelineTermination

  ghost predicate CanReach(n: nat, s: State) {
    exists run :: ValidRun(Init(n), run) && After(Init(n), run) == s
  }

  lemma Take(n: nat, s: State, a: Step) returns (t: State)
    requires CanReach(n, s) && Enabled(s, a)
    ensures t == Apply(s, a) && CanReach(n, t)
  {
    var run :| ValidRun(Init(n), run) && After(Init(n), run) == s;
    var longer := run + [a];
    assert longer[..|longer| - 1] == run;
    t := After(Init(n), longer);
  }

  lemma Known(n: nat, s: State)
    requires CanReach(n, s)
    ensures Inv(s, n)
  {
    var run :| ValidRun(Init(n), run) && After(Init(n), run) == s;
    RunInv(n, run);
  }

  // Nothing is under way: all threads but the capture thread wait, all queues are empty.
  predicate Quiet(s: State) {
    && !s.ctl.stop && s.main.MRun? && s.capture.CRead?
    && s.decode.DWait? && s.rga.RWait? && s.recycler.YWait? && s.encode.EWait?
    && s.cam.ready == [] && s.cam.recycle == []
    && s.dec.rgaConsume == [] && s.dec.mppRecycle == [] && s.enc.encodeInput == []
  }

  // ----- capture thread -----

  lemma DriverHasBuffer(s: State, n: nat)
    requires CameraInv(s, n) && Quiet(s) && n > 0
    ensures 0 in s.cam.dev.driver
  {
    ReadingPlaces(s, n);
    SizeOfEveryone(n);
    assert Everyone(n)[0] == 1;
  }

  // One frame enters the ready queue.
  lemma CaptureFrame(n: nat, s: State, ts: int) returns (t: State)
    requires CanReach(n, s) && Quiet(s) && n > 0 && ts >= 0
    ensures CanReach(n, t) && t == s.(capture := CTest, cam := t.cam)
    ensures t.cam.ready == [0] && t.cam.recycle == [] && t.cam.captured == s.cam.captured + [ts]
  {
    Known(n, s);
    DriverHasBuffer(s, n);
    t := Take(n, s, Capture(ReadFrame(0, ts)));
    t := Take(n, t, Capture(EnterReady));
  }

  // The returned buffer goes back to the driver, and the thread waits for the next frame.
  lemma CaptureReturns(n: nat, s: State) returns (t: State)
    requires CanReach(n, s) && s.capture.CTest? && !s.ctl.stop && |s.cam.recycle| <= 1
    requires s.cam.recycle != [] ==> s.cam.recycle[0] < |s.cam.dev.stamp|
    ensures CanReach(n, t) && t == s.(capture := CRead, cam := t.cam)
    ensures t.cam.ready == s.cam.ready && t.cam.recycle == [] && t.cam.captured == s.cam.captured
  {
    t := Take(n, s, Capture(TestStop));
    t := Take(n, t, Capture(TakeRecycled));
    if s.cam.recycle != [] {
      t := Take(n, t, Capture(RequeueOne(true, true)));
    }
    t := Take(n, t, Capture(TestStopAgain));
  }

  // ----- decode thread -----

  lemma {:induction false} DrainHolders(n: nat, s: State) returns (t: State)
    requires CanReach(n, s) && s.decode.DDrain?
    ensures CanReach(n, t) && t == s.(decode := DDrain(s.decode.b, [], s.decode.waiting), dec := t.dec)
    ensures t.dec == s.dec.(pool := t.dec.pool) && t.dec.pool.pending == s.dec.pool.pending
    decreases |s.decode.local|
  {
    t := s;
    if s.decode.local == [] {
    } else {
      t := Take(n, s, Decode(RecycleOne));
      t := DrainHolders(n, t);
    }
  }

  // With nothing outside the decoder and nothing pending a holder is free.
  lemma HolderIsFree(s: State)
    requires DecoderInv(s) && s.decode.DAcquire? && s.dec.pool.pending == [] && s.dec.rgaConsume == []
    requires s.rga.RWait? && s.dec.mppRecycle == [] && s.recycler.YWait? && s.main.MRun? && s.dec.orphans == []
    ensures s.dec.pool.free != []
  {
    forall x
      ensures x !in s.dec.pool.inflight
    {
      assert Reached(s.dec, s.decode, s.rga, s.recycler, s.main, x) == 0;
    }
    if s.dec.pool.free == [] {
      AllInFlight(s.dec.pool);
    }
  }

  lemma BuffersInRange(s: State, x: nat)
    requires DecoderInv(s) && s.decode.DHolder? && x in s.dec.pool.unused
    ensures x < |s.dec.pool.desc|
  {
  }

  // The decode thread takes the frame and gets a holder.
  lemma DecodeAcquires(n: nat, s: State) returns (t: State)
    requires CanReach(n, s) && s.cam.ready == [0] && n > 0
    requires s.decode.DWait? && s.dec.rgaConsume == [] && s.dec.mppRecycle == []
    requires s.rga.RWait? && s.recycler.YWait? && s.main.MRun?
    ensures CanReach(n, t) && t == s.(decode := t.decode, cam := t.cam, dec := t.dec)
    ensures t.decode.DHolder? && t.decode.b == 0
    ensures t.cam == s.cam.(ready := [], dev := t.cam.dev) && t.dec == s.dec.(pool := t.dec.pool)
  {
    t := Take(n, s, Decode(NextFrame));
    t := Take(n, t, Decode(SwapPending));
    t := DrainHolders(n, t);
    t := Take(n, t, Decode(DrainDone));
    t := Take(n, t, Decode(CheckedOk));
    Known(n, t);
    HolderIsFree(t);
    t := Take(n, t, Decode(TakeHolder));
  }

  // With a holder there is a buffer.
  lemma DecodeGetsBuffer(n: nat, s: State) returns (t: State)
    requires CanReach(n, s) && s.decode.DHolder?
    ensures CanReach(n, t) && t == s.(decode := t.decode, dec := s.dec.(pool := t.dec.pool))
    ensures t.decode.DBuffer? && t.decode.b == s.decode.b && t.decode.x < |t.dec.pool.desc|
  {
    Known(n, s);
    UnusedBuffer(s);
    var x :| x in s.dec.pool.unused;
    BuffersInRange(s, x);
    t := Take(n, s, Decode(TakeBuffer(x)));
  }

  // The device delivers and the descriptor is written.
  lemma DecodeWrites(n: nat, s: State) returns (t: State)
    requires CanReach(n, s) && s.decode.DBuffer? && s.decode.b < |s.cam.dev.stamp| && s.decode.x < |s.dec.pool.desc|
    ensures CanReach(n, t) && t == s.(decode := DWritten(s.decode.b, s.decode.h, s.decode.x), cam := t.cam,
        dec := t.dec)
    ensures t.cam == s.cam.(dev := t.cam.dev) && t.dec == s.dec.(pool := t.dec.pool)
  {
    t := Take(n, s, Decode(SubmitTask));
    t := Take(n, t, Decode(WriteDescriptor));
  }

  // The output is queued and the camera buffer handed back.
  lemma DecodeDelivers(n: nat, s: State) returns (t: State)
    requires CanReach(n, s) && s.decode.DWritten?
    ensures CanReach(n, t) && t == s.(decode := DWait, cam := t.cam, dec := t.dec)
    ensures t.cam == s.cam.(recycle := s.cam.recycle + [s.decode.b])
    ensures t.dec == s.dec.(rgaConsume := s.dec.rgaConsume + [s.decode.x], pool := t.dec.pool)
  {
    Known(n, s);
    DescriptorPlaces(s, s.decode.x);
    t := Take(n, s, Decode(PublishOutput));
    t := Take(n, t, Decode(EnterRgaConsume));
    t := Take(n, t, Decode(ReturnFrame));
  }

  // ----- RGA thread -----

  lemma SlotIsAvailable(s: State)
    requires SlotInv(s) && s.enc.slots.ready && s.rga.RCopy? && !s.ctl.stop && s.main.MRun?
    requires s.encode.EWait? && s.enc.encodeInput == []
    ensures s.enc.slots.available != [] && s.enc.slots.available[0] < |s.enc.slots.inUse| == |s.enc.slots.stamp|
  {
    assert SlotPlaces(s.enc, s.rga, s.encode, s.main, 0) == 0;
    CountMember(s.enc.slots.available, 0);
    assert s.enc.slots.available != [];
    CountMember(s.enc.slots.available, s.enc.slots.available[0]);
  }

  // The RGA thread takes the output up to the point where it copies into a slot.
  lemma RgaStarts(n: nat, s: State) returns (t: State)
    requires CanReach(n, s) && s.rga.RWait? && |s.dec.rgaConsume| == 1 && !s.ctl.stop && s.main.MRun?
    requires s.encode.EWait? && s.enc.encodeInput == []
    ensures CanReach(n, t) && t == s.(rga := t.rga, dec := s.dec.(rgaConsume := []),
        enc := s.enc.(slots := t.enc.slots))
    ensures t.rga.RTransform? && t.rga.x == s.dec.rgaConsume[0] && t.rga.t < |t.enc.slots.stamp|
  {
    t := Take(n, s, Rga(NextOutput));
    t := Take(n, t, Rga(TestStopInRetry));
    if !t.enc.slots.ready {
      t := Take(n, t, Rga(InitPool));
    }
    Known(n, t);
    SlotIsAvailable(t);
    t := Take(n, t, Rga(TakeSlot));
  }

  lemma OutputInRange(s: State)
    requires DecoderInv(s) && s.rga.RTransform? && s.decode.DWait?
    ensures s.rga.x < |s.dec.pool.desc|
  {
    assert Reached(s.dec, s.decode, s.rga, s.recycler, s.main, s.rga.x) >= 1;
    InflightBelow(s.dec.pool, [], None, None);
  }

  // The copy succeeds, and the slots are known to the encoder.
  lemma RgaCopies(n: nat, s: State) returns (t: State)
    requires CanReach(n, s) && s.rga.RTransform? && s.decode.DWait? && s.rga.t < |s.enc.slots.stamp|
    ensures CanReach(n, t) && t == s.(rga := RGot(s.rga.x, s.rga.t), enc := t.enc)
    ensures t.enc.imported && t.enc.encodeInput == s.enc.encodeInput && t.enc.accepted == s.enc.accepted
  {
    Known(n, s);
    OutputInRange(s);
    t := Take(n, s, Rga(TransformOk));
    if !t.enc.imported {
      t := Take(n, t, Rga(ImportSlots(true)));
    }
  }

  // The slot is queued for the encoder and the output handed back.
  lemma RgaDelivers(n: nat, s: State) returns (t: State)
    requires CanReach(n, s) && s.rga.RGot? && s.enc.imported && !s.ctl.stop
    ensures CanReach(n, t) && t == s.(rga := RWait, dec := t.dec, enc := t.enc)
    ensures t.dec == s.dec.(mppRecycle := s.dec.mppRecycle + [s.rga.x])
    ensures t.enc.encodeInput == s.enc.encodeInput + [s.rga.t] && t.enc.accepted == s.enc.accepted
  {
    t := Take(n, s, Rga(TestStopBeforePush));
    t := Take(n, t, Rga(EnterEncodeInput));
    t := Take(n, t, Rga(EnterMppRecycle));
  }

  // ----- encode-input and recycle threads -----

  lemma HeldSlotReturns(s: State)
    requires SlotInv(s) && EncodeHasSlot(s.encode)
    ensures CanReturn(s.enc.slots, s.encode.t)
  {
    assert SlotPlaces(s.enc, s.rga, s.encode, s.main, s.encode.t) >= 1;
  }

  lemma EncodeDelivers(n: nat, s: State) returns (t: State)
    requires CanReach(n, s) && s.encode.EWait? && |s.enc.encodeInput| == 1 && !s.ctl.stop
    ensures CanReach(n, t) && t == s.(encode := EWait(0), enc := t.enc)
    ensures t.enc.encodeInput == [] && |t.enc.accepted| == |s.enc.accepted| + 1
  {
    t := Take(n, s, Encode(NextSlot));
    Known(n, t);
    HeldSlotReturns(t);
    t := Take(n, t, Encode(TestStopBeforeEncode));
    t := Take(n, t, Encode(PushOk(0)));
    t := Take(n, t, Encode(RecycleSlot));
  }

  lemma RecycleReturns(n: nat, s: State) returns (t: State)
    requires CanReach(n, s) && s.recycler.YWait? && |s.dec.mppRecycle| == 1
    ensures CanReach(n, t) && t == s.(dec := t.dec)
    ensures t.dec.rgaConsume == s.dec.rgaConsume && t.dec.mppRecycle == []
  {
    t := Take(n, s, Recycle(true));
    t := Take(n, t, Recycle(false));
  }

  // ----- whole rounds -----

  // One frame on its way up to a filled slot in the hands of the RGA thread.
  lemma SlotIsFilled(n: nat, s: State, ts: int) returns (t: State)
    requires CanReach(n, s) && Quiet(s) && n > 0 && ts >= 0
    ensures CanReach(n, t) && t == s.(capture := CTest, cam := t.cam, dec := t.dec, enc := t.enc, rga := t.rga)
    ensures t.cam.captured == s.cam.captured + [ts] && t.cam.ready == [] && t.cam.recycle == [0]
    ensures t.rga.RGot? && t.dec.rgaConsume == [] && t.dec.mppRecycle == []
    ensures t.enc.imported && t.enc.encodeInput == [] && t.enc.accepted == s.enc.accepted
  {
    t := CaptureFrame(n, s, ts);
    t := DecodeAcquires(n, t);
    t := DecodeGetsBuffer(n, t);
    Known(n, t);
    t := DecodeWrites(n, t);
    t := DecodeDelivers(n, t);
    t := RgaStarts(n, t);
    t := RgaCopies(n, t);
  }

  // From a quiet state one more frame reaches the encoder, and all is quiet again.
  lemma OneFrame(n: nat, s: State, ts: int) returns (t: State)
    requires CanReach(n, s) && Quiet(s) && n > 0 && ts >= 0
    ensures CanReach(n, t) && Quiet(t)
    ensures t.cam.captured == s.cam.captured + [ts] && |t.enc.accepted| == |s.enc.accepted| + 1
  {
    t := SlotIsFilled(n, s, ts);
    t := RgaDelivers(n, t);
    t := EncodeDelivers(n, t);
    t := RecycleReturns(n, t);
    Known(n, t);
    t := CaptureReturns(n, t);
  }

  lemma Begin(n: nat) returns (t: State)
    ensures CanReach(n, t) && Quiet(t) && t.cam.captured == [] && t.enc.accepted == []
  {
    assert ValidRun(Init(n), []) && After(Init(n), []) == Init(n);
    t := CaptureReturns(n, Init(n));
  }

  lemma {:induction false} AllFrames(n: nat, times: seq<int>) returns (t: State)
    requires n > 0 && forall i :: 0 <= i < |times| ==> times[i] >= 0
    ensures CanReach(n, t) && Quiet(t) && t.cam.captured == times && |t.enc.accepted| == |times|
  {
    if times == [] {
      t := Begin(n);
    } else {
      t := AllFrames(n, times[..|times| - 1]);
      t := OneFrame(n, t, times[|times| - 1]);
    }
  }

  // For any capture times some run takes every frame to the encoder, in order and with its own time.
  lemma NoFrameNeedBeLost(n: nat, times: seq<int>) returns (run: seq<Step>)
    requires n > 0 && forall i :: 0 <= i < |times| ==> times[i] >= 0
    ensures ValidRun(Init(n), run) && After(Init(n), run).cam.captured == times
    ensures After(Init(n), run).enc.accepted == seq(|times|,
        i requires 0 <= i < |times| => Stamp(times[i], times[i], i))
  {
    var t := AllFrames(n, times);
    run :| ValidRun(Init(n), run) && After(Init(n), run) == t;
    AcceptedInOrder(n, run);
    forall i | 0 <= i < |times|
      ensures t.enc.accepted[i] == Stamp(times[i], times[i], i)
    {
      FullLine(t.enc.accepted, times, i);
    }
  }

  // ----- runs that fail a property -----

  // An oversized frame requeued after its END call was refused: the driver owns an open window.
  lemma OpenWindowIsHandedOver(n: nat) returns (run: seq<Step>)
    requires n > 0
    ensures ValidRun(Init(n), run) && HandsOver(run) && Replay(After(Init(n), run).cam.dev.log) == None
    ensures 0 in After(Init(n), run).cam.dev.driver
  {
    var t := Begin(n);
    Known(n, t);
    DriverHasBuffer(t, n);
    var p :| ValidRun(Init(n), p) && After(Init(n), p) == t;
    run := p + [Capture(ReadOversized(0, 7, false, true))];
    assert run[..|run| - 1] == p && HandsOverOpen(run[|run| - 1]);
    WindowsAreClosed(n, run);
  }

  lemma OnlyClearEnds(s: State, a: Step)
    requires Enabled(s, a) && Apply(s, a).main.MDone? && !s.main.MDone?
    ensures s.main == MDrainEnc([])
  {
  }

  // A run whose main is done passed the end of main's drain, after any point at which it was not done.
  lemma {:induction false} DrainIsPassed(n: nat, early: seq<Step>, run: seq<Step>) returns (r: seq<Step>)
    requires ValidRun(Init(n), run) && early <= run && After(Init(n), run).main.MDone?
    requires ValidRun(Init(n), early) && !After(Init(n), early).main.MDone?
    ensures early <= r <= run && ValidRun(Init(n), r) && After(Init(n), r).main == MDrainEnc([])
    decreases |run|
  {
    assert early != run;
    var p := run[..|run| - 1];
    if After(Init(n), p).main.MDone? {
      r := DrainIsPassed(n, early, p);
    } else {
      OnlyClearEnds(After(Init(n), p), run[|run| - 1]);
      r := p;
    }
  }

  lemma {:induction false} LosesLonger(s: State, early: seq<Step>, run: seq<Step>)
    requires ValidRun(s, run) && early <= run && ValidRun(s, early) && Loses(s, early)
    ensures Loses(s, run)
    decreases |run|
  {
    if early == run {
    } else {
      LosesLonger(s, early, run[..|run| - 1]);
    }
  }

  // A run up to the point where the RGA thread has seen the stop flag with a filled slot in hand.
  lemma StopMeetsFilledSlot(n: nat) returns (run: seq<Step>)
    requires n > 0
    ensures ValidRun(Init(n), run) && After(Init(n), run).ctl.stop && !After(Init(n), run).main.MDone?
    ensures Loses(Init(n), run)
  {
    var t := Begin(n);
    t := SlotIsFilled(n, t, 0);
    t := Take(n, t, Main(MainStops));
    var p :| ValidRun(Init(n), p) && After(Init(n), p) == t;
    run := p + [Rga(TestStopBeforePush)];
    assert run[..|run| - 1] == p;
  }

  // With a slot lost, main's drain ends without it.
  lemma LostSlotIsMissing(n: nat, run: seq<Step>) returns (t: nat)
    requires ValidRun(Init(n), run) && After(Init(n), run).main == MDrainEnc([]) && Loses(Init(n), run)
    ensures t < POOL_SIZE && After(Init(n), run).enc.slots.ready
    ensures Count(After(Init(n), run).enc.slots.available, t) == 0
  {
    var s := After(Init(n), run);
    LostIff(n, run);
    RunInv(n, run);
    t := s.enc.lost[0];
    CountMember(s.enc.lost, t);
    SlotIsSomewhere(s, t);
  }

  // Shutdown can lose a slot: some run reaches the end of main's drain with a slot missing.
  lemma SlotCanBeLost(n: nat) returns (run: seq<Step>, t: nat)
    requires n > 0
    ensures ValidRun(Init(n), run) && After(Init(n), run).main == MDrainEnc([]) && Loses(Init(n), run)
    ensures t < POOL_SIZE && After(Init(n), run).enc.slots.ready
        && Count(After(Init(n), run).enc.slots.available, t) == 0
  {
    var p := StopMeetsFilledSlot(n);
    var all := ShutdownCompletes(n, p);
    run := DrainIsPassed(n, p, all);
    LosesLonger(Init(n), p, run);
    t := LostSlotIsMissing(n, run);
  }
}
