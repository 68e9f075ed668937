// Shutdown as a whole: what is left to do after stop, that no wait is stranded, and that every run can
// be brought to its end.

module PipelineTermination {
  import opened Wrappers
  import opened Limits
  import opened Populations
  import opened DecoderPool
  import opened RgaPool
  import opened Pipeline
  import opened PipelineCamera
  import opened PipelineDecoder
  import opened PipelineControl
  import opened PipelineShutdown
  import opened PipelineTheorems

  // ----- after stop -----

  function HandledFrames(run: seq<Step>): nat
    decreases |run|
  {
    if run == [] then 0 else HandledFrames(run[..|run| - 1]) + Handled(run[|run| - 1])
  }

  lemma {:induction false} CreditCoversRun(s: State, run: seq<Step>)
    requires ValidRun(s, run) && s.ctl.stop && ControlInv(s)
    ensures After(s, run).ctl.stop && ControlInv(After(s, run))
    ensures HandledFrames(run) + Credit(After(s, run)) <= Credit(s)
    decreases |run|
  {
    if run == [] {
    } else {
      var p := run[..|run| - 1];
      CreditCoversRun(s, p);
      StepKeepsControl(After(s, p), run[|run| - 1]);
      CreditFalls(After(s, p), run[|run| - 1]);
    }
  }

  // After stop the decode thread handles at most 14 more frames.
  lemma {:induction false} FewFramesAfterStop(n: nat, run: seq<Step>, more: seq<Step>)
    requires ValidRun(Init(n), run) && After(Init(n), run).ctl.stop && ValidRun(After(Init(n), run), more)
    ensures HandledFrames(more) <= 14
  {
    RunInv(n, run);
    CreditCoversRun(After(Init(n), run), more);
  }

  // What the RGA thread leaves behind when it has gone: at most 14 outputs, fewer than there are holders.
  lemma {:induction false} FewOrphans(n: nat, run: seq<Step>)
    requires ValidRun(Init(n), run) && RgaGone(After(Init(n), run).rga)
    ensures |After(Init(n), run).dec.orphans| + |After(Init(n), run).dec.rgaConsume| <= 14 < POOL_SIZE == 48
  {
    RunInv(n, run);
  }

  // The last drain of the recycle queue finds nothing, and nothing is left in it at the end.
  lemma {:induction false} LastDrainFindsNothing(n: nat, run: seq<Step>)
    requires ValidRun(Init(n), run)
    ensures var s := After(Init(n), run);
            && (s.recycler.YDone? ==> s.dec.mppRecycle == [] && s.rga.RDone?)
            && (Joined(s.main) ==> AllJoined(s) && s.dec.mppRecycle == [])
            && (s.main.MDrainDec? ==> s.main.batch == [])
  {
    RunInv(n, run);
  }

  // ----- waiting for a holder -----

  lemma {:induction false} ValuesAtMostKeys(m: map<nat, nat>)
    ensures |m.Values| <= |m|
    decreases |m|
  {
    if x :| x in m {
      var r := m - {x};
      assert m.Values <= r.Values + {m[x]} by {
        forall v | v in m.Values
          ensures v in r.Values + {m[x]}
        {
          var y :| y in m && m[y] == v;
          assert y != x ==> y in r && r[y] == v;
        }
      }
      assert |r| == |m| - 1;
      ValuesAtMostKeys(r);
      SubsetSize(m.Values, r.Values + {m[x]});
    } else {
      assert m.Values == {};
    }
  }

  // All holders are in flight when none is free or pending.
  lemma AllInFlight(p: Pool)
    requires PoolInv(p, [], None, None) && p.free == [] && p.pending == []
    ensures |p.inflight| >= |p.desc| == POOL_SIZE
  {
    assert multiset(p.inflight.Values) == HolderPlaces(p, [], None);
    SizeOfEveryone(|p.desc|);
    assert |p.inflight.Values| == |multiset(p.inflight.Values)| == |p.desc|;
    ValuesAtMostKeys(p.inflight);
  }

  lemma {:induction false} MembersAtMost(a: set<nat>, q: seq<nat>)
    requires forall x :: x in a ==> x in q
    ensures |a| <= |q|
    decreases |q|
  {
    if q == [] {
      assert a == {};
    } else {
      forall x | x in a - {q[0]}
        ensures x in q[1..]
      {
        assert q == [q[0]] + q[1..];
      }
      MembersAtMost(a - {q[0]}, q[1..]);
    }
  }

  // If neither the RGA thread nor the recycle thread has anything in hand or queued, all outputs in
  // flight wait in `rgaConsume`.
  lemma OutputsWaitForRga(s: State)
    requires DecoderInv(s) && ControlInv(s) && TailInv(s) && s.decode.DAcquire?
    requires !RgaHasOutput(s.rga) && s.dec.mppRecycle == [] && !s.recycler.YDrain?
    ensures |s.dec.pool.inflight| <= |s.dec.rgaConsume|
  {
    forall x | x in s.dec.pool.inflight.Keys
      ensures x in s.dec.rgaConsume
    {
      assert Reached(s.dec, s.decode, s.rga, s.recycler, s.main, x) == InFlight(s.dec.pool, x);
      CountMember(s.dec.rgaConsume, x);
    }
    MembersAtMost(s.dec.pool.inflight.Keys, s.dec.rgaConsume);
  }

  // The step of the RGA or recycle thread that works towards a free holder.
  function Helper(s: State): Step {
    match s.rga
    case RWait => if s.dec.rgaConsume != [] then Rga(NextOutput) else Recycle(s.recycler.YWait?)
    case RTest(_, _) => Rga(TestStopInRetry)
    case RCopy(_, _) => Rga(CopyFails)
    case RTransform(_, _, _) => Rga(TransformFails)
    case RGot(_, _) => if s.enc.imported then Rga(TestStopBeforePush) else Rga(ImportSlots(true))
    case RPush(_, _) => Rga(EnterEncodeInput)
    case ROut(_) => Rga(EnterMppRecycle)
    case _ => Recycle(s.recycler.YWait?)
  }

  // No stranded wait: a decode thread that finds no holder, free or pending, is waited on by a thread
  // that can move, before stop and after it.
  lemma WaitIsServed(s: State)
    requires DecoderInv(s) && SlotsInv(s.enc.slots) && ControlInv(s) && TailInv(s)
    requires s.decode.DAcquire? && s.dec.pool.free == [] && s.dec.pool.pending == []
    ensures Enabled(s, Helper(s))
  {
    AllInFlight(s.dec.pool);
    if !RgaHasOutput(s.rga) && s.dec.mppRecycle == [] && !s.recycler.YDrain? {
      OutputsWaitForRga(s);
    }
  }

  lemma {:induction false} NoStrandedWait(n: nat, run: seq<Step>)
    requires ValidRun(Init(n), run)
    requires var s := After(Init(n), run); s.decode.DAcquire? && s.dec.pool.free == [] && s.dec.pool.pending == []
    ensures Enabled(After(Init(n), run), Helper(After(Init(n), run)))
  {
    RunInv(n, run);
    WaitIsServed(After(Init(n), run));
  }

  // ----- progress after stop -----

  function CaptureNext(s: State): Step {
    match s.capture
    case CTest => Capture(TestStop)
    case CTake => Capture(TakeRecycled)
    case CRequeue(batch) => if batch == [] then Capture(TestStopAgain) else Capture(RequeueOne(true, true))
    case CRead => Capture(ReadRetry)
    case CHave(_) => Capture(EnterReady)
    case _ => Capture(EnterRecycle)
  }

  lemma CaptureMoves(s: State, n: nat)
    requires CameraInv(s, n) && !s.capture.CDone?
    ensures Enabled(s, CaptureNext(s))
  {
    if s.capture.CRequeue? && s.capture.batch != [] {
      var b := s.capture.batch[0];
      assert Places(s.cam, s.capture, s.decode, b) == One(b, n);
    }
  }

  function DecodeNext(s: State): Step {
    match s.decode
    case DWait => Decode(NextFrame)
    case DEnter(_) => Decode(SwapPending)
    case DDrain(_, local, _) => if local == [] then Decode(DrainDone) else Decode(RecycleOne)
    case DCheck(_) => Decode(CheckedOk)
    case DAcquire(_) =>
      if s.dec.pool.free != [] then Decode(TakeHolder)
      else if s.dec.pool.pending != [] then Decode(WaitForHolder)
      else Helper(s)
    case DHolder(_, _) => Decode(NoBuffer)
    case DPublish(_, _) => Decode(EnterRgaConsume)
    case DReturn(_) => Decode(ReturnFrame)
    case _ => Decode(DecodeFails)
  }

  predicate Starved(s: State) {
    s.decode.DAcquire? && s.dec.pool.free == [] && s.dec.pool.pending == []
  }

  lemma DecodeMoves(s: State)
    requires DecoderInv(s) && SlotsInv(s.enc.slots) && ControlInv(s) && TailInv(s) && s.ctl.stop && !s.decode.DDone?
    ensures Enabled(s, DecodeNext(s)) && !IdleWait(s, DecodeNext(s))
  {
    if Starved(s) { WaitIsServed(s); }
  }

  function RgaNext(s: State): Step {
    match s.rga
    case RWait => Rga(NextOutput)
    case RExit => Rga(SignalDone)
    case _ => Helper(s)
  }

  function EncodeNext(s: State): Step {
    match s.encode
    case EWait(_) => Encode(NextSlot)
    case EHave(_, _) => Encode(TestStopBeforeEncode)
    case EPushing(_, _) => Encode(PushFails)
    case EFailed(_, _) => Encode(HandleFailure)
    case EBack(_, _) => Encode(PushBack)
    case EPushed(_) => Encode(RecycleSlot)
    case _ => Encode(SignalEncodeDone)
  }

  function MainNext(s: State): Step {
    match s.main
    case MRun => Main(MainStops)
    case MJoin => Main(MainJoins)
    case MDrainDec(batch) => if batch == [] then Main(TakeInputs) else Main(DrainOutput)
    case MDrainEnc(batch) => if batch == [] then Main(ClearQueues) else Main(DrainInput)
    case MDone => Main(MainStops)
  }

  // A thread that can move, as long as main has not finished.
  function Next(s: State): Step {
    if !s.capture.CDone? then CaptureNext(s)
    else if !s.decode.DDone? then DecodeNext(s)
    else if !s.rga.RDone? then RgaNext(s)
    else if !s.encode.EDone? then EncodeNext(s)
    else if !s.ctl.outputDone then Main(OutputLeaves)
    else if !s.recycler.YDone? then Recycle(s.recycler.YWait?)
    else MainNext(s)
  }

  lemma SomeThreadMoves(s: State, n: nat)
    requires CameraInv(s, n) && DecoderInv(s) && SlotsInv(s.enc.slots) && ControlInv(s) && TailInv(s)
    requires s.ctl.stop && !s.main.MDone?
    ensures Enabled(s, Next(s)) && !IdleWait(s, Next(s))
  {
    if !s.capture.CDone? {
      CaptureMoves(s, n);
    } else if !s.decode.DDone? {
      DecodeMoves(s);
    } else if !s.rga.RDone? {
    } else if !s.encode.EDone? {
    } else {
    }
  }

  // One more step of a thread that can move.
  lemma OneMoreStep(s: State, n: nat)
    requires Inv(s, n) && s.ctl.stop && !s.main.MDone?
    ensures Enabled(s, Next(s)) && Apply(s, Next(s)).ctl.stop && Measure(Apply(s, Next(s))) < Measure(s)
  {
    SomeThreadMoves(s, n);
    StepDecreases(s, Next(s));
    StepKeepsControl(s, Next(s));
  }

  lemma {:induction false} OneStepLonger(n: nat, run: seq<Step>) returns (longer: seq<Step>)
    requires ValidRun(Init(n), run) && After(Init(n), run).ctl.stop && !After(Init(n), run).main.MDone?
    ensures run <= longer && |longer| == |run| + 1 && ValidRun(Init(n), longer)
    ensures After(Init(n), longer).ctl.stop && Measure(After(Init(n), longer)) < Measure(After(Init(n), run))
  {
    RunInv(n, run);
    OneMoreStep(After(Init(n), run), n);
    longer := run + [Next(After(Init(n), run))];
    assert longer[..|longer| - 1] == run;
  }

  // From any reachable state with stop set, steps that are always available lead to the end.
  lemma {:induction false} ShutdownCompletes(n: nat, run: seq<Step>) returns (all: seq<Step>)
    requires ValidRun(Init(n), run) && After(Init(n), run).ctl.stop
    ensures run <= all && |all| <= |run| + Measure(After(Init(n), run))
    ensures ValidRun(Init(n), all) && After(Init(n), all).main.MDone?
    decreases Measure(After(Init(n), run))
  {
    if After(Init(n), run).main.MDone? {
      all := run;
    } else {
      var longer := OneStepLonger(n, run);
      all := ShutdownCompletes(n, longer);
    }
  }

  // ----- every wait for a holder ends -----

  // Inside the loop of MppDecode that waits for a holder, its drains included.
  predicate AwaitsHolder(d: DecodePc) {
    d.DAcquire? || (d.DDrain? && d.waiting)
  }

  lemma OnlyTakeEndsWait(s: State, a: Step)
    requires Enabled(s, a) && AwaitsHolder(s.decode) && !AwaitsHolder(Apply(s, a).decode)
    ensures a == Decode(TakeHolder)
  {
  }

  // A run that is past a wait for a holder took one.
  lemma {:induction false} TakeIsPassed(n: nat, early: seq<Step>, run: seq<Step>) returns (j: nat)
    requires ValidRun(Init(n), run) && early <= run && !AwaitsHolder(After(Init(n), run).decode)
    requires ValidRun(Init(n), early) && AwaitsHolder(After(Init(n), early).decode)
    ensures |early| <= j < |run| && run[j] == Decode(TakeHolder)
    decreases |run|
  {
    assert early != run;
    var p := run[..|run| - 1];
    if !AwaitsHolder(After(Init(n), p).decode) {
      j := TakeIsPassed(n, early, p);
    } else {
      OnlyTakeEndsWait(After(Init(n), p), run[|run| - 1]);
      j := |run| - 1;
    }
  }

  lemma DoneHasLeftWait(s: State)
    requires ControlInv(s) && s.main.MDone?
    ensures !AwaitsHolder(s.decode)
  {
  }

  // A decode thread that waits for a holder after stop can always obtain one: its run extends to one in
  // which it takes a holder.
  lemma {:induction false} HolderIsObtained(n: nat, run: seq<Step>) returns (all: seq<Step>, j: nat)
    requires ValidRun(Init(n), run) && After(Init(n), run).ctl.stop && AwaitsHolder(After(Init(n), run).decode)
    ensures ValidRun(Init(n), all) && run <= all && |run| <= j < |all| && all[j] == Decode(TakeHolder)
    ensures |all| <= |run| + Measure(After(Init(n), run))
  {
    all := ShutdownCompletes(n, run);
    RunControl(n, all);
    DoneHasLeftWait(After(Init(n), all));
    j := TakeIsPassed(n, run, all);
  }

  // Busy steps of a run: all but idle waits.
  ghost function BusySteps(s: State, run: seq<Step>): (r: nat)
    requires ValidRun(s, run)
    decreases |run|
  {
    if run == [] then 0
    else BusySteps(s, run[..|run| - 1]) + (if IdleWait(After(s, run[..|run| - 1]), run[|run| - 1]) then 0 else 1)
  }

  // No run takes more busy steps after stop than the measure allows.
  lemma {:induction false} BusyStepsAreBounded(s: State, run: seq<Step>)
    requires ValidRun(s, run) && s.ctl.stop && ControlInv(s)
    ensures After(s, run).ctl.stop && ControlInv(After(s, run))
    ensures BusySteps(s, run) + Measure(After(s, run)) <= Measure(s)
    decreases |run|
  {
    if run == [] {
    } else {
      var p, a := run[..|run| - 1], run[|run| - 1];
      BusyStepsAreBounded(s, p);
      var q := After(s, p);
      StepKeepsControl(q, a);
      if IdleWait(q, a) {
      } else {
        StepDecreases(q, a);
      }
    }
  }

  // ----- what the destructor reclaims -----

  // With all threads gone the decoder's destructor gets back every holder and every buffer, also those
  // of outputs that were still waiting for the RGA thread.
  lemma {:induction false} DestructorReclaimsAll(n: nat, run: seq<Step>)
    requires ValidRun(Init(n), run) && After(Init(n), run).main.MDone?
    ensures var p := After(Init(n), run).dec.pool;
            && PoolInv(p, [], None, None)
            && multiset(Reclaimed(p).free) == Everyone(|p.desc|)
            && Reclaimed(p).unused == Below(|p.desc|) && Reclaimed(p).inflight == map[]
  {
    RunDecoder(n, run);
    RunControl(n, run);
    ReclaimReturnsAll(After(Init(n), run).dec.pool);
  }
}
