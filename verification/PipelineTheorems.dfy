// What holds in every reachable state and over every run of the pipeline.

module PipelineTheorems {
  import opened Limits
  import opened Populations
  import opened Lines
  import opened DecoderPool
  import opened RgaPool
  import opened CameraDevice
  import opened Pipeline
  import opened PipelineCamera
  import opened PipelineWindows
  import opened PipelineDecoder
  import opened PipelineRga
  import opened PipelineControl
  import opened PipelineOrder

  // ----- the invariant of the whole pipeline -----

  ghost predicate Inv(s: State, n: nat) {
    && CameraInv(s, n) && WindowInv(s)
    && DecoderInv(s) && SlotInv(s)
    && ControlInv(s) && TailInv(s)
    && OrderInv(s)
  }

  lemma InitInv(n: nat)
    ensures Inv(Init(n), n)
  {
    InitCamera(n);
    InitWindow(n);
    InitDecoder(n);
    InitSlots(n);
    InitOrder(n);
  }

  // Main takes and clears queues only after every thread has left.
  lemma MainActsLast(s: State, a: Step)
    requires ControlInv(s) && Enabled(s, a)
    ensures a == Main(TakeInputs) || a == Main(ClearQueues) ==> AllJoined(s)
  {
  }

  lemma StepInv(s: State, a: Step, n: nat)
    requires Inv(s, n) && Enabled(s, a)
    ensures Inv(Apply(s, a), n)
  {
    MainActsLast(s, a);
    StepKeepsCamera(s, a, n);
    StepKeepsDecoder(s, a);
    StepKeepsSlots(s, a);
    StepKeepsWindow(s, a, n);
    StepKeepsControl(s, a);
    StepKeepsTail(s, a);
    StepKeepsOrder(s, a, n);
  }

  lemma {:induction false} RunInv(n: nat, run: seq<Step>)
    requires ValidRun(Init(n), run)
    ensures Inv(After(Init(n), run), n)
    decreases |run|
  {
    if run == [] {
      InitInv(n);
    } else {
      RunInv(n, run[..|run| - 1]);
      StepInv(After(Init(n), run[..|run| - 1]), run[|run| - 1], n);
    }
  }

  // Two parts of the invariant, for use on their own.
  lemma {:induction false} RunControl(n: nat, run: seq<Step>)
    requires ValidRun(Init(n), run)
    ensures ControlInv(After(Init(n), run))
  {
    RunInv(n, run);
  }

  lemma {:induction false} RunDecoder(n: nat, run: seq<Step>)
    requires ValidRun(Init(n), run)
    ensures DecoderInv(After(Init(n), run))
  {
    RunInv(n, run);
  }

  // ----- camera buffers -----

  // Every granted buffer is in exactly one place, and nothing else is anywhere.
  lemma {:induction false} CameraConserved(n: nat, run: seq<Step>, b: nat)
    requires ValidRun(Init(n), run)
    ensures var s := After(Init(n), run);
            && Places(s.cam, s.capture, s.decode, b) == One(b, n)
            && |s.cam.ready| <= 12
            && (!s.capture.CDone? ==> s.cam.stranded == [])
  {
    RunInv(n, run);
    var s := After(Init(n), run);
    assert Places(s.cam, s.capture, s.decode, b) == One(b, n);
  }

  lemma ReadingPlaces(s: State, n: nat)
    requires CameraInv(s, n) && s.capture.CRead?
    ensures var d := if HasFrame(s.decode) then multiset{s.decode.b} else multiset{};
            s.cam.dev.driver + multiset(s.cam.ready) + d + multiset(s.cam.recycle) == Everyone(n)
  {
    var d := if HasFrame(s.decode) then multiset{s.decode.b} else multiset{};
    var all := s.cam.dev.driver + multiset(s.cam.ready) + d + multiset(s.cam.recycle);
    forall b: nat
      ensures all[b] == Everyone(n)[b]
    {
      assert Places(s.cam, s.capture, s.decode, b) == One(b, n);
      CountIsMultiplicity(s.cam.ready, b);
      CountIsMultiplicity(s.cam.recycle, b);
    }
  }

  // While the capture thread waits for a frame the driver keeps all but 13 of the granted buffers, so
  // at least three when all requested ones were granted.
  lemma {:induction false} CameraNeverStarved(n: nat, run: seq<Step>)
    requires ValidRun(Init(n), run) && After(Init(n), run).capture.CRead?
    ensures |After(Init(n), run).cam.dev.driver| >= n - 13
    ensures n >= 16 ==> |After(Init(n), run).cam.dev.driver| >= 3
  {
    RunInv(n, run);
    var s := After(Init(n), run);
    ReadingPlaces(s, n);
    SizeOfEveryone(n);
    var d := if HasFrame(s.decode) then multiset{s.decode.b} else multiset{};
    assert |s.cam.dev.driver| + |s.cam.ready| + |d| + |s.cam.recycle| == n;
  }

  // ----- CPU windows -----

  ghost predicate HandsOver(run: seq<Step>) {
    exists i :: 0 <= i < |run| && HandsOverOpen(run[i])
  }

  lemma {:induction false} HandsOverSnoc(run: seq<Step>)
    requires run != []
    ensures HandsOver(run) <==> HandsOver(run[..|run| - 1]) || HandsOverOpen(run[|run| - 1])
  {
    var p := run[..|run| - 1];
    if HandsOver(p) {
      var i :| 0 <= i < |p| && HandsOverOpen(p[i]);
      assert HandsOverOpen(run[i]);
    }
    if HandsOver(run) && !HandsOverOpen(run[|run| - 1]) {
      var i :| 0 <= i < |run| && HandsOverOpen(run[i]);
      assert HandsOverOpen(p[i]);
    }
  }

  lemma {:induction false} UnsyncedIff(n: nat, run: seq<Step>)
    requires ValidRun(Init(n), run)
    ensures After(Init(n), run).cam.dev.unsynced <==> HandsOver(run)
    decreases |run|
  {
    if run == [] {
    } else {
      var p, a := run[..|run| - 1], run[|run| - 1];
      RunInv(n, p);
      UnsyncedIff(n, p);
      UnsyncedStep(After(Init(n), p), a, n);
      assert HandsOver(run) <==> HandsOver(p) || HandsOverOpen(a) by { HandsOverSnoc(run); }
    }
  }

  // In every run START and END alternate per buffer and no buffer goes to the driver or the decoder
  // with its window open, if and only if no oversized frame was requeued after a refused END.
  lemma {:induction false} WindowsAreClosed(n: nat, run: seq<Step>)
    requires ValidRun(Init(n), run)
    ensures Replay(After(Init(n), run).cam.dev.log).Some? <==> !HandsOver(run)
  {
    RunInv(n, run);
    UnsyncedIff(n, run);
  }

  // Teardown after any run that handed over no open window: the kernel still sees START and END alternate,
  // and the only windows left open are those whose END was refused.
  lemma {:induction false} TeardownLeavesOnlyRefused(n: nat, run: seq<Step>, endOk: seq<bool>)
    requires ValidRun(Init(n), run) && !HandsOver(run) && |endOk| == n
    ensures var d := After(Init(n), run).cam.dev;
            var w := Replay(EndAll(d, endOk, n).log);
            && (forall b :: b in d.open ==> b < n)
            && w.Some? && forall b: nat :: b in w.value <==> b in d.leaked || (b in d.open && !endOk[b])
  {
    WindowsAreClosed(n, run);
    RunInv(n, run);
    TeardownCloses(After(Init(n), run).cam.dev, endOk);
  }

  // ----- decoder outputs -----

  // No recycle request is ever refused and the branch for duplicate outputs is never taken.
  lemma {:induction false} NothingRefused(n: nat, run: seq<Step>)
    requires ValidRun(Init(n), run)
    ensures After(Init(n), run).dec.notInFlight == 0 && After(Init(n), run).dec.duplicates == 0
  {
    RunInv(n, run);
  }

  lemma DescriptorPlaces(s: State, x: nat)
    requires DecoderInv(s)
    ensures Reached(s.dec, s.decode, s.rga, s.recycler, s.main, x) == InFlight(s.dec.pool, x)
    ensures HasBuffer(s.decode) && s.decode.x == x ==> x !in s.dec.pool.inflight
  {
    if HasBuffer(s.decode) { NotInFlight(s.dec.pool, s.decode); }
  }

  // A descriptor any thread can reach is in flight, in one place only, and not the one being written.
  lemma {:induction false} DescriptorsAreExclusive(n: nat, run: seq<Step>, x: nat)
    requires ValidRun(Init(n), run)
    ensures var s := After(Init(n), run);
            && Reached(s.dec, s.decode, s.rga, s.recycler, s.main, x) == InFlight(s.dec.pool, x)
            && (HasBuffer(s.decode) && s.decode.x == x ==> x !in s.dec.pool.inflight)
            && (!s.main.MDone? ==> s.dec.orphans == [])
  {
    RunInv(n, run);
    DescriptorPlaces(After(Init(n), run), x);
  }

  // In no run do two descriptors in flight share a holder.
  lemma {:induction false} HoldersAreExclusive(n: nat, run: seq<Step>)
    requires ValidRun(Init(n), run)
    ensures Injective(After(Init(n), run).dec.pool.inflight)
  {
    RunInv(n, run);
  }

  lemma UnusedBuffer(s: State)
    requires DecoderInv(s) && s.decode.DHolder?
    ensures s.dec.pool.unused != {}
  {
    HolderGuaranteesBuffer(s.dec.pool, s.decode.h);
  }

  // The decode call that holds a holder always finds an unused buffer in the group.
  lemma {:induction false} HolderFindsBuffer(n: nat, run: seq<Step>)
    requires ValidRun(Init(n), run) && After(Init(n), run).decode.DHolder?
    ensures exists x :: Enabled(After(Init(n), run), Decode(TakeBuffer(x)))
  {
    RunInv(n, run);
    var s := After(Init(n), run);
    UnusedBuffer(s);
    var x :| x in s.dec.pool.unused;
    assert Enabled(s, Decode(TakeBuffer(x)));
  }

  // ----- order -----

  // The encoder receives frames in capture order, none twice, each with its own capture time.
  lemma {:induction false} AcceptedInOrder(n: nat, run: seq<Step>)
    requires ValidRun(Init(n), run)
    ensures Line(After(Init(n), run).enc.accepted, After(Init(n), run).cam.captured)
  {
    RunInv(n, run);
    AcceptedFirst(After(Init(n), run));
  }

  // A full ready queue drops its oldest frame and keeps the newest one last, in every reachable state.
  lemma {:induction false} OldestIsDropped(n: nat, run: seq<Step>, i: nat)
    requires ValidRun(Init(n), run)
    requires After(Init(n), run).capture.CHave? && |After(Init(n), run).cam.ready| == 12 && i < 12
    ensures var s := After(Init(n), run);
            var t := Apply(s, Capture(EnterReady));
            && t.capture.CDrop? && t.cam.ready[11] == s.capture.b
            && StampOf(s.cam.dev.stamp, t.capture.b).frame < StampOf(s.cam.dev.stamp, t.cam.ready[i]).frame
  {
    RunInv(n, run);
    DropsOldest(After(Init(n), run), i);
  }

  // ----- RGA slots -----

  lemma SlotIsSomewhere(s: State, t: nat)
    requires SlotInv(s)
    ensures SlotPlaces(s.enc, s.rga, s.encode, s.main, t) == InUse(s.enc.slots, t)
    ensures s.enc.slots.ready ==> Count(s.enc.slots.available, t) + InUse(s.enc.slots, t) == One(t, POOL_SIZE)
  {
  }

  // Slot `t` is in use exactly while one thread or queue has it, and available otherwise; none is lost
  // before stop.
  lemma {:induction false} SlotsConserved(n: nat, run: seq<Step>, t: nat)
    requires ValidRun(Init(n), run)
    ensures var s := After(Init(n), run);
            && SlotPlaces(s.enc, s.rga, s.encode, s.main, t) == InUse(s.enc.slots, t)
            && (s.enc.slots.ready ==>
                  Count(s.enc.slots.available, t) + SlotPlaces(s.enc, s.rga, s.encode, s.main, t) == One(t, 48))
            && (!s.ctl.stop ==> s.enc.lost == [])
  {
    RunInv(n, run);
    SlotIsSomewhere(After(Init(n), run), t);
  }

  // When main has drained the encode queue, at most one slot of a ready pool is not available.
  lemma {:induction false} SlotsAfterDrain(n: nat, run: seq<Step>, t: nat)
    requires ValidRun(Init(n), run) && After(Init(n), run).main == MDrainEnc([])
    requires After(Init(n), run).enc.slots.ready && t < POOL_SIZE
    ensures var s := After(Init(n), run);
            |s.enc.lost| <= 1 && (Count(s.enc.slots.available, t) == 1 || s.enc.lost == [t])
  {
    var s := After(Init(n), run);
    RunInv(n, run);
    SlotIsSomewhere(s, t);
    CountMember(s.enc.lost, t);
  }
}
