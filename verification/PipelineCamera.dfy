// Camera buffers in the pipeline: conservation, the bound that keeps the camera fed, and the CPU
// windows.

module PipelineCamera {
  import opened Limits
  import opened Populations
  import opened CameraDevice
  import opened Pipeline

  // How often the capture thread and the decode thread hold camera buffer `b`.
  function CaptureHolds(c: CapturePc, b: nat): nat {
    match c
    case CRequeue(batch) => Count(batch, b)
    case CHave(x) => if x == b then 1 else 0
    case CDrop(x) => if x == b then 1 else 0
    case _ => 0
  }

  function DecodeHolds(d: DecodePc, b: nat): nat {
    if HasFrame(d) && d.b == b then 1 else 0
  }

  // In how many places camera buffer `b` is.
  function Places(c: CameraSide, h: CapturePc, d: DecodePc, b: nat): nat {
    c.dev.driver[b] + CaptureHolds(h, b) + Count(c.ready, b) + DecodeHolds(d, b) + Count(c.recycle, b)
    + Count(c.stranded, b)
  }

  // Buffers that are neither with the driver nor with the capture thread.
  function Downstream(c: CameraSide, d: DecodePc): nat {
    |c.ready| + (if HasFrame(d) then 1 else 0) + |c.recycle|
  }

  ghost predicate EachOnce(c: CameraSide, h: CapturePc, d: DecodePc, n: nat) {
    forall b: nat :: Places(c, h, d, b) == One(b, n)
  }

  ghost predicate Depths(c: CameraSide, h: CapturePc, d: DecodePc) {
    && |c.ready| <= MAX_READY
    && (h.CRequeue? || h.CRead? ==> Downstream(c, d) <= MAX_READY + 1)
    && (c.stranded != [] ==> h.CDone?)
  }

  ghost predicate CameraInv(s: State, n: nat) {
    && |s.cam.dev.stamp| == n
    && EachOnce(s.cam, s.capture, s.decode, n)
    && Depths(s.cam, s.capture, s.decode)
  }

  lemma InitCamera(n: nat)
    ensures CameraInv(Init(n), n)
  {
    SizeOfEveryone(n);
    assert Everyone(n) == Init(n).cam.dev.driver;
  }

  // ----- capture steps -----

  lemma TakeRecycledCamera(s: State, n: nat)
    requires s.capture.CTake? && CameraInv(s, n)
    ensures CameraInv(DoTakeRecycled(s), n)
  {
    var t := DoTakeRecycled(s);
    forall b: nat ensures Places(t.cam, t.capture, t.decode, b) == One(b, n) {
      assert Places(s.cam, s.capture, s.decode, b) == One(b, n);
    }
  }

  lemma RequeueOneAt(s: State, endOk: bool, queueOk: bool, b: nat)
    requires CaptureEnabled(s, RequeueOne(endOk, queueOk))
    ensures var t := DoRequeueOne(s, endOk, queueOk);
            Places(t.cam, t.capture, t.decode, b) == Places(s.cam, s.capture, s.decode, b)
  {
    CountAppend(s.cam.stranded, s.capture.batch, b);
    var x := s.capture.batch[0];
    assert Requeue(s.cam.dev, x, endOk, queueOk).driver[b]
        == s.cam.dev.driver[b] + (if x == b && RequeueOk(s.cam.dev, x, endOk, queueOk) then 1 else 0);
  }

  lemma RequeueOneCamera(s: State, endOk: bool, queueOk: bool, n: nat)
    requires CaptureEnabled(s, RequeueOne(endOk, queueOk)) && CameraInv(s, n)
    ensures CameraInv(DoRequeueOne(s, endOk, queueOk), n)
  {
    var t := DoRequeueOne(s, endOk, queueOk);
    forall b: nat ensures Places(t.cam, t.capture, t.decode, b) == One(b, n) {
      RequeueOneAt(s, endOk, queueOk, b);
    }
  }

  lemma ReadUnopenedAt(s: State, x: nat, b: nat)
    requires CaptureEnabled(s, ReadUnopened(x))
    ensures var t := DoReadUnopened(s, x);
            Places(t.cam, t.capture, t.decode, b) == Places(s.cam, s.capture, s.decode, b)
  {
    CountPush(s.cam.stranded, x, b);
  }

  lemma ReadUnopenedCamera(s: State, x: nat, n: nat)
    requires CaptureEnabled(s, ReadUnopened(x)) && CameraInv(s, n)
    ensures CameraInv(DoReadUnopened(s, x), n)
  {
    var t := DoReadUnopened(s, x);
    forall b: nat ensures Places(t.cam, t.capture, t.decode, b) == One(b, n) {
      ReadUnopenedAt(s, x, b);
    }
  }

  lemma ReadOversizedAt(s: State, x: nat, ts: int, endOk: bool, queueOk: bool, b: nat)
    requires CaptureEnabled(s, ReadOversized(x, ts, endOk, queueOk))
    ensures var t := DoReadOversized(s, x, ts, endOk, queueOk);
            Places(t.cam, t.capture, t.decode, b) == Places(s.cam, s.capture, s.decode, b)
  {
    CountAppend(s.cam.stranded, Maybe(!queueOk, x), b);
  }

  lemma ReadOversizedCamera(s: State, x: nat, ts: int, endOk: bool, queueOk: bool, n: nat)
    requires CaptureEnabled(s, ReadOversized(x, ts, endOk, queueOk)) && CameraInv(s, n)
    ensures CameraInv(DoReadOversized(s, x, ts, endOk, queueOk), n)
  {
    var t := DoReadOversized(s, x, ts, endOk, queueOk);
    forall b: nat ensures Places(t.cam, t.capture, t.decode, b) == One(b, n) {
      ReadOversizedAt(s, x, ts, endOk, queueOk, b);
    }
  }

  lemma ReadFrameCamera(s: State, x: nat, ts: int, n: nat)
    requires CaptureEnabled(s, ReadFrame(x, ts)) && CameraInv(s, n)
    ensures CameraInv(DoReadFrame(s, x, ts), n)
  {
    var t := DoReadFrame(s, x, ts);
    forall b: nat ensures Places(t.cam, t.capture, t.decode, b) == One(b, n) {
      assert Places(s.cam, s.capture, s.decode, b) == One(b, n);
    }
  }

  lemma EnterReadyAt(s: State, b: nat)
    requires s.capture.CHave?
    ensures var t := DoEnterReady(s);
            Places(t.cam, t.capture, t.decode, b) == Places(s.cam, s.capture, s.decode, b)
  {
    var q := s.cam.ready;
    if |q| >= MAX_READY {
      CountPush(q[1..], s.capture.b, b);
    } else {
      CountPush(q, s.capture.b, b);
    }
  }

  lemma EnterReadyCamera(s: State, n: nat)
    requires s.capture.CHave? && CameraInv(s, n)
    ensures CameraInv(DoEnterReady(s), n)
  {
    var t := DoEnterReady(s);
    forall b: nat ensures Places(t.cam, t.capture, t.decode, b) == One(b, n) {
      EnterReadyAt(s, b);
    }
  }

  lemma EnterRecycleCamera(s: State, n: nat)
    requires s.capture.CDrop? && CameraInv(s, n)
    ensures CameraInv(DoEnterRecycle(s), n)
  {
    var t := DoEnterRecycle(s);
    forall b: nat ensures Places(t.cam, t.capture, t.decode, b) == One(b, n) {
      assert Places(s.cam, s.capture, s.decode, b) == One(b, n);
      CountPush(s.cam.recycle, s.capture.b, b);
    }
  }

  // A step that moves the capture thread only between places where it holds nothing.
  lemma IdleCaptureCamera(s: State, t: State, n: nat)
    requires CameraInv(s, n) && t.cam == s.cam && t.decode == s.decode
    requires forall b :: CaptureHolds(t.capture, b) == CaptureHolds(s.capture, b)
    requires t.capture.CRequeue? || t.capture.CRead? ==> s.capture.CRequeue? || s.capture.CRead?
    requires s.capture.CDone? ==> t.capture.CDone?
    ensures CameraInv(t, n)
  {
    forall b: nat ensures Places(t.cam, t.capture, t.decode, b) == One(b, n) {
      assert Places(s.cam, s.capture, s.decode, b) == One(b, n);
    }
  }

  lemma CaptureKeepsCamera(s: State, c: CaptureStep, n: nat)
    requires CaptureEnabled(s, c) && CameraInv(s, n)
    ensures CameraInv(CaptureApply(s, c), n)
  {
    match c
    case TakeRecycled => TakeRecycledCamera(s, n);
    case RequeueOne(endOk, queueOk) => RequeueOneCamera(s, endOk, queueOk, n);
    case ReadUnopened(b) => ReadUnopenedCamera(s, b, n);
    case ReadOversized(b, ts, endOk, queueOk) => ReadOversizedCamera(s, b, ts, endOk, queueOk, n);
    case ReadFrame(b, ts) => ReadFrameCamera(s, b, ts, n);
    case EnterReady => EnterReadyCamera(s, n);
    case EnterRecycle => EnterRecycleCamera(s, n);
    case _ => IdleCaptureCamera(s, CaptureApply(s, c), n);
  }

  // ----- decode steps -----

  lemma NextFrameCamera(s: State, n: nat)
    requires DecodeEnabled(s, NextFrame) && CameraInv(s, n)
    ensures CameraInv(DoNextFrame(s), n)
  {
    var t := DoNextFrame(s);
    forall b: nat ensures Places(t.cam, t.capture, t.decode, b) == One(b, n) {
      assert Places(s.cam, s.capture, s.decode, b) == One(b, n);
    }
  }

  lemma ReturnFrameCamera(s: State, n: nat)
    requires s.decode.DReturn? && CameraInv(s, n)
    ensures CameraInv(DoReturnFrame(s), n)
  {
    var t := DoReturnFrame(s);
    forall b: nat ensures Places(t.cam, t.capture, t.decode, b) == One(b, n) {
      assert Places(s.cam, s.capture, s.decode, b) == One(b, n);
      CountPush(s.cam.recycle, s.decode.b, b);
    }
  }

  // A step that keeps the frame and touches at most flags and logs of the device.
  ghost predicate FrameKept(s: State, t: State) {
    && t.cam.dev.driver == s.cam.dev.driver && t.cam.dev.stamp == s.cam.dev.stamp
    && t.cam.ready == s.cam.ready && t.cam.recycle == s.cam.recycle && t.cam.stranded == s.cam.stranded
    && t.capture == s.capture && HasFrame(t.decode) == HasFrame(s.decode)
       && (HasFrame(s.decode) ==> t.decode.b == s.decode.b)
  }

  lemma FrameKeptCamera(s: State, t: State, n: nat)
    requires CameraInv(s, n) && FrameKept(s, t)
    ensures CameraInv(t, n)
  {
    forall b: nat ensures Places(t.cam, t.capture, t.decode, b) == One(b, n) {
      assert Places(s.cam, s.capture, s.decode, b) == One(b, n);
    }
  }

  lemma DecodeKeepsCamera(s: State, d: DecodeStep, n: nat)
    requires DecodeEnabled(s, d) && CameraInv(s, n)
    ensures CameraInv(DecodeApply(s, d), n)
  {
    match d
    case NextFrame => NextFrameCamera(s, n);
    case ReturnFrame => ReturnFrameCamera(s, n);
    case _ =>
      FrameKeptCamera(s, DecodeApply(s, d), n);
  }

  // ----- everyone else -----

  lemma ClearKeepsCamera(s: State, n: nat)
    requires CameraInv(s, n) && s.capture.CDone?
    ensures CameraInv(DoClear(s), n)
  {
    var t := DoClear(s);
    forall b: nat ensures Places(t.cam, t.capture, t.decode, b) == One(b, n) {
      assert Places(s.cam, s.capture, s.decode, b) == One(b, n);
      CountAppend(s.cam.stranded + s.cam.ready, s.cam.recycle, b);
      CountAppend(s.cam.stranded, s.cam.ready, b);
    }
  }

  // Threads other than capture and decode leave the camera side alone, and so does main until it clears.
  lemma OthersLeaveCamera(s: State, a: Step)
    requires Enabled(s, a) && !a.Capture? && !a.Decode? && a != Main(ClearQueues)
    ensures Apply(s, a).cam == s.cam && Apply(s, a).capture == s.capture && Apply(s, a).decode == s.decode
  {
  }

  lemma StepKeepsCamera(s: State, a: Step, n: nat)
    requires Enabled(s, a) && CameraInv(s, n) && (a == Main(ClearQueues) ==> s.capture.CDone?)
    ensures CameraInv(Apply(s, a), n)
  {
    if a.Capture? {
      CaptureKeepsCamera(s, a.c, n);
    } else if a.Decode? {
      DecodeKeepsCamera(s, a.d, n);
    } else if a == Main(ClearQueues) {
      ClearKeepsCamera(s, n);
    } else {
      OthersLeaveCamera(s, a);
    }
  }
}
