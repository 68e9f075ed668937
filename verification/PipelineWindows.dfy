// The CPU read windows of the camera buffers, over every interleaving of the capture and the decode
// thread.

module PipelineWindows {
  import opened Populations
  import opened CameraDevice
  import opened Pipeline
  import opened PipelineCamera

  // Places behind the end of the CPU window in MppDecode.
  predicate PastWindow(d: DecodePc) {
    d.DAcquire? || d.DHolder? || HasBuffer(d) || (d.DDrain? && d.waiting)
  }

  ghost predicate WindowInv(s: State) {
    && SyncInv(s.cam.dev)
    && (PastWindow(s.decode) ==> s.decode.b !in s.cam.dev.open)
    && (s.cam.dev.leaked != {} ==> s.capture.CDone?)
    && (forall b :: b in s.cam.dev.leaked ==> b in s.cam.stranded || b in s.cam.dev.driver)
    && (s.cam.dev.unsynced ==> s.cam.dev.leaked != {})
    && (forall b :: b in s.cam.dev.open ==> b < |s.cam.dev.stamp|)
  }

  lemma NothingOpen(s: State)
    requires s.cam.dev.open == {} && s.cam.dev.leaked == {} && s.cam.dev.log == [] && !s.cam.dev.unsynced
        && s.decode.DWait?
    ensures WindowInv(s)
  {
    assert {} + s.cam.dev.leaked == s.cam.dev.leaked;
  }

  lemma InitWindow(n: nat)
    ensures WindowInv(Init(n))
  {
    NothingOpen(Init(n));
  }

  // A buffer with the driver is nowhere else.
  lemma DriverBuffer(s: State, n: nat, b: nat)
    requires CameraInv(s, n) && b in s.cam.dev.driver
    ensures s.cam.dev.driver[b] == 1 && b < n && (HasFrame(s.decode) ==> s.decode.b != b)
    ensures b !in s.cam.ready && b !in s.cam.recycle && b !in s.cam.stranded && CaptureHolds(s.capture, b) == 0
  {
    assert Places(s.cam, s.capture, s.decode, b) == One(b, n);
    CountMember(s.cam.ready, b);
    CountMember(s.cam.recycle, b);
    CountMember(s.cam.stranded, b);
  }

  // The frame of the decode thread is nowhere else.
  lemma DecodeBuffer(s: State, n: nat)
    requires CameraInv(s, n) && HasFrame(s.decode)
    ensures var b := s.decode.b;
            b < n && b !in s.cam.dev.driver && b !in s.cam.stranded && b !in s.cam.ready && b !in s.cam.recycle
            && CaptureHolds(s.capture, b) == 0
  {
    var b := s.decode.b;
    assert Places(s.cam, s.capture, s.decode, b) == One(b, n);
    CountMember(s.cam.ready, b);
    CountMember(s.cam.recycle, b);
    CountMember(s.cam.stranded, b);
  }

  lemma RequeueOneWindow(s: State, endOk: bool, queueOk: bool)
    requires CaptureEnabled(s, RequeueOne(endOk, queueOk)) && WindowInv(s)
    ensures WindowInv(DoRequeueOne(s, endOk, queueOk))
  {
    CameraDevice.RequeueKeeps(s.cam.dev, s.capture.batch[0], endOk, queueOk);
  }

  lemma ReadOversizedWindow(s: State, b: nat, ts: int, endOk: bool, queueOk: bool, n: nat)
    requires CaptureEnabled(s, ReadOversized(b, ts, endOk, queueOk)) && CameraInv(s, n) && WindowInv(s)
    ensures WindowInv(DoReadOversized(s, b, ts, endOk, queueOk))
    ensures DoReadOversized(s, b, ts, endOk, queueOk).cam.dev.unsynced <==> !endOk && queueOk
  {
    DriverBuffer(s, n, b);
    OversizedKeeps(s.cam.dev, b, ts, endOk, queueOk);
    var t := DoReadOversized(s, b, ts, endOk, queueOk);
    assert forall x :: x in t.cam.dev.leaked ==> x == b && !endOk;
  }

  lemma ReadFrameWindow(s: State, b: nat, ts: int, n: nat)
    requires CaptureEnabled(s, ReadFrame(b, ts)) && CameraInv(s, n) && WindowInv(s)
    ensures WindowInv(DoReadFrame(s, b, ts))
  {
    DriverBuffer(s, n, b);
    DequeueKeeps(s.cam.dev, b, ts, |s.cam.captured|);
  }

  lemma CaptureKeepsWindow(s: State, c: CaptureStep, n: nat)
    requires CaptureEnabled(s, c) && CameraInv(s, n) && WindowInv(s)
    ensures WindowInv(CaptureApply(s, c))
  {
    match c
    case RequeueOne(endOk, queueOk) => RequeueOneWindow(s, endOk, queueOk);
    case ReadOversized(b, ts, endOk, queueOk) => ReadOversizedWindow(s, b, ts, endOk, queueOk, n);
    case ReadFrame(b, ts) => ReadFrameWindow(s, b, ts, n);
    case _ =>
  }

  lemma SubmitWindow(s: State, n: nat)
    requires s.decode.DBuffer? && CameraInv(s, n) && WindowInv(s)
    ensures WindowInv(DoSubmit(s))
  {
    DecodeBuffer(s, n);
    SubmitKeeps(s.cam.dev, s.decode.b);
  }

  lemma EndReadWindow(s: State, d: DecodePc)
    requires s.decode.DCheck? && WindowInv(s) && HasFrame(d) && d.b == s.decode.b
    ensures WindowInv(DoEndRead(s, d))
  {
    EndReadKeeps(s.cam.dev, s.decode.b, true);
  }

  lemma DecodeKeepsWindow(s: State, d: DecodeStep, n: nat)
    requires DecodeEnabled(s, d) && CameraInv(s, n) && WindowInv(s)
    ensures WindowInv(DecodeApply(s, d))
  {
    match d
    case RejectLate => EndReadWindow(s, DReturn(s.decode.b));
    case CheckedOk => EndReadWindow(s, DAcquire(s.decode.b));
    case SubmitTask => SubmitWindow(s, n);
    case _ =>
  }

  lemma StepKeepsWindow(s: State, a: Step, n: nat)
    requires Enabled(s, a) && CameraInv(s, n) && WindowInv(s)
    ensures WindowInv(Apply(s, a))
  {
    if a.Capture? {
      CaptureKeepsWindow(s, a.c, n);
    } else if a.Decode? {
      DecodeKeepsWindow(s, a.d, n);
    } else if a != Main(ClearQueues) {
      OthersLeaveCamera(s, a);
    }
  }

  // The one outcome that hands an open window to the driver.
  predicate HandsOverOpen(a: Step) {
    a.Capture? && a.c.ReadOversized? && !a.c.endOk && a.c.queueOk
  }

  lemma UnsyncedCapture(s: State, c: CaptureStep, n: nat)
    requires CaptureEnabled(s, c) && CameraInv(s, n) && WindowInv(s)
    ensures CaptureApply(s, c).cam.dev.unsynced <==> s.cam.dev.unsynced || HandsOverOpen(Capture(c))
  {
    if c.ReadOversized? {
      ReadOversizedWindow(s, c.b, c.ts, c.endOk, c.queueOk, n);
    }
  }

  lemma UnsyncedDecode(s: State, d: DecodeStep)
    requires DecodeEnabled(s, d)
    ensures DecodeApply(s, d).cam.dev.unsynced == s.cam.dev.unsynced
  {
    if !d.RejectLate? && !d.CheckedOk? && !d.SubmitTask? {
    }
  }

  lemma UnsyncedStep(s: State, a: Step, n: nat)
    requires Enabled(s, a) && CameraInv(s, n) && WindowInv(s)
    ensures Apply(s, a).cam.dev.unsynced <==> s.cam.dev.unsynced || HandsOverOpen(a)
  {
    if a.Capture? {
      UnsyncedCapture(s, a.c, n);
    } else if a.Decode? {
      UnsyncedDecode(s, a.d);
    } else if a != Main(ClearQueues) {
    }
  }
}
