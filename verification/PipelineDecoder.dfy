// Holders, output buffers and output descriptors of the decoder, over every interleaving of the decode,
// RGA and recycle threads with main.

module PipelineDecoder {
  import opened Wrappers
  import opened FrameStamps
  import opened Populations
  import opened DecoderPool
  import opened Pipeline

  // The pool's invariant, given what the decode thread holds of the pool.
  ghost predicate PoolAgrees(p: Pool, d: DecodePc) {
    match d
    case DDrain(_, local, _) => PoolInv(p, local, None, None)
    case DHolder(_, h) => PoolInv(p, [], Some(h), None)
    case DBuffer(_, h, x) => PoolInv(p, [], Some(h), Some(x))
    case DSubmitted(_, h, x) => PoolInv(p, [], Some(h), Some(x))
    case DWritten(_, h, x) => PoolInv(p, [], Some(h), Some(x))
    case _ => PoolInv(p, [], None, None)
  }

  // The decoder output in the hands of the RGA thread.
  predicate RgaHasOutput(r: RgaPc) {
    !r.RWait? && !r.RExit? && !r.RDone?
  }

  function RgaHolds(r: RgaPc, x: nat): nat {
    if RgaHasOutput(r) && r.x == x then 1 else 0
  }

  function PublishHolds(d: DecodePc, x: nat): nat {
    if d.DPublish? && d.x == x then 1 else 0
  }

  function BatchHolds(y: RecyclePc, x: nat): nat {
    if y.YDrain? then Count(y.batch, x) else 0
  }

  function MainHolds(m: MainPc, x: nat): nat {
    if m.MDrainDec? then Count(m.batch, x) else 0
  }

  // In how many places outside the decoder descriptor `x` is.
  function Reached(d: DecoderSide, dec: DecodePc, rga: RgaPc, rec: RecyclePc, main: MainPc, x: nat): nat {
    PublishHolds(dec, x) + Count(d.rgaConsume, x) + RgaHolds(rga, x) + Count(d.mppRecycle, x)
    + BatchHolds(rec, x) + MainHolds(main, x) + Count(d.orphans, x)
  }

  function InFlight(p: Pool, x: nat): nat {
    if x in p.inflight then 1 else 0
  }

  // The descriptors in flight are exactly those outside the decoder, each in one place.
  ghost predicate ReachedOnce(s: State) {
    forall x: nat :: Reached(s.dec, s.decode, s.rga, s.recycler, s.main, x) == InFlight(s.dec.pool, x)
  }

  ghost predicate DecoderInv(s: State) {
    PoolAgrees(s.dec.pool, s.decode) && ReachedOnce(s) && s.dec.notInFlight == 0 && s.dec.duplicates == 0
  }

  lemma InitDecoder(n: nat)
    ensures DecoderInv(Init(n))
  {
    FreshPool();
  }

  // ----- decode steps inside the pool -----

  // Steps that leave queues and the in-flight map alone.
  ghost predicate MapKept(s: State, t: State) {
    && t.dec.pool.inflight == s.dec.pool.inflight && t.dec.rgaConsume == s.dec.rgaConsume
    && t.dec.mppRecycle == s.dec.mppRecycle && t.dec.orphans == s.dec.orphans
    && t.dec.notInFlight == s.dec.notInFlight && t.dec.duplicates == s.dec.duplicates
    && t.rga == s.rga && t.recycler == s.recycler && t.main == s.main
    && !s.decode.DPublish? && !t.decode.DPublish?
  }

  lemma MapKeptReached(s: State, t: State)
    requires ReachedOnce(s) && MapKept(s, t)
    ensures ReachedOnce(t)
  {
    forall x: nat ensures Reached(t.dec, t.decode, t.rga, t.recycler, t.main, x) == InFlight(t.dec.pool, x) {
      assert Reached(s.dec, s.decode, s.rga, s.recycler, s.main, x) == InFlight(s.dec.pool, x);
    }
  }

  predicate PoolStep(d: DecodeStep) {
    !d.PublishOutput? && !d.InvalidOutput? && !d.EnterRgaConsume?
  }

  lemma RecycleOnePool(p: Pool, b: nat, local: seq<nat>, w: bool)
    requires PoolAgrees(p, DDrain(b, local, w)) && local != []
    ensures local[0] in p.buf && PoolAgrees(RecycleHolder(p, local[0]), DDrain(b, local[1..], w))
  {
    RecycleKeeps(p, local);
  }

  lemma TakeHolderPool(p: Pool, b: nat)
    requires PoolAgrees(p, DAcquire(b)) && p.free != []
    ensures PoolAgrees(AcquireHolder(p), DHolder(b, p.free[0]))
  {
    AcquireKeeps(p);
  }

  lemma NoBufferPool(p: Pool, b: nat, h: nat)
    requires PoolAgrees(p, DHolder(b, h))
    ensures PoolAgrees(ReturnHolder(p, h), DReturn(b))
  {
    ReturnKeeps(p, h);
  }

  lemma TakeBufferPool(p: Pool, b: nat, h: nat, x: nat)
    requires PoolAgrees(p, DHolder(b, h)) && x in p.unused
    ensures PoolAgrees(GetBuffer(p, x), DBuffer(b, h, x))
  {
    GetBufferKeeps(p, h, x);
  }

  lemma AbandonPool(p: Pool, b: nat, h: nat, x: nat)
    requires PoolInv(p, [], Some(h), Some(x))
    ensures PoolAgrees(Abandon(p, h, x), DReturn(b))
  {
    AbandonKeeps(p, h, x);
  }

  lemma WriteDescriptorPool(p: Pool, b: nat, h: nat, x: nat, st: Stamp)
    requires PoolAgrees(p, DSubmitted(b, h, x)) && x < |p.desc|
    ensures PoolAgrees(WriteDesc(p, x, st), DWritten(b, h, x))
  {
    WriteDescKeeps(p, [], Some(h), Some(x), x, st);
  }

  lemma SwapPool(p: Pool, e: DecodePc, b: nat, w: bool)
    requires PoolAgrees(p, e) && (e.DEnter? || e.DAcquire?)
    ensures PoolAgrees(TakePending(p), DDrain(b, p.pending, w))
  {
    TakePendingKeeps(p, None, None);
  }

  lemma DrainStepKeepsPool(s: State, d: DecodeStep)
    requires DecodeEnabled(s, d) && PoolAgrees(s.dec.pool, s.decode)
    requires d.RecycleOne? || d.SwapPending? || d.WaitForHolder?
    ensures PoolAgrees(DecodeApply(s, d).dec.pool, DecodeApply(s, d).decode)
  {
    var p, e := s.dec.pool, s.decode;
    match d
    case RecycleOne => RecycleOnePool(p, e.b, e.local, e.waiting);
    case SwapPending => SwapPool(p, e, e.b, false);
    case WaitForHolder => SwapPool(p, e, e.b, true);
  }

  lemma HolderStepKeepsPool(s: State, d: DecodeStep)
    requires DecodeEnabled(s, d) && PoolAgrees(s.dec.pool, s.decode)
    requires d.TakeHolder? || d.NoBuffer? || d.TakeBuffer?
    ensures PoolAgrees(DecodeApply(s, d).dec.pool, DecodeApply(s, d).decode)
  {
    var p, e := s.dec.pool, s.decode;
    match d
    case TakeHolder => TakeHolderPool(p, e.b);
    case NoBuffer => NoBufferPool(p, e.b, e.h);
    case TakeBuffer(x) => TakeBufferPool(p, e.b, e.h, x);
  }

  lemma BufferStepKeepsPool(s: State, d: DecodeStep)
    requires DecodeEnabled(s, d) && PoolAgrees(s.dec.pool, s.decode)
    requires d.DecodeFails? || d.WriteDescriptor?
    ensures PoolAgrees(DecodeApply(s, d).dec.pool, DecodeApply(s, d).decode)
  {
    var p, e := s.dec.pool, s.decode;
    if d.DecodeFails? {
      AbandonPool(p, e.b, e.h, e.x);
    } else {
      WriteDescriptorPool(p, e.b, e.h, e.x, Repaired(Repaired(s.cam.dev.stamp[e.b])));
    }
  }

  predicate QuietStep(d: DecodeStep) {
    d.NextFrame? || d.DrainDone? || d.RejectEarly? || d.EndRefused? || d.RejectLate? || d.CheckedOk?
    || d.EnterRgaConsume? || d.ReturnFrame?
  }

  // ----- publishing, queueing, recycling -----

  lemma PublishReached(s: State)
    requires s.decode.DWritten? && ReachedOnce(s) && s.decode.x !in s.dec.pool.inflight
    ensures ReachedOnce(DoPublish(s))
  {
    var t := DoPublish(s);
    forall y: nat ensures Reached(t.dec, t.decode, t.rga, t.recycler, t.main, y) == InFlight(t.dec.pool, y) {
      assert Reached(s.dec, s.decode, s.rga, s.recycler, s.main, y) == InFlight(s.dec.pool, y);
    }
  }

  lemma PublishPool(p: Pool, b: nat, h: nat, x: nat)
    requires PoolAgrees(p, DWritten(b, h, x))
    ensures x !in p.inflight && PoolAgrees(Publish(p, h, x), DPublish(b, x))
  {
    HeldBufferIsExclusive(p, [], h, x);
    PublishKeeps(p, h, x);
  }

  lemma PublishDecoder(s: State)
    requires s.decode.DWritten? && DecoderInv(s)
    ensures s.decode.x !in s.dec.pool.inflight
    ensures DecoderInv(DoPublish(s))
  {
    PublishPool(s.dec.pool, s.decode.b, s.decode.h, s.decode.x);
    PublishReached(s);
  }

  lemma EnterRgaConsumeReached(s: State)
    requires s.decode.DPublish? && ReachedOnce(s)
    ensures ReachedOnce(DoEnterRgaConsume(s))
  {
    var t := DoEnterRgaConsume(s);
    forall x: nat ensures Reached(t.dec, t.decode, t.rga, t.recycler, t.main, x) == InFlight(t.dec.pool, x) {
      assert Reached(s.dec, s.decode, s.rga, s.recycler, s.main, x) == InFlight(s.dec.pool, x);
      CountPush(s.dec.rgaConsume, s.decode.x, x);
    }
  }

  lemma RequestPool(p: Pool, dec: DecodePc, x: nat)
    requires PoolAgrees(p, dec)
    ensures PoolAgrees(QueueForRecycle(p, x), dec)
  {
    match dec
    case DDrain(_, local, _) => QueueKeeps(p, local, None, None, x);
    case DHolder(_, h) => QueueKeeps(p, [], Some(h), None, x);
    case DBuffer(_, h, y) => QueueKeeps(p, [], Some(h), Some(y), x);
    case DSubmitted(_, h, y) => QueueKeeps(p, [], Some(h), Some(y), x);
    case DWritten(_, h, y) => QueueKeeps(p, [], Some(h), Some(y), x);
    case _ => QueueKeeps(p, [], None, None, x);
  }

  // A recycle request for a descriptor that is still reachable is never refused.
  lemma RequestDecoder(d: DecoderSide, dec: DecodePc, x: nat)
    requires PoolAgrees(d.pool, dec) && x in d.pool.inflight
    ensures var e := RequestRecycle(d, x);
            && PoolAgrees(e.pool, dec) && e.notInFlight == d.notInFlight && e.duplicates == d.duplicates
            && e.rgaConsume == d.rgaConsume && e.mppRecycle == d.mppRecycle && e.orphans == d.orphans
            && forall y: nat :: InFlight(e.pool, y) == if y == x then 0 else InFlight(d.pool, y)
  {
    RequestPool(d.pool, dec, x);
  }

  lemma InvalidOutputReached(s: State, e: DecoderSide)
    requires s.decode.DPublish? && ReachedOnce(s)
    requires e.rgaConsume == s.dec.rgaConsume && e.mppRecycle == s.dec.mppRecycle && e.orphans == s.dec.orphans
    requires forall y: nat :: InFlight(e.pool, y) == if y == s.decode.x then 0 else InFlight(s.dec.pool, y)
    ensures forall y: nat :: Reached(e, DReturn(s.decode.b), s.rga, s.recycler, s.main, y) == InFlight(e.pool, y)
  {
    forall y: nat ensures Reached(e, DReturn(s.decode.b), s.rga, s.recycler, s.main, y) == InFlight(e.pool, y) {
      assert Reached(s.dec, s.decode, s.rga, s.recycler, s.main, y) == InFlight(s.dec.pool, y);
    }
  }

  lemma InvalidOutputDecoder(s: State)
    requires s.decode.DPublish? && DecoderInv(s)
    ensures DecoderInv(DoInvalidOutput(s))
  {
    var x := s.decode.x;
    assert Reached(s.dec, s.decode, s.rga, s.recycler, s.main, x) == InFlight(s.dec.pool, x);
    RequestDecoder(s.dec, s.decode, x);
    var e := RequestRecycle(s.dec, x);
    InvalidOutputReached(s, e);
  }

  lemma PoolStepKeepsPool(s: State, d: DecodeStep)
    requires DecodeEnabled(s, d) && PoolAgrees(s.dec.pool, s.decode) && PoolStep(d)
    ensures PoolAgrees(DecodeApply(s, d).dec.pool, DecodeApply(s, d).decode)
  {
    if d.SubmitTask? {
    } else if QuietStep(d) {
    } else if d.RecycleOne? || d.SwapPending? || d.WaitForHolder? {
      DrainStepKeepsPool(s, d);
    } else if d.DecodeFails? || d.WriteDescriptor? {
      BufferStepKeepsPool(s, d);
    } else {
      HolderStepKeepsPool(s, d);
    }
  }

  lemma PoolStepKeepsMap(s: State, d: DecodeStep)
    requires DecodeEnabled(s, d) && PoolStep(d)
    ensures MapKept(s, DecodeApply(s, d))
  {
  }

  lemma DecodeKeepsDecoder(s: State, d: DecodeStep)
    requires DecodeEnabled(s, d) && DecoderInv(s)
    ensures DecoderInv(DecodeApply(s, d))
  {
    if d.PublishOutput? {
      PublishDecoder(s);
    } else if d.InvalidOutput? {
      InvalidOutputDecoder(s);
    } else if d.EnterRgaConsume? {
      EnterRgaConsumeReached(s);
    } else {
      PoolStepKeepsMap(s, d);
      MapKeptReached(s, DecodeApply(s, d));
      PoolStepKeepsPool(s, d);
    }
  }

  // ----- RGA thread -----

  lemma NextOutputReached(s: State)
    requires s.rga.RWait? && ReachedOnce(s)
    ensures ReachedOnce(DoNextOutput(s))
  {
    var t := DoNextOutput(s);
    forall x: nat ensures Reached(t.dec, t.decode, t.rga, t.recycler, t.main, x) == InFlight(t.dec.pool, x) {
      assert Reached(s.dec, s.decode, s.rga, s.recycler, s.main, x) == InFlight(s.dec.pool, x);
    }
  }

  lemma EnterMppRecycleReached(s: State)
    requires s.rga.ROut? && ReachedOnce(s)
    ensures ReachedOnce(RgaApply(s, EnterMppRecycle))
  {
    var t := RgaApply(s, EnterMppRecycle);
    forall x: nat ensures Reached(t.dec, t.decode, t.rga, t.recycler, t.main, x) == InFlight(t.dec.pool, x) {
      assert Reached(s.dec, s.decode, s.rga, s.recycler, s.main, x) == InFlight(s.dec.pool, x);
      CountPush(s.dec.mppRecycle, s.rga.x, x);
    }
  }

  // All other RGA steps keep the output in hand.
  ghost predicate OutputKept(s: State, t: State) {
    && t.dec == s.dec && t.decode == s.decode && t.recycler == s.recycler && t.main == s.main
    && RgaHasOutput(t.rga) == RgaHasOutput(s.rga) && (RgaHasOutput(s.rga) ==> t.rga.x == s.rga.x)
  }

  lemma OutputKeptReached(s: State, t: State)
    requires ReachedOnce(s) && OutputKept(s, t)
    ensures ReachedOnce(t)
  {
    forall x: nat ensures Reached(t.dec, t.decode, t.rga, t.recycler, t.main, x) == InFlight(t.dec.pool, x) {
      assert Reached(s.dec, s.decode, s.rga, s.recycler, s.main, x) == InFlight(s.dec.pool, x);
    }
  }

  lemma RgaKeepsDecoder(s: State, r: RgaStep)
    requires RgaEnabled(s, r) && DecoderInv(s)
    ensures DecoderInv(RgaApply(s, r))
  {
    if r.NextOutput? {
      NextOutputReached(s);
    } else if r.EnterMppRecycle? {
      EnterMppRecycleReached(s);
    } else {
      OutputKeptReached(s, RgaApply(s, r));
    }
  }

  // ----- recycle thread -----

  lemma SwapReached(s: State)
    requires RecycleEnabled(s, true) && ReachedOnce(s)
    ensures ReachedOnce(RecycleApply(s, true))
  {
    var t := RecycleApply(s, true);
    forall x: nat ensures Reached(t.dec, t.decode, t.rga, t.recycler, t.main, x) == InFlight(t.dec.pool, x) {
      assert Reached(s.dec, s.decode, s.rga, s.recycler, s.main, x) == InFlight(s.dec.pool, x);
    }
  }

  lemma RequestBatchDecoder(s: State)
    requires RecycleEnabled(s, false) && DecoderInv(s)
    ensures DecoderInv(RecycleApply(s, false))
  {
    var x := s.recycler.batch[0];
    assert Reached(s.dec, s.decode, s.rga, s.recycler, s.main, x) == InFlight(s.dec.pool, x);
    RequestDecoder(s.dec, s.decode, x);
    var t := RecycleApply(s, false);
    forall y: nat ensures Reached(t.dec, t.decode, t.rga, t.recycler, t.main, y) == InFlight(t.dec.pool, y) {
      assert Reached(s.dec, s.decode, s.rga, s.recycler, s.main, y) == InFlight(s.dec.pool, y);
    }
  }

  // ----- main -----

  lemma DrainOutputDecoder(s: State)
    requires MainEnabled(s, DrainOutput) && DecoderInv(s)
    ensures DecoderInv(MainApply(s, DrainOutput))
  {
    var x := s.main.batch[0];
    assert Reached(s.dec, s.decode, s.rga, s.recycler, s.main, x) == InFlight(s.dec.pool, x);
    RequestDecoder(s.dec, s.decode, x);
    var t := MainApply(s, DrainOutput);
    forall y: nat ensures Reached(t.dec, t.decode, t.rga, t.recycler, t.main, y) == InFlight(t.dec.pool, y) {
      assert Reached(s.dec, s.decode, s.rga, s.recycler, s.main, y) == InFlight(s.dec.pool, y);
    }
  }

  lemma MainQueuesReached(s: State, m: MainStep)
    requires MainEnabled(s, m) && !m.DrainOutput? && ReachedOnce(s)
    ensures ReachedOnce(MainApply(s, m))
  {
    var t := MainApply(s, m);
    forall x: nat ensures Reached(t.dec, t.decode, t.rga, t.recycler, t.main, x) == InFlight(t.dec.pool, x) {
      assert Reached(s.dec, s.decode, s.rga, s.recycler, s.main, x) == InFlight(s.dec.pool, x);
      CountAppend(s.dec.orphans + s.dec.rgaConsume, s.dec.mppRecycle, x);
      CountAppend(s.dec.orphans, s.dec.rgaConsume, x);
    }
  }

  lemma MainKeepsDecoder(s: State, m: MainStep)
    requires MainEnabled(s, m) && DecoderInv(s)
    ensures DecoderInv(MainApply(s, m))
  {
    if m.DrainOutput? {
      DrainOutputDecoder(s);
    } else {
      MainQueuesReached(s, m);
    }
  }

  // ----- all steps -----

  ghost predicate DecoderSame(s: State, t: State) {
    t.dec == s.dec && t.decode == s.decode && t.rga == s.rga && t.recycler == s.recycler && t.main == s.main
  }

  lemma OthersLeaveDecoder(s: State, a: Step)
    requires Enabled(s, a) && (a.Capture? || a.Encode?)
    ensures DecoderSame(s, Apply(s, a))
  {
  }

  lemma StepKeepsDecoder(s: State, a: Step)
    requires Enabled(s, a) && DecoderInv(s)
    ensures DecoderInv(Apply(s, a))
  {
    match a
    case Decode(d) => DecodeKeepsDecoder(s, d);
    case Rga(r) => RgaKeepsDecoder(s, r);
    case Recycle(swap) =>
      if swap { SwapReached(s); } else { RequestBatchDecoder(s); }
    case Main(m) => MainKeepsDecoder(s, m);
    case _ => OthersLeaveDecoder(s, a);
  }
}
