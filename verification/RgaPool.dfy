// The RGA output pool: 48 slots whose in-use flags must agree with a FIFO of available slots.

module RgaPool {
  import opened Limits
  import opened FrameStamps
  import opened Populations

  datatype Slots = Slots(ready: bool, available: seq<nat>, inUse: seq<bool>, stamp: seq<Stamp>)

  const UNREADY_SLOTS: Slots := Slots(false, [], seq(POOL_SIZE, i => false), seq(POOL_SIZE, i => BLANK))

  // All slots allocated and available in index order.
  function Initialized(p: Slots): (r: Slots) {
    Slots(true, seq(|p.inUse|, i => i), seq(|p.inUse|, i => false), seq(|p.stamp|, i => BLANK))
  }

  function AcquireSlot(p: Slots): Slots
    requires p.available != [] && p.available[0] < |p.inUse|
  {
    p.(available := p.available[1..], inUse := p.inUse[p.available[0] := true])
  }

  predicate CanReturn(p: Slots, t: nat) {
    p.ready && t < |p.inUse|
  }

  // Returning a slot that is not in use changes nothing.
  function ReturnSlot(p: Slots, t: nat): Slots
    requires |p.inUse| == |p.stamp|
  {
    if !CanReturn(p, t) || !p.inUse[t] then p
    else p.(available := p.available + [t], inUse := p.inUse[t := false], stamp := p.stamp[t := BLANK])
  }

  function StampSlot(p: Slots, t: nat, s: Stamp): Slots
    requires t < |p.stamp|
  {
    p.(stamp := p.stamp[t := s])
  }

  // A slot is in the FIFO exactly once if and only if the pool is ready and its flag is false.
  ghost predicate FifoAgrees(p: Slots) {
    forall i: nat :: Count(p.available, i) == if p.ready && i < |p.inUse| && !p.inUse[i] then 1 else 0
  }

  ghost predicate SlotsInv(p: Slots) {
    && |p.inUse| == |p.stamp| == POOL_SIZE
    && FifoAgrees(p)
    && (!p.ready ==> forall i :: 0 <= i < |p.inUse| ==> !p.inUse[i])
  }

  function InUse(p: Slots, t: nat): nat {
    if t < |p.inUse| && p.inUse[t] then 1 else 0
  }

  lemma UnreadySlots()
    ensures SlotsInv(UNREADY_SLOTS) && forall t: nat :: InUse(UNREADY_SLOTS, t) == 0
  {
  }

  lemma InitializedKeeps(p: Slots)
    requires SlotsInv(p) && !p.ready
    ensures SlotsInv(Initialized(p)) && forall t: nat :: InUse(Initialized(p), t) == InUse(p, t)
    ensures |Initialized(p).available| == 48 && forall t :: 0 <= t < 48 ==>
              Initialized(p).available[t] == t && Initialized(p).stamp[t] == BLANK
  {
    forall i: nat
      ensures Count(Initialized(p).available, i) == One(i, |p.inUse|)
    {
      CountIota(|p.inUse|, i);
    }
  }

  // What is in the FIFO is a free slot of a ready pool.
  lemma AvailableIsSlot(p: Slots)
    requires SlotsInv(p) && p.available != []
    ensures p.ready && p.available[0] < |p.inUse| && !p.inUse[p.available[0]]
  {
    var t := p.available[0];
    assert Count(p.available, t) >= 1;
  }

  lemma AcquireSlotKeeps(p: Slots)
    requires SlotsInv(p) && p.available != []
    ensures p.available[0] < |p.inUse|
    ensures SlotsInv(AcquireSlot(p))
    ensures forall t: nat :: InUse(AcquireSlot(p), t) == InUse(p, t) + (if t == p.available[0] then 1 else 0)
  {
    AvailableIsSlot(p);
    var q := AcquireSlot(p);
    forall i: nat
      ensures Count(q.available, i) == if q.ready && i < |q.inUse| && !q.inUse[i] then 1 else 0
    {
      assert Count(p.available, i) == if p.ready && i < |p.inUse| && !p.inUse[i] then 1 else 0;
    }
  }

  // A slot in use goes back into the FIFO.
  lemma ReturnSlotKeeps(p: Slots, t: nat)
    requires SlotsInv(p) && InUse(p, t) == 1
    ensures CanReturn(p, t)
    ensures SlotsInv(ReturnSlot(p, t))
    ensures forall u: nat :: InUse(ReturnSlot(p, t), u) == if u == t then 0 else InUse(p, u)
    ensures ReturnSlot(p, t).available == p.available + [t] && ReturnSlot(p, t).stamp == p.stamp[t := BLANK]
  {
    var q := ReturnSlot(p, t);
    forall i: nat
      ensures Count(q.available, i) == if q.ready && i < |q.inUse| && !q.inUse[i] then 1 else 0
    {
      assert Count(p.available, i) == if p.ready && i < |p.inUse| && !p.inUse[i] then 1 else 0;
      CountPush(p.available, t, i);
    }
  }

  lemma StampSlotKeeps(p: Slots, t: nat, s: Stamp)
    requires SlotsInv(p) && t < |p.stamp|
    ensures SlotsInv(StampSlot(p, t, s)) && forall u: nat :: InUse(StampSlot(p, t, s), u) == InUse(p, u)
  {
    forall i: nat
      ensures Count(p.available, i) == if p.ready && i < |p.inUse| && !p.inUse[i] then 1 else 0
    {
    }
  }

  // Returning a slot a second time is harmless.
  lemma ReturnIsIdempotent(p: Slots, t: nat)
    requires SlotsInv(p)
    ensures SlotsInv(ReturnSlot(p, t)) && ReturnSlot(ReturnSlot(p, t), t) == ReturnSlot(p, t)
  {
    if CanReturn(p, t) && p.inUse[t] {
      ReturnSlotKeeps(p, t);
    }
  }
}
