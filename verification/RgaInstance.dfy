// The RGA object: allocation, acquisition and return of output slots, proved against the pool functions.

module RgaInstances {
  import opened Wrappers
  import opened Limits
  import opened FrameStamps
  import opened Populations
  import opened RgaPool

  // Geometry of an image; a zero marks missing metadata.
  datatype Geometry = Geometry(width: nat, height: nat, hStride: nat, vStride: nat)

  predicate IsConfigValid(g: Geometry) {
    g.width > 0 && g.height > 0 && g.hStride > 0 && g.vStride > 0
  }

  // Bytes of an NV12 image.
  function CalcNv12ImageSize(g: Geometry): nat {
    g.hStride * g.vStride * 3 / 2
  }

  // A decoder output as the source of a transform, and what the device makes of the attempt.
  datatype Source = Source(geometry: Geometry, supported: bool, size: nat, stamp: Stamp)
  datatype TransformOutcome = BuildFails | OperationFails | Transforms

  // Taking a slot and giving it back changes no slot's state; it only moves to the end of the queue.
  lemma GiveBackIsNeutral(p: Slots)
    requires SlotsInv(p) && p.available != []
    ensures p.available[0] < |p.inUse|
    ensures var r := ReturnSlot(AcquireSlot(p), p.available[0]);
            SlotsInv(r) && r.ready == p.ready
            && forall u: nat :: InUse(r, u) == InUse(p, u) && Count(r.available, u) == Count(p.available, u)
  {
    AvailableIsSlot(p);
    AcquireSlotKeeps(p);
    ReturnSlotKeeps(AcquireSlot(p), p.available[0]);
    var r := ReturnSlot(AcquireSlot(p), p.available[0]);
    forall u: nat
      ensures InUse(r, u) == InUse(p, u) && Count(r.available, u) == Count(p.available, u)
    {
      CountPush(p.available[1..], p.available[0], u);
    }
  }

  class RgaInstance {
    var poolReady: bool
    var availableQueue: seq<nat>
    const inUse: array<bool>
    const poolStamp: array<Stamp>
    var poolGeometry: Geometry
    var poolSize: nat
    var initialized: bool

    ghost function State(): Slots
      reads this, inUse, poolStamp
    {
      Slots(poolReady, availableQueue, inUse[..], poolStamp[..])
    }

    ghost predicate Valid()
      reads this, inUse, poolStamp
    {
      inUse.Length == POOL_SIZE && poolStamp.Length == POOL_SIZE && SlotsInv(State())
    }

    // Whether the existing pool fits a source of geometry `g`.
    predicate Fits(g: Geometry)
      reads this
    {
      poolGeometry == g && poolSize >= CalcNv12ImageSize(g)
    }

    constructor ()
      ensures Valid() && State() == UNREADY_SLOTS && !initialized
    {
      var flags := new bool[POOL_SIZE](i => false);
      var stamps := new Stamp[POOL_SIZE](i => BLANK);
      inUse, poolStamp := flags, stamps;
      poolReady, availableQueue, initialized := false, [], false;
      poolGeometry, poolSize := Geometry(0, 0, 0, 0), 0;
      new;
      assert inUse[..] == UNREADY_SLOTS.inUse && poolStamp[..] == UNREADY_SLOTS.stamp;
      UnreadySlots();
    }

    method RgaInit(headerOk: bool) returns (ret: int)
      modifies this`initialized
      ensures ret == if headerOk then 0 else -1
      ensures initialized == (old(initialized) || headerOk)
    {
      if !headerOk {
        return -1;
      }
      initialized := true;
      ret := 0;
    }

    // Refilling the queue; a pool that is not ready ends up with an empty queue.
    method ResetOutputPoolQueueStateLocked()
      requires inUse.Length == POOL_SIZE && poolStamp.Length == POOL_SIZE
      modifies this`availableQueue, inUse
      ensures inUse[..] == seq(POOL_SIZE, i => false)
      ensures availableQueue == if poolReady then seq(POOL_SIZE, i => i) else []
    {
      availableQueue := [];
      for i := 0 to POOL_SIZE
        invariant forall k :: 0 <= k < i ==> !inUse[k]
        modifies inUse
      {
        inUse[i] := false;
      }
      assert inUse[..] == seq(POOL_SIZE, i => false);
      if !poolReady {
        return;
      }
      for i := 0 to POOL_SIZE
        invariant availableQueue == seq(i, k => k)
        modifies this`availableQueue
      {
        availableQueue := availableQueue + [i];
      }
    }

    // Releasing every slot's memory blanks its descriptor.
    method ReleaseAll()
      requires poolStamp.Length == POOL_SIZE
      modifies poolStamp
      ensures poolStamp[..] == seq(POOL_SIZE, i => BLANK)
    {
      for i := 0 to POOL_SIZE
        invariant forall k :: 0 <= k < i ==> poolStamp[k] == BLANK
      {
        poolStamp[i] := BLANK;
      }
    }

    // `heapSlots` slots can be allocated before the heap refuses; the pool appears whole or not at all.
    method InitOutputPoolIfNeeded(g: Geometry, heapSlots: nat) returns (ret: int)
      requires Valid()
      modifies this, inUse, poolStamp
      ensures Valid() && initialized == old(initialized)
      ensures ret == 0 <==> IsConfigValid(g) && (if old(poolReady) then old(Fits(g)) else heapSlots >= POOL_SIZE)
      ensures old(poolReady) || !IsConfigValid(g) ==> State() == old(State())
      ensures !old(poolReady) && ret == 0 ==> State() == Initialized(old(State()))
      ensures !old(poolReady) && ret != 0 ==> !poolReady
      ensures ret == 0 ==> poolReady && Fits(g)
    {
      if !IsConfigValid(g) {
        return -1;
      }
      var need := CalcNv12ImageSize(g);
      if poolReady {
        if poolGeometry != g || poolSize < need {
          return -1;
        }
        return 0;
      }
      ghost var before := State();
      var i := 0;
      while i < POOL_SIZE
        invariant 0 <= i <= POOL_SIZE && i <= heapSlots
        invariant State() == before.(stamp := poolStamp[..])
        invariant forall k :: 0 <= k < i ==> poolStamp[k] == BLANK
        invariant initialized == old(initialized)
      {
        if i >= heapSlots {
          ReleaseAll();
          poolReady := false;
          ResetOutputPoolQueueStateLocked();
          UnreadySlots();
          assert State() == UNREADY_SLOTS;
          return -1;
        }
        poolStamp[i] := BLANK;
        i := i + 1;
      }
      poolGeometry, poolSize := g, need;
      poolReady := true;
      ResetOutputPoolQueueStateLocked();
      assert State() == Initialized(before);
      InitializedKeeps(before);
      ret := 0;
    }

    // The destructor's release.
    method ReleaseOutputPool()
      requires Valid()
      modifies this, inUse, poolStamp
      ensures Valid() && State() == UNREADY_SLOTS
    {
      ReleaseAll();
      poolReady := false;
      ResetOutputPoolQueueStateLocked();
      UnreadySlots();
      assert State() == UNREADY_SLOTS;
    }

    method AcquireOutputPoolBuffer() returns (t: Option<nat>)
      requires Valid()
      modifies this`availableQueue, inUse
      ensures Valid()
      ensures t.None? <==> old(availableQueue) == []
      ensures t.None? ==> State() == old(State())
      ensures t.Some? ==>
        t.value == old(availableQueue)[0] && t.value < POOL_SIZE && !old(inUse[..])[t.value]
        && State() == AcquireSlot(old(State()))
    {
      if availableQueue != [] {
        AvailableIsSlot(State());
        AcquireSlotKeeps(State());
      }
      if !poolReady || availableQueue == [] {
        return None;
      }
      var out := availableQueue[0];
      availableQueue := availableQueue[1..];
      inUse[out] := true;
      assert inUse[..] == old(inUse[..])[out := true];
      t := Some(out);
    }

    // Returning a slot: refused for a foreign descriptor, ignored for a slot that is not in use.
    method QueueOutputToRecycle(desc: Option<nat>) returns (ret: int)
      requires Valid()
      modifies this`availableQueue, inUse, poolStamp
      ensures Valid()
      ensures ret == 0 <==> desc.Some? && poolReady && desc.value < 48
      ensures ret == 0 || ret == -1
      ensures State() == if desc.None? then old(State()) else ReturnSlot(old(State()), desc.value)
    {
      if desc.None? || !poolReady || desc.value >= POOL_SIZE {
        return -1;
      }
      var t := desc.value;
      if !inUse[t] {
        return 0;
      }
      ReturnSlotKeeps(State(), t);
      inUse[t] := false;
      poolStamp[t] := BLANK;
      availableQueue := availableQueue + [t];
      assert inUse[..] == old(inUse[..])[t := false] && poolStamp[..] == old(poolStamp[..])[t := BLANK];
      ret := 0;
    }

    // A transform: null when the pool or the device refuses, and then no slot is gone; otherwise the
    // front slot of the queue, carrying the repaired stamp of the source.
    method TransformInternal(src: Option<Source>, heapSlots: nat, outcome: TransformOutcome) returns (dst: Option<nat>)
      requires Valid()
      modifies this, inUse, poolStamp
      ensures Valid()
      ensures dst.Some? <==>
        && old(initialized) && src.Some? && src.value.supported && outcome == Transforms
        && var g := src.value.geometry;
        && g.width > 0 && g.height > 0 && g.hStride > 0 && g.vStride > 0
        && src.value.size >= g.hStride * g.vStride * 3 / 2
        && old(if poolReady then poolGeometry == g && poolSize >= g.hStride * g.vStride * 3 / 2 && availableQueue != []
               else heapSlots >= 48)
      ensures dst.Some? ==>
        && initialized && src.Some? && src.value.supported && outcome == Transforms && Fits(src.value.geometry)
        && dst.value < POOL_SIZE && inUse[dst.value] && poolStamp[dst.value] == Repaired(src.value.stamp)
      ensures var base := old(if poolReady then State() else Initialized(State()));
        if dst.Some? then
          && base.available != [] && dst.value == base.available[0]
          && State() == StampSlot(AcquireSlot(base), dst.value, Repaired(src.value.stamp))
        else if poolReady then
          forall u: nat ::
            InUse(State(), u) == InUse(base, u) && Count(availableQueue, u) == Count(base.available, u)
        else !old(poolReady) && forall u: nat :: InUse(State(), u) == 0
      ensures initialized == old(initialized)
    {
      if !initialized || src.None? {
        return None;
      }
      var s := src.value;
      if !IsConfigValid(s.geometry) || !s.supported {
        return None;
      }
      var ready := InitOutputPoolIfNeeded(s.geometry, heapSlots);
      if ready != 0 {
        return None;
      }
      if s.size < CalcNv12ImageSize(s.geometry) {
        return None;
      }
      ghost var before := State();
      var slot := AcquireOutputPoolBuffer();
      if slot.None? {
        return None;
      }
      var t := slot.value;
      if outcome != Transforms {
        GiveBackIsNeutral(before);
        var ret := QueueOutputToRecycle(Some(t));
        return None;
      }
      StampSlotKeeps(State(), t, Repaired(s.stamp));
      poolStamp[t] := s.stamp;
      if poolStamp[t].pts >= 0 {
        poolStamp[t] := poolStamp[t].(dts := poolStamp[t].pts);
      } else if poolStamp[t].dts >= 0 {
        poolStamp[t] := poolStamp[t].(pts := poolStamp[t].dts);
      }
      assert poolStamp[t] == Repaired(s.stamp);
      assert State() == StampSlot(AcquireSlot(before), t, Repaired(s.stamp));
      dst := Some(t);
    }
  }
}
