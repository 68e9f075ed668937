// The decoder object: the holder pool with its queues and maps, proved against the pool functions.

module MppDecoder {
  import opened Wrappers
  import opened Limits
  import opened FrameStamps
  import opened Populations
  import opened DecoderPool

  // Which call of a decode that has a holder fails, if any; an empty group counts as `NoBuffer`.
  datatype DecodeOutcome = NoBuffer | FailsBeforeWriting | FailsAfterWriting | Decodes

  // The holders' output buffers, read as a map.
  function BufMap(bufs: seq<Option<nat>>): map<nat, nat> {
    map h: nat | h < |bufs| && bufs[h].Some? :: bufs[h].value
  }

  lemma NoBuffers(bufs: seq<Option<nat>>)
    requires forall h :: 0 <= h < |bufs| ==> bufs[h].None?
    ensures BufMap(bufs) == map[]
  {
  }

  predicate AllHolders(q: seq<nat>) {
    forall i :: 0 <= i < |q| ==> q[i] < POOL_SIZE
  }

  // A holder whose fields are cleared.
  function Cleared(p: Pool, h: nat): Pool {
    p.(buf := p.buf - {h})
  }

  predicate Publishes(p: Pool, got: Option<nat>, o: DecodeOutcome) {
    got.Some? && o == Decodes && got.value !in p.inflight
  }

  // The pool after a decode call that had a holder, given the buffer the group handed out, if any. A
  // descriptor that is in flight already fails the call.
  function DecodeResult(p: Pool, h: nat, got: Option<nat>, input: Stamp, o: DecodeOutcome): Pool
    requires got.Some? ==> got.value < |p.desc|
  {
    var c := Cleared(p, h);
    match got
    case None => ReturnHolder(c, h)
    case Some(x) =>
      var taken := GetBuffer(c, x);
      var written := WriteDesc(taken, x, Repaired(Repaired(input)));
      if Publishes(p, got, o) then Publish(written, h, x)
      else if o.FailsBeforeWriting? then Abandon(taken, h, x)
      else Abandon(written, h, x)
  }

  lemma FailureRestores(p: Pool, h: nat, got: Option<nat>, input: Stamp, o: DecodeOutcome)
    requires got.Some? ==> got.value in p.unused && got.value < |p.desc|
    requires !Publishes(p, got, o)
    ensures var r := DecodeResult(p, h, got, input, o);
            && r.unused == p.unused && r.free == p.free + [h]
            && r.inflight == p.inflight && r.buf == p.buf - {h} && r.pending == p.pending
            && forall y :: 0 <= y < |p.desc| && got != Some(y) ==> r.desc[y] == p.desc[y]
  {
    if got.Some? {
      assert p.unused - {got.value} + {got.value} == p.unused;
    }
  }

  // What a decode call may rely on when it has a holder.
  lemma HeldHolderIsElsewhere(p: Pool, local: seq<nat>, h: nat)
    requires HolderPlaces(p, local, Some(h)) == Everyone(|p.desc|)
    ensures h < |p.desc| && h !in p.inflight.Values && h !in p.pending && h !in local
  {
    HolderOnce(p, local, Some(h), h);
  }

  lemma HolderIsNotKept(p: Pool, h: nat)
    requires PoolInv(p, [], Some(h), None)
    ensures h < |p.desc| && h !in p.buf && Cleared(p, h) == p && p.unused != {}
  {
    HolderGuaranteesBuffer(p, h);
    HeldHolderIsElsewhere(p, [], h);
    assert p.buf - {h} == p.buf;
  }

  // A failing decode call keeps the pool's invariant: buffer and holder are back, outputs in flight
  // untouched.
  lemma FailureIsSound(p: Pool, h: nat, got: Option<nat>, input: Stamp, o: DecodeOutcome)
    requires PoolInv(p, [], Some(h), None) && (got.Some? ==> got.value in p.unused && got.value < |p.desc|)
    requires !Publishes(p, got, o)
    ensures PoolInv(DecodeResult(p, h, got, input, o), [], None, None)
  {
    HolderIsNotKept(p, h);
    match got
    case None => ReturnKeeps(p, h);
    case Some(x) =>
      GetBufferKeeps(p, h, x);
      if o.FailsBeforeWriting? {
        AbandonKeeps(GetBuffer(p, x), h, x);
      } else {
        WriteDescKeeps(GetBuffer(p, x), [], Some(h), Some(x), x, Repaired(Repaired(input)));
        AbandonKeeps(WriteDesc(GetBuffer(p, x), x, Repaired(Repaired(input))), h, x);
      }
  }

  // A decode call whose device steps succeed always publishes: its buffer is not in flight.
  lemma SuccessIsSound(p: Pool, h: nat, x: nat, input: Stamp)
    requires PoolInv(p, [], Some(h), None) && x in p.unused
    ensures x < |p.desc| && Publishes(p, Some(x), Decodes)
    ensures PoolInv(DecodeResult(p, h, Some(x), input, Decodes), [], None, None)
  {
    HolderIsNotKept(p, h);
    GetBufferKeeps(p, h, x);
    WriteDescKeeps(GetBuffer(p, x), [], Some(h), Some(x), x, Repaired(Repaired(input)));
    PublishKeeps(WriteDesc(GetBuffer(p, x), x, Repaired(Repaired(input))), h, x);
  }

  // A drain between two calls, and what other threads queue for recycling during one pause.
  function Drained(p: Pool): (r: Pool) {
    RecycleAll(TakePending(p), p.pending)
  }

  function QueueEach(p: Pool, descs: seq<nat>, k: nat): (r: Pool)
    requires k <= |descs|
  {
    if k == 0 then p else QueueForRecycle(QueueEach(p, descs, k - 1), descs[k - 1])
  }

  // The wait for a holder through the first `k` pauses; it ends when a holder is free.
  function Waited(p: Pool, pauses: seq<seq<nat>>, k: nat): (r: Pool)
    requires k <= |pauses|
  {
    if k == 0 then p
    else
      var q := Waited(p, pauses, k - 1);
      if q.free != [] then q else Drained(QueueEach(q, pauses[k - 1], |pauses[k - 1]|))
  }

  // Outputs in flight after a wait are those before it that nobody queued meanwhile.
  ghost predicate StaysInFlight(p: Pool, q: Pool, queued: set<nat>) {
    q.inflight == p.inflight - queued && q.desc == p.desc
  }

  function Members(q: seq<nat>, k: nat): set<nat>
    requires k <= |q|
  {
    set i | 0 <= i < k :: q[i]
  }

  function AllMembers(qs: seq<seq<nat>>, k: nat): set<nat>
    requires k <= |qs|
  {
    if k == 0 then {} else AllMembers(qs, k - 1) + Members(qs[k - 1], |qs[k - 1]|)
  }

  lemma DrainIsSound(p: Pool)
    requires PoolInv(p, [], None, None)
    ensures PoolInv(Drained(p), [], None, None)
  {
    TakePendingKeeps(p, None, None);
    RecycleAllKeeps(TakePending(p), p.pending);
  }

  lemma {:induction false} QueueEachIsSound(p: Pool, descs: seq<nat>, k: nat)
    requires PoolInv(p, [], None, None) && k <= |descs|
    ensures PoolInv(QueueEach(p, descs, k), [], None, None)
  {
    if k == 0 {
    } else {
      QueueEachIsSound(p, descs, k - 1);
      QueueKeeps(QueueEach(p, descs, k - 1), [], None, None, descs[k - 1]);
    }
  }

  // The wait keeps the invariant, also while other threads queue outputs for recycling.
  lemma {:induction false} WaitIsSound(p: Pool, pauses: seq<seq<nat>>, k: nat)
    requires PoolInv(p, [], None, None) && k <= |pauses|
    ensures PoolInv(Waited(p, pauses, k), [], None, None)
  {
    if k == 0 {
    } else {
      WaitIsSound(p, pauses, k - 1);
      var q, descs := Waited(p, pauses, k - 1), pauses[k - 1];
      if q.free == [] {
        QueueEachIsSound(q, descs, |descs|);
        DrainIsSound(QueueEach(q, descs, |descs|));
      }
    }
  }

  lemma {:induction false} QueueEachTakes(p: Pool, descs: seq<nat>, k: nat)
    requires k <= |descs|
    ensures StaysInFlight(p, QueueEach(p, descs, k), Members(descs, k))
  {
    if k == 0 {
      assert p.inflight - Members(descs, 0) == p.inflight;
    } else {
      QueueEachTakes(p, descs, k - 1);
      assert Members(descs, k) == Members(descs, k - 1) + {descs[k - 1]};
    }
  }

  // The wait takes nothing out of flight but what was queued meanwhile, and writes no descriptor.
  lemma {:induction false} WaitTakes(p: Pool, pauses: seq<seq<nat>>, k: nat) returns (queued: set<nat>)
    requires k <= |pauses|
    ensures queued <= AllMembers(pauses, k) && StaysInFlight(p, Waited(p, pauses, k), queued)
  {
    if k == 0 {
      queued := {};
      assert p.inflight - {} == p.inflight;
    } else {
      queued := WaitTakes(p, pauses, k - 1);
      var q, descs := Waited(p, pauses, k - 1), pauses[k - 1];
      if q.free == [] {
        QueueEachTakes(q, descs, |descs|);
        RecycleAllLeaves(TakePending(QueueEach(q, descs, |descs|)), QueueEach(q, descs, |descs|).pending);
        queued := queued + Members(descs, |descs|);
      }
    }
  }

  // Recycling adds every holder to the free ones.
  lemma {:induction false} RecycleAllFrees(p: Pool, local: seq<nat>)
    ensures RecycleAll(p, local).free == p.free + local
    decreases |local|
  {
    if local == [] {
    } else {
      RecycleAllFrees(RecycleHolder(p, local[0]), local[1..]);
      assert p.free + local == p.free + [local[0]] + local[1..];
    }
  }

  // After a drain nothing is pending, and every holder that was is free.
  lemma DrainFrees(p: Pool)
    ensures Drained(p).pending == [] && Drained(p).free == p.free + p.pending && Drained(p).inflight == p.inflight
  {
    RecycleAllFrees(TakePending(p), p.pending);
    RecycleAllLeaves(TakePending(p), p.pending);
  }

  // What is queued while nothing is pending and nothing in flight is among it leaves nothing pending.
  lemma {:induction false} QueueEachPends(p: Pool, descs: seq<nat>, k: nat)
    requires k <= |descs| && QueueEach(p, descs, k).pending == []
    ensures p.pending == [] && QueueEach(p, descs, k).inflight == p.inflight && QueueEach(p, descs, k).free == p.free
    ensures forall i :: 0 <= i < k ==> descs[i] !in p.inflight
  {
    if k == 0 {
    } else {
      QueueEachPends(p, descs, k - 1);
    }
  }

  lemma {:induction false} QueueEachFree(p: Pool, descs: seq<nat>, k: nat)
    requires k <= |descs|
    ensures QueueEach(p, descs, k).free == p.free
  {
    if k == 0 {
    } else {
      QueueEachFree(p, descs, k - 1);
    }
  }

  // A wait that finds no holder through all its pauses had none free, and no output was returned to it.
  lemma {:induction false} WaitStarves(p: Pool, pauses: seq<seq<nat>>, k: nat)
    requires k <= |pauses| && p.pending == []
    ensures Waited(p, pauses, k).pending == []
    ensures Waited(p, pauses, k).free == [] ==>
      && p.free == [] && Waited(p, pauses, k).inflight == p.inflight
      && forall i, d :: 0 <= i < k && d in pauses[i] ==> d !in p.inflight
  {
    if k == 0 {
    } else {
      WaitStarves(p, pauses, k - 1);
      var q, descs := Waited(p, pauses, k - 1), pauses[k - 1];
      if q.free == [] {
        DrainFrees(QueueEach(q, descs, |descs|));
        QueueEachFree(q, descs, |descs|);
        if QueueEach(q, descs, |descs|).pending == [] {
          QueueEachPends(q, descs, |descs|);
        }
      }
    }
  }

  // What a call does to the pending holders: none stays pending, and each is free afterwards or keeps the
  // delivered output `x`.
  ghost predicate Serves(p: Pool, r: Pool, x: Option<nat>) {
    && r.pending == []
    && forall h :: h in p.pending ==> h in r.free || (x.Some? && x.value in r.inflight && r.inflight[x.value] == h)
  }

  // No holder is free or pending, and none of the outputs queued in the pauses is in flight.
  ghost predicate NothingToServe(p: Pool, pauses: seq<seq<nat>>) {
    && p.free == [] && p.pending == []
    && forall i, d :: 0 <= i < |pauses| && d in pauses[i] ==> d !in p.inflight
  }

  lemma {:induction false} WaitKeepsFree(p: Pool, pauses: seq<seq<nat>>, k: nat)
    requires k <= |pauses| && p.free != []
    ensures Waited(p, pauses, k) == p
  {
    if k == 0 {
    } else {
      WaitKeepsFree(p, pauses, k - 1);
    }
  }

  lemma WaitServes(p: Pool, pauses: seq<seq<nat>>)
    ensures var q := Waited(Drained(p), pauses, |pauses|);
      Serves(p, q, None) && (q.free == [] ==> NothingToServe(p, pauses))
  {
    DrainFrees(p);
    WaitStarves(Drained(p), pauses, |pauses|);
    if p.pending != [] {
      WaitKeepsFree(Drained(p), pauses, |pauses|);
    }
  }

  lemma DecodeServes(p: Pool, q: Pool, got: Option<nat>, input: Stamp, outcome: DecodeOutcome)
    requires Serves(p, q, None) && q.free != [] && (got.Some? ==> got.value < |q.desc|)
    ensures Serves(p, DecodeResult(AcquireHolder(q), q.free[0], got, input, outcome),
                   if Publishes(q, got, outcome) then got else None)
  {
    var r := DecodeResult(AcquireHolder(q), q.free[0], got, input, outcome);
    forall h | h in q.free
      ensures h == q.free[0] || h in q.free[1..]
    {
      assert q.free == [q.free[0]] + q.free[1..];
    }
    assert Publishes(q, got, outcome) ==> r.free == q.free[1..] && r.inflight == q.inflight[got.value := q.free[0]];
    assert !Publishes(q, got, outcome) ==> r.free == q.free[1..] + [q.free[0]];
  }

  // The call of a decoder whose pool invariant holds: it holds again afterwards, and unless the call
  // still waits for a holder it delivers an output exactly when it was accepted and its device steps
  // succeed; then the output is a new one.
  lemma DecodeCallIsSound(p: Pool, pauses: seq<seq<nat>>, got: Option<nat>, input: Stamp, outcome: DecodeOutcome)
    requires PoolInv(p, [], None, None)
    requires var q := Waited(Drained(p), pauses, |pauses|);
      && q.free != [] && (got.Some? <==> outcome != NoBuffer && q.unused != {})
      && (got.Some? ==> got.value in q.unused && got.value < |q.desc|)
    ensures var q := Waited(Drained(p), pauses, |pauses|);
      && PoolInv(DecodeResult(AcquireHolder(q), q.free[0], got, input, outcome), [], None, None)
      && (Publishes(q, got, outcome) <==> outcome == Decodes)
  {
    DrainIsSound(p);
    WaitIsSound(Drained(p), pauses, |pauses|);
    var q := Waited(Drained(p), pauses, |pauses|);
    AcquireKeeps(q);
    HolderIsNotKept(AcquireHolder(q), q.free[0]);
    if outcome == Decodes {
      SuccessIsSound(AcquireHolder(q), q.free[0], got.value, input);
    } else {
      FailureIsSound(AcquireHolder(q), q.free[0], got, input, outcome);
    }
  }

  // What a call does to the outputs in flight: those that were not queued meanwhile stay as they are, and
  // a delivered output is a new one that carries the repaired stamp.
  ghost predicate Delivers(p: Pool, r: Pool, x: Option<nat>, input: Stamp, queued: set<nat>) {
    && |r.desc| == |p.desc|
    && (forall y :: y in p.inflight && y !in queued ==>
          y in r.inflight && r.inflight[y] == p.inflight[y] && y < |p.desc| && r.desc[y] == p.desc[y])
    && (forall y :: y in r.inflight ==> (y in p.inflight && y !in queued) || x == Some(y))
    && (x.Some? ==>
          x.value in r.inflight && (x.value in p.inflight ==> x.value in queued)
          && x.value < |r.desc| && r.desc[x.value] == Repaired(Repaired(input)))
  }

  lemma NothingDelivered(p: Pool, r: Pool, input: Stamp, queued: set<nat>)
    requires PoolInv(p, [], None, None) && StaysInFlight(p, r, queued)
    ensures Delivers(p, r, None, input, queued)
  {
    InflightBelow(p, [], None, None);
  }

  lemma DrainStays(p: Pool)
    ensures StaysInFlight(p, Drained(p), {})
  {
    RecycleAllLeaves(TakePending(p), p.pending);
    assert p.inflight - {} == p.inflight;
  }

  lemma WaitStays(p: Pool, pauses: seq<seq<nat>>) returns (queued: set<nat>)
    ensures queued <= AllMembers(pauses, |pauses|) && StaysInFlight(p, Waited(Drained(p), pauses, |pauses|), queued)
  {
    DrainStays(p);
    queued := WaitTakes(Drained(p), pauses, |pauses|);
    assert p.inflight - {} == p.inflight;
  }

  // With holder and buffer of a sound pool, the call delivers exactly when its device steps succeed.
  lemma DecodeDelivers(q: Pool, got: Option<nat>, input: Stamp, outcome: DecodeOutcome)
    requires PoolInv(q, [], None, None) && q.free != []
    requires (got.Some? <==> outcome != NoBuffer && q.unused != {})
        && (got.Some? ==> got.value in q.unused && got.value < |q.desc|)
    ensures Delivers(q, DecodeResult(AcquireHolder(q), q.free[0], got, input, outcome),
                     if outcome == Decodes then got else None, input, {})
    ensures outcome == Decodes ==> got.Some?
  {
    AcquireKeeps(q);
    HolderIsNotKept(AcquireHolder(q), q.free[0]);
    InflightBelow(q, [], None, None);
    if got.Some? {
    }
  }

  lemma DeliversAfter(p: Pool, q: Pool, r: Pool, x: Option<nat>, input: Stamp, queued: set<nat>)
    requires StaysInFlight(p, q, queued) && Delivers(q, r, x, input, {})
    ensures Delivers(p, r, x, input, queued)
  {
    forall y | y in p.inflight && y !in queued
      ensures y in r.inflight && r.inflight[y] == p.inflight[y] && y < |p.desc| && r.desc[y] == p.desc[y]
    {
      assert y in q.inflight && y !in {};
    }
  }

  lemma {:induction false} NoMorePauses(p: Pool, pauses: seq<seq<nat>>, i: nat)
    requires i <= |pauses| && (i < |pauses| ==> Waited(p, pauses, i).free != [])
    ensures Waited(p, pauses, |pauses|) == Waited(p, pauses, i)
    decreases |pauses| - i
  {
    if i == |pauses| {
    } else {
      NoMorePauses(p, pauses, i + 1);
    }
  }

  class MppDecInstance {
    var freeHolderQueue: seq<nat>
    var pendingRecycleQueue: seq<nat>
    var outDesc2Holder: map<nat, nat>
    const outputBuf: array<Option<nat>>       // of each holder
    const outputDesc: array<Option<nat>>      // of each holder
    const outputList: array<Stamp>            // the output descriptors
    var groupUnused: set<nat>                 // buffers the MPP group can hand out
    var currentOutput: Option<nat>

    ghost predicate Valid()
      reads this, outputBuf, outputDesc
    {
      && outputBuf.Length == POOL_SIZE && outputDesc.Length == POOL_SIZE && outputList.Length == POOL_SIZE
      && outputBuf != outputDesc
      && outputDesc[..] == outputBuf[..]
      && AllHolders(freeHolderQueue) && AllHolders(pendingRecycleQueue)
      && (forall x :: x in outDesc2Holder ==> x < POOL_SIZE && outDesc2Holder[x] < POOL_SIZE)
      && (forall x :: x in groupUnused ==> x < POOL_SIZE)
      && (forall h :: 0 <= h < POOL_SIZE && outputBuf[h].Some? ==> outputBuf[h].value < POOL_SIZE)
    }

    ghost function State(): Pool
      reads this, outputBuf, outputList
    {
      Pool(freeHolderQueue, pendingRecycleQueue, outDesc2Holder, BufMap(outputBuf[..]), groupUnused, outputList[..])
    }

    // The object between two calls.
    ghost predicate Sound()
      reads this, outputBuf, outputDesc, outputList
    {
      Valid() && PoolInv(State(), [], None, None)
    }

    // Every holder free, every buffer in the group.
    constructor ()
      ensures Sound() && State() == FRESH_POOL && currentOutput == None
    {
      var bufs := new Option<nat>[POOL_SIZE](i => None);
      var descs := new Option<nat>[POOL_SIZE](i => None);
      var list := new Stamp[POOL_SIZE](i => BLANK);
      outputBuf, outputDesc, outputList := bufs, descs, list;
      freeHolderQueue := seq(POOL_SIZE, i => i);
      pendingRecycleQueue, outDesc2Holder, groupUnused, currentOutput := [], map[], Below(POOL_SIZE), None;
      new;
      NoBuffers(outputBuf[..]);
      assert State() == FRESH_POOL;
      FreshPool();
    }

    method AcquireDecodedTaskHolder() returns (holder: Option<nat>)
      requires Valid()
      modifies this
      ensures Valid()
      ensures old(freeHolderQueue) == [] ==> holder == None && State() == old(State())
      ensures old(freeHolderQueue) != [] ==>
        holder == Some(old(freeHolderQueue)[0]) && holder.value < POOL_SIZE && State() == AcquireHolder(old(State()))
      ensures currentOutput == old(currentOutput)
    {
      if freeHolderQueue == [] {
        return None;
      }
      holder := Some(freeHolderQueue[0]);
      freeHolderQueue := freeHolderQueue[1..];
    }

    // Clearing the holder's fields and queueing it as free.
    method ReturnDecodedTaskHolder(holder: nat)
      requires Valid() && holder < POOL_SIZE
      modifies this, outputBuf, outputDesc
      ensures Valid()
      ensures State() == ReturnHolder(Cleared(old(State()), holder), holder)
      ensures currentOutput == old(currentOutput)
    {
      outputDesc[holder] := None;
      outputBuf[holder] := None;
      freeHolderQueue := freeHolderQueue + [holder];
      assert outputBuf[..] == old(outputBuf[..])[holder := None];
    }

    method RecycleDecodedTaskHolder(holder: nat)
      requires Valid() && holder < POOL_SIZE
      modifies this, outputBuf, outputDesc
      ensures Valid() && State() == RecycleHolder(old(State()), holder)
      ensures currentOutput == old(currentOutput)
    {
      if outputBuf[holder].Some? {
        groupUnused := groupUnused + {outputBuf[holder].value};
      }
      ReturnDecodedTaskHolder(holder);
    }

    // The loop shared by draining and reclaiming.
    method RecycleLocalQueue(localQueue: seq<nat>)
      requires Valid() && AllHolders(localQueue)
      modifies this, outputBuf, outputDesc
      ensures Valid() && State() == RecycleAll(old(State()), localQueue)
      ensures currentOutput == old(currentOutput)
    {
      var queue: seq<nat> := localQueue;
      while queue != []
        invariant Valid() && AllHolders(queue)
        invariant RecycleAll(State(), queue) == RecycleAll(old(State()), localQueue)
        invariant currentOutput == old(currentOutput)
        decreases |queue|
      {
        var holder := queue[0];
        queue := queue[1..];
        RecycleDecodedTaskHolder(holder);
      }
    }

    method DrainPendingRecycleQueue()
      requires Valid()
      modifies this, outputBuf, outputDesc
      ensures Valid() && State() == RecycleAll(TakePending(old(State())), old(pendingRecycleQueue))
      ensures currentOutput == old(currentOutput)
    {
      var localQueue := pendingRecycleQueue;
      pendingRecycleQueue := [];
      RecycleLocalQueue(localQueue);
    }

    // The walk over the in-flight map in key order.
    method HoldersInKeyOrder() returns (queue: seq<nat>)
      requires Valid()
      ensures queue == InKeyOrder(outDesc2Holder, POOL_SIZE) && AllHolders(queue)
    {
      queue := [];
      for x := 0 to POOL_SIZE
        invariant queue == InKeyOrder(outDesc2Holder, x) && AllHolders(queue)
      {
        if x in outDesc2Holder {
          queue := queue + [outDesc2Holder[x]];
        }
      }
    }

    method ForceRecycleAllHolders()
      requires Valid()
      modifies this, outputBuf, outputDesc
      ensures Valid() && State() == Reclaimed(old(State()))
    {
      var localQueue := HoldersInKeyOrder();
      outDesc2Holder := map[];
      localQueue := localQueue + pendingRecycleQueue;
      pendingRecycleQueue := [];
      assert localQueue == ReclaimQueue(old(State()));
      RecycleLocalQueue(localQueue);
    }

    // A descriptor that is not in flight is refused.
    method DecQueueOutputForRecycle(outputDesc: Option<nat>) returns (ret: int)
      requires Valid()
      modifies this
      ensures Valid()
      ensures ret == 0 <==> outputDesc.Some? && outputDesc.value in old(outDesc2Holder)
      ensures ret == 0 || ret == -1
      ensures State() == if outputDesc.None? then old(State()) else QueueForRecycle(old(State()), outputDesc.value)
      ensures currentOutput == old(currentOutput)
    {
      if outputDesc.None? || outputDesc.value !in outDesc2Holder {
        return -1;
      }
      pendingRecycleQueue := pendingRecycleQueue + [outDesc2Holder[outputDesc.value]];
      outDesc2Holder := outDesc2Holder - {outputDesc.value};
      ret := 0;
    }

    // The failing exit of a decode that had obtained buffer `x`.
    method PutBack(holder: nat, x: nat)
      requires Valid() && holder < POOL_SIZE && x < POOL_SIZE
      modifies this, outputBuf, outputDesc
      ensures Valid() && State() == Abandon(Cleared(old(State()), holder), holder, x) && currentOutput == None
    {
      currentOutput := None;
      groupUnused := groupUnused + {x};
      ReturnDecodedTaskHolder(holder);
    }

    // Recording the output in the holder and in the in-flight map; a duplicate is refused.
    method PublishOutput(holder: nat, x: nat) returns (ok: bool)
      requires Valid() && holder < POOL_SIZE && x < POOL_SIZE
      modifies this, outputBuf, outputDesc
      ensures Valid() && currentOutput == old(currentOutput)
      ensures ok <==> x !in old(outDesc2Holder)
      ensures State() == if ok then Publish(old(State()), holder, x)
          else old(State()).(buf := old(State()).buf[holder := x])
    {
      outputDesc[holder] := Some(x);
      outputBuf[holder] := Some(x);
      assert outputBuf[..] == old(outputBuf[..])[holder := Some(x)];
      if x in outDesc2Holder {
        return false;
      }
      outDesc2Holder := outDesc2Holder[x := holder];
      ok := true;
    }

    // Publishing an output, or the failing exit when its descriptor is in flight already.
    method PublishOrPutBack(holder: nat, x: nat) returns (ok: bool)
      requires Valid() && holder < POOL_SIZE && x < POOL_SIZE
      modifies this, outputBuf, outputDesc
      ensures Valid() && (ok <==> x !in old(outDesc2Holder))
      ensures State() == if ok then Publish(old(State()), holder, x)
          else Abandon(Cleared(old(State()), holder), holder, x)
      ensures currentOutput == if ok then old(currentOutput) else None
    {
      ok := PublishOutput(holder, x);
      if !ok {
        PutBack(holder, x);
      }
    }

    // A decode call from the point where it has a holder and buffer `x`.
    method DecodeIntoBuffer(holder: nat, x: nat, input: Stamp, outcome: DecodeOutcome) returns (ret: int)
      requires Valid() && holder < POOL_SIZE && x in groupUnused && outcome != NoBuffer
      modifies this, outputBuf, outputDesc, outputList
      ensures Valid() && State() == DecodeResult(old(State()), holder, Some(x), input, outcome)
      ensures ret == if Publishes(old(State()), Some(x), outcome) then 0 else -1
      ensures currentOutput == if ret == 0 then Some(x) else None
    {
      groupUnused := groupUnused - {x};
      if outcome == FailsBeforeWriting {
        PutBack(holder, x);
        return -1;
      }
      outputList[x] := Repaired(Repaired(input));
      currentOutput := Some(x);
      if outcome == FailsAfterWriting {
        PutBack(holder, x);
        return -1;
      }
      var ok := PublishOrPutBack(holder, x);
      ret := if ok then 0 else -1;
    }

    // A decode call from the point where it has a holder; `got` is the buffer the group handed out.
    method DecodeWithHolder(holder: nat, input: Stamp, outcome: DecodeOutcome) returns (ret: int, got: Option<nat>)
      requires Valid() && holder < POOL_SIZE
      modifies this, outputBuf, outputDesc, outputList
      ensures Valid()
      ensures got.Some? <==> outcome != NoBuffer && old(groupUnused) != {}
      ensures got.Some? ==> got.value in old(groupUnused) && got.value < POOL_SIZE
      ensures State() == DecodeResult(old(State()), holder, got, input, outcome)
      ensures ret == if Publishes(old(State()), got, outcome) then 0 else -1
      ensures currentOutput == if ret == 0 then got else None
    {
      currentOutput := None;
      if outcome == NoBuffer || groupUnused == {} {
        ReturnDecodedTaskHolder(holder);
        return -1, None;
      }
      var x :| x in groupUnused;
      got := Some(x);
      ret := DecodeIntoBuffer(holder, x, input, outcome);
    }

    // What other threads queue for recycling during one pause; unknown descriptors are refused.
    method QueueAll(descs: seq<nat>)
      requires Valid()
      modifies this
      ensures Valid() && State() == QueueEach(old(State()), descs, |descs|) && currentOutput == old(currentOutput)
    {
      for i := 0 to |descs|
        invariant Valid() && State() == QueueEach(old(State()), descs, i) && currentOutput == old(currentOutput)
      {
        var ret := DecQueueOutputForRecycle(Some(descs[i]));
      }
    }

    // The wait for a holder. `pauses` are the descriptors other threads queue in each pause; the wait is
    // followed up to the last of them.
    method WaitForHolder(pauses: seq<seq<nat>>) returns (holder: Option<nat>)
      requires Valid()
      modifies this, outputBuf, outputDesc
      ensures Valid() && currentOutput == old(currentOutput)
      ensures var q := Waited(old(State()), pauses, |pauses|);
              if q.free == [] then holder == None && State() == q
              else holder == Some(q.free[0]) && holder.value < POOL_SIZE && State() == AcquireHolder(q)
    {
      var i := 0;
      while freeHolderQueue == [] && i < |pauses|
        invariant Valid() && i <= |pauses| && currentOutput == old(currentOutput)
        invariant State() == Waited(old(State()), pauses, i)
        decreases |pauses| - i
      {
        QueueAll(pauses[i]);
        DrainPendingRecycleQueue();
        i := i + 1;
      }
      NoMorePauses(old(State()), pauses, i);
      holder := AcquireDecodedTaskHolder();
    }

    // The steps of a decode call. `accepted` says whether the checks before the wait pass; nothing is returned
    // while the call still waits after all of `pauses`.
    method DecodeSteps(accepted: bool, pauses: seq<seq<nat>>, input: Stamp, outcome: DecodeOutcome)
      returns (ret: Option<int>, got: Option<nat>)
      requires Valid()
      modifies this, outputBuf, outputDesc, outputList
      ensures Valid()
      ensures var q := Waited(Drained(old(State())), pauses, |pauses|);
        if !accepted then ret == Some(-1) && State() == Drained(old(State())) && currentOutput == None
        else if q.free == [] then ret == None && State() == q && currentOutput == None
        else
          && (got.Some? <==> outcome != NoBuffer && q.unused != {})
          && (got.Some? ==> got.value in q.unused && got.value < |q.desc|)
          && State() == DecodeResult(AcquireHolder(q), q.free[0], got, input, outcome)
          && ret == Some(if Publishes(q, got, outcome) then 0 else -1)
          && currentOutput == if ret == Some(0) then got else None
    {
      got := None;
      DrainPendingRecycleQueue();
      currentOutput := None;
      if !accepted {
        return Some(-1), got;
      }
      var holder := WaitForHolder(pauses);
      if holder.None? {
        return None, got;
      }
      var r;
      r, got := DecodeWithHolder(holder.value, input, outcome);
      ret := Some(r);
    }

    // A call on a sound object keeps it sound, and an accepted call whose device steps succeed delivers.
    // Outputs in flight stay as they are unless another thread queued them for recycling.
    method MppDecode(accepted: bool, pauses: seq<seq<nat>>, input: Stamp, outcome: DecodeOutcome)
      returns (ret: Option<int>, ghost queued: set<nat>)
      requires Sound()
      modifies this, outputBuf, outputDesc, outputList
      ensures Sound() && queued <= AllMembers(pauses, |pauses|)
      ensures if accepted then ret == None || ret == Some(if outcome == Decodes then 0 else -1) else ret == Some(-1)
      ensures currentOutput.Some? <==> ret == Some(0)
      ensures Delivers(old(State()), State(), currentOutput, input, queued)
      ensures Serves(old(State()), State(), currentOutput)
      ensures ret == None ==> NothingToServe(old(State()), pauses)
    {
      ghost var p := State();
      ghost var q := Waited(Drained(p), pauses, |pauses|);
      DrainIsSound(p);
      WaitIsSound(Drained(p), pauses, |pauses|);
      queued := {};
      WaitServes(p, pauses);
      var got;
      ret, got := DecodeSteps(accepted, pauses, input, outcome);
      if !accepted {
        DrainFrees(p);
        DrainStays(p);
        NothingDelivered(p, Drained(p), input, {});
      } else {
        queued := WaitStays(p, pauses);
        if q.free == [] {
          NothingDelivered(p, q, input, queued);
        } else {
          DecodeCallIsSound(p, pauses, got, input, outcome);
          DecodeDelivers(q, got, input, outcome);
          DecodeServes(p, q, got, input, outcome);
          DeliversAfter(p, q, State(), currentOutput, input, queued);
        }
      }
    }

    // The destructor: every holder is free and every buffer back in the group.
    method Destroy()
      requires Sound()
      modifies this, outputBuf, outputDesc
      ensures multiset(freeHolderQueue) == Everyone(outputList.Length) && groupUnused == Below(outputList.Length)
      ensures outDesc2Holder == map[] && pendingRecycleQueue == []
    {
      ReclaimReturnsAll(State());
      ForceRecycleAllHolders();
      DrainPendingRecycleQueue();
    }
  }
}
