// The decoder's output side: 48 holders that move free -> held -> in-flight -> pending -> free beside a
// group of 48 output buffers.

module DecoderPool {
  import opened Wrappers
  import opened Limits
  import opened FrameStamps
  import opened Populations

  // `buf` maps a holder to the output buffer it keeps, `unused` are the buffers the group can hand out,
  // `desc` are the output descriptors (one per buffer).
  datatype Pool = Pool(free: seq<nat>, pending: seq<nat>, inflight: map<nat, nat>, buf: map<nat, nat>,
                       unused: set<nat>, desc: seq<Stamp>)

  const FRESH_POOL: Pool :=
    Pool(seq(POOL_SIZE, i => i), [], map[], map[], Below(POOL_SIZE), seq(POOL_SIZE, i => BLANK))

  function AcquireHolder(p: Pool): (r: Pool)
    requires p.free != []
  {
    p.(free := p.free[1..])
  }

  function ReturnHolder(p: Pool, h: nat): Pool {
    p.(free := p.free + [h])
  }

  function GetBuffer(p: Pool, x: nat): Pool {
    p.(unused := p.unused - {x})
  }

  // The exit of a failed decode that had obtained buffer `x`.
  function Abandon(p: Pool, h: nat, x: nat): Pool {
    p.(unused := p.unused + {x}, free := p.free + [h])
  }

  function WriteDesc(p: Pool, x: nat, s: Stamp): Pool
    requires x < |p.desc|
  {
    p.(desc := p.desc[x := s])
  }

  function Publish(p: Pool, h: nat, x: nat): Pool {
    p.(inflight := p.inflight[x := h], buf := p.buf[h := x])
  }

  // The buffer a holder keeps, if it keeps one.
  function KeptBuffer(p: Pool, h: nat): set<nat> {
    if h in p.buf then {p.buf[h]} else {}
  }

  // Putting the buffer back and the holder into the free queue.
  function RecycleHolder(p: Pool, h: nat): Pool {
    p.(free := p.free + [h], buf := p.buf - {h}, unused := p.unused + KeptBuffer(p, h))
  }

  // A descriptor that is not in flight is reported and changes nothing.
  function QueueForRecycle(p: Pool, x: nat): Pool {
    if x in p.inflight then p.(pending := p.pending + [p.inflight[x]], inflight := p.inflight - {x}) else p
  }

  function TakePending(p: Pool): Pool {
    p.(pending := [])
  }

  ghost predicate Injective(m: map<nat, nat>) {
    forall x, y :: x in m && y in m && m[x] == m[y] ==> x == y
  }

  function HeldHolder(h: Option<nat>): multiset<nat> {
    match h case Some(v) => multiset{v} case None => multiset{}
  }

  // Holders by place: free, held by the decode call, in flight, pending, being drained.
  function HolderPlaces(p: Pool, local: seq<nat>, held: Option<nat>): multiset<nat> {
    multiset(p.free) + HeldHolder(held) + multiset(p.inflight.Values) + multiset(p.pending) + multiset(local)
  }

  // The holders that keep a buffer are those in flight, pending or being drained.
  ghost predicate BuffersKept(p: Pool, local: seq<nat>) {
    && (forall h :: h in p.buf <==> h in p.inflight.Values || h in p.pending || h in local)
    && (forall x :: x in p.inflight ==> p.inflight[x] in p.buf && p.buf[p.inflight[x]] == x)
    && Injective(p.buf)
  }

  // Buffers outside the group: one per keeping holder, and the one the decode call holds.
  ghost predicate BuffersOut(p: Pool, held: Option<nat>, heldBuf: Option<nat>) {
    && (heldBuf.Some? ==> (
          && held.Some? && heldBuf.value < |p.desc|
          && heldBuf.value !in p.unused && heldBuf.value !in p.buf.Values))
    && (forall h :: h in p.buf ==> p.buf[h] < |p.desc| && p.buf[h] !in p.unused)
    && (forall x :: x in p.unused ==> x < |p.desc|)
    && |p.unused| + (if heldBuf.Some? then 1 else 0) == |p.free| + (if held.Some? then 1 else 0)
  }

  // Everything the pool maintains, given the holders being drained and what the decode call holds.
  ghost predicate PoolInv(p: Pool, local: seq<nat>, held: Option<nat>, heldBuf: Option<nat>) {
    && |p.desc| == POOL_SIZE
    && Injective(p.inflight)
    && HolderPlaces(p, local, held) == Everyone(|p.desc|)
    && BuffersKept(p, local)
    && BuffersOut(p, held, heldBuf)
  }

  lemma IotaIsEveryone(n: nat)
    ensures multiset(seq(n, i => i)) == Everyone(n)
  {
    forall b: nat
      ensures multiset(seq(n, i => i))[b] == Everyone(n)[b]
    {
      CountIota(n, b);
      CountIsMultiplicity(seq(n, i => i), b);
    }
  }

  lemma FreshPool()
    ensures PoolInv(FRESH_POOL, [], None, None)
  {
    IotaIsEveryone(POOL_SIZE);
    assert FRESH_POOL.inflight.Values == {};
  }

  // ----- every operation keeps the invariant -----

  // A holder is in one place only.
  lemma HolderOnce(p: Pool, local: seq<nat>, held: Option<nat>, h: nat)
    requires HolderPlaces(p, local, held) == Everyone(|p.desc|)
    ensures multiset(p.free)[h] + HeldHolder(held)[h] + multiset(p.inflight.Values)[h] + multiset(p.pending)[h]
            + multiset(local)[h] == One(h, |p.desc|)
  {
    SizeOfEveryone(|p.desc|);
    assert HolderPlaces(p, local, held)[h] == Everyone(|p.desc|)[h];
  }

  lemma TakePendingKeeps(p: Pool, held: Option<nat>, heldBuf: Option<nat>)
    requires PoolInv(p, [], held, heldBuf)
    ensures PoolInv(TakePending(p), p.pending, held, heldBuf)
  {
    assert BuffersOut(TakePending(p), held, heldBuf);
  }

  // A drained holder has its buffer, and only it.
  lemma LocalHolder(p: Pool, local: seq<nat>, h: nat, t: seq<nat>)
    requires HolderPlaces(p, local, None) == Everyone(|p.desc|) && BuffersKept(p, local) && local == [h] + t
    ensures h in p.buf && h !in p.inflight.Values && h !in p.pending && h !in t
  {
    HolderOnce(p, local, None, h);
    assert multiset(local)[h] == multiset(t)[h] + 1;
    assert h in local;
  }

  lemma RecycleKeepsBuffers(p: Pool, local: seq<nat>, h: nat, t: seq<nat>)
    requires BuffersKept(p, local) && local == [h] + t
    requires h in p.buf && h !in p.inflight.Values && h !in p.pending && h !in t
    ensures BuffersKept(RecycleHolder(p, h), t)
  {
    assert forall g :: g in local <==> g == h || g in t;
  }

  lemma RecycleKeepsGroup(p: Pool, h: nat)
    requires BuffersOut(p, None, None) && Injective(p.buf) && h in p.buf
    ensures BuffersOut(RecycleHolder(p, h), None, None)
  {
    assert |p.unused + {p.buf[h]}| == |p.unused| + 1;
  }

  lemma RecycleKeeps(p: Pool, local: seq<nat>)
    requires PoolInv(p, local, None, None) && local != []
    ensures local[0] in p.buf && PoolInv(RecycleHolder(p, local[0]), local[1..], None, None)
  {
    var h, t := local[0], local[1..];
    assert local == [h] + t;
    LocalHolder(p, local, h, t);
    RecycleKeepsBuffers(p, local, h, t);
    RecycleKeepsGroup(p, h);
  }

  lemma AcquireKeeps(p: Pool)
    requires PoolInv(p, [], None, None) && p.free != []
    ensures PoolInv(AcquireHolder(p), [], Some(p.free[0]), None)
  {
    Head(p.free);
  }

  lemma ReturnKeeps(p: Pool, h: nat)
    requires PoolInv(p, [], Some(h), None)
    ensures PoolInv(ReturnHolder(p, h), [], None, None)
  {
  }

  // A holder guarantees a buffer: the group is not exhausted whenever a holder was just acquired.
  lemma HolderGuaranteesBuffer(p: Pool, h: nat)
    requires PoolInv(p, [], Some(h), None)
    ensures p.unused != {}
  {
  }

  lemma GetBufferKeeps(p: Pool, h: nat, x: nat)
    requires PoolInv(p, [], Some(h), None) && x in p.unused
    ensures PoolInv(GetBuffer(p, x), [], Some(h), Some(x))
  {
    var q := GetBuffer(p, x);
    assert BuffersKept(q, []);
    assert |q.unused| == |p.unused| - 1;
  }

  lemma AbandonKeepsGroup(p: Pool, h: nat, x: nat)
    requires BuffersOut(p, Some(h), Some(x))
    ensures BuffersOut(Abandon(p, h, x), None, None)
  {
    assert |p.unused + {x}| == |p.unused| + 1;
  }

  lemma AbandonKeeps(p: Pool, h: nat, x: nat)
    requires PoolInv(p, [], Some(h), Some(x))
    ensures PoolInv(Abandon(p, h, x), [], None, None)
  {
    AbandonKeepsGroup(p, h, x);
    assert BuffersKept(Abandon(p, h, x), []);
  }

  lemma WriteDescKeeps(p: Pool, local: seq<nat>, held: Option<nat>, heldBuf: Option<nat>, x: nat, s: Stamp)
    requires PoolInv(p, local, held, heldBuf) && x < |p.desc|
    ensures PoolInv(WriteDesc(p, x, s), local, held, heldBuf)
  {
    var q := WriteDesc(p, x, s);
    assert BuffersKept(q, local) && BuffersOut(q, held, heldBuf);
  }

  // The buffer of the running decode is not that of any output in flight, so the branch for duplicate
  // descriptors is unreachable and no descriptor in use is overwritten.
  lemma HeldBufferIsExclusive(p: Pool, local: seq<nat>, h: nat, x: nat)
    requires PoolInv(p, local, Some(h), Some(x))
    ensures x !in p.inflight && h !in p.buf && h !in p.inflight.Values
  {
    HolderOnce(p, local, Some(h), h);
  }

  lemma ValuesWith(m: map<nat, nat>, x: nat, h: nat)
    requires x !in m
    ensures m[x := h].Values == m.Values + {h}
  {
    var r := m[x := h];
    assert r[x] == h;
    forall v | v in m.Values
      ensures v in r.Values
    {
      var y :| y in m && m[y] == v;
      assert r[y] == v;
    }
  }

  lemma PublishKeepsPlaces(p: Pool, h: nat, x: nat)
    requires x !in p.inflight && h !in p.inflight.Values
    ensures HolderPlaces(Publish(p, h, x), [], None) == HolderPlaces(p, [], Some(h))
  {
    ValuesWith(p.inflight, x, h);
    assert multiset(p.inflight.Values + {h}) == multiset(p.inflight.Values) + multiset{h};
  }

  lemma PublishKeepsBuffers(p: Pool, h: nat, x: nat)
    requires PoolInv(p, [], Some(h), Some(x))
    ensures BuffersKept(Publish(p, h, x), []) && BuffersOut(Publish(p, h, x), None, None)
  {
    HeldBufferIsExclusive(p, [], h, x);
    ValuesWith(p.inflight, x, h);
  }

  lemma PublishKeeps(p: Pool, h: nat, x: nat)
    requires PoolInv(p, [], Some(h), Some(x))
    ensures PoolInv(Publish(p, h, x), [], None, None)
  {
    HeldBufferIsExclusive(p, [], h, x);
    PublishKeepsPlaces(p, h, x);
    PublishKeepsBuffers(p, h, x);
  }

  lemma ValuesWithout(m: map<nat, nat>, x: nat)
    requires Injective(m) && x in m
    ensures (m - {x}).Values == m.Values - {m[x]}
  {
    var r := m - {x};
    forall v | v in m.Values - {m[x]}
      ensures v in r.Values
    {
      var y :| y in m && m[y] == v;
      assert y in r && r[y] == v;
    }
  }

  lemma QueueKeepsPlaces(p: Pool, local: seq<nat>, held: Option<nat>, x: nat)
    requires Injective(p.inflight) && x in p.inflight
    ensures Injective(QueueForRecycle(p, x).inflight)
    ensures HolderPlaces(QueueForRecycle(p, x), local, held) == HolderPlaces(p, local, held)
  {
    var q := QueueForRecycle(p, x);
    ValuesWithout(p.inflight, x);
    assert multiset(p.inflight.Values) == multiset(q.inflight.Values) + multiset{p.inflight[x]};
  }

  lemma QueueKeepsBuffers(p: Pool, local: seq<nat>, x: nat)
    requires Injective(p.inflight) && BuffersKept(p, local) && x in p.inflight
    ensures BuffersKept(QueueForRecycle(p, x), local)
  {
    var q := QueueForRecycle(p, x);
    ValuesWithout(p.inflight, x);
    assert forall h :: h in q.pending <==> h in p.pending || h == p.inflight[x];
  }

  lemma QueueKeeps(p: Pool, local: seq<nat>, held: Option<nat>, heldBuf: Option<nat>, x: nat)
    requires PoolInv(p, local, held, heldBuf)
    ensures PoolInv(QueueForRecycle(p, x), local, held, heldBuf)
  {
    if x in p.inflight {
      QueueKeepsPlaces(p, local, held, x);
      QueueKeepsBuffers(p, local, x);
      assert BuffersOut(QueueForRecycle(p, x), held, heldBuf);
    }
  }

  // ----- reclaiming everything -----

  // The map's values in the order of its keys, the order in which the program walks it.
  function InKeyOrder(m: map<nat, nat>, hi: nat): (r: seq<nat>) {
    if hi == 0 then []
    else InKeyOrder(m, hi - 1) + (if hi - 1 in m then [m[hi - 1]] else [])
  }

  // The local queue of the reclaiming call, and the pool it leaves behind before recycling.
  function ReclaimQueue(p: Pool): seq<nat> {
    InKeyOrder(p.inflight, |p.desc|) + p.pending
  }

  function TakeAll(p: Pool): Pool {
    p.(inflight := map[], pending := [])
  }

  function UpTo(m: map<nat, nat>, hi: nat): map<nat, nat> {
    map x | x in m && x < hi :: m[x]
  }

  // What the ordered walk has met so far.
  function Met(m: map<nat, nat>, hi: nat): multiset<nat> {
    multiset(UpTo(m, hi).Values)
  }

  lemma UpToNext(m: map<nat, nat>, hi: nat)
    requires Injective(m) && hi in m
    ensures Met(m, hi + 1) == Met(m, hi) + multiset{m[hi]}
  {
    assert UpTo(m, hi + 1) == UpTo(m, hi)[hi := m[hi]];
    ValuesWith(UpTo(m, hi), hi, m[hi]);
    assert m[hi] !in UpTo(m, hi).Values;
  }

  lemma UpToSkips(m: map<nat, nat>, hi: nat)
    requires hi !in m
    ensures UpTo(m, hi + 1) == UpTo(m, hi)
  {
  }

  lemma {:induction false} InKeyOrderValues(m: map<nat, nat>, hi: nat)
    requires Injective(m)
    ensures multiset(InKeyOrder(m, hi)) == Met(m, hi)
  {
    if hi == 0 {
      assert UpTo(m, 0) == map[];
      assert UpTo(m, 0).Values == {};
    } else {
      var n: nat := hi - 1;
      InKeyOrderValues(m, n);
      if n in m {
        UpToNext(m, n);
        assert InKeyOrder(m, hi) == InKeyOrder(m, n) + [m[n]];
      } else {
        UpToSkips(m, n);
        assert InKeyOrder(m, hi) == InKeyOrder(m, n);
      }
    }
  }

  lemma InflightBelow(p: Pool, local: seq<nat>, held: Option<nat>, heldBuf: Option<nat>)
    requires PoolInv(p, local, held, heldBuf)
    ensures forall x :: x in p.inflight ==> x < |p.desc|
  {
  }

  lemma ReclaimQueueHolds(p: Pool)
    requires Injective(p.inflight) && forall x :: x in p.inflight ==> x < |p.desc|
    ensures multiset(ReclaimQueue(p)) == multiset(p.inflight.Values) + multiset(p.pending)
    ensures forall h :: h in ReclaimQueue(p) <==> h in p.inflight.Values || h in p.pending
  {
    InKeyOrderValues(p.inflight, |p.desc|);
    assert UpTo(p.inflight, |p.desc|) == p.inflight;
    assert forall h :: h in ReclaimQueue(p) <==> h in multiset(ReclaimQueue(p));
  }

  lemma TakeAllKeepsPlaces(p: Pool)
    requires Injective(p.inflight) && forall x :: x in p.inflight ==> x < |p.desc|
    ensures HolderPlaces(TakeAll(p), ReclaimQueue(p), None) == HolderPlaces(p, [], None)
  {
    ReclaimQueueHolds(p);
    assert TakeAll(p).inflight.Values == {};
  }

  lemma TakeAllKeeps(p: Pool)
    requires PoolInv(p, [], None, None)
    ensures PoolInv(TakeAll(p), ReclaimQueue(p), None, None)
  {
    InflightBelow(p, [], None, None);
    TakeAllKeepsPlaces(p);
    ReclaimQueueHolds(p);
    assert BuffersOut(TakeAll(p), None, None);
    assert TakeAll(p).inflight.Values == {};
    assert BuffersKept(TakeAll(p), ReclaimQueue(p));
  }

  function RecycleAll(p: Pool, local: seq<nat>): (r: Pool)
    decreases |local|
  {
    if local == [] then p else RecycleAll(RecycleHolder(p, local[0]), local[1..])
  }

  // Recycling touches neither the in-flight map nor the pending queue nor a descriptor.
  lemma {:induction false} RecycleAllLeaves(p: Pool, local: seq<nat>)
    ensures var r := RecycleAll(p, local); r.inflight == p.inflight && r.pending == p.pending && r.desc == p.desc
    decreases |local|
  {
    if local == [] {
    } else {
      RecycleAllLeaves(RecycleHolder(p, local[0]), local[1..]);
    }
  }

  // Recycling drained holders keeps the invariant.
  lemma {:induction false} RecycleAllKeeps(p: Pool, local: seq<nat>)
    requires PoolInv(p, local, None, None)
    ensures PoolInv(RecycleAll(p, local), [], None, None)
    ensures var r := RecycleAll(p, local); r.inflight == p.inflight && r.pending == p.pending && r.desc == p.desc
    decreases |local|
  {
    RecycleAllLeaves(p, local);
    if local == [] {
    } else {
      RecycleKeeps(p, local);
      RecycleAllKeeps(RecycleHolder(p, local[0]), local[1..]);
    }
  }

  // The destructor's reclaim: afterwards every holder is free and every buffer is back in the group.
  function Reclaimed(p: Pool): Pool {
    RecycleAll(TakeAll(p), ReclaimQueue(p))
  }

  lemma {:induction false} SubsetSize(a: set<nat>, b: set<nat>)
    requires a <= b
    ensures |a| <= |b|
    decreases a
  {
    if x :| x in a {
      SubsetSize(a - {x}, b - {x});
    }
  }

  lemma SubsetOfSameSize(a: set<nat>, b: set<nat>)
    requires a <= b && |a| == |b|
    ensures a == b
  {
    if x :| x in b && x !in a {
      assert a <= b - {x};
      SubsetSize(a, b - {x});
    }
  }

  lemma IdlePoolIsFull(r: Pool)
    requires PoolInv(r, [], None, None) && r.inflight == map[] && r.pending == []
    ensures multiset(r.free) == Everyone(|r.desc|)
    ensures r.unused == Below(|r.desc|) && r.buf == map[]
  {
    assert r.inflight.Values == {};
    assert multiset(r.free) == HolderPlaces(r, [], None);
    assert |r.free| == |multiset(r.free)|;
    SizeOfEveryone(|r.desc|);
    assert r.unused <= Below(|r.desc|);
    SubsetOfSameSize(r.unused, Below(|r.desc|));
  }

  lemma ReclaimReturnsAll(p: Pool)
    requires PoolInv(p, [], None, None)
    ensures var r := Reclaimed(p);
            && multiset(r.free) == Everyone(|p.desc|)
            && r.unused == Below(|p.desc|) && r.buf == map[] && r.inflight == map[] && r.pending == []
  {
    TakeAllKeeps(p);
    RecycleAllKeeps(TakeAll(p), ReclaimQueue(p));
    IdlePoolIsFull(Reclaimed(p));
  }
}
