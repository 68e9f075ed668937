// The encode-output thread's assembly of packets into access units.

module AccessUnits {
  import opened AnnexB

  // One encoder packet; a missing timestamp is negative.
  datatype Packet = Packet(data: seq<byte>, dts: int, pts: int, eos: bool, partition: bool, eoi: bool)

  // An access unit as it is handed to the publisher.
  datatype AccessUnit = AccessUnit(data: seq<byte>, dts: int, pts: int, eos: bool)

  const EMPTY: AccessUnit := AccessUnit([], -1, -1, false)

  // The pending unit and all units flushed so far.
  datatype Assembly = Assembly(pending: AccessUnit, flushed: seq<AccessUnit>)

  function Merge(a: AccessUnit, p: Packet): AccessUnit {
    if p.data == [] then a
    else if a.data == [] then AccessUnit(p.data, p.dts, p.pts, p.eos)
    else AccessUnit(a.data + p.data,
                    if a.dts < 0 && p.dts >= 0 then p.dts else a.dts,
                    if a.pts < 0 && p.pts >= 0 then p.pts else a.pts,
                    a.eos || p.eos)
  }

  predicate Closes(p: Packet) {
    !p.partition || p.eoi || p.eos
  }

  function Flush(m: Assembly): Assembly {
    if m.pending.data == [] then m else Assembly(EMPTY, m.flushed + [m.pending])
  }

  function Feed(m: Assembly, p: Packet): Assembly {
    var n := m.(pending := Merge(m.pending, p));
    if Closes(p) then Flush(n) else n
  }

  // Whether a packet closes the unit, in the packet's own terms, and what is flushed then.
  lemma FeedFlushes(m: Assembly, p: Packet)
    ensures !p.partition || p.eoi || p.eos ==>
      var r := Feed(m, p);
      && r.pending.data == []
      && if m.pending.data + p.data == [] then r.flushed == m.flushed
         else |r.flushed| == |m.flushed| + 1 && r.flushed[..|m.flushed|] == m.flushed
              && r.flushed[|m.flushed|].data == m.pending.data + p.data
    ensures p.partition && !p.eoi && !p.eos ==>
      Feed(m, p).flushed == m.flushed && Feed(m, p).pending.data == m.pending.data + p.data
  {
  }

  function FeedAll(m: Assembly, ps: seq<Packet>): Assembly
    decreases |ps|
  {
    if ps == [] then m else FeedAll(Feed(m, ps[0]), ps[1..])
  }

  lemma {:induction false} FeedAllAppend(m: Assembly, a: seq<Packet>, b: seq<Packet>)
    ensures FeedAll(m, a + b) == FeedAll(FeedAll(m, a), b)
    decreases |a|
  {
    if a == [] {
      assert a + b == b;
    } else {
      assert (a + b)[0] == a[0] && (a + b)[1..] == a[1..] + b;
      FeedAllAppend(Feed(m, a[0]), a[1..], b);
    }
  }

  // The assembling object: the fields the thread keeps between packets.
  class Assembler {
    var pendingAu: seq<byte>
    var pendingDts: int
    var pendingPts: int
    var pendingEos: bool
    var flushed: seq<AccessUnit>

    // Nothing pending means that the pending timestamps are reset too.
    ghost predicate Valid()
      reads this
    {
      pendingAu == [] ==> pendingDts == -1 && pendingPts == -1 && !pendingEos
    }

    ghost function State(): Assembly
      reads this
    {
      Assembly(AccessUnit(pendingAu, pendingDts, pendingPts, pendingEos), flushed)
    }

    constructor ()
      ensures Valid() && State() == Assembly(EMPTY, [])
    {
      pendingAu, pendingDts, pendingPts, pendingEos, flushed := [], -1, -1, false, [];
    }

    method FlushPendingAu()
      requires Valid()
      modifies this
      ensures Valid() && State() == Flush(old(State()))
    {
      if pendingAu == [] {
        return;
      }
      flushed := flushed + [AccessUnit(pendingAu, pendingDts, pendingPts, pendingEos)];
      pendingAu, pendingDts, pendingPts, pendingEos := [], -1, -1, false;
    }

    // A packet that is no partition, or ends an image or the stream, leaves nothing pending: all bytes
    // received since the last flush go out as one unit, if there are any. Other packets only add their
    // bytes.
    method HandlePacket(p: Packet)
      requires Valid()
      modifies this
      ensures Valid() && State() == Feed(old(State()), p)
      ensures !p.partition || p.eoi || p.eos ==>
        && pendingAu == []
        && if old(pendingAu) + p.data == [] then flushed == old(flushed)
           else |flushed| == |old(flushed)| + 1 && flushed[..|old(flushed)|] == old(flushed)
                && flushed[|old(flushed)|].data == old(pendingAu) + p.data
      ensures p.partition && !p.eoi && !p.eos ==> flushed == old(flushed) && pendingAu == old(pendingAu) + p.data
    {
      FeedFlushes(State(), p);
      if |p.data| > 0 {
        if pendingAu == [] {
          pendingDts, pendingPts, pendingEos := p.dts, p.pts, p.eos;
        } else {
          pendingEos := pendingEos || p.eos;
          if pendingDts < 0 && p.dts >= 0 {
            pendingDts := p.dts;
          }
          if pendingPts < 0 && p.pts >= 0 {
            pendingPts := p.pts;
          }
        }
        assert pendingAu == [] ==> pendingAu + p.data == p.data;
        pendingAu := pendingAu + p.data;
      }
      if !p.partition || p.eoi || p.eos {
        FlushPendingAu();
      }
    }
  }

  // ----- conservation of bytes -----

  function Received(ps: seq<Packet>): seq<byte> {
    if ps == [] then [] else ps[0].data + Received(ps[1..])
  }

  function FlushedBytes(us: seq<AccessUnit>): seq<byte>
    decreases |us|
  {
    if us == [] then [] else FlushedBytes(us[..|us| - 1]) + us[|us| - 1].data
  }

  function AllBytes(m: Assembly): seq<byte> {
    FlushedBytes(m.flushed) + m.pending.data
  }

  lemma FeedKeepsBytes(m: Assembly, p: Packet)
    ensures AllBytes(Feed(m, p)) == AllBytes(m) + p.data
  {
    var n := m.(pending := Merge(m.pending, p));
    assert AllBytes(n) == AllBytes(m) + p.data;
    if Closes(p) && n.pending.data != [] {
      assert (n.flushed + [n.pending])[..|n.flushed|] == n.flushed;
    }
  }

  // In every run the flushed bytes followed by the pending bytes are the received bytes.
  lemma {:induction false} BytesConserved(m: Assembly, ps: seq<Packet>)
    ensures AllBytes(FeedAll(m, ps)) == AllBytes(m) + Received(ps)
    decreases |ps|
  {
    if ps == [] {
    } else {
      FeedKeepsBytes(m, ps[0]);
      BytesConserved(Feed(m, ps[0]), ps[1..]);
    }
  }

  // ----- reassembly inverts fragmentation -----

  function FirstKnown(a: int, b: int): int {
    if a < 0 && b >= 0 then b else a
  }

  // First non-negative dts among the fragments, or the first fragment's when there is none.
  function FirstDts(ps: seq<Packet>): (r: int)
    requires ps != []
    decreases |ps|
  {
    if |ps| == 1 then ps[0].dts else FirstKnown(FirstDts(ps[..|ps| - 1]), ps[|ps| - 1].dts)
  }

  function FirstPts(ps: seq<Packet>): (r: int)
    requires ps != []
    decreases |ps|
  {
    if |ps| == 1 then ps[0].pts else FirstKnown(FirstPts(ps[..|ps| - 1]), ps[|ps| - 1].pts)
  }

  lemma {:induction false} NoDts(ps: seq<Packet>)
    requires ps != [] && forall i :: 0 <= i < |ps| ==> ps[i].dts < 0
    ensures FirstDts(ps) == ps[0].dts
    decreases |ps|
  {
    if |ps| == 1 {
    } else {
      NoDts(ps[..|ps| - 1]);
    }
  }

  // What `FirstDts` and `FirstPts` mean.
  lemma {:induction false} FirstDtsMeaning(ps: seq<Packet>, k: nat)
    requires k < |ps| && ps[k].dts >= 0 && forall i :: 0 <= i < k ==> ps[i].dts < 0
    ensures FirstDts(ps) == ps[k].dts
    decreases |ps|
  {
    if k < |ps| - 1 {
      FirstDtsMeaning(ps[..|ps| - 1], k);
    } else if |ps| > 1 {
      NoDts(ps[..|ps| - 1]);
    }
  }

  lemma {:induction false} NoPts(ps: seq<Packet>)
    requires ps != [] && forall i :: 0 <= i < |ps| ==> ps[i].pts < 0
    ensures FirstPts(ps) == ps[0].pts
    decreases |ps|
  {
    if |ps| == 1 {
    } else {
      NoPts(ps[..|ps| - 1]);
    }
  }

  lemma {:induction false} FirstPtsMeaning(ps: seq<Packet>, k: nat)
    requires k < |ps| && ps[k].pts >= 0 && forall i :: 0 <= i < k ==> ps[i].pts < 0
    ensures FirstPts(ps) == ps[k].pts
    decreases |ps|
  {
    if k < |ps| - 1 {
      FirstPtsMeaning(ps[..|ps| - 1], k);
    } else if |ps| > 1 {
      NoPts(ps[..|ps| - 1]);
    }
  }

  // The packets of one access unit: non-empty, and exactly the last one closes it.
  predicate Fragments(ps: seq<Packet>) {
    && ps != []
    && (forall i :: 0 <= i < |ps| ==> ps[i].data != [])
    && (forall i :: 0 <= i < |ps| ==> (!ps[i].partition || ps[i].eoi || ps[i].eos <==> i == |ps| - 1))
  }

  // The packets of an access unit that no packet has closed yet.
  predicate OpenFragments(ps: seq<Packet>) {
    forall i :: 0 <= i < |ps| ==> ps[i].data != [] && ps[i].partition && !ps[i].eoi && !ps[i].eos
  }

  // Only a closing packet can carry the end of the stream.
  function Whole(ps: seq<Packet>): AccessUnit
    requires ps != []
  {
    AccessUnit(Received(ps), FirstDts(ps), FirstPts(ps), ps[|ps| - 1].eos)
  }

  lemma {:induction false} ReceivedSnoc(ps: seq<Packet>, p: Packet)
    ensures Received(ps + [p]) == Received(ps) + p.data
    decreases |ps|
  {
    if ps == [] {
      assert ps + [p] == [p];
      assert [p][1..] == [];
    } else {
      assert (ps + [p])[0] == ps[0] && (ps + [p])[1..] == ps[1..] + [p];
      ReceivedSnoc(ps[1..], p);
    }
  }

  lemma FeedOne(m: Assembly, p: Packet)
    ensures FeedAll(m, [p]) == Feed(m, p)
  {
    assert [p][1..] == [];
  }

  // Before the closing packet, the pending unit is exactly what has been received.
  lemma {:induction false} Pending(done: seq<AccessUnit>, ps: seq<Packet>)
    requires ps != [] && OpenFragments(ps)
    ensures Received(ps) != []
    ensures FeedAll(Assembly(EMPTY, done), ps) == Assembly(Whole(ps), done)
    decreases |ps|
  {
    var n := |ps| - 1;
    var q, last := ps[..n], ps[n];
    assert ps == q + [last];
    ReceivedSnoc(q, last);
    FeedAllAppend(Assembly(EMPTY, done), q, [last]);
    FeedOne(FeedAll(Assembly(EMPTY, done), q), last);
    if q == [] {
    } else {
      Pending(done, q);
    }
  }

  // One fragmented access unit comes out whole, wherever it was cut.
  lemma Reassembled(done: seq<AccessUnit>, ps: seq<Packet>)
    requires Fragments(ps)
    ensures FeedAll(Assembly(EMPTY, done), ps) == Assembly(EMPTY, done + [Whole(ps)])
  {
    var n := |ps| - 1;
    var q, last := ps[..n], ps[n];
    assert ps == q + [last];
    ReceivedSnoc(q, last);
    FeedAllAppend(Assembly(EMPTY, done), q, [last]);
    FeedOne(FeedAll(Assembly(EMPTY, done), q), last);
    if q == [] {
      assert Received(ps) == last.data && ps == [last];
    } else {
      Pending(done, q);
    }
  }

  function Flatten(groups: seq<seq<Packet>>): seq<Packet> {
    if groups == [] then [] else groups[0] + Flatten(groups[1..])
  }

  ghost predicate AllFragments(groups: seq<seq<Packet>>) {
    forall i {:trigger groups[i]} :: 0 <= i < |groups| ==> Fragments(groups[i])
  }

  predicate NoneEmpty(groups: seq<seq<Packet>>) {
    forall i {:trigger groups[i]} :: 0 <= i < |groups| ==> groups[i] != []
  }

  function Wholes(groups: seq<seq<Packet>>): (r: seq<AccessUnit>)
    requires NoneEmpty(groups)
    ensures |r| == |groups| && forall i :: 0 <= i < |r| ==> r[i] == Whole(groups[i])
  {
    seq(|groups|, i requires 0 <= i < |groups| => Whole(groups[i]))
  }

  lemma WholesStep(done: seq<AccessUnit>, groups: seq<seq<Packet>>)
    requires groups != [] && NoneEmpty(groups)
    ensures done + [Whole(groups[0])] + Wholes(groups[1..]) == done + Wholes(groups)
  {
    var w, t := Wholes(groups), Wholes(groups[1..]);
    forall i | 0 <= i < |t|
      ensures t[i] == w[i + 1]
    {
      assert groups[1..][i] == groups[i + 1];
    }
    assert w == [w[0]] + t;
  }

  // A stream of fragmented access units comes out as exactly these units, in order.
  lemma {:induction false} StreamReassembled(done: seq<AccessUnit>, groups: seq<seq<Packet>>)
    requires AllFragments(groups)
    ensures FeedAll(Assembly(EMPTY, done), Flatten(groups)) == Assembly(EMPTY, done + Wholes(groups))
    decreases |groups|
  {
    if groups == [] {
      assert done + Wholes(groups) == done;
    } else {
      var t := groups[1..];
      Reassembled(done, groups[0]);
      FeedAllAppend(Assembly(EMPTY, done), groups[0], Flatten(t));
      StreamReassembled(done + [Whole(groups[0])], t);
      WholesStep(done, groups);
    }
  }

  // The units a stream delivers: the closed ones and, after a flush at shutdown, the one still open.
  function Delivered(groups: seq<seq<Packet>>, tail: seq<Packet>, flush: bool): (r: seq<AccessUnit>)
    requires AllFragments(groups)
  {
    Wholes(groups) + (if flush && tail != [] then [Whole(tail)] else [])
  }

  function Assembled(ps: seq<Packet>, flush: bool): (r: Assembly) {
    var m := FeedAll(Assembly(EMPTY, []), ps);
    if flush then Flush(m) else m
  }

  // A stream that ends inside an access unit delivers the closed units, and that one too if it is flushed.
  lemma EndedStreamReassembled(groups: seq<seq<Packet>>, tail: seq<Packet>, flush: bool)
    requires AllFragments(groups) && OpenFragments(tail)
    ensures Assembled(Flatten(groups) + tail, flush)
      == Assembly(if flush || tail == [] then EMPTY else Whole(tail), Delivered(groups, tail, flush))
  {
    var m := Assembly(EMPTY, []);
    StreamReassembled([], groups);
    assert [] + Wholes(groups) == Wholes(groups);
    FeedAllAppend(m, Flatten(groups), tail);
    if tail == [] {
      assert Delivered(groups, tail, flush) == Wholes(groups);
    } else {
      Pending(Wholes(groups), tail);
    }
  }
}
