// Lines of stamps: sequences of frames in capture order, and the ways the pipeline rearranges them.

module Lines {
  import opened FrameStamps
  import opened Populations

  // A stamp is true to the frame it names: both timestamps are that frame's capture time.
  predicate True(st: Stamp, captured: seq<int>) {
    st.frame < |captured| && st.pts == captured[st.frame] && st.dts == captured[st.frame] && st.pts >= 0
  }

  // True stamps, strictly increasing in capture order.
  ghost predicate Line(l: seq<Stamp>, captured: seq<int>) {
    && (forall i :: 0 <= i < |l| ==> True(l[i], captured))
    && (forall i, j :: 0 <= i < j < |l| ==> l[i].frame < l[j].frame)
  }

  // Stamps of queued buffers; an index out of range would read as blank.
  function StampOf(stamps: seq<Stamp>, i: nat): Stamp {
    if i < |stamps| then stamps[i] else BLANK
  }

  function Stamps(stamps: seq<Stamp>, q: seq<nat>): (r: seq<Stamp>)
    ensures |r| == |q|
  {
    if q == [] then [] else [StampOf(stamps, q[0])] + Stamps(stamps, q[1..])
  }

  lemma {:induction false} StampsAt(stamps: seq<Stamp>, q: seq<nat>, i: nat)
    requires i < |q|
    ensures |Stamps(stamps, q)| == |q| && Stamps(stamps, q)[i] == StampOf(stamps, q[i])
    decreases |q|
  {
    if |q| == 1 {
    } else {
      StampsAt(stamps, q[1..], if i == 0 then 0 else i - 1);
    }
  }

  lemma {:induction false} StampsPush(stamps: seq<Stamp>, q: seq<nat>, x: nat)
    ensures Stamps(stamps, q + [x]) == Stamps(stamps, q) + [StampOf(stamps, x)]
    decreases |q|
  {
    if q == [] {
      assert [x][1..] == [];
    } else {
      assert (q + [x])[1..] == q[1..] + [x];
      StampsPush(stamps, q[1..], x);
    }
  }

  lemma StampsFront(stamps: seq<Stamp>, x: nat, q: seq<nat>)
    ensures Stamps(stamps, [x] + q) == [StampOf(stamps, x)] + Stamps(stamps, q)
  {
    assert ([x] + q)[1..] == q;
  }

  // Writing the stamp of a buffer that is not queued leaves the queue's stamps alone.
  lemma {:induction false} StampsElsewhere(stamps: seq<Stamp>, x: nat, st: Stamp, q: seq<nat>)
    requires x < |stamps| && Count(q, x) == 0
    ensures Stamps(stamps[x := st], q) == Stamps(stamps, q)
    decreases |q|
  {
    if q == [] {
    } else {
      StampsElsewhere(stamps, x, st, q[1..]);
    }
  }

  // ----- what keeps a line -----

  lemma Removed(a: seq<Stamp>, x: seq<Stamp>, b: seq<Stamp>, captured: seq<int>)
    requires Line(a + x + b, captured)
    ensures Line(a + b, captured)
  {
    var l, m := a + x + b, a + b;
    assert forall i :: 0 <= i < |a| ==> m[i] == l[i];
    assert forall i :: |a| <= i < |m| ==> m[i] == l[i + |x|];
  }

  lemma MemberIsTrue(a: seq<Stamp>, x: Stamp, b: seq<Stamp>, captured: seq<int>)
    requires Line(a + [x] + b, captured)
    ensures True(x, captured)
  {
    assert (a + [x] + b)[|a|] == x;
  }

  // The line of the pipeline: accepted, encode thread, encode queue and RGA thread in front; RGA
  // queue, decode thread, ready queue and capture thread at the back.
  function Front(a: seq<Stamp>, e: seq<Stamp>, q: seq<Stamp>, r: seq<Stamp>): seq<Stamp> {
    a + e + q + r
  }

  function Back(o: seq<Stamp>, d: seq<Stamp>, y: seq<Stamp>, c: seq<Stamp>): seq<Stamp> {
    o + d + y + c
  }

  lemma BackAround(f: seq<Stamp>, o: seq<Stamp>, d: seq<Stamp>, y: seq<Stamp>, c: seq<Stamp>)
    ensures f + Back(o, d, y, c) == (f + o) + d + (y + c)
    ensures f + Back(o, d, y, c) == (f + o + d) + y + c
  {
  }

  lemma FrontAround(a: seq<Stamp>, e: seq<Stamp>, q: seq<Stamp>, r: seq<Stamp>, b: seq<Stamp>)
    ensures Front(a, e, q, r) + b == a + e + (q + r + b)
    ensures Front(a, e, q, r) + b == (a + e + q) + r + b
  {
  }

  lemma DropDecode(f: seq<Stamp>, o: seq<Stamp>, d: seq<Stamp>, y: seq<Stamp>, c: seq<Stamp>, captured: seq<int>)
    requires Line(f + Back(o, d, y, c), captured)
    ensures Line(f + Back(o, [], y, c), captured)
  {
    BackAround(f, o, d, y, c);
    BackAround(f, o, [], y, c);
    Removed(f + o, d, y + c, captured);
    assert (f + o) + [] + (y + c) == (f + o) + (y + c);
  }

  // The oldest waiting frame is dropped while a new one joins the queue.
  lemma DropOldest(f: seq<Stamp>, o: seq<Stamp>, d: seq<Stamp>, x: Stamp, y: seq<Stamp>, c: seq<Stamp>,
      captured: seq<int>)
    requires Line(f + Back(o, d, [x] + y, c), captured)
    ensures Line(f + Back(o, d, y + c, []), captured)
  {
    assert f + Back(o, d, [x] + y, c) == (f + o + d) + [x] + (y + c);
    Removed(f + o + d, [x], y + c, captured);
    assert (f + o + d) + (y + c) == f + Back(o, d, y + c, []);
  }

  lemma DropRga(a: seq<Stamp>, e: seq<Stamp>, q: seq<Stamp>, r: seq<Stamp>, b: seq<Stamp>, captured: seq<int>)
    requires Line(Front(a, e, q, r) + b, captured)
    ensures Line(Front(a, e, q, []) + b, captured)
  {
    FrontAround(a, e, q, r, b);
    Removed(a + e + q, r, b, captured);
    assert Front(a, e, q, []) + b == a + e + q + b;
  }

  lemma DropEncode(a: seq<Stamp>, e: seq<Stamp>, q: seq<Stamp>, r: seq<Stamp>, b: seq<Stamp>, captured: seq<int>)
    requires Line(Front(a, e, q, r) + b, captured)
    ensures Line(Front(a, [], q, r) + b, captured)
  {
    FrontAround(a, e, q, r, b);
    FrontAround(a, [], q, r, b);
    Removed(a, e, q + r + b, captured);
    assert a + [] + (q + r + b) == a + (q + r + b);
  }

  lemma OnlyAccepted(a: seq<Stamp>, rest: seq<Stamp>, captured: seq<int>)
    requires Line(a + rest, captured)
    ensures Line(a, captured)
  {
    assert a + rest == a + rest + [];
    Removed(a, rest, [], captured);
    assert a + [] == a;
  }

  // ----- moves between neighbours leave the line as it is -----

  lemma TakeReady(o: seq<Stamp>, x: Stamp, y: seq<Stamp>, c: seq<Stamp>)
    ensures Back(o, [], [x] + y, c) == Back(o, [x], y, c)
  {
  }

  lemma QueueDecoded(o: seq<Stamp>, x: Stamp, y: seq<Stamp>, c: seq<Stamp>)
    ensures Back(o + [x], [], y, c) == Back(o, [x], y, c)
  {
  }

  lemma QueueCaptured(o: seq<Stamp>, d: seq<Stamp>, y: seq<Stamp>, x: Stamp)
    ensures Back(o, d, y + [x], []) == Back(o, d, y, [x])
  {
  }

  lemma TakeDecoded(a: seq<Stamp>, e: seq<Stamp>, q: seq<Stamp>, x: Stamp, o: seq<Stamp>, d: seq<Stamp>, y: seq<Stamp>,
                    c: seq<Stamp>)
    ensures Front(a, e, q, []) + Back([x] + o, d, y, c) == Front(a, e, q, [x]) + Back(o, d, y, c)
  {
    assert Back([x] + o, d, y, c) == [x] + Back(o, d, y, c);
    assert Front(a, e, q, []) + [x] == Front(a, e, q, [x]);
    assert Front(a, e, q, []) + ([x] + Back(o, d, y, c)) == (Front(a, e, q, []) + [x]) + Back(o, d, y, c);
  }

  lemma QueueTransformed(a: seq<Stamp>, e: seq<Stamp>, q: seq<Stamp>, x: Stamp)
    ensures Front(a, e, q + [x], []) == Front(a, e, q, [x])
  {
  }

  lemma TakeForEncode(a: seq<Stamp>, x: Stamp, q: seq<Stamp>, r: seq<Stamp>)
    ensures Front(a, [], [x] + q, r) == Front(a, [x], q, r)
  {
  }

  lemma Accept(a: seq<Stamp>, x: Stamp, q: seq<Stamp>, r: seq<Stamp>)
    ensures Front(a + [x], [], q, r) == Front(a, [x], q, r)
  {
  }
}
