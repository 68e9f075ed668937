// The timestamps a buffer descriptor carries through the stages.

module FrameStamps {
  // `frame` is the number of the captured frame the descriptor holds; the program does not store it.
  datatype Stamp = Stamp(pts: int, dts: int, frame: nat)

  const BLANK: Stamp := Stamp(-1, -1, 0)

  // The rule that every stage applies when it copies timestamps: pts wins, dts stands in for it.
  function Repaired(s: Stamp): Stamp {
    if s.pts >= 0 then s.(dts := s.pts)
    else if s.dts >= 0 then s.(pts := s.dts)
    else s
  }

  const DEFAULT_FPS: nat := 30

  // Microseconds per frame, rounded down.
  function FramePeriod(fps: nat): nat {
    1000000 / (if fps > 0 then fps else DEFAULT_FPS)
  }

  lemma PeriodIsRoundedDown(fps: nat)
    ensures var f := if fps > 0 then fps else 30; FramePeriod(fps) * f <= 1000000 < (FramePeriod(fps) + 1) * f
  {
  }

  // Timestamps of an encoder input frame: repaired; the frame number stands in for missing ones.
  function InputStamp(s: Stamp, frameId: nat, fps: nat): (r: Stamp)
    ensures r.pts >= 0 && r.dts == r.pts && r.frame == s.frame
    ensures s.pts >= 0 ==> r.pts == s.pts
    ensures s.pts < 0 && s.dts >= 0 ==> r.pts == s.dts
    ensures s.pts < 0 && s.dts < 0 ==> r.pts == frameId * FramePeriod(fps)
  {
    var t := Repaired(s);
    if t.pts >= 0 then t
    else var base := frameId * FramePeriod(fps); t.(pts := base, dts := base)
  }
}

// Finite populations of numbered buffers.
module Populations {
  predicate IsBelow(i: nat, n: nat) {
    i < n
  }

  lemma {:induction false} SizeOfBelow(n: nat)
    ensures |set i: nat | i < n && IsBelow(i, n)| == n
  {
    if n == 0 {
    } else {
      var m := n - 1;
      SizeOfBelow(m);
      assert (set i: nat | i < n && IsBelow(i, n)) == (set i: nat | i < m && IsBelow(i, m)) + {m};
    }
  }

  function Below(n: nat): (r: set<nat>)
    ensures forall i: nat :: i in r <==> i < n
    ensures |r| == n
  {
    SizeOfBelow(n);
    set i: nat | i < n && IsBelow(i, n)
  }

  function Everyone(n: nat): multiset<nat> {
    multiset(Below(n))
  }

  lemma SizeOfEveryone(n: nat)
    ensures |Everyone(n)| == n
    ensures forall i: nat :: Everyone(n)[i] == if i < n then 1 else 0
  {
  }

  // How often `b` occurs in a queue.
  function Count(q: seq<nat>, b: nat): nat {
    if q == [] then 0 else Count(q[1..], b) + (if q[0] == b then 1 else 0)
  }

  lemma {:induction false} CountAppend(q: seq<nat>, r: seq<nat>, b: nat)
    ensures Count(q + r, b) == Count(q, b) + Count(r, b)
    decreases |q|
  {
    if q == [] {
      assert q + r == r;
    } else {
      assert (q + r)[1..] == q[1..] + r;
      CountAppend(q[1..], r, b);
    }
  }

  lemma CountPush(q: seq<nat>, x: nat, b: nat)
    ensures Count(q + [x], b) == Count(q, b) + (if x == b then 1 else 0)
  {
    CountAppend(q, [x], b);
  }

  lemma CountFront(q: seq<nat>, x: nat, b: nat)
    ensures Count([x] + q, b) == Count(q, b) + (if x == b then 1 else 0)
  {
    assert ([x] + q)[1..] == q;
  }

  lemma {:induction false} CountMember(q: seq<nat>, b: nat)
    ensures b in q <==> Count(q, b) > 0
    decreases |q|
  {
    if q == [] {
    } else {
      CountMember(q[1..], b);
      assert q == [q[0]] + q[1..];
    }
  }

  lemma CountFirst(q: seq<nat>)
    ensures q == [] || Count(q, q[0]) > 0
  {
  }

  lemma {:induction false} CountIsMultiplicity(q: seq<nat>, b: nat)
    ensures multiset(q)[b] == Count(q, b)
    decreases |q|
  {
    if q == [] {
    } else {
      assert q == [q[0]] + q[1..];
      CountIsMultiplicity(q[1..], b);
    }
  }

  // Number of members below `n`, and nobody else.
  function One(b: nat, n: nat): nat {
    if b < n then 1 else 0
  }

  lemma {:induction false} CountIota(n: nat, b: nat)
    ensures Count(seq(n, i => i), b) == One(b, n)
  {
    if n == 0 {
    } else {
      CountIota(n - 1, b);
      assert seq(n, i => i) == seq(n - 1, i => i) + [n - 1];
      CountPush(seq(n - 1, i => i), n - 1, b);
    }
  }

  lemma Head(q: seq<nat>)
    requires q != []
    ensures multiset(q) == multiset{q[0]} + multiset(q[1..])
  {
    assert q == [q[0]] + q[1..];
  }

  function Maybe(b: bool, x: nat): seq<nat> {
    if b then [x] else []
  }
}
