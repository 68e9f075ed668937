// The publisher's entry point: check of the stream format, timestamp repair, splitting, and one muxer
// call per NAL unit.

module Publisher {
  import opened AnnexB
  import opened AccessUnits
  import opened Timestamps

  const INT_MAX: int := 0x7fff_ffff

  // A muxer call; `unit` numbers the access units, it is not passed to the muxer.
  datatype Nalu = Nalu(data: seq<byte>, dtsMs: int, ptsMs: int, unit: nat)

  datatype Session = Session(open: bool, clock: Clock, sent: seq<Nalu>, units: nat, frames: nat)

  // One call: the access unit and how many NAL units the muxer accepts before it refuses one.
  datatype Call = Call(au: AccessUnit, accepts: nat)

  function StampsOf(c: Call): Stamps {
    Stamps(c.au.dts, c.au.pts)
  }

  predicate Admitted(p: Session, c: Call) {
    p.open && 0 < |c.au.data| <= INT_MAX && IsAnnexBStartCode(c.au.data)
  }

  function UnitsOf(d: seq<byte>): seq<seq<byte>> {
    match Split(d) case Some(u) => u case None => []
  }

  function Stamped(pieces: seq<seq<byte>>, c: Clock, unit: nat): (r: seq<Nalu>)
    ensures |r| == |pieces|
    ensures forall i :: 0 <= i < |r| ==> r[i] == Nalu(pieces[i], c.dtsMs, c.ptsMs, unit)
  {
    seq(|pieces|, i requires 0 <= i < |pieces| => Nalu(pieces[i], c.dtsMs, c.ptsMs, unit))
  }

  lemma StampedNext(pieces: seq<seq<byte>>, i: nat, c: Clock, unit: nat)
    requires i < |pieces|
    ensures Stamped(pieces[..i + 1], c, unit) == Stamped(pieces[..i], c, unit)
        + [Nalu(pieces[i], c.dtsMs, c.ptsMs, unit)]
  {
  }

  // The units the muxer takes.
  function Taken(pieces: seq<seq<byte>>, accepts: nat): seq<seq<byte>> {
    if accepts < |pieces| then pieces[..accepts] else pieces
  }

  // The session after a call: a refused stream changes nothing but the call count; an admitted one
  // advances the clock and sends the units the muxer takes.
  function After(p: Session, c: Call): (r: Session)
    requires Representable(p.clock) && IsInt64(StampsOf(c))
    ensures Representable(r.clock)
  {
    if !Admitted(p, c) then p.(units := p.units + 1)
    else
      var clock := NormalizeWrapped(p.clock, StampsOf(c));
      var pieces := UnitsOf(c.au.data);
      Session(true, clock, p.sent + Stamped(Taken(pieces, c.accepts), clock, p.units), p.units + 1,
              if c.accepts < |pieces| then p.frames else p.frames + 1)
  }

  predicate Succeeds(p: Session, c: Call) {
    Admitted(p, c) && c.accepts >= |UnitsOf(c.au.data)|
  }

  // The publisher object; the muxer is an outcome parameter of each call.
  class ZlmPublisher {
    const normalizer: Normalizer
    var open: bool
    var sent: seq<Nalu>
    var units: nat
    var outputFrames: nat

    ghost function State(): (p: Session)
      reads this, normalizer
      ensures Representable(p.clock)
    {
      Session(open, normalizer.State(), sent, units, outputFrames)
    }

    constructor ()
      ensures State() == Session(true, FRESH, [], 0, 0) && fresh(normalizer)
    {
      normalizer := new Normalizer();
      open, sent, units, outputFrames := true, [], 0, 0;
    }

    // The loop over the NAL units of one access unit.
    method SendNalus(data: seq<byte>, nalus: seq<NaluRange>, ghost clock: Clock, dtsMs: UInt64, ptsMs: UInt64,
                     unit: nat, accepts: nat)
      returns (all: bool)
      requires |data| <= INT_MAX && |nalus| == |UnitsOf(data)| && RangesMatch(data, nalus, UnitsOf(data))
      requires dtsMs == clock.dtsMs && ptsMs == clock.ptsMs
      modifies this`sent
      ensures all <==> accepts >= |nalus|
      ensures sent == old(sent) + Stamped(Taken(UnitsOf(data), accepts), clock, unit)
    {
      ghost var pieces := UnitsOf(data);
      for i := 0 to |nalus|
        invariant i <= accepts
        invariant sent == old(sent) + Stamped(pieces[..i], clock, unit)
      {
        if i >= accepts {
          return false;
        }
        sent := sent + [Nalu(Slice(data, nalus[i]), dtsMs, ptsMs, unit)];
        StampedNext(pieces, i, clock, unit);
      }
      assert pieces[..|nalus|] == pieces;
      all := true;
    }

    // Timestamps, split and muxer calls of an admitted access unit.
    method PublishAdmitted(au: AccessUnit, unit: nat, accepts: nat) returns (all: bool)
      requires IsInt64(Stamps(au.dts, au.pts)) && |au.data| <= INT_MAX && IsAnnexBStartCode(au.data)
      modifies this`sent, normalizer
      ensures normalizer.State() == NormalizeWrapped(old(normalizer.State()), Stamps(au.dts, au.pts))
      ensures all <==> accepts >= |UnitsOf(au.data)|
      ensures sent == old(sent) + Stamped(Taken(UnitsOf(au.data), accepts), normalizer.State(), unit)
    {
      var dtsMs, ptsMs := normalizer.NormalizeTimestamp(au.dts, au.pts);
      var ok, nalus := SplitAnnexBNalus(au.data);
      assert ok && nalus != [] by { SplitTilesInput(au.data); }
      all := SendNalus(au.data, nalus, normalizer.State(), dtsMs, ptsMs, unit, accepts);
    }

    method InputPacketChunk(au: AccessUnit, accepts: nat) returns (ret: int)
      requires IsInt64(Stamps(au.dts, au.pts))
      modifies this, normalizer
      ensures State() == After(old(State()), Call(au, accepts))
      ensures ret == if Succeeds(old(State()), Call(au, accepts)) then 0 else -1
    {
      var unit := units;
      units := units + 1;
      if !open || |au.data| == 0 || |au.data| > INT_MAX || !IsAnnexBStartCode(au.data) {
        return -1;
      }
      var all := PublishAdmitted(au, unit, accepts);
      if !all {
        return -1;
      }
      outputFrames := outputFrames + 1;
      ret := 0;
    }
  }

  // A stream the publisher takes, in its own bytes.
  predicate OpensWithCode(d: seq<byte>) {
    || (|d| >= 4 && d[0] == 0 && d[1] == 0 && d[2] == 0 && d[3] == 1)
    || (|d| >= 3 && d[0] == 0 && d[1] == 0 && d[2] == 1)
  }

  // What a call does: it is taken by an open session for data of at most 2^31 - 1 bytes that open with a
  // start code. Then the clock sees dts and pts, the muxer gets the units up to the first it refuses, each
  // with the clock's pair, and a frame is counted exactly if it refuses none.
  lemma CallMeans(p: Session, c: Call)
    requires Representable(p.clock) && IsInt64(Stamps(c.au.dts, c.au.pts))
    ensures var taken := p.open && 0 < |c.au.data| <= 0x7fff_ffff && OpensWithCode(c.au.data);
            var r, units := After(p, c), UnitsOf(c.au.data);
            var sends := if !taken then 0 else if c.accepts < |units| then c.accepts else |units|;
            && r.open == p.open
            && r.clock == (if taken then NormalizeWrapped(p.clock, Stamps(c.au.dts, c.au.pts)) else p.clock)
            && |r.sent| == |p.sent| + sends && r.sent[..|p.sent|] == p.sent
            && (forall i :: 0 <= i < sends ==>
                  var nalu := r.sent[|p.sent| + i];
                  nalu.data == units[i] && nalu.dtsMs == r.clock.dtsMs && nalu.ptsMs == r.clock.ptsMs)
            && (Succeeds(p, c) <==> taken && c.accepts >= |units|)
            && r.frames == p.frames + (if taken && c.accepts >= |units| then 1 else 0)
  {
  }

  function DataOf(sent: seq<Nalu>): (r: seq<seq<byte>>)
    ensures |r| == |sent| && forall i :: 0 <= i < |r| ==> r[i] == sent[i].data
  {
    seq(|sent|, i requires 0 <= i < |sent| => sent[i].data)
  }

  // A successful call hands every byte of the access unit to the muxer, in order, in units that each
  // open with a start code.
  lemma {:induction false} SuccessSendsAll(p: Session, c: Call)
    requires Representable(p.clock) && IsInt64(StampsOf(c)) && Succeeds(p, c)
    ensures var added := After(p, c).sent[|p.sent|..];
            && Concat(DataOf(added)) == c.au.data
            && forall i :: 0 <= i < |added| ==> IsAnnexBStartCode(added[i].data)
  {
    var pieces := UnitsOf(c.au.data);
    SplitTilesInput(c.au.data);
    var clock := NormalizeWrapped(p.clock, StampsOf(c));
    assert After(p, c).sent[|p.sent|..] == Stamped(pieces, clock, p.units);
    assert DataOf(Stamped(pieces, clock, p.units)) == pieces;
  }

  // ----- whole runs -----

  predicate CallsAreInt64(calls: seq<Call>) {
    forall i {:trigger calls[i]} :: 0 <= i < |calls| ==> IsInt64(StampsOf(calls[i]))
  }

  function RunCalls(p: Session, calls: seq<Call>): (r: Session)
    requires Representable(p.clock) && CallsAreInt64(calls)
    ensures Representable(r.clock)
    decreases |calls|
  {
    if calls == [] then p else After(RunCalls(p, calls[..|calls| - 1]), calls[|calls| - 1])
  }

  // The timestamps of the admitted calls, the only ones the clock sees.
  function AdmittedStamps(p: Session, calls: seq<Call>): (r: seq<Stamps>)
    decreases |calls|
  {
    if calls == [] then []
    else
      var r := AdmittedStamps(p, calls[..|calls| - 1]);
      if Admitted(p, calls[|calls| - 1]) then r + [StampsOf(calls[|calls| - 1])] else r
  }

  lemma {:induction false} AdmittedAreInt64(p: Session, calls: seq<Call>)
    requires CallsAreInt64(calls)
    ensures |AdmittedStamps(p, calls)| <= |calls|
    ensures forall i :: 0 <= i < |AdmittedStamps(p, calls)| ==> IsInt64(AdmittedStamps(p, calls)[i])
    decreases |calls|
  {
    if calls == [] {
    } else {
      AdmittedAreInt64(p, calls[..|calls| - 1]);
    }
  }

  // The clock of a session is the program's clock run over the admitted timestamps.
  lemma {:induction false} ClockOfRun(p: Session, calls: seq<Call>)
    requires Representable(p.clock) && CallsAreInt64(calls)
    ensures forall i :: 0 <= i < |AdmittedStamps(p, calls)| ==> IsInt64(AdmittedStamps(p, calls)[i])
    ensures RunCalls(p, calls).open == p.open && RunCalls(p, calls).units == p.units + |calls|
    ensures RunCalls(p, calls).clock == RunWrapped(p.clock, AdmittedStamps(p, calls))
    decreases |calls|
  {
    AdmittedAreInt64(p, calls);
    if calls == [] {
    } else {
      var q, c := calls[..|calls| - 1], calls[|calls| - 1];
      ClockOfRun(p, q);
      var ins, earlier := AdmittedStamps(p, calls), AdmittedStamps(p, q);
      if Admitted(p, c) {
        assert ins == earlier + [StampsOf(c)] && ins[..|ins| - 1] == earlier;
      }
    }
  }

  // The bound under which no cast wraps during a run.
  ghost predicate Bounded(p: Session, calls: seq<Call>, m: int) {
    && !p.clock.has && Representable(p.clock) && p.clock.fallbacks == 0 && m >= 0
    && CallsAreInt64(calls)
    && (forall i {:trigger calls[i]} :: 0 <= i < |calls| ==> calls[i].au.dts <= m && calls[i].au.pts <= m)
    && m + |calls| * StepUs(p.clock) < TWO63
  }

  lemma {:induction false} AdmittedAreBounded(p: Session, calls: seq<Call>, m: int)
    requires forall i {:trigger calls[i]} :: 0 <= i < |calls| ==> calls[i].au.dts <= m && calls[i].au.pts <= m
    ensures forall i :: 0 <= i < |AdmittedStamps(p, calls)| ==>
      AdmittedStamps(p, calls)[i].dts <= m && AdmittedStamps(p, calls)[i].pts <= m
    decreases |calls|
  {
    if calls == [] {
    } else {
      AdmittedAreBounded(p, calls[..|calls| - 1], m);
    }
  }

  lemma FewerSteps(a: nat, b: nat, step: nat)
    requires a <= b
    ensures a * step <= b * step
  {
  }

  // Under that bound it is the ideal clock.
  lemma ClockIsIdeal(p: Session, calls: seq<Call>, m: int)
    requires Bounded(p, calls, m)
    ensures RunCalls(p, calls).clock == Run(p.clock, AdmittedStamps(p, calls))
  {
    ClockOfRun(p, calls);
    AdmittedAreInt64(p, calls);
    AdmittedAreBounded(p, calls, m);
    FewerSteps(|AdmittedStamps(p, calls)|, |calls|, StepUs(p.clock));
    NoWrap(p.clock, AdmittedStamps(p, calls), m);
  }

  // NAL units of one access unit share one timestamp pair; of two access units the later has the
  // larger dts.
  predicate InOrder(a: Nalu, b: Nalu) {
    || (a.unit == b.unit && a.dtsMs == b.dtsMs && a.ptsMs == b.ptsMs)
    || (a.unit < b.unit && a.dtsMs < b.dtsMs)
  }

  // A unit sent before: of an earlier call, no later than the clock, and with pts at or after dts.
  predicate InTime(a: Nalu, c: Clock, units: nat) {
    c.has && a.unit < units && a.dtsMs <= c.dtsMs && a.dtsMs <= a.ptsMs
  }

  // What holds of everything sent so far.
  ghost predicate Orderly(p: Session) {
    && (forall i :: 0 <= i < |p.sent| ==> InTime(p.sent[i], p.clock, p.units))
    && (forall i, j :: 0 <= i < j < |p.sent| ==> InOrder(p.sent[i], p.sent[j]))
  }

  // A call only appends, and what it appends carries the call's number and the clock's timestamps.
  lemma CallAppends(p: Session, c: Call)
    requires Representable(p.clock) && IsInt64(StampsOf(c))
    ensures var q := After(p, c);
            && |p.sent| <= |q.sent|
            && (forall i :: 0 <= i < |p.sent| ==> q.sent[i] == p.sent[i])
            && (forall i :: |p.sent| <= i < |q.sent| ==>
                  Admitted(p, c) && q.sent[i].unit == p.units
                  && q.sent[i].dtsMs == q.clock.dtsMs && q.sent[i].ptsMs == q.clock.ptsMs)
  {
  }

  lemma StepIsOrderly(p: Session, c: Call, k: nat)
    requires Orderly(p) && Tame(p.clock, k) && k < MAX_CALLS && IsInt64(StampsOf(c))
    ensures Orderly(After(p, c)) && Tame(After(p, c).clock, k + 1)
  {
    CallAppends(p, c);
    TameDiscipline(p.clock, StampsOf(c), k);
    var r := After(p, c);
    forall i | 0 <= i < |r.sent|
      ensures InTime(r.sent[i], r.clock, r.units)
    {
      if i < |p.sent| {
        assert InTime(p.sent[i], p.clock, p.units);
      }
    }
    forall i, j | 0 <= i < j < |r.sent|
      ensures InOrder(r.sent[i], r.sent[j])
    {
      if j < |p.sent| {
        assert InOrder(p.sent[i], p.sent[j]);
      } else if i < |p.sent| {
        assert InTime(p.sent[i], p.clock, p.units) && r.sent[i] == p.sent[i];
      }
    }
  }

  // A session before its first call, and a run of calls with any 64-bit timestamps.
  ghost predicate Starting(p: Session, calls: seq<Call>) {
    && !p.clock.has && Representable(p.clock) && p.clock.intervalUs <= 1000000 && p.sent == []
    && CallsAreInt64(calls) && |calls| <= MAX_CALLS
  }

  // Over every run: one timestamp pair per access unit, pts at or after dts, dts strictly growing from
  // access unit to access unit, whatever timestamps the encoder delivers and whether or not a cast wraps.
  lemma {:induction false} RunIsOrderly(p: Session, calls: seq<Call>)
    requires Starting(p, calls)
    ensures Orderly(RunCalls(p, calls)) && Tame(RunCalls(p, calls).clock, |calls|)
    decreases |calls|
  {
    if calls == [] {
    } else {
      RunIsOrderly(p, calls[..|calls| - 1]);
      StepIsOrderly(RunCalls(p, calls[..|calls| - 1]), calls[|calls| - 1], |calls| - 1);
    }
  }

  // If every input has equal (or missing) pts and dts, so has every output.
  lemma {:induction false} EqualInEqualOut(p: Session, calls: seq<Call>)
    requires Starting(p, calls)
    requires forall i {:trigger calls[i]} :: 0 <= i < |calls| ==>
      calls[i].au.dts == calls[i].au.pts || calls[i].au.dts < 0 || calls[i].au.pts < 0
    ensures forall i :: 0 <= i < |RunCalls(p, calls).sent| ==>
      RunCalls(p, calls).sent[i].dtsMs == RunCalls(p, calls).sent[i].ptsMs
    decreases |calls|
  {
    if calls == [] {
    } else {
      var q, c := calls[..|calls| - 1], calls[|calls| - 1];
      EqualInEqualOut(p, q);
      RunIsOrderly(p, q);
      CallAppends(RunCalls(p, q), c);
      TameEqualStaysEqual(RunCalls(p, q).clock, StampsOf(c), |q|);
    }
  }
}
