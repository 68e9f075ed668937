// From camera to muxer: the timestamps and the order of everything that is published, over every run of
// the pipeline, every fragmentation by the encoder and every outcome of the muxer.

module EndToEnd {
  import opened FrameStamps
  import opened Lines
  import opened AccessUnits
  import T = Timestamps
  import P = Publisher
  import opened Pipeline
  import opened PipelineTheorems

  // The encoder's side of the contract: the packets of one frame repeat its timestamps.
  ghost predicate Encodes(ps: seq<Packet>, st: Stamp) {
    ps != [] && forall i :: 0 <= i < |ps| ==> ps[i].dts == st.dts && ps[i].pts == st.pts
  }

  // The encoder is a queue: its output so far encodes the first frames it accepted, in order; the last of
  // them may still lack its closing packet.
  ghost predicate Output(groups: seq<seq<Packet>>, tail: seq<Packet>, accepted: seq<Stamp>) {
    && AllFragments(groups) && OpenFragments(tail)
    && |groups| <= |accepted| && (tail != [] ==> |groups| < |accepted| && Encodes(tail, accepted[|groups|]))
    && forall i {:trigger groups[i]} :: 0 <= i < |groups| ==> Encodes(groups[i], accepted[i])
  }

  // Capture times at least a millisecond apart.
  ghost predicate SpacedCaptures(captured: seq<int>) {
    forall i, j :: 0 <= i < j < |captured| ==> captured[i] + 1000 <= captured[j]
  }

  lemma WholeKeepsStamp(ps: seq<Packet>, st: Stamp)
    requires Encodes(ps, st) && st.dts >= 0 && st.pts >= 0
    ensures Whole(ps).dts == st.dts && Whole(ps).pts == st.pts
  {
    FirstDtsMeaning(ps, 0);
    FirstPtsMeaning(ps, 0);
  }

  // The publisher is called once per assembled unit; `accepts` are the muxer's outcomes.
  function Calls(units: seq<AccessUnit>, accepts: seq<nat>): (r: seq<P.Call>)
    requires |units| == |accepts|
    ensures |r| == |units| && forall i {:trigger r[i]} :: 0 <= i < |r| ==> r[i] == P.Call(units[i], accepts[i])
  {
    seq(|units|, i requires 0 <= i < |units| => P.Call(units[i], accepts[i]))
  }

  // Calls whose units carry the stamps of the accepted frames.
  ghost predicate Matches(calls: seq<P.Call>, line: seq<Stamp>) {
    && |calls| <= |line|
    && forall i {:trigger calls[i]} :: 0 <= i < |calls| ==> P.StampsOf(calls[i]) == T.Stamps(line[i].dts, line[i].pts)
  }

  // Everything published so far carries its own frame's capture time in milliseconds.
  ghost predicate Stamped(sent: seq<P.Nalu>, line: seq<Stamp>, captured: seq<int>, k: nat)
    requires Line(line, captured)
  {
    forall i :: 0 <= i < |sent| ==>
      sent[i].unit < k <= |line|
      && sent[i].dtsMs == captured[line[sent[i].unit].frame] / 1000
      && sent[i].ptsMs == captured[line[sent[i].unit].frame] / 1000
  }

  // What the clock has seen is spaced, and everything still to come is later.
  ghost predicate SeenBefore(ins: seq<T.Stamps>, line: seq<Stamp>, k: nat) {
    && T.Spaced(ins)
    && (ins != [] ==> forall j :: k <= j < |line| ==> ins[|ins| - 1].dts + 1000 <= line[j].dts)
  }

  lemma {:induction false} SeenNext(p: P.Session, calls: seq<P.Call>, line: seq<Stamp>, captured: seq<int>)
    requires calls != [] && Matches(calls, line) && Line(line, captured) && SpacedCaptures(captured)
    requires SeenBefore(P.AdmittedStamps(p, calls[..|calls| - 1]), line, |calls| - 1)
    ensures SeenBefore(P.AdmittedStamps(p, calls), line, |calls|)
  {
    var k := |calls| - 1;
    var earlier, ins := P.AdmittedStamps(p, calls[..k]), P.AdmittedStamps(p, calls);
    if P.Admitted(p, calls[k]) {
      assert ins == earlier + [P.StampsOf(calls[k])];
      assert True(line[k], captured);
      forall j | k + 1 <= j < |line|
        ensures line[k].dts + 1000 <= line[j].dts
      {
        assert True(line[j], captured) && line[k].frame < line[j].frame;
      }
    } else {
      assert ins == earlier;
    }
  }

  // A session before its first call.
  ghost predicate Fresh(p: P.Session) {
    T.Representable(p.clock) && !p.clock.has && p.units == 0 && p.sent == []
  }

  // The clock after an admitted call shows the frame's capture time.
  lemma {:induction false} AdmittedClock(p: P.Session, calls: seq<P.Call>, line: seq<Stamp>, captured: seq<int>)
    requires Fresh(p) && P.CallsAreInt64(calls) && calls != []
    requires Matches(calls, line) && Line(line, captured)
    requires SeenBefore(P.AdmittedStamps(p, calls), line, |calls|)
    requires P.Admitted(p, calls[|calls| - 1])
    ensures var c := P.RunCalls(p, calls).clock;
            c.dtsMs == captured[line[|calls| - 1].frame] / 1000 && c.ptsMs == c.dtsMs
  {
    var k := |calls| - 1;
    P.ClockOfRun(p, calls);
    var ins := P.AdmittedStamps(p, calls);
    T.SpacedIsExact(p.clock, ins);
    T.PassThrough(p.clock, ins);
    assert ins[|ins| - 1] == P.StampsOf(calls[k]);
    assert True(line[k], captured);
  }

  lemma {:induction false} CallKeepsStamped(p: P.Session, calls: seq<P.Call>, line: seq<Stamp>, captured: seq<int>)
    requires Fresh(p) && P.CallsAreInt64(calls) && calls != []
    requires Matches(calls, line) && Line(line, captured)
    requires SeenBefore(P.AdmittedStamps(p, calls), line, |calls|)
    requires Stamped(P.RunCalls(p, calls[..|calls| - 1]).sent, line, captured, |calls| - 1)
    ensures Stamped(P.RunCalls(p, calls).sent, line, captured, |calls|)
  {
    var k := |calls| - 1;
    var before := P.RunCalls(p, calls[..k]);
    P.ClockOfRun(p, calls[..k]);
    P.CallAppends(before, calls[k]);
    if P.Admitted(p, calls[k]) {
      AdmittedClock(p, calls, line, captured);
    }
  }

  lemma {:induction false} RunIsStamped(p: P.Session, calls: seq<P.Call>, line: seq<Stamp>, captured: seq<int>)
    requires Fresh(p) && P.CallsAreInt64(calls)
    requires Matches(calls, line) && Line(line, captured) && SpacedCaptures(captured)
    ensures SeenBefore(P.AdmittedStamps(p, calls), line, |calls|)
    ensures Stamped(P.RunCalls(p, calls).sent, line, captured, |calls|)
    ensures P.RunCalls(p, calls).clock.fallbacks == p.clock.fallbacks
    decreases |calls|
  {
    if calls == [] {
    } else {
      RunIsStamped(p, calls[..|calls| - 1], line, captured);
      SeenNext(p, calls, line, captured);
      CallKeepsStamped(p, calls, line, captured);
    }
    P.ClockOfRun(p, calls);
    T.SpacedIsExact(p.clock, P.AdmittedStamps(p, calls));
    T.PassThrough(p.clock, P.AdmittedStamps(p, calls));
  }

  // What the assembling thread hands to the publisher carries the stamps of the accepted frames.
  lemma UnitsCarryStamps(groups: seq<seq<Packet>>, tail: seq<Packet>, flush: bool, accepted: seq<Stamp>,
                         captured: seq<int>, accepts: seq<nat>)
    requires Output(groups, tail, accepted) && Line(accepted, captured)
    requires |accepts| == |Delivered(groups, tail, flush)|
    ensures Matches(Calls(Delivered(groups, tail, flush), accepts), accepted)
  {
    var units := Delivered(groups, tail, flush);
    var calls := Calls(units, accepts);
    forall i | 0 <= i < |calls|
      ensures P.StampsOf(calls[i]) == T.Stamps(accepted[i].dts, accepted[i].pts)
    {
      assert True(accepted[i], captured);
      if i < |groups| {
        assert Encodes(groups[i], accepted[i]) && units[i] == Whole(groups[i]);
        WholeKeepsStamp(groups[i], accepted[i]);
      } else {
        WholeKeepsStamp(tail, accepted[i]);
      }
    }
  }

  // Capture times are 64-bit integers of the program.
  ghost predicate FitInt64(captured: seq<int>) {
    forall i :: 0 <= i < |captured| ==> captured[i] < T.TWO63
  }

  // True stamps repeat capture times, so they fit too.
  lemma CallsFit(calls: seq<P.Call>, line: seq<Stamp>, captured: seq<int>)
    requires Matches(calls, line) && Line(line, captured) && FitInt64(captured)
    ensures P.CallsAreInt64(calls)
  {
    forall i | 0 <= i < |calls|
      ensures T.IsInt64(P.StampsOf(calls[i]))
    {
      assert True(line[i], captured);
    }
  }

  // End to end: in every run of the pipeline, if capture times are at least a millisecond apart, every
  // NAL unit that reaches the muxer carries exactly its own frame's capture time in milliseconds, as dts
  // and as pts, and no timestamp is ever repaired; whichever frames were dropped, failed or retried,
  // however the encoder cut its output into packets, whatever the muxer refused, and whether or not an
  // unfinished access unit is flushed at shutdown.
  lemma {:induction false} CaptureTimesReachMuxer(n: nat, run: seq<Step>, groups: seq<seq<Packet>>, tail: seq<Packet>,
                                                  flush: bool, accepts: seq<nat>, p: P.Session)
    requires ValidRun(Init(n), run)
    requires Output(groups, tail, After(Init(n), run).enc.accepted) && |accepts| == |Delivered(groups, tail, flush)|
    requires SpacedCaptures(After(Init(n), run).cam.captured) && FitInt64(After(Init(n), run).cam.captured)
    requires Fresh(p)
    ensures var s := After(Init(n), run);
            var units := Assembled(Flatten(groups) + tail, flush).flushed;
            && Line(s.enc.accepted, s.cam.captured)
            && |units| == |accepts|
            && P.CallsAreInt64(Calls(units, accepts))
            && var r := P.RunCalls(p, Calls(units, accepts));
            && Stamped(r.sent, s.enc.accepted, s.cam.captured, |units|)
            && r.clock.fallbacks == p.clock.fallbacks
  {
    var s := After(Init(n), run);
    AcceptedInOrder(n, run);
    EndedStreamReassembled(groups, tail, flush);
    UnitsCarryStamps(groups, tail, flush, s.enc.accepted, s.cam.captured, accepts);
    CallsFit(Calls(Delivered(groups, tail, flush), accepts), s.enc.accepted, s.cam.captured);
    RunIsStamped(p, Calls(Delivered(groups, tail, flush), accepts), s.enc.accepted, s.cam.captured);
  }
}
