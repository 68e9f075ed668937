// The publisher's timestamp normaliser: a repair in microseconds followed by one in milliseconds.
// `Normalize` is the repair over unbounded integers, `NormalizeWrapped` the same with the 64-bit
// casts of the program, and the class at the end is proved to compute the latter.

module Timestamps {
  // What the publisher remembers between two access units.
  datatype Clock = Clock(has: bool, dtsUs: int, ptsUs: int, dtsMs: int, ptsMs: int, fallbacks: int, intervalUs: nat)

  // The timestamps of one access unit, negative when missing.
  datatype Stamps = Stamps(dts: int, pts: int)

  const FRESH: Clock := Clock(false, 0, 0, 0, 0, 0, 1000000 / 30)

  function StepUs(c: Clock): (r: nat)
    ensures r >= 1
  {
    if c.intervalUs > 0 then c.intervalUs else 1
  }

  predicate Missing(s: Stamps) {
    s.dts < 0 && s.pts < 0
  }

  // First repair: each of dts and pts stands in for the other, the frame interval for both.
  function Filled(c: Clock, s: Stamps): (r: Stamps) {
    if s.dts < 0 && s.pts >= 0 then Stamps(s.pts, s.pts)
    else if s.pts < 0 && s.dts >= 0 then Stamps(s.dts, s.dts)
    else if !Missing(s) then s
    else if !c.has then Stamps(0, 0)
    else Stamps(c.dtsUs + StepUs(c), c.dtsUs + StepUs(c))
  }

  function Max(a: int, b: int): int {
    if a >= b then a else b
  }

  function Normalize(c: Clock, s: Stamps): (r: Clock) {
    var f := Filled(c, s);
    var dtsUs := if c.has && f.dts <= c.dtsUs then c.dtsUs + 1 else f.dts;
    var ptsUs := Max(f.pts, dtsUs);
    var dtsMs := if c.has && dtsUs / 1000 <= c.dtsMs then c.dtsMs + 1 else dtsUs / 1000;
    var ptsMs := Max(ptsUs / 1000, dtsMs);
    var repaired := f != s || dtsUs != f.dts || ptsUs != f.pts || dtsMs != dtsUs / 1000 || ptsMs != ptsUs / 1000;
    Clock(true, dtsUs, ptsUs, dtsMs, ptsMs, if repaired then c.fallbacks + 1 else c.fallbacks, c.intervalUs)
  }

  function Run(c: Clock, ins: seq<Stamps>): (r: Clock)
    decreases |ins|
  {
    if ins == [] then c else Normalize(Run(c, ins[..|ins| - 1]), ins[|ins| - 1])
  }

  // A clock that only ever saw the fresh state and calls of the normaliser.
  predicate Sane(c: Clock) {
    c.has ==> 0 <= c.dtsUs <= c.ptsUs && c.dtsUs / 1000 <= c.dtsMs <= c.ptsMs
  }

  lemma DivMono(a: int, b: int)
    requires a <= b
    ensures a / 1000 <= b / 1000
  {
  }

  lemma NormalizeIsSane(c: Clock, s: Stamps)
    requires Sane(c)
    ensures Sane(Normalize(c, s))
  {
    DivMono(Normalize(c, s).dtsUs, Normalize(c, s).ptsUs);
  }

  lemma {:induction false} RunIsSane(c: Clock, ins: seq<Stamps>)
    requires Sane(c)
    ensures Sane(Run(c, ins)) && (ins != [] ==> Run(c, ins).has)
    ensures Run(c, ins).intervalUs == c.intervalUs
    decreases |ins|
  {
    if ins == [] {
    } else {
      RunIsSane(c, ins[..|ins| - 1]);
      NormalizeIsSane(Run(c, ins[..|ins| - 1]), ins[|ins| - 1]);
    }
  }

  // A call is free of repair exactly when both timestamps are present, ordered and ahead of the clock
  // in microseconds and in milliseconds.
  lemma UntouchedIff(c: Clock, s: Stamps)
    requires Sane(c)
    ensures var r := Normalize(c, s);
            r.fallbacks == c.fallbacks <==> 0 <= s.dts <= s.pts && (c.has ==> s.dts > c.dtsUs && s.dts / 1000 > c.dtsMs)
    ensures var r := Normalize(c, s);
            r.fallbacks == c.fallbacks ==> r.dtsMs == s.dts / 1000 && r.ptsMs == s.pts / 1000
    ensures Normalize(c, s).fallbacks == c.fallbacks || Normalize(c, s).fallbacks == c.fallbacks + 1
  {
    if 0 <= s.dts <= s.pts { DivMono(s.dts, s.pts); }
  }

  // The emitted pts is the one the input asks for, unless the emitted dts is later.
  lemma PtsOfCall(c: Clock, s: Stamps)
    requires Sane(c)
    ensures var r := Normalize(c, s);
            var wanted := if s.pts >= 0 then s.pts else if s.dts >= 0 then s.dts else 0;
            && r.ptsUs == (if wanted > r.dtsUs then wanted else r.dtsUs)
            && r.ptsMs == (if wanted / 1000 > r.dtsMs then wanted / 1000 else r.dtsMs)
  {
    var r := Normalize(c, s);
    DivMono(r.dtsUs, r.ptsUs);
  }

  // A pair without timestamps advances by one frame interval, by 1 us if there is none.
  lemma MissingAdvances(c: Clock, s: Stamps)
    requires Sane(c) && c.has && s.dts < 0 && s.pts < 0
    ensures Normalize(c, s).dtsUs == Normalize(c, s).ptsUs == c.dtsUs + (if c.intervalUs > 0 then c.intervalUs else 1)
  {
  }

  // Well-formed input with dts at least a millisecond apart.
  ghost predicate Spaced(ins: seq<Stamps>) {
    && (forall i :: 0 <= i < |ins| ==> 0 <= ins[i].dts <= ins[i].pts)
    && (forall i :: 0 < i < |ins| ==> ins[i - 1].dts + 1000 <= ins[i].dts)
  }

  lemma {:induction false} PassThrough(c: Clock, ins: seq<Stamps>)
    requires !c.has && Spaced(ins)
    ensures Run(c, ins).fallbacks == c.fallbacks
    ensures ins != [] ==>
      var r, last := Run(c, ins), ins[|ins| - 1];
      r.dtsUs == last.dts && r.dtsMs == last.dts / 1000 && r.ptsMs == last.pts / 1000
    decreases |ins|
  {
    if ins == [] {
    } else {
      var p := ins[..|ins| - 1];
      PassThrough(c, p);
      assert Sane(c);
      RunIsSane(c, p);
      UntouchedIff(Run(c, p), ins[|ins| - 1]);
      if p != [] {
        assert p[|p| - 1].dts + 1000 <= ins[|ins| - 1].dts;
      } else {
        assert Run(c, p) == c;
      }
    }
  }

  // The value that call `k` still puts into the race after all calls.
  function MillisOf(c: Clock, ins: seq<Stamps>, k: nat): int
    requires 1 <= k <= |ins|
  {
    Run(c, ins[..k]).dtsUs / 1000 + (|ins| - k)
  }

  ghost predicate MillisReached(c: Clock, ins: seq<Stamps>, k: nat) {
    1 <= k <= |ins| && MillisOf(c, ins, k) == Run(c, ins).dtsMs
  }

  lemma MillisOfEarlier(c: Clock, ins: seq<Stamps>, k: nat)
    requires 1 <= k < |ins|
    ensures MillisOf(c, ins, k) == MillisOf(c, ins[..|ins| - 1], k) + 1
  {
    assert ins[..k] == ins[..|ins| - 1][..k];
  }

  lemma MillisOfLast(c: Clock, ins: seq<Stamps>)
    requires |ins| >= 1
    ensures MillisOf(c, ins, |ins|) == Run(c, ins).dtsUs / 1000
  {
    assert ins[..|ins|] == ins;
  }

  // Closed form of the millisecond level: the emitted dts is the largest of all repaired dts, each
  // carried forward by one millisecond per later call.
  lemma {:induction false} MillisClosedForm(c: Clock, ins: seq<Stamps>)
    requires !c.has && ins != []
    ensures forall k :: 1 <= k <= |ins| ==> MillisOf(c, ins, k) <= Run(c, ins).dtsMs
    ensures exists k :: MillisReached(c, ins, k)
    decreases |ins|
  {
    var n := |ins|;
    var p := ins[..n - 1];
    MillisOfLast(c, ins);
    if n == 1 {
      assert Run(c, p) == c;
      assert MillisReached(c, ins, 1);
    } else {
      MillisClosedForm(c, p);
      RunIsSane(c, p);
      forall k | 1 <= k <= n
        ensures MillisOf(c, ins, k) <= Run(c, ins).dtsMs
      {
        if k < n { MillisOfEarlier(c, ins, k); }
      }
      var j :| MillisReached(c, p, j);
      MillisOfEarlier(c, ins, j);
      assert MillisReached(c, ins, j) || MillisReached(c, ins, n);
    }
  }

  // The microsecond an input asks for on its own; only the first call may ask for zero by default.
  function Wanted(s: Stamps): int {
    if Missing(s) then 0 else if s.dts < 0 then s.pts else s.dts
  }

  // How far the calls after `k` push a dts forward: the frame interval for a missing pair, else one.
  function Drift(c: Clock, ins: seq<Stamps>, k: nat): (r: nat)
    requires k <= |ins|
    decreases |ins|
  {
    if k == |ins| then 0
    else Drift(c, ins[..|ins| - 1], k) + (if Missing(ins[|ins| - 1]) then StepUs(c) else 1)
  }

  // Calls that put a value of their own into the race: the first one and every one with a timestamp.
  predicate Anchored(ins: seq<Stamps>, k: nat) {
    1 <= k <= |ins| && (k == 1 || !Missing(ins[k - 1]))
  }

  ghost predicate MicrosBound(c: Clock, ins: seq<Stamps>, k: nat) {
    Anchored(ins, k) ==> Wanted(ins[k - 1]) + Drift(c, ins, k) <= Run(c, ins).dtsUs
  }

  ghost predicate MicrosReached(c: Clock, ins: seq<Stamps>, k: nat) {
    Anchored(ins, k) && Wanted(ins[k - 1]) + Drift(c, ins, k) == Run(c, ins).dtsUs
  }

  lemma MicrosStep(c: Clock, ins: seq<Stamps>, k: nat)
    requires |ins| >= 1 && k < |ins|
    ensures Anchored(ins[..|ins| - 1], k) <==> Anchored(ins, k)
    ensures Anchored(ins, k) ==> ins[..|ins| - 1][k - 1] == ins[k - 1]
    ensures Drift(c, ins, k) == Drift(c, ins[..|ins| - 1], k) + (if Missing(ins[|ins| - 1]) then StepUs(c) else 1)
  {
  }

  // Closed form of the microsecond level, in terms of the inputs alone.
  lemma {:induction false} MicrosClosedForm(c: Clock, ins: seq<Stamps>)
    requires !c.has && ins != []
    ensures forall k: nat :: MicrosBound(c, ins, k)
    ensures exists k: nat :: MicrosReached(c, ins, k)
    decreases |ins|
  {
    var n := |ins|;
    var p, s := ins[..n - 1], ins[n - 1];
    var r := Run(c, ins);
    assert Drift(c, ins, n) == 0;
    if n == 1 {
      assert Run(c, p) == c;
      assert r.dtsUs == Wanted(s);
      assert MicrosReached(c, ins, 1);
    } else {
      MicrosClosedForm(c, p);
      RunIsSane(c, p);
      assert r.dtsUs == if Missing(s) then Run(c, p).dtsUs + StepUs(c) else Max(Run(c, p).dtsUs + 1, Wanted(s));
      forall k: nat
        ensures MicrosBound(c, ins, k)
      {
        if k < n {
          MicrosStep(c, ins, k);
          assert MicrosBound(c, p, k);
        }
      }
      var j: nat :| MicrosReached(c, p, j);
      MicrosStep(c, ins, j);
      if !Missing(s) && r.dtsUs == Wanted(s) {
        assert MicrosReached(c, ins, n);
      } else {
        assert MicrosReached(c, ins, j);
      }
    }
  }

  // By how much the emitted milliseconds run ahead of the repaired dts.
  function Lead(c: Clock): int {
    c.dtsMs - c.dtsUs / 1000
  }

  // After a burst, every microsecond dts that advances by two milliseconds or more pays back at least
  // one millisecond, until nothing is owed.
  lemma LeadShrinks(c: Clock, s: Stamps)
    requires Sane(c) && c.has && Normalize(c, s).dtsUs >= c.dtsUs + 2000
    ensures 0 <= Lead(Normalize(c, s)) <= Max(0, Lead(c) - 1)
  {
    var r := Normalize(c, s);
    assert r.dtsUs / 1000 >= c.dtsUs / 1000 + 2;
  }

  ghost predicate AdvancesBy2000(c: Clock, ins: seq<Stamps>) {
    forall k :: 0 <= k < |ins| ==> Run(c, ins[..k + 1]).dtsUs >= Run(c, ins[..k]).dtsUs + 2000
  }

  lemma {:induction false} LeadIsPaidBack(c: Clock, ins: seq<Stamps>)
    requires Sane(c) && c.has && AdvancesBy2000(c, ins)
    ensures 0 <= Lead(Run(c, ins)) <= Max(0, Lead(c) - |ins|)
    decreases |ins|
  {
    if ins == [] {
    } else {
      var p := ins[..|ins| - 1];
      forall k | 0 <= k < |p|
        ensures Run(c, p[..k + 1]).dtsUs >= Run(c, p[..k]).dtsUs + 2000
      {
        assert p[..k + 1] == ins[..k + 1] && p[..k] == ins[..k];
      }
      LeadIsPaidBack(c, p);
      RunIsSane(c, p);
      assert ins[..|ins| - 1 + 1] == ins;
      assert Run(c, p).has;
      LeadShrinks(Run(c, p), ins[|ins| - 1]);
    }
  }

  // Everything the clock stores stays below a bound that grows by one step per call.
  predicate Below(c: Clock, b: int) {
    c.has ==> c.dtsUs <= b && c.ptsUs <= b && c.dtsMs <= b && c.ptsMs <= b
  }

  lemma NormalizeBelow(c: Clock, s: Stamps, m: int, b: int)
    requires Sane(c) && Below(c, b) && 0 <= m <= b && s.dts <= m && s.pts <= m
    ensures Below(Normalize(c, s), b + StepUs(c))
  {
    var r := Normalize(c, s);
    assert Filled(c, s).dts <= b + StepUs(c) && Filled(c, s).pts <= b + StepUs(c);
    assert r.dtsUs <= b + StepUs(c) && r.ptsUs <= b + StepUs(c);
    NormalizeIsSane(c, s);
    assert r.dtsUs / 1000 <= r.dtsUs && r.ptsUs / 1000 <= r.ptsUs;
  }

  lemma OneStepMore(n: nat, step: nat)
    requires step >= 1
    ensures (n + 1) * step == n * step + step && n * step >= n
  {
  }

  lemma {:induction false} StaysBelow(c: Clock, ins: seq<Stamps>, m: int)
    requires !c.has && m >= 0 && forall i :: 0 <= i < |ins| ==> ins[i].dts <= m && ins[i].pts <= m
    ensures Below(Run(c, ins), m + |ins| * StepUs(c))
    decreases |ins|
  {
    if ins == [] {
    } else {
      var p := ins[..|ins| - 1];
      StaysBelow(c, p, m);
      RunIsSane(c, p);
      OneStepMore(|p|, StepUs(c));
      NormalizeBelow(Run(c, p), ins[|ins| - 1], m, m + |p| * StepUs(c));
    }
  }

  // The 64-bit integers of the program.
  const TWO63: int := 0x8000_0000_0000_0000
  const TWO64: int := 0x1_0000_0000_0000_0000
  type Int64 = x: int | -0x8000_0000_0000_0000 <= x < 0x8000_0000_0000_0000
  type UInt64 = x: int | 0 <= x < 0x1_0000_0000_0000_0000

  function AsSigned(u: UInt64): Int64 {
    if u < TWO63 then u else u - TWO64
  }

  function AsUnsigned(i: Int64): UInt64 {
    if i >= 0 then i else i + TWO64
  }

  // Unsigned addition, for summands that overflow at most once.
  function Plus(a: UInt64, b: UInt64): UInt64 {
    if a + b < TWO64 then a + b else a + b - TWO64
  }

  // Signed division by a thousand truncates toward zero.
  function Thousandth(x: int): (r: int)
    ensures x >= 0 ==> 0 <= r == x / 1000 <= x
    ensures x < 0 ==> x <= r <= 0
  {
    if x >= 0 then x / 1000 else -((-x) / 1000)
  }

  ghost predicate Representable(c: Clock) {
    && 0 <= c.dtsUs < TWO64 && 0 <= c.ptsUs < TWO64 && 0 <= c.dtsMs < TWO64 && 0 <= c.ptsMs < TWO64
    && 0 <= c.fallbacks < TWO64 && c.intervalUs < TWO64
  }

  predicate IsInt64(s: Stamps) {
    -TWO63 <= s.dts < TWO63 && -TWO63 <= s.pts < TWO63
  }

  function FilledWrapped(c: Clock, s: Stamps): (r: Stamps)
    requires Representable(c) && IsInt64(s)
    ensures IsInt64(r)
  {
    if s.dts < 0 && s.pts >= 0 then Stamps(s.pts, s.pts)
    else if s.pts < 0 && s.dts >= 0 then Stamps(s.dts, s.dts)
    else if !Missing(s) then s
    else if !c.has then Stamps(0, 0)
    else var t := AsSigned(Plus(c.dtsUs, StepUs(c))); Stamps(t, t)
  }

  function OnePast(u: UInt64): (r: Int64)
    ensures u + 1 < TWO63 ==> r == u + 1
  {
    AsSigned(Plus(u, 1))
  }

  // Signed microseconds to milliseconds, read as unsigned.
  function UnsignedMillis(us: Int64): (r: UInt64)
    ensures us >= 0 ==> r == us / 1000
  {
    AsUnsigned(Thousandth(us))
  }

  // The normaliser with every cast of the program written out.
  function NormalizeWrapped(c: Clock, s: Stamps): (r: Clock)
    requires Representable(c) && IsInt64(s)
    ensures Representable(r) && r.has && r.intervalUs == c.intervalUs
  {
    var f := FilledWrapped(c, s);
    var late := c.has && AsUnsigned(f.dts) <= c.dtsUs;
    var dtsUs: Int64 := if late then OnePast(c.dtsUs) else f.dts;
    var ptsUs: Int64 := if f.pts < dtsUs then dtsUs else f.pts;
    var d, p := UnsignedMillis(dtsUs), UnsignedMillis(ptsUs);
    var dtsMs := if c.has && d <= c.dtsMs then Plus(c.dtsMs, 1) else d;
    var ptsMs := if p < dtsMs then dtsMs else p;
    var repaired := s.dts < 0 || s.pts < 0 || late || f.pts < dtsUs || (c.has && d <= c.dtsMs) || p < dtsMs;
    Clock(true, AsUnsigned(dtsUs), AsUnsigned(ptsUs), dtsMs, ptsMs,
          if repaired then Plus(c.fallbacks, 1) else c.fallbacks, c.intervalUs)
  }

  // No cast wraps while the clock and the next step stay below the signed limit.
  lemma NoWrapStep(c: Clock, s: Stamps)
    requires Representable(c) && Sane(c) && IsInt64(s)
    requires Below(c, TWO63 - 1 - StepUs(c)) && StepUs(c) < TWO63 && c.fallbacks < TWO64 - 1
    ensures NormalizeWrapped(c, s) == Normalize(c, s)
  {
    var f := Filled(c, s);
    assert FilledWrapped(c, s) == f;
    assert f.dts >= 0 && f.pts >= 0;
  }

  function RunWrapped(c: Clock, ins: seq<Stamps>): (r: Clock)
    requires Representable(c) && forall i :: 0 <= i < |ins| ==> IsInt64(ins[i])
    ensures Representable(r)
    decreases |ins|
  {
    if ins == [] then c else NormalizeWrapped(RunWrapped(c, ins[..|ins| - 1]), ins[|ins| - 1])
  }

  lemma {:induction false} FallbacksAtMostCalls(c: Clock, ins: seq<Stamps>)
    ensures c.fallbacks <= Run(c, ins).fallbacks <= c.fallbacks + |ins|
    decreases |ins|
  {
    if ins == [] {
    } else {
      FallbacksAtMostCalls(c, ins[..|ins| - 1]);
    }
  }

  // With inputs at most `m`, no cast of the program wraps during a run as long as `m` plus one step
  // per call stays below 2^63.
  lemma {:induction false} NoWrap(c: Clock, ins: seq<Stamps>, m: int)
    requires !c.has && Representable(c) && c.fallbacks == 0
    requires m >= 0 && forall i :: 0 <= i < |ins| ==> IsInt64(ins[i]) && ins[i].dts <= m && ins[i].pts <= m
    requires m + |ins| * StepUs(c) < TWO63
    ensures RunWrapped(c, ins) == Run(c, ins)
    decreases |ins|
  {
    if ins == [] {
    } else {
      var p := ins[..|ins| - 1];
      OneStepMore(|p|, StepUs(c));
      NoWrap(c, p, m);
      StaysBelow(c, p, m);
      RunIsSane(c, p);
      FallbacksAtMostCalls(c, p);
      assert StepUs(Run(c, p)) == StepUs(c);
      NoWrapStep(Run(c, p), ins[|ins| - 1]);
    }
  }

  // ----- exactly when a cast wraps -----

  // A clock as a run of the program has it before any cast wrapped.
  ghost predicate Within(c: Clock) {
    && Representable(c) && Sane(c) && c.intervalUs <= 1000000 && c.fallbacks < TWO64 - 1
    && (c.has ==> c.dtsUs < TWO63 && c.ptsUs < TWO63 && c.dtsMs < TWO63)
  }

  // The next microsecond dts fits: a missing pair needs room for one interval, a dts that does not
  // advance needs room for one microsecond.
  predicate Room(c: Clock, s: Stamps) {
    c.has ==> if Missing(s) then c.dtsUs + StepUs(c) < TWO63 else Wanted(s) > c.dtsUs || c.dtsUs + 1 < TWO63
  }

  lemma RoomSuffices(c: Clock, s: Stamps)
    requires Within(c) && IsInt64(s) && Room(c, s)
    ensures NormalizeWrapped(c, s) == Normalize(c, s)
    ensures Normalize(c, s).dtsUs < TWO63 && Normalize(c, s).ptsUs < TWO63
  {
    var f := Filled(c, s);
    assert FilledWrapped(c, s) == f;
    assert f.dts >= 0 && f.pts >= 0;
  }

  // A dts that wrapped is close to the lower limit, and its thousandth, read as unsigned, is beyond 2^63.
  lemma WrappedThousandth(t: int)
    requires -TWO63 <= t <= 1000000 - TWO63
    ensures AsUnsigned(Thousandth(t)) > TWO63
  {
    assert Thousandth(t) == -((-t) / 1000);
  }

  lemma NoRoomWraps(c: Clock, s: Stamps)
    requires Within(c) && IsInt64(s) && !Room(c, s)
    ensures NormalizeWrapped(c, s).dtsMs > TWO63 >= Normalize(c, s).dtsMs
  {
    var t := AsSigned(Plus(c.dtsUs, if Missing(s) then StepUs(c) else 1));
    assert t <= 1000000 - TWO63;
    WrappedThousandth(t);
    var f := FilledWrapped(c, s);
    if Missing(s) {
      assert f == Stamps(t, t) && AsUnsigned(t) > c.dtsUs;
    } else {
      assert f.dts == Wanted(s) == Filled(c, s).dts;
    }
    var r := Normalize(c, s);
    assert r.dtsUs <= TWO63 - 1 + 1000000;
  }

  // A call computes the ideal repair if and only if the next dts fits.
  lemma ExactIffRoom(c: Clock, s: Stamps)
    requires Within(c) && IsInt64(s)
    ensures NormalizeWrapped(c, s) == Normalize(c, s) <==> Room(c, s)
  {
    if Room(c, s) { RoomSuffices(c, s); } else { NoRoomWraps(c, s); }
  }

  // Runs from a fresh clock, short enough for the counters.
  ghost predicate Starts(c: Clock, ins: seq<Stamps>) {
    && !c.has && Within(c) && c.fallbacks == 0 && |ins| < TWO63 / 2
    && (forall i :: 0 <= i < |ins| ==> IsInt64(ins[i]))
  }

  ghost predicate RoomAt(c: Clock, ins: seq<Stamps>, k: nat)
    requires k < |ins|
  {
    Room(Run(c, ins[..k]), ins[k])
  }

  ghost predicate ExactAt(c: Clock, ins: seq<Stamps>, k: nat)
    requires Starts(c, ins) && k <= |ins|
  {
    RunWrapped(c, ins[..k]) == Run(c, ins[..k])
  }

  // The call after the first `k` ones, wrapped and ideal.
  lemma RunNext(c: Clock, ins: seq<Stamps>, k: nat)
    requires Starts(c, ins) && k < |ins|
    ensures Run(c, ins[..k + 1]) == Normalize(Run(c, ins[..k]), ins[k])
    ensures RunWrapped(c, ins[..k + 1]) == NormalizeWrapped(RunWrapped(c, ins[..k]), ins[k])
  {
    assert ins[..k + 1][..k] == ins[..k];
  }

  lemma OneMoreWithin(c: Clock, s: Stamps, k: nat)
    requires Within(c) && IsInt64(s) && Room(c, s) && (c.has ==> c.dtsMs <= TWO63 / 1000 + k) && k < TWO63 / 2
    requires Normalize(c, s).fallbacks < TWO64 - 1
    ensures Within(Normalize(c, s)) && NormalizeWrapped(c, s) == Normalize(c, s)
    ensures Normalize(c, s).dtsMs <= TWO63 / 1000 + k + 1
  {
    RoomSuffices(c, s);
    NormalizeIsSane(c, s);
  }

  // After `k` calls the clock is one the program can have; milliseconds grow by one per call at most.
  ghost predicate WithinAt(c: Clock, ins: seq<Stamps>, k: nat)
    requires k <= |ins|
  {
    Within(Run(c, ins[..k])) && (k > 0 ==> Run(c, ins[..k]).dtsMs <= TWO63 / 1000 + k)
        && (k == 0 ==> !Run(c, ins[..k]).has)
  }

  lemma RoomNext(c: Clock, ins: seq<Stamps>, k: nat)
    requires Starts(c, ins) && k < |ins| && WithinAt(c, ins, k) && ExactAt(c, ins, k) && RoomAt(c, ins, k)
    ensures WithinAt(c, ins, k + 1) && ExactAt(c, ins, k + 1)
  {
    FallbacksAtMostCalls(c, ins[..k + 1]);
    RunNext(c, ins, k);
    OneMoreWithin(Run(c, ins[..k]), ins[k], k);
  }

  lemma ExactNext(c: Clock, ins: seq<Stamps>, k: nat)
    requires Starts(c, ins) && k < |ins| && WithinAt(c, ins, k) && ExactAt(c, ins, k) && ExactAt(c, ins, k + 1)
    ensures RoomAt(c, ins, k)
  {
    RunNext(c, ins, k);
    ExactIffRoom(Run(c, ins[..k]), ins[k]);
  }

  lemma WithinAtStart(c: Clock, ins: seq<Stamps>)
    requires Starts(c, ins)
    ensures WithinAt(c, ins, 0) && ExactAt(c, ins, 0)
  {
    assert Run(c, ins[..0]) == c;
  }

  lemma {:induction false} RoomIsExact(c: Clock, ins: seq<Stamps>, k: nat)
    requires Starts(c, ins) && k <= |ins| && forall j :: 0 <= j < |ins| ==> RoomAt(c, ins, j)
    ensures WithinAt(c, ins, k) && ExactAt(c, ins, k)
  {
    if k == 0 {
      WithinAtStart(c, ins);
    } else {
      RoomIsExact(c, ins, k - 1);
      assert RoomAt(c, ins, k - 1);
      RoomNext(c, ins, k - 1);
    }
  }

  // Two exact calls in a row: the second had room, and the clock is still one the program can have.
  lemma ExactStep(c: Clock, ins: seq<Stamps>, k: nat)
    requires Starts(c, ins) && k < |ins| && WithinAt(c, ins, k) && ExactAt(c, ins, k) && ExactAt(c, ins, k + 1)
    ensures RoomAt(c, ins, k) && WithinAt(c, ins, k + 1)
  {
    ExactNext(c, ins, k);
    RoomNext(c, ins, k);
  }

  lemma {:induction false} ExactIsWithin(c: Clock, ins: seq<Stamps>, k: nat)
    requires Starts(c, ins) && k <= |ins| && forall j :: 0 <= j <= |ins| ==> ExactAt(c, ins, j)
    ensures WithinAt(c, ins, k)
  {
    if k == 0 {
      WithinAtStart(c, ins);
    } else {
      ExactIsWithin(c, ins, k - 1);
      assert ExactAt(c, ins, k - 1) && ExactAt(c, ins, k);
      ExactStep(c, ins, k - 1);
    }
  }

  // Over a run no cast wraps in any call if and only if every call has room.
  lemma RunExactIffRoom(c: Clock, ins: seq<Stamps>)
    requires Starts(c, ins)
    ensures (forall k :: 0 <= k <= |ins| ==> ExactAt(c, ins, k)) <==> (forall k :: 0 <= k < |ins| ==> RoomAt(c, ins, k))
  {
    if forall k :: 0 <= k < |ins| ==> RoomAt(c, ins, k) {
      forall k | 0 <= k <= |ins|
        ensures ExactAt(c, ins, k)
      {
        RoomIsExact(c, ins, k);
      }
    }
    if forall k :: 0 <= k <= |ins| ==> ExactAt(c, ins, k) {
      forall k | 0 <= k < |ins|
        ensures RoomAt(c, ins, k)
      {
        ExactIsWithin(c, ins, k);
        ExactNext(c, ins, k);
      }
    }
  }

  // The limit is reachable: one access unit at the largest timestamp, then one without timestamps.
  lemma WrapsAtTheLimit(c: Clock)
    requires c == NormalizeWrapped(FRESH, Stamps(TWO63 - 1, TWO63 - 1))
    ensures NormalizeWrapped(c, Stamps(-1, -1)).dtsMs > TWO63 >= Normalize(c, Stamps(-1, -1)).dtsMs
  {
    RoomSuffices(FRESH, Stamps(TWO63 - 1, TWO63 - 1));
    NormalizeIsSane(FRESH, Stamps(TWO63 - 1, TWO63 - 1));
    NoRoomWraps(c, Stamps(-1, -1));
  }

  // ----- what holds whether or not a cast wraps -----

  // At 30 frames per second this many calls take more than a thousand years.
  const MAX_CALLS: nat := 0x100_0000_0000

  // The clock after `k` calls with arbitrary timestamps: a dts that wrapped keeps growing as an unsigned
  // number, and its milliseconds stay far from the unsigned limit.
  ghost predicate Tame(c: Clock, k: nat) {
    && Representable(c) && c.intervalUs <= 1000000
    && (c.has ==> c.dtsUs <= TWO63 - 1 + k * 1000000 && c.dtsMs <= TWO64 - 0x10_0000_0000_0000 + k)
  }

  // A signed microsecond value as unsigned milliseconds; beyond the signed limit it is huge.
  lemma MillisOfUnsigned(u: UInt64)
    requires u <= TWO63 - 1 + (MAX_CALLS + 1) * 1000000
    ensures u < TWO63 ==> AsUnsigned(Thousandth(AsSigned(u))) == u / 1000
    ensures u >= TWO63 ==> TWO63 < AsUnsigned(Thousandth(AsSigned(u))) <= TWO64 - 0x10_0000_0000_0000
  {
    var t: int := AsSigned(u);
    if t < 0 {
      assert Thousandth(t) == -((-t) / 1000);
    }
  }

  // Where the microsecond dts goes: to what the input asks for, one past the last, or one interval past it.
  lemma WrappedMicros(c: Clock, s: Stamps, k: nat)
    requires Tame(c, k) && IsInt64(s) && k < MAX_CALLS
    ensures var r := NormalizeWrapped(c, s);
            && r.dtsUs <= TWO63 - 1 + (k + 1) * 1000000
            && (r.dtsUs >= TWO63 || 0 <= FilledWrapped(c, s).dts)
  {
    var f := FilledWrapped(c, s);
    if Missing(s) && c.has {
      assert AsUnsigned(f.dts) == c.dtsUs + StepUs(c) > c.dtsUs;
    } else {
      assert f.dts >= 0;
    }
  }

  // Whatever arrives and whatever wraps: pts at or after dts, and dts grows strictly.
  lemma TameDiscipline(c: Clock, s: Stamps, k: nat)
    requires Tame(c, k) && IsInt64(s) && k < MAX_CALLS
    ensures var r := NormalizeWrapped(c, s);
            Tame(r, k + 1) && r.dtsMs <= r.ptsMs && (c.has ==> c.dtsMs < r.dtsMs)
  {
    WrappedMicros(c, s, k);
    MillisOfUnsigned(NormalizeWrapped(c, s).dtsUs);
  }

  // Equal or missing input timestamps leave equal, also after a wrap.
  lemma TameEqualStaysEqual(c: Clock, s: Stamps, k: nat)
    requires Tame(c, k) && IsInt64(s) && k < MAX_CALLS
    requires s.dts == s.pts || s.dts < 0 || s.pts < 0
    ensures NormalizeWrapped(c, s).dtsMs == NormalizeWrapped(c, s).ptsMs
  {
    var f := FilledWrapped(c, s);
    assert f.dts == f.pts;
    WrappedMicros(c, s, k);
    MillisOfUnsigned(NormalizeWrapped(c, s).dtsUs);
  }

  // Ordered timestamps ahead of the clock need no repair, so nothing can wrap.
  lemma AheadIsExact(c: Clock, s: Stamps)
    requires Representable(c) && IsInt64(s) && 0 <= s.dts <= s.pts
    requires c.has ==> s.dts > c.dtsUs && s.dts / 1000 > c.dtsMs
    ensures NormalizeWrapped(c, s) == Normalize(c, s)
  {
    DivMono(s.dts, s.pts);
  }

  // Input at least a millisecond apart passes through the program unchanged, up to the signed limit.
  lemma {:induction false} SpacedIsExact(c: Clock, ins: seq<Stamps>)
    requires !c.has && Representable(c) && Spaced(ins) && forall i :: 0 <= i < |ins| ==> IsInt64(ins[i])
    ensures RunWrapped(c, ins) == Run(c, ins)
    decreases |ins|
  {
    if ins == [] {
    } else {
      var p, s := ins[..|ins| - 1], ins[|ins| - 1];
      SpacedIsExact(c, p);
      PassThrough(c, p);
      if p != [] {
        assert p[|p| - 1].dts + 1000 <= s.dts;
      }
      AheadIsExact(Run(c, p), s);
    }
  }

  // Frame interval for an expected frame rate; a rate above one million is rounded up to 1 us.
  function IntervalFor(fps: nat): (r: nat)
    ensures 1 <= r <= 1000000 && (fps > 1000000 ==> r == 1)
    ensures fps <= 1000000 ==> var f := if fps == 0 then 30 else fps; r * f <= 1000000 < (r + 1) * f
  {
    var f := if fps == 0 then 30 else fps;
    if 1000000 / f == 0 then 1 else 1000000 / f
  }

  // The timestamp part of the publisher object.
  class Normalizer {
    var lastDtsUs: UInt64
    var lastPtsUs: UInt64
    var lastDtsMs: UInt64
    var lastPtsMs: UInt64
    var fallbackCount: UInt64
    var frameIntervalUs: UInt64
    var hasLast: bool

    ghost function State(): (c: Clock)
      reads this
      ensures Representable(c)
    {
      Clock(hasLast, lastDtsUs, lastPtsUs, lastDtsMs, lastPtsMs, fallbackCount, frameIntervalUs)
    }

    constructor ()
      ensures State() == FRESH && !hasLast && fallbackCount == 0 && frameIntervalUs == 33333
    {
      lastDtsUs, lastPtsUs, lastDtsMs, lastPtsMs := 0, 0, 0, 0;
      fallbackCount, frameIntervalUs, hasLast := 0, 1000000 / 30, false;
    }

    method SetExpectedFps(fps: nat)
      modifies this
      ensures State() == old(State()).(intervalUs := IntervalFor(fps))
    {
      var f := fps;
      if f == 0 {
        f := 30;
      }
      frameIntervalUs := 1000000 / f;
      if frameIntervalUs == 0 {
        frameIntervalUs := 1;
      }
    }

    // The part that supplies missing timestamps.
    method FillMissing(dts: Int64, pts: Int64) returns (dtsUs: Int64, ptsUs: Int64, usedFallback: bool)
      ensures Stamps(dtsUs, ptsUs) == FilledWrapped(State(), Stamps(dts, pts))
      ensures usedFallback <==> dts < 0 || pts < 0
    {
      usedFallback := false;
      dtsUs, ptsUs := dts, pts;
      if dtsUs < 0 && ptsUs >= 0 {
        dtsUs := ptsUs;
        usedFallback := true;
      }
      if ptsUs < 0 && dtsUs >= 0 {
        ptsUs := dtsUs;
        usedFallback := true;
      }
      if dtsUs < 0 || ptsUs < 0 {
        var stepUs := if frameIntervalUs > 0 then frameIntervalUs else 1;
        if !hasLast {
          dtsUs, ptsUs := 0, 0;
        } else {
          dtsUs := AsSigned(Plus(lastDtsUs, stepUs));
          ptsUs := dtsUs;
        }
        usedFallback := true;
      }
    }

    method NormalizeTimestamp(dts: Int64, pts: Int64) returns (dtsMs: UInt64, ptsMs: UInt64)
      modifies this
      ensures State() == NormalizeWrapped(old(State()), Stamps(dts, pts))
      ensures dtsMs == State().dtsMs && ptsMs == State().ptsMs
    {
      var dtsUs, ptsUs, usedFallback := FillMissing(dts, pts);
      if hasLast && AsUnsigned(dtsUs) <= lastDtsUs {
        dtsUs := OnePast(lastDtsUs);
        usedFallback := true;
      }
      if ptsUs < dtsUs {
        ptsUs := dtsUs;
        usedFallback := true;
      }
      dtsMs, ptsMs := UnsignedMillis(dtsUs), UnsignedMillis(ptsUs);
      if hasLast && dtsMs <= lastDtsMs {
        dtsMs := Plus(lastDtsMs, 1);
        usedFallback := true;
      }
      if ptsMs < dtsMs {
        ptsMs := dtsMs;
        usedFallback := true;
      }
      lastDtsUs, lastPtsUs, lastDtsMs, lastPtsMs := AsUnsigned(dtsUs), AsUnsigned(ptsUs), dtsMs, ptsMs;
      hasLast := true;
      if usedFallback {
        fallbackCount := Plus(fallbackCount, 1);
      }
    }
  }
}
