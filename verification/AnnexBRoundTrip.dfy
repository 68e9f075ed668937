// Joining NAL units into a byte stream and splitting the stream again: exactly when the publisher's
// splitter gives back the units that were joined (H.264 section 7.4.1 and Annex B, B.1.1).

module AnnexBRoundTrip {
  import opened Wrappers
  import opened AnnexB

  // A NAL unit with its three- or four-byte start code prefix.
  datatype Unit = Unit(four: bool, payload: seq<byte>)

  function Prefix(u: Unit): seq<byte> {
    if u.four then [0, 0, 0, 1] else [0, 0, 1]
  }

  function Encode(u: Unit): seq<byte> {
    Prefix(u) + u.payload
  }

  function Encoded(us: seq<Unit>): seq<seq<byte>> {
    if us == [] then [] else [Encode(us[0])] + Encoded(us[1..])
  }

  function Join(us: seq<Unit>): seq<byte> {
    if us == [] then [] else Encode(us[0]) + Join(us[1..])
  }

  predicate HasCode(d: seq<byte>) {
    exists i :: 0 <= i < |d| && CodeAt(d, i)
  }

  predicate EndsInZero(d: seq<byte>) {
    |d| > 0 && d[|d| - 1] == 0
  }

  // No payload holds a start code, and a payload with a trailing zero is last or is followed by a
  // four-byte prefix (a three-byte one would swallow the zero).
  ghost predicate Separable(us: seq<Unit>) {
    && (forall i :: 0 <= i < |us| ==> !HasCode(us[i].payload))
    && (forall i :: 0 <= i < |us| - 1 && EndsInZero(us[i].payload) ==> us[i + 1].four)
  }

  // The constraints section 7.4.1 puts on NAL units are enough.
  lemma ConformingIsSeparable(us: seq<Unit>)
    requires forall i :: 0 <= i < |us| ==> !HasCode(us[i].payload) && !EndsInZero(us[i].payload)
    ensures Separable(us)
  {
  }

  // Joining the tail leaves a stream that is empty or opens with its first prefix.
  predicate Follows(rest: seq<byte>, us: seq<Unit>) {
    && rest == Join(us)
    && (us != [] ==> |rest| >= |Prefix(us[0])| && rest[..|Prefix(us[0])|] == Prefix(us[0]))
  }

  lemma JoinFollows(us: seq<Unit>)
    ensures Follows(Join(us), us)
  {
    if us != [] {
      var p := Prefix(us[0]);
      assert Join(us) == p + (us[0].payload + Join(us[1..]));
    }
  }

  // What separates the first unit from the rest.
  predicate Apart(u: Unit, us: seq<Unit>) {
    !HasCode(u.payload) && (us != [] && EndsInZero(u.payload) ==> us[0].four)
  }

  // Between a unit and what follows no start code straddles; only a trailing zero can be swallowed.
  lemma CodesInside(u: Unit, us: seq<Unit>, p: nat)
    ensures var d := Encode(u) + Join(us);
            p >= |Prefix(u)| && p < |Encode(u)| && CodeAt(d, p) ==> CodeAt(u.payload, p - |Prefix(u)|)
  {
    JoinFollows(us);
    var pre, rest := Prefix(u), Join(us);
    var d := Encode(u) + rest;
    if p >= |pre| && p < |Encode(u)| && CodeAt(d, p) {
      var q := p - |pre|;
      assert forall k :: 0 <= k < |u.payload| ==> d[|pre| + k] == u.payload[k];
      assert rest != [] ==> rest[0] == 0 && rest[1] == 0 && d[|Encode(u)|] == rest[0] && d[|Encode(u)| + 1] == rest[1];
      assert q + 3 <= |u.payload|;
    }
  }

  lemma CodesInPrefix(u: Unit, rest: seq<byte>, p: nat)
    requires p < |Prefix(u)|
    ensures CodeAt(Encode(u) + rest, p) <==> p == |Prefix(u)| - 3
  {
    var d := Encode(u) + rest;
    assert forall k :: 0 <= k < |Prefix(u)| ==> d[k] == Prefix(u)[k];
  }

  lemma CodesBeyond(u: Unit, rest: seq<byte>, p: nat)
    requires p >= |Encode(u)|
    ensures CodeAt(Encode(u) + rest, p) <==> CodeAt(rest, p - |Encode(u)|)
  {
    var d := Encode(u) + rest;
    assert forall k :: 0 <= k < |rest| ==> d[|Encode(u)| + k] == rest[k];
  }

  // Unit starts of the joined stream, seen from its first unit.
  lemma StartsWithin(u: Unit, us: seq<Unit>, p: nat)
    requires Apart(u, us) && 0 < p < |Encode(u)|
    ensures !StartsAt(Encode(u) + Join(us), p)
  {
    var d, pre, rest := Encode(u) + Join(us), Prefix(u), Join(us);
    JoinFollows(us);
    if StartsAt(d, p) {
      var c := CodeOf(d, p);
      if c < |pre| {
        CodesInPrefix(u, rest, c);
      } else if c < |Encode(u)| {
        CodesInside(u, us, c);
      } else {
        CodesBeyond(u, rest, c);
      }
    }
  }

  lemma BytesBeyond(e: seq<byte>, rest: seq<byte>, k: nat)
    requires k < |rest|
    ensures (e + rest)[|e| + k] == rest[k]
  {
  }

  lemma StartsBehind(u: Unit, us: seq<Unit>, p: nat)
    requires p > 0
    ensures StartsAt(Encode(u) + Join(us), |Encode(u)| + p) <==> StartsAt(Join(us), p)
  {
    var e, rest := Encode(u), Join(us);
    CodesBeyond(u, rest, |e| + p);
    CodesBeyond(u, rest, |e| + p + 1);
    if p < |rest| { BytesBeyond(e, rest, p); }
    if p - 1 < |rest| { BytesBeyond(e, rest, p - 1); }
  }

  lemma StartsFirst(u: Unit, rest: seq<byte>)
    ensures StartsAt(Encode(u) + rest, 0)
  {
    CodesInPrefix(u, rest, 0);
    CodesInPrefix(u, rest, 1);
  }

  // The unit that follows starts where it was written, unless a trailing zero is swallowed.
  lemma StartsNext(u: Unit, us: seq<Unit>)
    requires Apart(u, us)
    ensures StartsAt(Encode(u) + Join(us), |Encode(u)|) <==> StartsAt(Join(us), 0)
  {
    var e, rest := Encode(u), Join(us);
    CodesBeyond(u, rest, |e|);
    CodesBeyond(u, rest, |e| + 1);
    if us != [] {
      JoinFollows(us);
      StartsFirst(us[0], Join(us[1..]));
      assert rest[0] == Prefix(us[0])[0] && rest[1] == Prefix(us[0])[1] && rest[2] == Prefix(us[0])[2];
      assert us[0].four ==> rest[3] == Prefix(us[0])[3];
      BytesBeyond(e, rest, 0);
      assert (e + rest)[|e| - 1] == e[|e| - 1];
    }
  }

  lemma StartsBeyond(u: Unit, us: seq<Unit>, p: nat)
    requires Apart(u, us)
    ensures StartsAt(Encode(u) + Join(us), |Encode(u)| + p) <==> StartsAt(Join(us), p)
  {
    if p == 0 { StartsNext(u, us); } else { StartsBehind(u, us, p); }
  }

  function Shift(s: seq<nat>, n: nat): (r: seq<nat>)
    ensures |r| == |s| && forall k :: 0 <= k < |s| ==> r[k] == s[k] + n
  {
    if s == [] then [] else [s[0] + n] + Shift(s[1..], n)
  }

  // The starts of `d` from `n` on are those of `rest`, moved by `n`.
  ghost predicate SameStarts(d: seq<byte>, rest: seq<byte>, n: nat) {
    |d| == n + |rest| && forall p: nat {:trigger StartsAt(rest, p)} :: StartsAt(d, n + p) <==> StartsAt(rest, p)
  }

  lemma ShiftFirst(x: nat, s: seq<nat>, n: nat)
    ensures Shift([x] + s, n) == [x + n] + Shift(s, n)
  {
    assert ([x] + s)[1..] == s;
  }

  lemma {:induction false} ShiftStarts(d: seq<byte>, rest: seq<byte>, n: nat, lo: nat)
    requires SameStarts(d, rest, n)
    ensures StartsFrom(d, n + lo) == Shift(StartsFrom(rest, lo), n)
    decreases |rest| - lo
  {
    if lo >= |rest| {
    } else {
      ShiftStarts(d, rest, n, lo + 1);
      assert StartsAt(d, n + lo) <==> StartsAt(rest, lo);
      ShiftFirst(lo, StartsFrom(rest, lo + 1), n);
    }
  }

  lemma QuietInside(u: Unit, us: seq<Unit>)
    requires Apart(u, us)
    ensures StartsFrom(Encode(u) + Join(us), 1) == StartsFrom(Encode(u) + Join(us), |Encode(u)|)
  {
    var d, e := Encode(u) + Join(us), |Encode(u)|;
    forall p | 1 <= p < e
      ensures !StartsAt(d, p)
    {
      StartsWithin(u, us, p);
    }
    SkipQuiet(d, 1, e);
  }

  lemma SameBeyond(u: Unit, us: seq<Unit>)
    requires Apart(u, us)
    ensures SameStarts(Encode(u) + Join(us), Join(us), |Encode(u)|)
  {
    var d, rest, e := Encode(u) + Join(us), Join(us), |Encode(u)|;
    forall p: nat
      ensures StartsAt(d, e + p) <==> StartsAt(rest, p)
    {
      StartsBeyond(u, us, p);
    }
  }

  lemma StartsOfJoined(u: Unit, us: seq<Unit>)
    requires Apart(u, us)
    ensures StartsFrom(Encode(u) + Join(us), 0) == [0] + Shift(StartsFrom(Join(us), 0), |Encode(u)|)
  {
    StartsFirst(u, Join(us));
    QuietInside(u, us);
    SameBeyond(u, us);
    ShiftStarts(Encode(u) + Join(us), Join(us), |Encode(u)|, 0);
  }

  // The cuts `all` of a joined stream are zero followed by the cuts of the rest, moved by `n`.
  ghost predicate Moved(all: seq<nat>, cuts: seq<nat>, n: nat) {
    && |all| == |cuts| + 1 && all[0] == 0
    && forall k :: 0 <= k < |cuts| ==> all[k + 1] == cuts[k] + n
  }

  lemma EndOfMoved(e: seq<byte>, rest: seq<byte>, cuts: seq<nat>, all: seq<nat>, k: nat)
    requires CutsOf(rest, cuts) && CutsOf(e + rest, all) && Moved(all, cuts, |e|) && k < |cuts|
    ensures all[k + 1] == cuts[k] + |e|
    ensures PieceEnd(e + rest, all, k + 1) == PieceEnd(rest, cuts, k) + |e|
  {
    if k + 1 < |cuts| { assert all[k + 1 + 1] == cuts[k + 1] + |e|; }
  }

  lemma PieceOfJoined(e: seq<byte>, rest: seq<byte>, cuts: seq<nat>, all: seq<nat>, k: nat)
    requires CutsOf(rest, cuts) && CutsOf(e + rest, all) && Moved(all, cuts, |e|) && k < |cuts|
    ensures (e + rest)[all[k + 1]..PieceEnd(e + rest, all, k + 1)] == rest[cuts[k]..PieceEnd(rest, cuts, k)]
  {
    EndOfMoved(e, rest, cuts, all, k);
  }

  lemma PiecesOfJoined(e: seq<byte>, rest: seq<byte>, cuts: seq<nat>, all: seq<nat>)
    requires CutsOf(rest, cuts) && CutsOf(e + rest, all) && Moved(all, cuts, |e|)
    requires if rest == [] then cuts == [] else cuts != [] && cuts[0] == 0
    ensures Pieces(e + rest, all) == [e] + Pieces(rest, cuts)
  {
    var p := Pieces(e + rest, all);
    assert PieceEnd(e + rest, all, 0) == |e|;
    assert p[0] == e;
    forall k | 0 <= k < |cuts|
      ensures p[k + 1] == Pieces(rest, cuts)[k]
    {
      PieceOfJoined(e, rest, cuts, all, k);
    }
  }

  function SplitJoined(us: seq<Unit>): seq<seq<byte>> {
    match Split(Join(us)) case Some(pieces) => pieces case None => []
  }

  // Splitting peels off a first unit that stands apart from the rest.
  lemma SplitPeels(u: Unit, us: seq<Unit>)
    requires Apart(u, us)
    ensures var d := Encode(u) + Join(us);
            Split(d).Some? &&
            Split(d).value == [Encode(u)] + SplitJoined(us)
  {
    var d, rest := Encode(u) + Join(us), Join(us);
    StartsFirst(u, rest);
    StartsFromIsExact(rest, 0);
    JoinFollows(us);
    if us != [] {
      StartsFirst(us[0], Join(us[1..]));
      FirstStartIsZero(rest);
    }
    StartsOfJoined(u, us);
    FirstStartIsZero(d);
    PiecesOfJoined(Encode(u), rest, StartsFrom(rest, 0), StartsFrom(d, 0));
  }

  // A start code inside a payload opens a unit strictly inside the encoding.
  lemma InnerCodeStarts(u: Unit, rest: seq<byte>, i: nat)
    requires CodeAt(u.payload, i)
    ensures exists p :: 0 < p < |Encode(u)| && StartsAt(Encode(u) + rest, p)
  {
    var d, n := Encode(u) + rest, |Prefix(u)|;
    assert forall k :: 0 <= k < |u.payload| ==> d[n + k] == u.payload[k];
    assert d[n - 1] == Prefix(u)[n - 1] == 1;
    assert CodeAt(d, n + i);
    var p := if d[n + i - 1] == 0 then n + i - 1 else n + i;
    assert StartsAt(d, p);
  }

  // A three-byte prefix behind a trailing zero does not open its unit where it was written.
  lemma SwallowedZero(u: Unit, us: seq<Unit>)
    requires us != [] && EndsInZero(u.payload) && !us[0].four
    ensures !StartsAt(Encode(u) + Join(us), |Encode(u)|)
  {
    var d, e, rest := Encode(u) + Join(us), |Encode(u)|, Join(us);
    JoinFollows(us);
    assert d[e - 1] == u.payload[|u.payload| - 1] == 0;
    assert rest[2] == Prefix(us[0])[2] == 1;
    assert d[e + 2] == rest[2];
  }

  // A unit that comes back whole from the splitter stood apart from the rest.
  lemma PeeledIsApart(u: Unit, us: seq<Unit>)
    requires Split(Encode(u) + Join(us)) == Some([Encode(u)] + Encoded(us))
    ensures Apart(u, us)
  {
    var d, e := Encode(u) + Join(us), |Encode(u)|;
    var cuts := StartsFrom(d, 0);
    StartsFromIsExact(d, 0);
    FirstStartIsZero(d);
    assert Pieces(d, cuts)[0] == Encode(u);
    assert PieceEnd(d, cuts, 0) == e;
    forall p | 0 < p < e
      ensures !StartsAt(d, p)
    {
      assert p !in cuts;
    }
    if i :| 0 <= i < |u.payload| && CodeAt(u.payload, i) {
      InnerCodeStarts(u, Join(us), i);
      assert false;
    }
    if us != [] && EndsInZero(u.payload) && !us[0].four {
      assert cuts[1] == e && StartsAt(d, e);
      SwallowedZero(u, us);
      assert false;
    }
  }

  lemma SeparableStep(u: Unit, us: seq<Unit>)
    ensures Separable([u] + us) <==> Apart(u, us) && Separable(us)
  {
    var all := [u] + us;
    assert forall i :: 0 <= i < |us| ==> all[i + 1] == us[i];
    if Separable(all) {
      assert all[0] == u;
      assert us != [] ==> all[1] == us[0];
      forall i | 0 <= i < |us| - 1 && EndsInZero(us[i].payload)
        ensures us[i + 1].four
      {
        assert all[i + 1 + 1].four;
      }
    }
  }

  lemma JoinedSplits(us: seq<Unit>)
    requires us != []
    ensures Split(Join(us)).Some?
  {
    StartsFirst(us[0], Join(us[1..]));
  }

  // The splitter gives back exactly the joined units if and only if they are separable.
  lemma {:induction false} RoundTrip(us: seq<Unit>)
    requires us != []
    ensures Split(Join(us)) == Some(Encoded(us)) <==> Separable(us)
    decreases |us|
  {
    var u, t := us[0], us[1..];
    assert us == [u] + t;
    SeparableStep(u, t);
    if Split(Join(us)) == Some(Encoded(us)) {
      PeeledIsApart(u, t);
    }
    if Apart(u, t) {
      SplitPeels(u, t);
      if t == [] {
        assert Separable(t) && SplitJoined(t) == [];
      } else {
        RoundTrip(t);
        JoinedSplits(t);
        assert Encoded(us)[1..] == Encoded(t);
      }
    }
  }

  lemma {:induction false} JoinAppend(a: seq<Unit>, b: seq<Unit>)
    ensures Join(a + b) == Join(a) + Join(b)
    decreases |a|
  {
    if a == [] {
      assert a + b == b;
    } else {
      JoinAppend(a[1..], b);
      assert (a + b)[0] == a[0] && (a + b)[1..] == a[1..] + b;
      var x, s, t := Encode(a[0]), Join(a[1..]), Join(b);
      assert x + (s + t) == (x + s) + t;
    }
  }

  lemma {:induction false} EncodedAppend(a: seq<Unit>, b: seq<Unit>)
    ensures Encoded(a + b) == Encoded(a) + Encoded(b)
    decreases |a|
  {
    if a == [] {
      assert a + b == b;
    } else {
      EncodedAppend(a[1..], b);
      assert (a + b)[0] == a[0] && (a + b)[1..] == a[1..] + b;
      var x, s, t := [Encode(a[0])], Encoded(a[1..]), Encoded(b);
      assert x + (s + t) == (x + s) + t;
    }
  }

  // Splitting distributes over the concatenation of conforming streams.
  lemma {:induction false} SplitDistributes(a: seq<Unit>, b: seq<Unit>)
    requires a != [] && b != []
    requires Separable(a) && Separable(b)
    requires EndsInZero(a[|a| - 1].payload) ==> b[0].four
    ensures Split(Join(a)).Some? && Split(Join(b)).Some?
    ensures Split(Join(a) + Join(b)) == Some(Split(Join(a)).value + Split(Join(b)).value)
  {
    var all := a + b;
    forall i | 0 <= i < |all| - 1 && EndsInZero(all[i].payload)
      ensures all[i + 1].four
    {
      if i < |a| - 1 {
        assert a[i + 1].four;
      } else if i >= |a| {
        assert b[i - |a| + 1].four;
      }
    }
    forall i | 0 <= i < |all|
      ensures !HasCode(all[i].payload)
    {
      assert all[i] == if i < |a| then a[i] else b[i - |a|];
    }
    RoundTrip(a);
    RoundTrip(b);
    RoundTrip(all);
    JoinAppend(a, b);
    EncodedAppend(a, b);
  }
}
