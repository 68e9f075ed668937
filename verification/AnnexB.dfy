// The byte stream splitter of the publisher (ITU-T H.264, Annex B, B.1.1): the scanning loop with
// its variable skip is proved against a declarative description of where NAL units start.

module AnnexB {
  import opened Wrappers

  newtype byte = b: int | 0 <= b < 256

  // The three-byte start code prefix 00 00 01 occurs at position `i`.
  predicate CodeAt(d: seq<byte>, i: nat) {
    i + 3 <= |d| && d[i] == 0 && d[i + 1] == 0 && d[i + 2] == 1
  }

  // A unit starts at `p`: one zero byte directly before a start code belongs to the unit it opens.
  predicate StartsAt(d: seq<byte>, p: nat) {
    || (CodeAt(d, p) && !(p > 0 && d[p - 1] == 0))
    || (p < |d| && d[p] == 0 && CodeAt(d, p + 1))
  }

  // All unit starts at or after `lo`, in increasing order.
  function StartsFrom(d: seq<byte>, lo: nat): (r: seq<nat>)
    decreases |d| - lo
  {
    if lo >= |d| then []
    else if StartsAt(d, lo) then [lo] + StartsFrom(d, lo + 1)
    else StartsFrom(d, lo + 1)
  }

  predicate IsAnnexBStartCode(d: seq<byte>) {
    if |d| < 3 then false
    else if |d| >= 4 && d[0] == 0 && d[1] == 0 && d[2] == 0 && d[3] == 1 then true
    else d[0] == 0 && d[1] == 0 && d[2] == 1
  }

  function FindAnnexBPrefix(d: seq<byte>, pos: nat): (r: Option<nat>)
    ensures r == Some(3) <==> CodeAt(d, pos)
    ensures r == Some(4) <==> pos < |d| && d[pos] == 0 && CodeAt(d, pos + 1)
    ensures r.Some? ==> r.value in {3, 4}
  {
    if pos >= |d| then None
    else if pos + 4 <= |d| && d[pos] == 0 && d[pos + 1] == 0 && d[pos + 2] == 0 && d[pos + 3] == 1 then Some(4)
    else if pos + 3 <= |d| && d[pos] == 0 && d[pos + 1] == 0 && d[pos + 2] == 1 then Some(3)
    else None
  }

  // The accepted streams are exactly those with a unit starting at position zero.
  lemma AcceptedIffStartsAtZero(d: seq<byte>)
    ensures IsAnnexBStartCode(d) <==> StartsAt(d, 0)
  {
    assert CodeAt(d, 1) ==> 1 + 3 <= |d|;
  }

  ghost predicate Increasing(s: seq<nat>) {
    forall i, j :: 0 <= i < j < |s| ==> s[i] < s[j]
  }

  lemma {:induction false} StartsFromIsExact(d: seq<byte>, lo: nat)
    ensures var r := StartsFrom(d, lo);
            && Increasing(r)
            && (forall k :: 0 <= k < |r| ==> lo <= r[k] < |d| && StartsAt(d, r[k]))
            && (forall p :: lo <= p && StartsAt(d, p) ==> p in r)
    decreases |d| - lo
  {
    if lo >= |d| {
    } else {
      StartsFromIsExact(d, lo + 1);
      var r, t := StartsFrom(d, lo), StartsFrom(d, lo + 1);
      forall p | lo <= p && StartsAt(d, p)
        ensures p in r
      {
        if p > lo { assert p in t; }
      }
    }
  }

  // Positions without a unit start may be skipped.
  lemma {:induction false} SkipQuiet(d: seq<byte>, lo: nat, hi: nat)
    requires lo <= hi
    requires forall p :: lo <= p < hi ==> !StartsAt(d, p)
    ensures StartsFrom(d, lo) == StartsFrom(d, hi)
    decreases hi - lo
  {
    if lo >= hi {
    } else if lo >= |d| {
    } else {
      assert !StartsAt(d, lo);
      SkipQuiet(d, lo + 1, hi);
    }
  }

  // Occurrence of the start code that opens the unit starting at `p`.
  function CodeOf(d: seq<byte>, p: nat): nat {
    if CodeAt(d, p) then p else p + 1
  }

  // Unit starts and occurrences of 00 00 01 correspond one to one and in order.
  lemma StartsMatchCodes(d: seq<byte>, i: nat)
    ensures var r := StartsFrom(d, 0);
            && (forall k :: 0 <= k < |r| ==> CodeAt(d, CodeOf(d, r[k])))
            && (forall j, k :: 0 <= j < k < |r| ==> CodeOf(d, r[j]) < CodeOf(d, r[k]))
            && (CodeAt(d, i) ==> exists k :: 0 <= k < |r| && CodeOf(d, r[k]) == i)
  {
    var r := StartsFrom(d, 0);
    StartsFromIsExact(d, 0);
    if CodeAt(d, i) {
      var p := if i > 0 && d[i - 1] == 0 then i - 1 else i;
      assert StartsAt(d, p);
      assert p in r;
      var k :| 0 <= k < |r| && r[k] == p;
      assert CodeOf(d, r[k]) == i;
    }
    forall j, k | 0 <= j < k < |r|
      ensures CodeOf(d, r[j]) < CodeOf(d, r[k])
    {
      assert StartsAt(d, r[j]) && StartsAt(d, r[k]);
    }
  }

  // A NAL unit as a range of the input, the way the publisher hands it to the muxer.
  datatype NaluRange = NaluRange(start: nat, len: nat)

  function Slice(d: seq<byte>, r: NaluRange): seq<byte>
    requires r.start + r.len <= |d|
  {
    d[r.start..r.start + r.len]
  }

  // Positions at which `d` can be cut.
  ghost predicate CutsOf(d: seq<byte>, cuts: seq<nat>) {
    Increasing(cuts) && forall k :: 0 <= k < |cuts| ==> cuts[k] < |d|
  }

  // Piece `i` runs from its cut to the next cut, the last one to the end.
  function PieceEnd(d: seq<byte>, cuts: seq<nat>, i: nat): (e: nat)
    requires CutsOf(d, cuts) && i < |cuts|
    ensures cuts[i] < e <= |d|
  {
    if i + 1 < |cuts| then cuts[i + 1] else |d|
  }

  function Pieces(d: seq<byte>, cuts: seq<nat>): (r: seq<seq<byte>>)
    requires CutsOf(d, cuts)
    ensures |r| == |cuts|
    ensures forall k :: 0 <= k < |r| ==> r[k] == d[cuts[k]..PieceEnd(d, cuts, k)]
  {
    seq(|cuts|, i requires 0 <= i < |cuts| => d[cuts[i]..PieceEnd(d, cuts, i)])
  }

  function Concat(parts: seq<seq<byte>>): seq<byte> {
    if parts == [] then [] else parts[0] + Concat(parts[1..])
  }

  lemma {:induction false} ConcatAppend(a: seq<seq<byte>>, b: seq<seq<byte>>)
    ensures Concat(a + b) == Concat(a) + Concat(b)
  {
    if a == [] {
      assert a + b == b;
    } else {
      ConcatAppend(a[1..], b);
      assert (a + b)[1..] == a[1..] + b;
      assert (a + b)[0] == a[0];
    }
  }

  // What the splitter answers, as a function: nothing when the stream does not open with a unit.
  function Split(d: seq<byte>): (r: Option<seq<seq<byte>>>) {
    StartsFromIsExact(d, 0);
    if StartsAt(d, 0) then Some(Pieces(d, StartsFrom(d, 0))) else None
  }

  lemma PiecesTail(d: seq<byte>, cuts: seq<nat>)
    requires CutsOf(d, cuts) && |cuts| > 1
    ensures CutsOf(d, cuts[1..])
    ensures Pieces(d, cuts)[0] == d[cuts[0]..cuts[1]]
    ensures Pieces(d, cuts)[1..] == Pieces(d, cuts[1..])
  {
    var t := cuts[1..];
    assert CutsOf(d, t);
    forall k | 0 <= k < |t|
      ensures Pieces(d, cuts)[1..][k] == Pieces(d, t)[k]
    {
      assert t[k] == cuts[k + 1] && PieceEnd(d, t, k) == PieceEnd(d, cuts, k + 1);
    }
  }

  // The pieces tile the input: together they are the input from the first cut on.
  lemma JoinAt(d: seq<byte>, a: nat, b: nat)
    requires a <= b <= |d|
    ensures d[a..] == d[a..b] + d[b..]
  {
  }

  lemma {:induction false} PiecesTile(d: seq<byte>, cuts: seq<nat>)
    requires CutsOf(d, cuts) && |cuts| > 0
    ensures Concat(Pieces(d, cuts)) == d[cuts[0]..]
    decreases |cuts|
  {
    var p := Pieces(d, cuts);
    if |cuts| == 1 {
      assert p[1..] == [];
    } else {
      PiecesTail(d, cuts);
      PiecesTile(d, cuts[1..]);
      JoinAt(d, cuts[0], cuts[1]);
    }
  }

  lemma FirstStartIsZero(d: seq<byte>)
    requires StartsAt(d, 0)
    ensures CutsOf(d, StartsFrom(d, 0))
    ensures |StartsFrom(d, 0)| > 0 && StartsFrom(d, 0)[0] == 0
  {
    StartsFromIsExact(d, 0);
  }

  // Two unit starts are at least a whole start code apart, so the skip over a prefix misses nothing.
  lemma NextStartAfterCode(d: seq<byte>, p: nat, q: nat)
    requires p < q && StartsAt(d, p) && StartsAt(d, q)
    ensures q >= CodeOf(d, p) + 3
  {
    if CodeAt(d, p) {
      assert d[p + 1] == 0 && d[p + 2] == 1;
    } else {
      assert CodeAt(d, p + 1);
    }
  }

  lemma PieceIsAccepted(d: seq<byte>, cuts: seq<nat>, k: nat)
    requires cuts == StartsFrom(d, 0) && CutsOf(d, cuts) && k < |cuts|
    ensures IsAnnexBStartCode(d[cuts[k]..PieceEnd(d, cuts, k)])
  {
    StartsFromIsExact(d, 0);
    var p, e := cuts[k], PieceEnd(d, cuts, k);
    if k + 1 < |cuts| {
      NextStartAfterCode(d, p, e);
    }
    assert CodeAt(d, CodeOf(d, p)) && CodeOf(d, p) + 3 <= e;
    var u := d[p..e];
    assert CodeOf(d, p) == p ==> u[0] == d[p] && u[1] == d[p + 1] && u[2] == d[p + 2];
    assert CodeOf(d, p) == p + 1 ==> u[0] == d[p] && u[1] == d[p + 1] && u[2] == d[p + 2] && u[3] == d[p + 3];
  }

  // Every piece of an accepted stream is itself accepted, and nothing of the stream is lost.
  lemma SplitTilesInput(d: seq<byte>)
    requires IsAnnexBStartCode(d)
    ensures Split(d).Some? && |Split(d).value| > 0
    ensures Concat(Split(d).value) == d
    ensures forall k :: 0 <= k < |Split(d).value| ==> IsAnnexBStartCode(Split(d).value[k])
  {
    AcceptedIffStartsAtZero(d);
    FirstStartIsZero(d);
    var cuts := StartsFrom(d, 0);
    PiecesTile(d, cuts);
    assert d[0..] == d;
    forall k | 0 <= k < |cuts|
      ensures IsAnnexBStartCode(Pieces(d, cuts)[k])
    {
      PieceIsAccepted(d, cuts, k);
    }
  }

  // A prefix found at `pos` is a unit start, and the scan may resume behind the prefix.
  lemma SkipPrefix(d: seq<byte>, pos: nat, len: nat)
    requires FindAnnexBPrefix(d, pos) == Some(len)
    requires pos > 0 && d[pos - 1] == 0 ==> !CodeAt(d, pos)
    ensures pos + len <= |d| && d[pos + len - 1] == 1
    ensures StartsFrom(d, pos) == [pos] + StartsFrom(d, pos + len)
  {
    assert StartsAt(d, pos);
    forall p | pos + 1 <= p < pos + len
      ensures !StartsAt(d, p)
    {
      if StartsAt(d, p) { NextStartAfterCode(d, pos, p); }
    }
    SkipQuiet(d, pos + 1, pos + len);
  }

  // The first loop of the publisher's splitter.
  method ScanStarts(d: seq<byte>) returns (starts: seq<nat>)
    ensures starts == StartsFrom(d, 0)
  {
    starts := [];
    var pos := 0;
    while pos + 3 <= |d|
      invariant 0 <= pos <= |d|
      invariant starts + StartsFrom(d, pos) == StartsFrom(d, 0)
      invariant pos > 0 && d[pos - 1] == 0 ==> !CodeAt(d, pos)
      decreases |d| - pos
    {
      var found := FindAnnexBPrefix(d, pos);
      if found.Some? {
        SkipPrefix(d, pos, found.value);
        starts := starts + [pos];
        pos := pos + found.value;
      } else {
        pos := pos + 1;
      }
    }
    SkipQuiet(d, pos, |d|);
  }

  ghost predicate RangesMatch(d: seq<byte>, nalus: seq<NaluRange>, pieces: seq<seq<byte>>) {
    && |nalus| <= |pieces|
    && forall i :: 0 <= i < |nalus| ==>
      && nalus[i].len > 0 && nalus[i].start + nalus[i].len <= |d|
      && Slice(d, nalus[i]) == pieces[i]
  }

  lemma RangesNext(d: seq<byte>, nalus: seq<NaluRange>, pieces: seq<seq<byte>>, r: NaluRange)
    requires RangesMatch(d, nalus, pieces) && |nalus| < |pieces|
    requires r.len > 0 && r.start + r.len <= |d| && Slice(d, r) == pieces[|nalus|]
    ensures RangesMatch(d, nalus + [r], pieces)
  {
  }

  // The second loop of the splitter, from starts to ranges.
  method RangesOfStarts(d: seq<byte>, starts: seq<nat>) returns (nalus: seq<NaluRange>)
    requires CutsOf(d, starts)
    ensures |nalus| == |starts| && RangesMatch(d, nalus, Pieces(d, starts))
  {
    nalus := [];
    ghost var pieces := Pieces(d, starts);
    for i := 0 to |starts|
      invariant |nalus| == i && RangesMatch(d, nalus, pieces)
    {
      var start := starts[i];
      var end := if i + 1 < |starts| then starts[i + 1] else |d|;
      assert start < end <= |d| && pieces[i] == d[start..end] by { assert end == PieceEnd(d, starts, i); }
      if end <= start {
        continue;
      }
      RangesNext(d, nalus, pieces, NaluRange(start, end - start));
      nalus := nalus + [NaluRange(start, end - start)];
    }
  }

  // The splitter as the publisher calls it.
  method SplitAnnexBNalus(d: seq<byte>) returns (ok: bool, nalus: seq<NaluRange>)
    ensures ok <==> Split(d).Some?
    ensures ok ==> |nalus| == |Split(d).value| > 0 && RangesMatch(d, nalus, Split(d).value)
  {
    nalus := [];
    if |d| < 3 {
      return false, nalus;
    }
    var starts := ScanStarts(d);
    StartsFromIsExact(d, 0);
    assert StartsAt(d, 0) <==> |starts| > 0 && starts[0] == 0;
    if starts == [] || starts[0] != 0 {
      return false, nalus;
    }
    nalus := RangesOfStarts(d, starts);
    ok := nalus != [];
  }
}
