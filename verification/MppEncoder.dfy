// The encoder object: importing the RGA slots with rollback, and building and pushing input frames.

module MppEncoder {
  import opened Wrappers
  import opened Limits
  import opened FrameStamps

  // Outcome of one import: a buffer handle, or a refusal.
  datatype ImportOutcome = Imported(handle: nat) | Refused

  datatype PushOutcome = BuildFails | PutFails | Pushed

  function Handles(outcomes: seq<ImportOutcome>): (r: seq<nat>)
    ensures |r| == |outcomes|
    ensures forall i :: 0 <= i < |r| && outcomes[i].Imported? ==> r[i] == outcomes[i].handle
  {
    seq(|outcomes|, i requires 0 <= i < |outcomes| => match outcomes[i] case Imported(h) => h case Refused => 0)
  }

  // Keys imported so far, mapped to their handles; the last import of a repeated descriptor wins.
  function ImportedMap(m: map<int, nat>, fds: seq<int>, handles: seq<nat>, k: nat): map<int, nat>
    requires k <= |fds| && k <= |handles|
  {
    if k == 0 then m else ImportedMap(m, fds, handles, k - 1)[fds[k - 1] := handles[k - 1]]
  }

  function Without(m: map<int, nat>, fds: seq<int>, k: nat): map<int, nat>
    requires k <= |fds|
  {
    if k == 0 then m else Without(m, fds, k - 1) - {fds[k - 1]}
  }

  // No later entry repeats the descriptor at `i`.
  predicate LastOf(fds: seq<int>, i: nat)
    requires i < |fds|
  {
    forall j :: i < j < |fds| ==> fds[j] != fds[i]
  }

  predicate Among(fds: seq<int>, k: nat, fd: int)
    requires k <= |fds|
  {
    exists i :: 0 <= i < k && fds[i] == fd
  }

  lemma AmongNext(fds: seq<int>, k: nat, fd: int)
    requires 0 < k <= |fds|
    ensures Among(fds, k, fd) <==> Among(fds, k - 1, fd) || fd == fds[k - 1]
  {
  }

  lemma {:induction false} WithoutKeys(m: map<int, nat>, fds: seq<int>, k: nat, fd: int)
    requires k <= |fds|
    ensures fd in Without(m, fds, k) <==> fd in m && !Among(fds, k, fd)
    ensures fd in Without(m, fds, k) ==> Without(m, fds, k)[fd] == m[fd]
  {
    if k == 0 {
    } else {
      WithoutKeys(m, fds, k - 1, fd);
      AmongNext(fds, k, fd);
    }
  }

  lemma {:induction false} ImportedKeys(m: map<int, nat>, fds: seq<int>, handles: seq<nat>, k: nat, fd: int)
    requires k <= |fds| && k <= |handles|
    ensures var r := ImportedMap(m, fds, handles, k);
            && (fd in r <==> fd in m || Among(fds, k, fd))
            && (fd in m && !Among(fds, k, fd) ==> r[fd] == m[fd])
  {
    if k == 0 {
    } else {
      ImportedKeys(m, fds, handles, k - 1, fd);
      AmongNext(fds, k, fd);
    }
  }

  // The handle of an imported descriptor is that of its last import.
  lemma {:induction false} ImportedHandle(m: map<int, nat>, fds: seq<int>, handles: seq<nat>, k: nat, i: nat)
    requires i < k <= |fds| && k <= |handles| && forall j :: i < j < k ==> fds[j] != fds[i]
    ensures fds[i] in ImportedMap(m, fds, handles, k) && ImportedMap(m, fds, handles, k)[fds[i]] == handles[i]
  {
    if i == k - 1 {
    } else {
      ImportedHandle(m, fds, handles, k - 1, i);
    }
  }

  // Rolling an import back restores the map if and only if no imported descriptor was in it before.
  lemma RollbackRestores(m: map<int, nat>, fds: seq<int>, handles: seq<nat>, k: nat)
    requires k <= |fds| && k <= |handles|
    ensures Without(ImportedMap(m, fds, handles, k), fds, k) == m <==> forall i :: 0 <= i < k ==> fds[i] !in m
  {
    var r := ImportedMap(m, fds, handles, k);
    var w := Without(r, fds, k);
    if forall i :: 0 <= i < k ==> fds[i] !in m {
      forall fd: int
        ensures fd in w <==> fd in m
        ensures fd in m ==> w[fd] == m[fd]
      {
        ImportedKeys(m, fds, handles, k, fd);
        WithoutKeys(r, fds, k, fd);
      }
      assert w.Keys == m.Keys;
    } else {
      var i :| 0 <= i < k && fds[i] in m;
      assert Among(fds, k, fds[i]);
      WithoutKeys(r, fds, k, fds[i]);
    }
  }

  class MppEncInstance {
    const mapBuffer: array<Option<nat>>     // imported handle per slot
    var importedFd: map<int, nat>
    var allocDone: bool
    var inputFrameId: nat
    var fps: nat
    var received: seq<Stamp>                // frames the encoder took, in order

    // Without an import in slot 0 nothing is imported.
    ghost predicate Valid()
      reads this`importedFd, mapBuffer
    {
      && mapBuffer.Length == POOL_SIZE
      && (mapBuffer[0] == None ==> importedFd == map[])
    }

    constructor (rate: nat)
      ensures Valid() && importedFd == map[] && !allocDone && received == [] && fps == rate && inputFrameId == 0
      ensures forall i :: 0 <= i < POOL_SIZE ==> mapBuffer[i] == None
    {
      mapBuffer := new Option<nat>[POOL_SIZE](i => None);
      importedFd, allocDone, inputFrameId, fps, received := map[], false, 0, rate, [];
    }

    // The call's condition for success: free slots and no refusal.
    ghost predicate CanImport(fds: seq<int>, outcomes: seq<ImportOutcome>)
      requires mapBuffer.Length == POOL_SIZE && |outcomes| == |fds|
      reads mapBuffer
    {
      && 0 < |fds| <= POOL_SIZE
      && (forall i :: 0 <= i < |fds| ==> mapBuffer[i] == None && outcomes[i].Imported?)
    }

    // The rollback of the first `k` imports.
    method CleanupImportResources(fds: seq<int>, k: nat)
      requires mapBuffer.Length == POOL_SIZE && k <= |fds| && k <= POOL_SIZE
      modifies this`importedFd, mapBuffer
      ensures importedFd == Without(old(importedFd), fds, k)
      ensures forall i :: 0 <= i < POOL_SIZE ==> mapBuffer[i] == if i < k then None else old(mapBuffer[i])
    {
      for i := 0 to k
        invariant importedFd == Without(old(importedFd), fds, i)
        invariant forall j :: 0 <= j < POOL_SIZE ==> mapBuffer[j] == if j < i then None else old(mapBuffer[j])
      {
        mapBuffer[i] := None;
        importedFd := importedFd - {fds[i]};
      }
    }

    // Importing one descriptor per slot: all of them, or none. A call gets past slot 0 only when nothing
    // was imported, so the rollback leaves the descriptor map as it was, also with repeated descriptors.
    method EncoderImportBufferFromFD(fds: seq<int>, outcomes: seq<ImportOutcome>) returns (ret: int)
      requires Valid() && |outcomes| == |fds|
      modifies this`importedFd, mapBuffer
      ensures Valid() && (ret == 0 || ret == -1)
      ensures ret == 0 <==> old(CanImport(fds, outcomes))
      ensures ret == 0 ==>
        && importedFd == ImportedMap(old(importedFd), fds, Handles(outcomes), |fds|)
        && (forall i :: 0 <= i < |fds| ==> mapBuffer[i] == Some(Handles(outcomes)[i]))
        && (forall i :: |fds| <= i < POOL_SIZE ==> mapBuffer[i] == old(mapBuffer[i]))
        && (forall i :: 0 <= i < |fds| && LastOf(fds, i) ==>
              fds[i] in importedFd && Some(importedFd[fds[i]]) == mapBuffer[i])
      ensures ret != 0 ==> importedFd == old(importedFd) && mapBuffer[..] == old(mapBuffer[..])
    {
      if |fds| == 0 || |fds| > POOL_SIZE {
        return -1;
      }
      for i := 0 to |fds|
        invariant importedFd == ImportedMap(old(importedFd), fds, Handles(outcomes), i)
        invariant forall j :: 0 <= j < i ==>
          old(mapBuffer[j]) == None && outcomes[j].Imported? && mapBuffer[j] == Some(Handles(outcomes)[j])
        invariant forall j :: i <= j < POOL_SIZE ==> mapBuffer[j] == old(mapBuffer[j])
      {
        if mapBuffer[i] != None || outcomes[i].Refused? {
          RollbackRestores(old(importedFd), fds, Handles(outcomes), i);
          CleanupImportResources(fds, i);
          return -1;
        }
        mapBuffer[i] := Some(outcomes[i].handle);
        importedFd := importedFd[fds[i] := outcomes[i].handle];
      }
      forall i | 0 <= i < |fds| && LastOf(fds, i)
        ensures fds[i] in importedFd && Some(importedFd[fds[i]]) == mapBuffer[i]
      {
        ImportedHandle(old(importedFd), fds, Handles(outcomes), |fds|, i);
      }
      ret := 0;
    }

    // A pool that could be allocated serves every descriptor; otherwise nothing changes.
    method AllocBufferForIO(groupOk: bool, fds: seq<int>, outcomes: seq<ImportOutcome>) returns (ret: int)
      requires Valid() && |outcomes| == |fds|
      modifies this`importedFd, this`allocDone, mapBuffer
      ensures Valid() && (ret == 0 || ret == -1)
      ensures ret == 0 <==> groupOk && old(CanImport(fds, outcomes))
      ensures ret == 0 ==> allocDone && forall i :: 0 <= i < |fds| ==> fds[i] in importedFd
      ensures ret != 0 ==>
        allocDone == old(allocDone) && importedFd == old(importedFd) && mapBuffer[..] == old(mapBuffer[..])
    {
      if |fds| == 0 || |fds| > POOL_SIZE || !groupOk {
        return -1;
      }
      ghost var before := importedFd;
      ret := EncoderImportBufferFromFD(fds, outcomes);
      if ret != 0 {
        return -1;
      }
      forall i | 0 <= i < |fds|
        ensures fds[i] in importedFd
      {
        ImportedKeys(before, fds, Handles(outcomes), |fds|, fds[i]);
        assert Among(fds, |fds|, fds[i]);
      }
      allocDone := true;
    }

    // One push: an accepted frame is appended with its repaired timestamps; a frame that was built but
    // refused only uses up a frame number.
    method EncodePushFrame(fd: int, formatOk: bool, s: Stamp, outcome: PushOutcome) returns (ret: int)
      modifies this`inputFrameId, this`received
      ensures ret == 0 <==> allocDone && formatOk && fd in importedFd && outcome == Pushed
      ensures ret != 0 ==> ret == -1 && received == old(received)
      ensures ret == 0 ==> received == old(received) + [InputStamp(s, old(inputFrameId), fps)]
      ensures inputFrameId ==
        if allocDone && formatOk && fd in importedFd && outcome != BuildFails then old(inputFrameId) + 1
            else old(inputFrameId)
    {
      if !allocDone || !formatOk || fd !in importedFd || outcome == BuildFails {
        return -1;
      }
      var id := inputFrameId;
      inputFrameId := inputFrameId + 1;
      var pts, dts := s.pts, s.dts;
      if pts >= 0 {
        dts := pts;
      } else if dts >= 0 {
        pts := dts;
      }
      if pts < 0 || dts < 0 {
        var rate := if fps > 0 then fps else DEFAULT_FPS;
        var step := 1000000 / rate;
        pts := id * step;
        dts := pts;
      }
      if outcome == PutFails {
        return -1;
      }
      received := received + [Stamp(pts, dts, s.frame)];
      ret := 0;
    }
  }
}
