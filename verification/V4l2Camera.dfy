// The camera object: dequeueing and requeueing of buffers and the CPU read windows, proved against the
// device functions. The kernel's side (owned buffers, windows, log) is kept in ghost fields.

module V4l2Camera {
  import opened Wrappers
  import opened FrameStamps
  import opened CameraDevice

  const OK := 0
  const RETRYABLE := 1
  const TIMEOUT := 2
  const FATAL := -1
  const MAX_BUFFERS: nat := 48

  // What poll and VIDIOC_DQBUF report: nothing usable, or a filled buffer and its driver timestamp.
  datatype DequeueEvent =
    | PollTimeout
    | PollRetry
    | PollFatal
    | Filled(index: nat, bytes: nat, stamp: int, startOk: bool, endOk: bool, queueOk: bool)

  // The capture time: the driver's timestamp, else the monotonic clock, else zero.
  function CaptureTime(driver: int, clock: int): (r: int)
    ensures r >= 0
    ensures driver > 0 ==> r == driver
    ensures driver <= 0 && clock > 0 ==> r == clock
    ensures driver <= 0 && clock <= 0 ==> r == 0
  {
    var ts := if driver <= 0 then clock else driver;
    if ts <= 0 then 0 else ts
  }

  // The device after a dequeue attempt that captures frame number `frame`. An index beyond the granted
  // buffers is refused as it is.
  function AfterDequeue(d: Device, granted: nat, e: DequeueEvent, clock: int, maxSize: nat, frame: nat): Device
    requires granted <= |d.stamp|
  {
    if !e.Filled? then d
    else if e.index >= granted || !e.startOk then DequeueUnopened(d, e.index)
    else if e.bytes > maxSize then DequeueOversized(d, e.index, CaptureTime(e.stamp, clock), e.endOk, e.queueOk)
    else Dequeue(d, e.index, CaptureTime(e.stamp, clock), frame)
  }

  function DequeueResult(granted: nat, e: DequeueEvent, maxSize: nat): int {
    match e
    case PollTimeout => TIMEOUT
    case PollRetry => RETRYABLE
    case PollFatal => FATAL
    case Filled(b, bytes, _, startOk, _, _) => if b < granted && startOk && bytes <= maxSize then OK else FATAL
  }

  // A frame with capture time `t` was taken: the buffer left the driver, its window is open, both its
  // timestamps are `t`, and nothing else changed.
  predicate TakesFrame(d: Device, r: Device, b: nat, t: int, frame: nat) {
    && b < |d.stamp| == |r.stamp| && r.stamp[b] == Stamp(t, t, frame)
    && (forall i :: 0 <= i < |d.stamp| && i != b ==> r.stamp[i] == d.stamp[i])
    && r.driver == d.driver - multiset{b} && r.open == d.open + {b} && r.log == d.log + [Opened(b)]
    && r.leaked == d.leaked && r.unsynced == d.unsynced
  }

  // The flag of `b` was set.
  predicate TakenFlag(d: Device, r: Device, b: nat) {
    b !in d.open && b in r.open
  }

  // The first `k` stamps are blank, the others as they were.
  function BlankedTo(stamps: seq<Stamp>, k: nat): (r: seq<Stamp>)
    requires k <= |stamps|
    ensures |r| == |stamps| && forall i :: 0 <= i < |r| ==> r[i] == if i < k then BLANK else stamps[i]
  {
    seq(k, i => BLANK) + stamps[k..]
  }

  // The release of the first `k` buffers, one after the other, and whether every window could be ended.
  function Released(d: Device, endOk: seq<bool>, k: nat): (r: Device)
    requires k <= |endOk| && k <= |d.stamp|
    ensures |r.stamp| == |d.stamp|
  {
    if k == 0 then d
    else var e := Released(d, endOk, k - 1); EndOrLeak(e, k - 1, endOk[k - 1]).(stamp := e.stamp[k - 1 := BLANK])
  }

  predicate AllEnded(d: Device, endOk: seq<bool>, k: nat)
    requires k <= |endOk| && k <= |d.stamp|
  {
    k > 0 ==> AllEnded(d, endOk, k - 1) && (k - 1 in Released(d, endOk, k - 1).open ==> endOk[k - 1])
  }

  lemma {:induction false} ReleaseMeansTeardown(d: Device, endOk: seq<bool>, k: nat)
    requires k <= |endOk| && k <= |d.stamp|
    ensures Released(d, endOk, k) == EndAll(d, endOk, k).(stamp := BlankedTo(d.stamp, k))
    ensures AllEnded(d, endOk, k) <==> forall b: nat :: b in d.open && b < k ==> endOk[b]
  {
    if k == 0 {
      assert BlankedTo(d.stamp, 0) == d.stamp;
    } else {
      ReleaseMeansTeardown(d, endOk, k - 1);
      EndAllClears(d, endOk, k - 1);
      assert BlankedTo(d.stamp, k) == BlankedTo(d.stamp, k - 1)[k - 1 := BLANK];
    }
  }

  class Camera {
    const syncActive: array<bool>     // cpuSyncReadActive of each buffer
    const stamps: array<Stamp>        // pts and dts of each buffer
    const payload: array<nat>
    var numBuffers: nat
    var current: Option<nat>
    ghost var driver: multiset<nat>
    ghost var leaked: set<nat>
    ghost var unsynced: bool
    ghost var log: seq<SyncEvent>

    // Beyond the granted buffers nothing is flagged or queued.
    ghost predicate Valid()
      reads this, syncActive
    {
      && numBuffers <= syncActive.Length == stamps.Length == payload.Length == MAX_BUFFERS
      && (forall i :: numBuffers <= i < MAX_BUFFERS ==> !syncActive[i])
      && (numBuffers == 0 ==> driver == multiset{})
    }

    ghost function Flagged(): set<nat>
      reads syncActive
    {
      set i: nat | i < syncActive.Length && syncActive[i]
    }

    ghost function State(): Device
      reads this`driver, this`leaked, this`unsynced, this`log, syncActive, stamps
    {
      Device(driver, Flagged(), leaked, unsynced, stamps[..], log)
    }

    // All descriptors blank, no buffer requested yet.
    constructor ()
      ensures Valid() && numBuffers == 0 && current == None
      ensures State() == Device(multiset{}, {}, {}, false, seq(MAX_BUFFERS, i => BLANK), [])
    {
      var flags := new bool[MAX_BUFFERS](i => false);
      var st := new Stamp[MAX_BUFFERS](i => BLANK);
      var pay := new nat[MAX_BUFFERS](i => 0);
      syncActive, stamps, payload := flags, st, pay;
      numBuffers, current := 0, None;
      driver, leaked, unsynced, log := multiset{}, {}, false, [];
    }

    // The kernel opens or closes the read window of buffer `b`, if it does.
    ghost method Record(e: SyncEvent)
      modifies this`log
      ensures log == old(log) + [e]
    {
      log := log + [e];
    }

    // Ending the read window; false when the kernel refuses.
    method EndReadWindow(b: nat, endOk: bool) returns (ok: bool)
      requires Valid() && b < MAX_BUFFERS
      modifies this`log, syncActive
      ensures Valid() && State() == EndRead(old(State()), b, endOk)
      ensures ok <==> EndReadOk(old(State()), b, endOk)
      ensures ok ==> !syncActive[b]
      ensures forall i :: 0 <= i < MAX_BUFFERS && i != b ==> syncActive[i] == old(syncActive[i])
    {
      if !syncActive[b] {
        return true;
      }
      if !endOk {
        return false;
      }
      syncActive[b] := false;
      Record(Closed(b));
      ok := true;
    }

    method RequeueBuffer(b: Option<nat>, endOk: bool, queueOk: bool) returns (ret: int)
      requires Valid()
      modifies this, syncActive, stamps, payload
      ensures Valid() && numBuffers == old(numBuffers)
      ensures ret == 0 <==> b.Some? && b.value < numBuffers && RequeueOk(old(State()), b.value, endOk, queueOk)
      ensures ret == 0 || ret == -1
      ensures State() == if b.None? || b.value >= numBuffers then old(State())
          else Requeue(old(State()), b.value, endOk, queueOk)
      ensures current == if ret == 0 && old(current) == b then None else old(current)
      ensures ret == 0 ==> (
        && driver == old(driver) + multiset{b.value} && !syncActive[b.value] && stamps[b.value] == BLANK
        && forall i :: 0 <= i < MAX_BUFFERS && i != b.value ==>
             stamps[i] == old(stamps[i]) && syncActive[i] == old(syncActive[i]))
      ensures ret != 0 ==> driver == old(driver) && stamps[..] == old(stamps[..])
    {
      if b.None? || b.value >= numBuffers {
        return -1;
      }
      var idx := b.value;
      var ended := EndReadWindow(idx, endOk);
      if !ended {
        return -1;
      }
      if !queueOk {
        return -1;
      }
      driver := driver + multiset{idx};
      Record(Queued(idx));
      payload[idx] := 0;
      stamps[idx] := BLANK;
      if current == Some(idx) {
        current := None;
      }
      ret := 0;
    }

    // The oversized path: the flag is cleared even when the kernel keeps the window open.
    method ReturnOversized(b: nat, endOk: bool, queueOk: bool)
      requires Valid() && b < numBuffers && syncActive[b]
      modifies this`driver, this`leaked, this`unsynced, this`log, syncActive
      ensures Valid()
      ensures var d := old(State());
        var f := d.(open := d.open - {b}, log := if endOk then d.log + [Closed(b)] else d.log,
                    leaked := if endOk then d.leaked else d.leaked + {b});
        State() == if queueOk then f.(driver := f.driver + multiset{b}, log := f.log + [Queued(b)],
            unsynced := f.unsynced || !endOk)
                   else f
    {
      if syncActive[b] {
        if endOk {
          Record(Closed(b));
        } else {
          leaked := leaked + {b};
        }
        syncActive[b] := false;
      }
      assert Flagged() == old(Flagged()) - {b};
      if queueOk {
        driver := driver + multiset{b};
        Record(Queued(b));
        unsynced := unsynced || !endOk;
      }
    }

    // The CPU window of a buffer just taken is open; its timestamps are the capture time.
    method OpenWindow(b: nat, ts: int, frame: nat)
      requires Valid() && b < numBuffers
      modifies this`log, syncActive, stamps
      ensures Valid() && syncActive[b]
      ensures var d := old(State());
              State() == d.(open := d.open + {b}, log := d.log + [Opened(b)],
                  stamp := d.stamp[b := Stamp(ts, ts, frame)])
    {
      syncActive[b] := true;
      Record(Opened(b));
      stamps[b] := Stamp(ts, ts, frame);
    }

    // A filled buffer, taken from the driver.
    method TakeFilled(e: DequeueEvent, clock: int, maxSize: nat, frame: nat) returns (ret: int, size: nat)
      requires Valid() && e.Filled?
      modifies this`driver, this`leaked, this`unsynced, this`log, syncActive, stamps
      ensures Valid() && ret == DequeueResult(numBuffers, e, maxSize)
      ensures State() == AfterDequeue(old(State()), numBuffers, e, clock, maxSize, frame)
      ensures ret == OK ==> e.index < numBuffers && size == e.bytes && syncActive[e.index]
    {
      size := 0;
      var b := e.index;
      driver := driver - multiset{b};
      if b >= numBuffers {
        return FATAL, size;
      }
      var ts := if e.stamp <= 0 then clock else e.stamp;
      if ts <= 0 {
        ts := 0;
      }
      if !e.startOk {
        return FATAL, size;
      }
      size := e.bytes;
      if e.bytes > maxSize {
        OpenWindow(b, ts, 0);
        ReturnOversized(b, e.endOk, e.queueOk);
        return FATAL, size;
      }
      OpenWindow(b, ts, frame);
      ret := OK;
    }

    method DequeueBuffer(e: DequeueEvent, clock: int, maxSize: nat, frame: nat)
      returns (ret: int, index: nat, size: nat)
      requires Valid()
      modifies this`driver, this`leaked, this`unsynced, this`log, syncActive, stamps
      ensures Valid() && ret == DequeueResult(numBuffers, e, maxSize)
      ensures State() == AfterDequeue(old(State()), numBuffers, e, clock, maxSize, frame)
      ensures ret == OK ==> index == e.index < numBuffers && size == e.bytes <= maxSize && syncActive[index]
      ensures ret == match e
        case PollTimeout => 2
        case PollRetry => 1
        case PollFatal => -1
        case Filled(b, bytes, _, startOk, _, _) => if b < numBuffers && startOk && bytes <= maxSize then 0 else -1
      ensures !e.Filled? ==> State() == old(State())
      ensures ret == 0 ==> TakesFrame(old(State()), State(), index,
        if e.stamp > 0 then e.stamp else if clock > 0 then clock else 0, frame)
      ensures ret != 0 && e.Filled? ==> (
        && !TakenFlag(old(State()), State(), e.index)
        && (e.index < numBuffers && e.startOk && e.queueOk ==>
              driver == old(driver) - multiset{e.index} + multiset{e.index})
        && (e.index >= numBuffers || !e.startOk || !e.queueOk ==> driver == old(driver) - multiset{e.index}))
    {
      index, size := 0, 0;
      match e
      case PollTimeout => ret := TIMEOUT;
      case PollRetry => ret := RETRYABLE;
      case PollFatal => ret := FATAL;
      case Filled(b, _, _, _, _, _) =>
        ret, size := TakeFilled(e, clock, maxSize, frame);
        if ret == OK {
          index := b;
        }
    }

    // One frame for the pipeline; the current frame is set exactly on success. A buffer without a mapping
    // is fatal and goes back to the driver if it can; `endOk` and `queueOk` are the outcomes of that.
    method CameraReadFrame(e: DequeueEvent, clock: int, maxSize: nat, frame: nat, mapped: bool, endOk: bool,
        queueOk: bool)
      returns (ret: int, length: nat)
      requires Valid()
      modifies this, syncActive, stamps, payload
      ensures Valid() && numBuffers == old(numBuffers)
      ensures var taken := DequeueResult(numBuffers, e, maxSize);
              var d := AfterDequeue(old(State()), numBuffers, e, clock, maxSize, frame);
              if taken == OK && !mapped then ret == FATAL && State() == Requeue(d, e.index, endOk, queueOk)
              else ret == taken && State() == d
      ensures current == if ret == OK then Some(e.index) else None
      ensures ret == OK ==> e.index < numBuffers && length == e.bytes == payload[e.index]
      ensures ret == match e
        case PollTimeout => 2
        case PollRetry => 1
        case PollFatal => -1
        case Filled(b, bytes, _, startOk, _, _) =>
          if b < numBuffers && startOk && bytes <= maxSize && mapped then 0 else -1
      ensures ret == 0 ==> TakesFrame(old(State()), State(), e.index,
        if e.stamp > 0 then e.stamp else if clock > 0 then clock else 0, frame)
    {
      current := None;
      var index;
      ret, index, length := DequeueBuffer(e, clock, maxSize, frame);
      if ret != OK {
        return;
      }
      if !mapped {
        var returned := RequeueBuffer(Some(index), endOk, queueOk);
        return FATAL, length;
      }
      payload[index] := length;
      current := Some(index);
    }

    // Ending one window at teardown; the flag is cleared whatever the kernel answers.
    method EndOrLeakWindow(b: nat, endOk: bool) returns (ok: bool)
      requires Valid() && b < MAX_BUFFERS
      modifies this`log, this`leaked, syncActive
      ensures Valid() && State() == EndOrLeak(old(State()), b, endOk)
      ensures ok <==> b !in old(Flagged()) || endOk
    {
      if !syncActive[b] {
        return true;
      }
      if endOk {
        Record(Closed(b));
      } else {
        leaked := leaked + {b};
      }
      syncActive[b] := false;
      assert Flagged() == old(Flagged()) - {b};
      ok := endOk;
    }

    // Releasing one buffer: its window is ended and its descriptor blanked.
    method ReleaseBuffer(b: nat, endOk: bool) returns (ok: bool)
      requires Valid() && b < MAX_BUFFERS
      modifies this`log, this`leaked, syncActive, stamps, payload
      ensures Valid() && State() == EndOrLeak(old(State()), b, endOk).(stamp := old(stamps[..])[b := BLANK])
      ensures ok <==> b !in old(Flagged()) || endOk
    {
      ok := EndOrLeakWindow(b, endOk);
      payload[b] := 0;
      stamps[b] := BLANK;
    }

    // The loop over the granted buffers.
    method ReleaseBuffers(endOk: seq<bool>) returns (ok: bool)
      requires Valid() && |endOk| == numBuffers
      modifies this`log, this`leaked, syncActive, stamps, payload
      ensures Valid() && State() == Released(old(State()), endOk, |endOk|)
      ensures ok <==> AllEnded(old(State()), endOk, |endOk|)
    {
      ok := true;
      ghost var before := State();
      for i := 0 to numBuffers
        invariant Valid() && State() == Released(before, endOk, i)
        invariant ok <==> AllEnded(before, endOk, i)
      {
        var ended := ReleaseBuffer(i, endOk[i]);
        ok := ok && ended;
      }
    }

    // Releasing everything: windows of granted buffers are ended, one answer of the kernel for each, and
    // the driver gives its buffers up. `releasesOk` stands for unmapping, closing and the last request.
    method DeinitCameraBuffer(endOk: seq<bool>, releasesOk: bool) returns (ret: int)
      requires Valid() && |endOk| == numBuffers
      modifies this, syncActive, stamps, payload
      ensures Valid() && numBuffers == 0
      ensures old(numBuffers) == 0 ==> ret == 0 && State() == old(State()) && current == old(current)
      ensures old(numBuffers) > 0 ==> (
        && current == None
        && State() == EndAll(old(State()), endOk, |endOk|).(driver := multiset{},
           stamp := BlankedTo(old(stamps[..]), |endOk|))
        && ret == if releasesOk && (forall b: nat :: b in old(Flagged()) && b < |endOk| ==> endOk[b]) then 0 else -1)
    {
      if numBuffers == 0 {
        return 0;
      }
      ghost var before := State();
      var ok := ReleaseBuffers(endOk);
      ReleaseMeansTeardown(before, endOk, |endOk|);
      EndAllClears(before, endOk, |endOk|);
      assert forall i: nat :: i < MAX_BUFFERS && syncActive[i] ==> i in Flagged();
      driver := multiset{};
      numBuffers := 0;
      current := None;
      ret := if ok && releasesOk then 0 else -1;
    }

    // The loop that queues every buffer.
    method QueueAll(queued: nat) returns (ret: int)
      requires Valid() && numBuffers > 0 && driver == multiset{} && Flagged() == {} && current == None
      modifies this, syncActive, stamps, payload
      ensures Valid() && current == None
      ensures ret == if queued >= old(numBuffers) then 0 else -1
      ensures ret == 0 ==>
        numBuffers == old(numBuffers) && driver == multiset(seq(numBuffers, i => i)) && Flagged() == {}
        && stamps[..] == old(stamps[..])
      ensures ret != 0 ==> numBuffers == 0 && driver == multiset{}
    {
      for i := 0 to numBuffers
        invariant Valid() && numBuffers == old(numBuffers) && i <= queued
        invariant driver == multiset(seq(i, k => k)) && Flagged() == {} && current == None
        invariant stamps[..] == old(stamps[..])
      {
        if i >= queued {
          var r := DeinitCameraBuffer(seq(numBuffers, k => true), true);
          return -1;
        }
        assert seq(i + 1, k => k) == seq(i, k => k) + [i];
        driver := driver + multiset{i};
        Record(Queued(i));
      }
      ret := 0;
    }

    method ResetDescriptors()
      requires Valid()
      modifies syncActive, stamps, payload
      ensures Valid() && Flagged() == {} && stamps[..] == seq(MAX_BUFFERS, i => BLANK)
    {
      for i := 0 to MAX_BUFFERS
        invariant forall k :: 0 <= k < i ==> !syncActive[k] && stamps[k] == BLANK
      {
        syncActive[i] := false;
        stamps[i] := BLANK;
        payload[i] := 0;
      }
    }

    // Requesting buffers: refused when some are in use already; otherwise either all granted buffers end
    // up with the driver, in index order and with every window closed, or none does.
    method InitCameraBuffer(granted: nat, heapBuffers: nat, queued: nat) returns (ret: int)
      requires Valid()
      modifies this, syncActive, stamps, payload
      ensures Valid()
      ensures ret == 0 <==>
        && old(numBuffers) == 0 && 1 <= granted <= 48
        && heapBuffers >= granted && queued >= granted
      ensures ret == 0 ==>
        numBuffers == granted && driver == multiset(seq(granted, i => i)) && Flagged() == {} && current == None
      ensures ret == 0 ==> stamps[..] == seq(MAX_BUFFERS, i => BLANK)
      ensures ret != 0 && old(numBuffers) > 0 ==> ret == -1 && State() == old(State()) && numBuffers == old(numBuffers)
      ensures ret != 0 && old(numBuffers) == 0 ==> ret == -1 && numBuffers == 0 && driver == multiset{}
    {
      if numBuffers > 0 {
        return -1;
      }
      current := None;
      ResetDescriptors();
      if granted == 0 || granted > MAX_BUFFERS {
        return -1;
      }
      while numBuffers < granted
        invariant Valid() && numBuffers <= granted && numBuffers <= heapBuffers
        invariant driver == multiset{} && Flagged() == {} && current == None
        invariant stamps[..] == seq(MAX_BUFFERS, i => BLANK)
        decreases granted - numBuffers
      {
        if numBuffers >= heapBuffers {
          var r := DeinitCameraBuffer(seq(numBuffers, k => true), true);
          return -1;
        }
        numBuffers := numBuffers + 1;
      }
      ret := QueueAll(queued);
    }
  }
}
