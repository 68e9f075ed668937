// The camera side: buffers owned by the driver, and the window in which the CPU may read a buffer.

module CameraDevice {
  import opened Wrappers
  import opened FrameStamps

  // What the kernel sees of one buffer: the read window opens and closes, the buffer is queued to the
  // driver or submitted to the decoder.
  datatype SyncEvent = Opened(b: nat) | Closed(b: nat) | Queued(b: nat) | Submitted(b: nat)

  // `open` holds the buffers whose cpuSyncReadActive flag is set, `leaked` those whose flag was cleared
  // although the kernel refused to close the window.
  datatype Device = Device(driver: multiset<nat>, open: set<nat>, leaked: set<nat>, unsynced: bool,
                           stamp: seq<Stamp>, log: seq<SyncEvent>)

  // ----- a monitor that is independent of the flags -----

  // Windows that are open after `e`, or nothing once START and END fail to alternate or a buffer
  // leaves the CPU with its window open.
  function Observe(w: Option<set<nat>>, e: SyncEvent): Option<set<nat>> {
    if w.None? then None
    else match e
      case Opened(b) => if b in w.value then None else Some(w.value + {b})
      case Closed(b) => if b in w.value then Some(w.value - {b}) else None
      case Queued(b) => if b in w.value then None else w
      case Submitted(b) => if b in w.value then None else w
  }

  function Replay(log: seq<SyncEvent>): Option<set<nat>>
    decreases |log|
  {
    if log == [] then Some({}) else Observe(Replay(log[..|log| - 1]), log[|log| - 1])
  }

  lemma ReplayNext(log: seq<SyncEvent>, e: SyncEvent)
    ensures Replay(log + [e]) == Observe(Replay(log), e)
  {
    assert (log + [e])[..|log|] == log;
  }

  // What the monitor's verdict means for one buffer: its openings and closings alternate.
  function WindowEvents(log: seq<SyncEvent>, b: nat): (r: seq<SyncEvent>)
    decreases |log|
  {
    if log == [] then []
    else
      var r, e := WindowEvents(log[..|log| - 1], b), log[|log| - 1];
      if e == Opened(b) || e == Closed(b) then r + [e] else r
  }

  lemma {:induction false} MonitorMeansAlternation(log: seq<SyncEvent>, b: nat)
    requires Replay(log).Some?
    ensures var r := WindowEvents(log, b);
            && (forall i :: 0 <= i < |r| ==> r[i] == if i % 2 == 0 then Opened(b) else Closed(b))
            && (b in Replay(log).value <==> |r| % 2 == 1)
    decreases |log|
  {
    if log == [] {
    } else {
      MonitorMeansAlternation(log[..|log| - 1], b);
    }
  }

  // The monitor passes only if no buffer is handed over while its window is open.
  lemma {:induction false} MonitorMeansClosed(log: seq<SyncEvent>, i: nat, b: nat)
    requires Replay(log).Some? && i < |log|
    requires log[i] == Queued(b) || log[i] == Submitted(b)
    ensures |WindowEvents(log[..i], b)| % 2 == 0
    decreases |log|
  {
    var p := log[..|log| - 1];
    if i == |log| - 1 {
      MonitorMeansAlternation(p, b);
    } else {
      MonitorMeansClosed(p, i, b);
      assert p[..i] == log[..i];
    }
  }

  // ----- the operations -----

  // Ending the read window: nothing to do without the flag; the flag survives a refused call.
  function EndRead(d: Device, b: nat, endOk: bool): Device {
    if b in d.open && endOk then d.(open := d.open - {b}, log := d.log + [Closed(b)]) else d
  }

  predicate EndReadOk(d: Device, b: nat, endOk: bool) {
    b in d.open ==> endOk
  }

  predicate RequeueOk(d: Device, b: nat, endOk: bool, queueOk: bool) {
    EndReadOk(d, b, endOk) && queueOk
  }

  function Requeue(d: Device, b: nat, endOk: bool, queueOk: bool): Device
    requires b < |d.stamp|
  {
    var e := EndRead(d, b, endOk);
    if RequeueOk(d, b, endOk, queueOk) then
      e.(driver := e.driver + multiset{b}, log := e.log + [Queued(b)], stamp := e.stamp[b := BLANK])
    else e
  }

  // A frame leaves the driver: the window opens and both timestamps are the capture time.
  function Dequeue(d: Device, b: nat, ts: int, frame: nat): Device
    requires b < |d.stamp|
  {
    d.(driver := d.driver - multiset{b}, open := d.open + {b}, log := d.log + [Opened(b)],
       stamp := d.stamp[b := Stamp(ts, ts, frame)])
  }

  // The window could not be opened: the buffer is out of the driver and stays there.
  function DequeueUnopened(d: Device, b: nat): Device {
    d.(driver := d.driver - multiset{b})
  }

  // A frame larger than the caller accepts goes straight back. The flag is cleared even when the
  // window could not be closed.
  function DequeueOversized(d: Device, b: nat, ts: int, endOk: bool, queueOk: bool): Device
    requires b < |d.stamp|
  {
    var e := Dequeue(d, b, ts, 0);
    var f := e.(open := e.open - {b}, log := if endOk then e.log + [Closed(b)] else e.log,
                leaked := if endOk then e.leaked else e.leaked + {b});
    if queueOk then
      f.(driver := f.driver + multiset{b}, log := f.log + [Queued(b)], unsynced := f.unsynced || !endOk)
    else f
  }

  function Submit(d: Device, b: nat): Device {
    d.(log := d.log + [Submitted(b)])
  }

  // ----- flags and kernel agree -----

  // While nothing was queued unsynced, the monitor passes and the open windows are the flagged ones
  // and the leaked ones; buffers of the driver have no flag.
  ghost predicate SyncInv(d: Device) {
    && (d.unsynced ==> Replay(d.log) == None)
    && (!d.unsynced ==> Replay(d.log) == Some(d.open + d.leaked) && d.open !! d.leaked)
    && (forall b :: b in d.driver ==> b !in d.open)
    && (!d.unsynced ==> forall b :: b in d.driver ==> b !in d.leaked)
  }

  lemma EndReadKeeps(d: Device, b: nat, endOk: bool)
    requires SyncInv(d)
    ensures SyncInv(EndRead(d, b, endOk))
    ensures EndReadOk(d, b, endOk) ==> b !in EndRead(d, b, endOk).open
  {
    if b in d.open && endOk {
      ReplayNext(d.log, Closed(b));
      assert d.open + d.leaked - {b} == (d.open - {b}) + d.leaked || b in d.leaked;
    }
  }

  lemma RequeueKeeps(d: Device, b: nat, endOk: bool, queueOk: bool)
    requires SyncInv(d) && b < |d.stamp| && b !in d.leaked
    ensures SyncInv(Requeue(d, b, endOk, queueOk))
  {
    EndReadKeeps(d, b, endOk);
    ReplayNext(EndRead(d, b, endOk).log, Queued(b));
  }

  lemma DequeueKeeps(d: Device, b: nat, ts: int, frame: nat)
    requires SyncInv(d) && b < |d.stamp| && d.driver[b] == 1
    ensures SyncInv(Dequeue(d, b, ts, frame))
  {
    ReplayNext(d.log, Opened(b));
    if !d.unsynced {
      assert b in d.driver;
      assert d.open + d.leaked + {b} == (d.open + {b}) + d.leaked;
    }
  }

  // The oversized path is the only one that can hand over an open window, exactly when the window
  // could not be closed and the buffer was queued all the same.
  lemma OversizedKeeps(d: Device, b: nat, ts: int, endOk: bool, queueOk: bool)
    requires SyncInv(d) && b < |d.stamp| && d.driver[b] == 1
    ensures SyncInv(DequeueOversized(d, b, ts, endOk, queueOk))
    ensures !d.unsynced ==>
      (Replay(DequeueOversized(d, b, ts, endOk, queueOk).log).Some? <==> endOk || !queueOk)
  {
    DequeueKeeps(d, b, ts, 0);
    var e := Dequeue(d, b, ts, 0);
    ReplayNext(e.log, Closed(b));
    ReplayNext(e.log + [Closed(b)], Queued(b));
    ReplayNext(e.log, Queued(b));
    assert b in d.driver;
    assert !d.unsynced ==> (e.open + e.leaked) - {b} == (e.open - {b}) + e.leaked;
    assert !d.unsynced ==> (e.open + e.leaked) == (e.open - {b}) + (e.leaked + {b});
  }

  lemma SubmitKeeps(d: Device, b: nat)
    requires SyncInv(d) && b !in d.open && b !in d.leaked
    ensures SyncInv(Submit(d, b))
  {
    ReplayNext(d.log, Submitted(b));
  }

  // ----- teardown -----

  // The flag of a buffer is cleared whatever the kernel answers.
  function EndOrLeak(d: Device, b: nat, endOk: bool): Device {
    if b !in d.open then d
    else if endOk then EndRead(d, b, true)
    else d.(open := d.open - {b}, leaked := d.leaked + {b})
  }

  // Teardown of the first `k` buffers, with one answer of the kernel per buffer.
  function EndAll(d: Device, endOk: seq<bool>, k: nat): Device
    requires k <= |endOk|
  {
    if k == 0 then d else EndOrLeak(EndAll(d, endOk, k - 1), k - 1, endOk[k - 1])
  }

  lemma EndOrLeakKeeps(d: Device, b: nat, endOk: bool)
    requires SyncInv(d)
    ensures SyncInv(EndOrLeak(d, b, endOk))
  {
    EndReadKeeps(d, b, endOk);
    if b in d.open && !endOk {
      assert !d.unsynced ==> d.open + d.leaked == (d.open - {b}) + (d.leaked + {b});
    }
  }

  // Afterwards the flags of the first `k` buffers are cleared, and the windows of the refused ones leak.
  lemma {:induction false} EndAllClears(d: Device, endOk: seq<bool>, k: nat)
    requires k <= |endOk|
    ensures var r := EndAll(d, endOk, k);
            && r.driver == d.driver && r.stamp == d.stamp && r.unsynced == d.unsynced
            && (forall b: nat :: b in r.open <==> b in d.open && k <= b)
            && (forall b: nat :: b in r.leaked <==> b in d.leaked || (b in d.open && b < k && !endOk[b]))
  {
    if k == 0 {
    } else {
      EndAllClears(d, endOk, k - 1);
    }
  }

  lemma {:induction false} EndAllKeeps(d: Device, endOk: seq<bool>, k: nat)
    requires SyncInv(d) && k <= |endOk|
    ensures SyncInv(EndAll(d, endOk, k))
  {
    if k == 0 {
    } else {
      EndAllKeeps(d, endOk, k - 1);
      EndOrLeakKeeps(EndAll(d, endOk, k - 1), k - 1, endOk[k - 1]);
    }
  }

  // A log the monitor passed still passes after teardown, and only refused windows are left open.
  lemma TeardownCloses(d: Device, endOk: seq<bool>)
    requires SyncInv(d) && Replay(d.log).Some? && forall b :: b in d.open ==> b < |endOk|
    ensures var w := Replay(EndAll(d, endOk, |endOk|).log);
            w.Some? && forall b: nat :: b in w.value <==> b in d.leaked || (b in d.open && !endOk[b])
  {
    EndAllClears(d, endOk, |endOk|);
    EndAllKeeps(d, endOk, |endOk|);
  }
}
