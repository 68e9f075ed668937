# RK-MediaProject, verified model

A Dafny 4.11 model of the camera-to-stream pipeline: V4L2 capture, MPP decoding, RGA copy, MPP encoding
and publishing through ZLMediaKit. It covers the six threads with their five queues and stop flag, the
two buffer pools, the camera's buffers and CPU windows, the packet assembler, the Annex-B splitter and the
timestamp normaliser, and composes them into a statement from capture time to muxer call.

`dafny verify dfyconfig.toml` checks everything.

## How it is built

- **Threads** (`Pipeline.dfy`). A labelled transition system. Every region that holds a mutex, every test
  of an atomic flag and every device call is one step; a step's label carries the outcome a device chose.
  Program counters say what each thread holds. Waits on condition variables are guards. `ValidRun` and
  `After` give runs; theorems are about all runs from `Init(n)`, where the driver granted `n` buffers.
- **Invariant.** `PipelineCamera`, `PipelineWindows`, `PipelineDecoder`, `PipelineRga`, `PipelineControl`
  and `PipelineOrder` each prove one part of the invariant for every step of every thread;
  `PipelineTheorems`, `PipelineShutdown` and `PipelineTermination` draw the conclusions;
  `PipelineHistory` counts retries, discarded frames and lost slots over runs; `PipelineProgress` builds
  runs that deliver everything, and runs that fail a property.
- **Pools and devices** (`DecoderPool`, `RgaPool`, `CameraDevice`). Functions on the pool state with their
  invariants. The transition system uses these functions, and the classes `MppDecInstance`,
  `RgaInstance` and `Camera`, which update their fields in place, are proved to compute them.
- **Streams** (`AnnexB`, `AnnexBRoundTrip`, `AccessUnits`, `Timestamps`, `Publisher`). The loops and
  classes of the output side against declarative descriptions, with their run-level properties.
- **Composition** (`EndToEnd`).

## Assumptions about the environment

- The MPP buffer group never hands out a buffer that is still referenced; the driver only hands out
  buffers that were queued to it.
- A decoded output belongs to the task just submitted, and a failed decode leaves nothing in the device.
- Decoder and encoder copy timestamps; the encoder is a queue.
- A failed `EncodePushFrame` did not consume the frame: the frame release at src/rkmppenc.cpp:483-487,
  which can report failure after a successful put, is assumed to succeed.
- `EXT_DMA` imports either yield a handle or leave the slot empty.
- The decoder reports no info-change while running.

## Results that are not plain confirmations

- CPU windows (`WindowsAreClosed`): START and END alternate, and no buffer is handed over with its window
  open, if and only if no oversized frame was requeued after its END call had been refused. That path
  (src/v4l2Camera.cpp:976-996) clears the flag and requeues even when the call fails;
  `OpenWindowIsHandedOver` is such a run.
- RGA slots (`AllSlotsBackIff`): after main's drain all slots are available if and only if the RGA thread
  never saw the stop flag with a filled slot in hand (src/main.cpp:449). At most one slot is missing
  (`SlotsAfterDrain`), and `SlotCanBeLost` is a run in which one is.
- Timestamps (`RunExactIffRoom`): no cast wraps if and only if every call has room for the next dts. With
  inputs up to 2^63 - 1 a cast does wrap on the second call (`WrapsAtTheLimit`). The muxer still sees pts
  at or after dts and a strictly increasing dts (`RunIsOrderly`).
- Camera buffers (`StrandedIff`): buffers get lost to the pipeline exactly when a camera call leaves one
  behind; a normal stop strands none.
- Annex-B round trip (`RoundTrip`): the units come back if and only if no payload holds a start code and
  every payload with a trailing zero is last or followed by a four-byte prefix. The constraints of H.264
  section 7.4.1 imply this.
- Import rollback (`RollbackRestores`): erasing the imported descriptors restores the map if and only if
  none of them was in it before. A call that imports anything starts from an empty map, so a failed call
  always restores it (`EncoderImportBufferFromFD`).
- Decoder outputs still waiting for the RGA thread are not returned by main's drain; only the decoder's
  destructor gets them back (`FewOrphans`, `DestructorReclaimsAll`).

## Model

| member | source | states |
|---|---|---|
| EndToEnd.CaptureTimesReachMuxer | src/main.cpp:174-727 | in every run, with 64-bit capture times at least 1000 us apart, every NAL unit reaching the muxer carries its own frame's capture time in ms as dts and pts and no timestamp is repaired, whatever was dropped, failed, retried, fragmented or refused, and also when an unfinished unit is flushed at shutdown |
| EndToEnd.RunIsStamped | src/zlm_publisher.cpp:431-507 | the same for any sequence of publisher calls whose units carry 64-bit stamps of frames in capture order |
| PipelineTheorems.AcceptedInOrder | src/main.cpp:253-532 | the frames the encoder accepts are a subsequence of the captured ones, in capture order, without duplicates, each with its own capture time |
| PipelineProgress.NoFrameNeedBeLost | src/main.cpp:174-556 | for any capture times and any positive number of buffers some run takes every captured frame to the encoder, exactly once, in order and with its own time |
| PipelineProgress.OneFrame | src/main.cpp:185-556 | from any reachable state at rest one more frame can travel through all threads and leave the pipeline at rest, with its buffers home |
| PipelineHistory.FramesConserved | src/main.cpp:185-785 | in every run each captured frame was accepted, is still under way, or was discarded by a counted step (drop, rejected or failed decode, exhausted retries, stop, clearing) |
| PipelineHistory.NothingDiscardedAllAccepted | src/main.cpp:185-556 | a run that discards nothing delivers, once nothing is under way, exactly the captured frames, in order and each with its own time |
| PipelineOrder.StepKeepsOrder | src/main.cpp:185-555 | every step of every thread keeps all frames in flight on one strictly increasing line |
| PipelineOrder.EnterReadyOrder | src/main.cpp:252-259 | dropping the oldest waiting frame for the newest keeps the line |
| PipelineTheorems.OldestIsDropped | src/main.cpp:253-258 | in every reachable state the frame dropped from a full ready queue is older than every frame that stays, and the new frame is last |
| PipelineHistory.RetriesAreBounded | src/main.cpp:410-430 | in every run at most 2000 copies fail after the RGA thread takes an output, the last failure has stopped the pipeline, and at most 200 push-backs lie between two frames the encoder accepts |
| PipelineHistory.RetryTakesSameSlot | src/main.cpp:517-533 | in every run the slot pushed back last is the next one the encode thread takes, whatever the RGA thread appended meanwhile |
| PipelineOrder.PushBackOrder | src/main.cpp:518-533 | pushing a refused slot back to the front keeps the line, with the RGA thread appending at the same time |
| PipelineOrder.DescriptorIsFree | src/rkmppdec.cpp:704-722 | the descriptor a decode call writes is in no queue, in no other thread's hands and not in flight |
| PipelineTheorems.RunInv | src/main.cpp:174-810 | the invariant of the whole pipeline holds in every reachable state |
| PipelineHistory.StoppedIff | src/main.cpp:143-150 | in every run the pipeline is stopped if and only if a step that stops it was taken: a refused requeue, a failed camera read, the 2000th failed copy, a failed slot import, a push refused for the 201st time, a slot that cannot be returned, the encode-output thread or main |
| PipelineHistory.LeavesIff | src/main.cpp:174-737 | a thread leaves its loop exactly when it sees stop at a test, or at a wait whose queue is empty, or after a failure that stops the pipeline; the recycle thread only once the RGA thread is done, the encode-output thread only once the encode-input thread is |
| PipelineTheorems.CameraConserved | src/main.cpp:185-340 | every granted camera buffer is in exactly one place in every reachable state, stranded ones included, the ready queue never exceeds 12, and nothing is stranded while the capture thread lives |
| PipelineHistory.StrandedIff | src/main.cpp:200-235 | until main clears the queues a buffer is stranded if and only if a camera call left one behind: a refused requeue, a window that could not be opened, or an oversized frame that was not queued again |
| PipelineHistory.NoBufferStranded | src/main.cpp:185-340 | in every run without such a call each granted buffer is in exactly one of driver, capture thread, ready queue, decode thread and recycle queue, until main clears the queues |
| PipelineTheorems.CameraNeverStarved | src/main.cpp:187-217 | whenever the capture thread waits for a frame the driver holds at least n - 13 buffers, at least 3 of the requested 16 |
| PipelineCamera.RequeueOneCamera | src/main.cpp:200-209 | requeueing one buffer of the batch, or giving up on a refusal, loses and duplicates no buffer |
| PipelineCamera.EnterReadyCamera | src/main.cpp:248-259 | entering a full ready queue moves the oldest buffer to the capture thread and keeps the depth bound |
| PipelineTheorems.WindowsAreClosed | src/v4l2Camera.cpp:965-1040 | over every run the kernel sees alternating START and END and no handed-over open window, if and only if no oversized frame was requeued after a refused END |
| PipelineProgress.OpenWindowIsHandedOver | src/v4l2Camera.cpp:976-996 | a run in which the driver gets a buffer whose window is open |
| PipelineTheorems.TeardownLeavesOnlyRefused | src/v4l2Camera.cpp:738-747 | teardown after any run without such a hand-over keeps START and END alternating and leaves exactly the windows open whose END was refused |
| CameraDevice.MonitorMeansAlternation | src/v4l2Camera.cpp:63-77 | a log the monitor passes consists, per buffer, of alternating openings and closings |
| CameraDevice.MonitorMeansClosed | src/v4l2Camera.cpp:1018-1040 | in a log the monitor passes, each buffer's window is closed whenever it is queued or submitted |
| CameraDevice.OversizedKeeps | src/v4l2Camera.cpp:976-996 | the oversized path keeps flags and kernel in agreement, and hands over an open window exactly when END fails and the requeue succeeds |
| CameraDevice.RequeueKeeps | src/v4l2Camera.cpp:1002-1054 | requeueing keeps flags and kernel in agreement on all outcomes |
| PipelineWindows.StepKeepsWindow | src/rkmppdec.cpp:450-459 | no step of any thread breaks the agreement of flags, log and driver ownership |
| V4l2Camera.CaptureTime | src/v4l2Camera.cpp:954-963 | the capture time is the driver's timestamp if positive, else the monotonic clock's, and never negative |
| V4l2Camera.Camera.CameraReadFrame | src/v4l2Camera.cpp:841-890 | result code, current frame and device state for every outcome, a missing mapping included; a frame taken has left the driver with its window open and carries the driver's time, else the clock's, else zero |
| V4l2Camera.Camera.DequeueBuffer | src/v4l2Camera.cpp:892-1000 | result code and device after a dequeue attempt, for every outcome, an index beyond the granted buffers included, and the capture time of a frame taken |
| V4l2Camera.Camera.RequeueBuffer | src/v4l2Camera.cpp:1002-1054 | succeeds exactly for a granted buffer whose window could be closed and which the driver took; then the buffer is the driver's with a blank stamp, and nothing changes for other buffers |
| V4l2Camera.Camera.InitCameraBuffer | src/v4l2Camera.cpp:620-726 | either all granted buffers are with the driver with closed windows, or none is |
| V4l2Camera.Camera.DeinitCameraBuffer | src/v4l2Camera.cpp:728-795 | return code, flags, windows, log and stamps after teardown, for one END outcome per buffer; afterwards the driver owns nothing |
| PipelineTheorems.NothingRefused | src/rkmppdec.cpp:162-181 | no recycle request is ever refused as not in flight, and the duplicate-descriptor branch is never taken |
| PipelineTheorems.DescriptorsAreExclusive | src/rkmppdec.cpp:754-768 | a descriptor is in flight exactly when it is in one place outside the decoder, the one being written is not, and none is orphaned until main is done |
| PipelineTheorems.HoldersAreExclusive | src/rkmppdec.cpp:766-767 | in no run do two outputs in flight share a holder |
| PipelineDecoder.StepKeepsDecoder | src/rkmppdec.cpp:400-805 | every step of every thread keeps holders, buffers and descriptors accounted for |
| PipelineTheorems.HolderFindsBuffer | src/rkmppdec.cpp:534-538 | in every reachable state a decode call with a holder finds an unused buffer in the group |
| DecoderPool.HolderGuaranteesBuffer | src/rkmppdec.cpp:486-537 | whenever a holder was just acquired the group is not exhausted |
| DecoderPool.HeldBufferIsExclusive | src/rkmppdec.cpp:758-765 | the buffer of the running decode is not that of any output in flight |
| DecoderPool.PublishKeeps | src/rkmppdec.cpp:754-772 | publishing an output keeps the one-to-one correspondence of holders, buffers and descriptors |
| DecoderPool.QueueKeeps | src/rkmppdec.cpp:162-181 | moving a holder from the in-flight map to the pending queue keeps it too |
| DecoderPool.RecycleAllKeeps | src/rkmppdec.cpp:123-136 | draining pending holders returns each holder and each buffer and leaves the in-flight map alone |
| DecoderPool.ReclaimReturnsAll | src/rkmppdec.cpp:138-160 | the forced reclaim leaves every holder free and every buffer in the group |
| MppDecoder.FailureRestores | src/rkmppdec.cpp:775-804 | every failing exit puts buffer and holder back and touches no other descriptor, map or queue |
| MppDecoder.FailureIsSound | src/rkmppdec.cpp:775-804 | every failing exit keeps the pool's invariant |
| MppDecoder.SuccessIsSound | src/rkmppdec.cpp:704-773 | a decode call whose device steps succeed always publishes, its output is not in flight already, and the pool's invariant holds again |
| MppDecoder.MppDecInstance.DecodeWithHolder | src/rkmppdec.cpp:534-805 | the pool after a decode call with a holder, the return code and the current output, for each outcome, an empty group and a duplicate output included |
| MppDecoder.MppDecInstance.MppDecode | src/rkmppdec.cpp:400-805 | a whole call keeps the pool's invariant, delivers a new output exactly when accepted and the device steps succeed, changes no output in flight that nobody queued for recycling, leaves no holder pending, and waits on only if no holder was free or pending and no output was returned to it |
| PipelineHistory.EntryDrainFrees | src/rkmppdec.cpp:400-403 | in every run the drain at the head of a decode call frees each holder that was pending at its start |
| MppDecoder.WaitIsSound | src/rkmppdec.cpp:486-505 | the wait for a holder keeps the invariant, whatever other threads queue in its pauses |
| MppDecoder.MppDecInstance.Destroy | src/rkmppdec.cpp:807-810 | the destructor leaves every holder free and every buffer in the group |
| MppDecoder.MppDecInstance.DrainPendingRecycleQueue | src/rkmppdec.cpp:123-136 | drains exactly the holders pending at its start, in order |
| MppDecoder.MppDecInstance.ForceRecycleAllHolders | src/rkmppdec.cpp:138-160 | reclaims the in-flight holders in key order, then the pending ones |
| MppDecoder.MppDecInstance.DecQueueOutputForRecycle | src/rkmppdec.cpp:162-181 | succeeds exactly for descriptors in flight |
| MppDecoder.MppDecInstance.AcquireDecodedTaskHolder | src/rkmppdec.cpp:62-72 | hands out the front free holder, or nothing |
| PipelineTheorems.SlotsConserved | src/main.cpp:410-555 | in every reachable state each slot of a ready pool is either available once, or with exactly one thread or queue, or lost, and none is lost before stop |
| PipelineTheorems.SlotsAfterDrain | src/main.cpp:767-785 | after main's drain all slots but at most one lost slot are available |
| PipelineHistory.AllSlotsBackIff | src/main.cpp:445-457 | after main's drain all slots are available if and only if the RGA thread never saw the stop flag with a filled slot in hand |
| PipelineProgress.SlotCanBeLost | src/main.cpp:445-457 | some run reaches the end of main's drain with a slot missing |
| RgaPool.AcquireSlotKeeps | src/rkrga.cpp:357-382 | acquiring takes the front slot and keeps flags and FIFO in agreement |
| RgaPool.ReturnSlotKeeps | src/rkrga.cpp:386-409 | returning a slot in use keeps the agreement, queues it last with a blank stamp and changes no other slot |
| RgaPool.ReturnIsIdempotent | src/rkrga.cpp:400-403 | returning a slot twice is the same as returning it once |
| RgaPool.InitializedKeeps | src/rkrga.cpp:250-267 | resetting a ready pool makes each of the 48 slots available exactly once, in index order |
| RgaInstances.GiveBackIsNeutral | src/rkrga.cpp:471-532 | a failing transform changes no slot's state and no slot's multiplicity in the FIFO |
| RgaInstances.RgaInstance.TransformInternal | src/rkrga.cpp:411-546 | delivers a slot if and only if the object is initialised, the source's metadata, format and size fit, the pool fits and has a slot or can be created, and the operation succeeds; the slot is the front one and carries the source's repaired timestamps; null loses no slot, also when the call created the pool |
| RgaInstances.RgaInstance.InitOutputPoolIfNeeded | src/rkrga.cpp:289-342 | the pool appears whole or not at all, and an existing pool is only checked |
| RgaInstances.RgaInstance.QueueOutputToRecycle | src/rkrga.cpp:386-409 | refused for foreign descriptors, without effect for slots not in use, otherwise the slot is available |
| PipelineTermination.FewFramesAfterStop | src/main.cpp:185-340 | after stop the decode thread handles at most 14 more frames |
| PipelineTermination.FewOrphans | src/main.cpp:386-399 | once the RGA thread has left, at most 14 outputs are or become orphaned, fewer than there are holders |
| PipelineTermination.NoStrandedWait | src/rkmppdec.cpp:486-505 | whenever the decode thread finds no holder free or pending, the RGA or recycle thread can take a step |
| PipelineTermination.HolderIsObtained | src/rkmppdec.cpp:486-505 | every stopped run whose decode thread waits for a holder extends to one in which it takes a holder |
| PipelineControl.CreditFalls | src/main.cpp:185-340 | after stop no step adds to the frames the decode thread may still handle, and finishing one uses one up |
| PipelineShutdown.StepDecreases | src/main.cpp:185-556 | once stop is set every step except the idle wait decreases a measure of queues and program counters |
| PipelineTermination.BusyStepsAreBounded | src/main.cpp:185-556 | no run takes more busy steps after stop than the measure allows |
| PipelineTermination.SomeThreadMoves | src/main.cpp:739-764 | after stop some thread can take a step that is not the idle wait until main is done |
| PipelineTermination.ShutdownCompletes | src/main.cpp:739-810 | every run with stop set extends to one in which main is done, within the measure |
| PipelineTermination.LastDrainFindsNothing | src/main.cpp:346-377 | the recycle thread leaves an empty queue that nobody can refill, so main's drain of it finds nothing |
| PipelineTermination.DestructorReclaimsAll | src/rkmppdec.cpp:807-810 | when main is done the destructor's reclaim gets every holder and buffer back |
| AnnexB.AcceptedIffStartsAtZero | src/zlm_publisher.cpp:509-527 | a stream is accepted exactly when a unit starts at its first byte |
| AnnexB.FindAnnexBPrefix | src/zlm_publisher.cpp:529-548 | finds a three- or four-byte prefix exactly where one is |
| AnnexB.StartsFromIsExact | src/zlm_publisher.cpp:559-573 | the recorded starts are increasing and are exactly the positions described by Annex B |
| AnnexB.StartsMatchCodes | src/zlm_publisher.cpp:559-573 | starts and occurrences of 00 00 01 correspond one to one and in order |
| AnnexB.ScanStarts | src/zlm_publisher.cpp:559-573 | the scanning loop with its variable skip finds exactly these starts |
| AnnexB.SplitTilesInput | src/zlm_publisher.cpp:550-595 | an accepted stream always splits, into non-empty units that each open with a prefix and together are the input |
| AnnexB.SplitAnnexBNalus | src/zlm_publisher.cpp:550-595 | the splitter answers the specified ranges, and refuses exactly the streams that do not open with a unit |
| AnnexBRoundTrip.RoundTrip | src/zlm_publisher.cpp:550-595 | splitting joined units gives them back if and only if they are separable |
| AnnexBRoundTrip.ConformingIsSeparable | src/zlm_publisher.cpp:550-595 | units within the constraints of H.264 section 7.4.1 are separable |
| AnnexBRoundTrip.SplitDistributes | src/zlm_publisher.cpp:550-595 | splitting distributes over concatenation of separable streams |
| AccessUnits.StreamReassembled | src/main.cpp:571-704 | any access units cut into any non-empty fragments come out whole, in order, with the first known dts and pts and the end-of-stream mark of the closing packet |
| AccessUnits.EndedStreamReassembled | src/main.cpp:626-636 | a stream that ends inside an access unit delivers the closed ones, and the open one too if it is flushed |
| AccessUnits.FirstDtsMeaning | src/main.cpp:676-679 | the dts kept is the first non-negative one of the fragments |
| AccessUnits.FirstPtsMeaning | src/main.cpp:680-683 | the pts kept is the first non-negative one of the fragments |
| AccessUnits.BytesConserved | src/main.cpp:665-704 | in every run flushed bytes followed by pending bytes are the received bytes |
| AccessUnits.Assembler.HandlePacket | src/main.cpp:665-704 | a packet that is no partition, or ends an image or the stream, leaves nothing pending and flushes all bytes received since the last flush as one unit; other packets only add their bytes |
| AccessUnits.FeedFlushes | src/main.cpp:700-704 | the same of the packet function, a closing packet without data included |
| Publisher.RunIsOrderly | src/zlm_publisher.cpp:321-371 | for any 64-bit input timestamps, whether or not a cast wraps: one timestamp pair per access unit, pts at or after dts, dts strictly increasing from unit to unit |
| Publisher.CallMeans | src/zlm_publisher.cpp:321-371 | a call is taken for data of at most 2^31 - 1 bytes that open with a start code; then the clock sees dts and pts, the muxer gets the units up to the first it refuses, each with the clock's pair, and a frame counts exactly if none was refused |
| Publisher.SuccessSendsAll | src/zlm_publisher.cpp:349-370 | a successful call hands every byte of the access unit to the muxer, in order, in units that each open with a start code |
| Publisher.EqualInEqualOut | src/zlm_publisher.cpp:431-507 | equal or missing input timestamps leave equal, whether or not a cast wraps |
| Publisher.ClockOfRun | src/zlm_publisher.cpp:337-347 | the clock sees exactly the admitted access units, in order, for any 64-bit timestamps |
| Publisher.ClockIsIdeal | src/zlm_publisher.cpp:431-507 | while no cast can wrap it is the ideal clock over the admitted access units |
| Publisher.ZlmPublisher.InputPacketChunk | src/zlm_publisher.cpp:321-371 | return code, clock, muxer calls and frame count of a call, for every stream and muxer outcome |
| Timestamps.MillisClosedForm | src/zlm_publisher.cpp:481-487 | the emitted dts is the maximum over all calls of the repaired dts in ms plus the number of later calls |
| Timestamps.MicrosClosedForm | src/zlm_publisher.cpp:439-474 | the repaired dts is the maximum over all calls with a timestamp of that timestamp plus what later calls add |
| Timestamps.PassThrough | src/zlm_publisher.cpp:431-507 | ordered input at least 1000 us apart leaves unchanged in ms, without a repair |
| Timestamps.SpacedIsExact | src/zlm_publisher.cpp:431-507 | on such input no cast wraps, up to the signed limit |
| Timestamps.TameDiscipline | src/zlm_publisher.cpp:464-503 | for any input and whether or not a cast wraps, pts is at or after dts and the emitted dts grows strictly |
| Timestamps.UntouchedIff | src/zlm_publisher.cpp:439-503 | a call counts no repair exactly when both timestamps are present, ordered and ahead of the clock |
| Timestamps.PtsOfCall | src/zlm_publisher.cpp:475-503 | the emitted pts is the one the input asks for unless the emitted dts is later |
| Timestamps.MissingAdvances | src/zlm_publisher.cpp:454-463 | a pair without timestamps advances both by one frame interval |
| Timestamps.LeadIsPaidBack | src/zlm_publisher.cpp:481-487 | after a burst, n calls advancing by 2000 us or more shrink the ms lead by at least n until it is zero |
| Timestamps.StaysBelow | src/zlm_publisher.cpp:454-497 | with inputs at most M all stored timestamps stay below M plus one step per call |
| Timestamps.NoWrap | src/zlm_publisher.cpp:454-497 | while that bound is below 2^63 no cast wraps |
| Timestamps.ExactIffRoom | src/zlm_publisher.cpp:454-497 | a call computes the ideal repair, no cast wrapping, if and only if the next dts fits below 2^63 |
| Timestamps.RunExactIffRoom | src/zlm_publisher.cpp:431-507 | over a run no cast wraps in any call if and only if every call has that room |
| Timestamps.WrapsAtTheLimit | src/zlm_publisher.cpp:454-487 | an access unit at 2^63 - 1 followed by one without timestamps does wrap |
| Timestamps.IntervalFor | src/zlm_publisher.cpp:308-319 | the frame interval is the rounded-down period, 30 fps for zero, exactly 1 us for rates above one million |
| Timestamps.Normalizer.NormalizeTimestamp | src/zlm_publisher.cpp:431-507 | the method computes the function with all casts written out |
| FrameStamps.InputStamp | src/rkmppenc.cpp:391-417 | an encoder frame's timestamps are equal and non-negative: pts, else dts, else a multiple of the frame period |
| FrameStamps.PeriodIsRoundedDown | src/rkmppenc.cpp:405 | the frame period is one second divided by the frame rate, rounded down, with the default rate for zero |
| MppEncoder.RollbackRestores | src/rkmppenc.cpp:268-288 | rolling an import back restores the map if and only if no imported descriptor was in it |
| MppEncoder.ImportedHandle | src/rkmppenc.cpp:325-329 | an imported descriptor maps to the handle of its last import |
| MppEncoder.MppEncInstance.EncoderImportBufferFromFD | src/rkmppenc.cpp:264-337 | imports all descriptors, or none: a failed call leaves every slot and the descriptor map as they were |
| MppEncoder.MppEncInstance.AllocBufferForIO | src/rkmppenc.cpp:424-452 | when it succeeds, that every descriptor is then known to the encoder, and that a failed call changes nothing |
| MppEncoder.MppEncInstance.EncodePushFrame | src/rkmppenc.cpp:453-490 | a refused frame is not received, an accepted one is appended with its repaired timestamps, and the frame number advances exactly when a frame was built |

## Left out

- Device calls (ioctl, mmap, poll, dma-heap, RGA pixels, codec internals): only their outcomes appear, as labels or parameters.
- Lost wake-ups: the flags are set without the wait mutex, so waits are guards and nothing is claimed about the operating system waking a thread.
- Object form of the threads: main's lambdas are transition steps, not methods; the pools, the camera, the assembler, the normaliser and the publisher are classes.
- MppDecoder.MppDecInstance.MppDecode: other threads act only in the pauses of the wait for a holder; their interleaving with the rest of the call is in the transition system.
- Decoder info-change (src/rkmppdec.cpp:621-656): assumed not to occur.
- Release of MPP packets when setting the frame or enqueueing fails (src/rkmppdec.cpp:582-597): packets are not modelled.
- Camera configuration, exposure, JPEG trimming and alignment: the model starts with granted buffers and accepts or rejects a frame as an outcome.
- Descriptor-null and index checks of the threads (src/main.cpp:240-246, 298-304): queues hold existing buffers only.
- GOP rounding (src/rkmppenc.cpp:170-171) and encoder configuration.
- ZLM start-up, HTTP and WebRTC handlers, URLs and `JsonEscape`.
- Logging, statistics and sleeps.
- RgaInstances.RgaInstance.InitOutputPoolIfNeeded: image sizes are unbounded integers, the 64-bit product of two 32-bit strides is not wrapped.
- Publisher.ZlmPublisher.InputPacketChunk: the per-unit length checks at src/zlm_publisher.cpp:356-360 are left out because the splitter's contract excludes them.
- The fallback counter and the frame counter of the publisher beyond 2^64 calls.
- Publisher.RunIsOrderly: stated for runs of at most 2^40 calls, over a thousand years at 30 fps; the unsigned milliseconds wrap eventually.
- Publisher.EqualInEqualOut: the same bound on the number of calls.
- Timestamps.TameDiscipline: the same bound on the number of calls.
