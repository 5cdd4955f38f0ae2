# Clipture engine: a verified model

Clipture records games: capture publishes frames, an encoder thread turns them into H.264
packets at a fixed rate, and a save writes the buffered packets and audio into an MP4 file.
This project models the native engine (`engine/src`, `engine/include/clipture`) in Dafny and
proves what its optimisations, protocols and file writing promise.

`dafny verify dfyconfig.toml` checks everything. One module models one component:

* **Frame selection.** `EncoderCadence`, `FrameQueue`, `FrameSelection`, `SelectionRace`,
  `EncoderLoop`: the tick clock, the queue that drops a frame at push time when no tick can
  select it any more, capture's held frame, and the loop that drives them. Capture may publish
  at any moment, also while the loop is awake. The main theorem compares every run with a queue
  that keeps every frame: both select the same frames if and only if no wake loses its frame,
  and `SelectionRace.WakeLoses` says which wakes do.
* **GPU protocols.** `GpuHandoff` (the two-fence bridge), `DirectRead` and `CaptureObjects`
  (guarded direct reads, the read guard, the snapshot copy, the texture pool): each GPU queue
  executes its commands in order or blocks, the CPU queues more, in any interleaving.
* **NVENC pipeline.** `NvencSurfaces` (which surface holds which frame, and when a copy may be
  skipped), `NvencPipeline` (slots reserved, filled, submitted, locked, retired, with the
  output side on its own thread), `NvencSession` (the encode thread in synchronous mode).
* **MP4.** `AnnexB` (byte stream of Annex B of ITU-T H.264 to length-prefixed samples of
  ISO/IEC 14496-15), `BufferedWriter`, `Mp4File` (sample tables and layout of ISO/IEC
  14496-12), `Mp4Movie` (the movie box, and a player that reads the file by its bytes alone),
  `Mp4Save` (a whole save, proved against that player), `WritePacing`, `AudioTimeline`,
  `PcmCoverage`, `PcmMixer`.
* **Smaller state machines.** `RepairRegister`, `GpuPriority`, `SampleRing`, `PriorityMemory`,
  `CaptureFallback`.

`Basics` and `Arithmetic` hold shared types and facts about floor division.

Objects whose methods change fields are classes; each method is proved equal to a function of
the old state, or states the new state outright, and the theorems are about those functions
and about runs of them. Driver and operating system calls succeed or fail as they like.
Concurrent protocols are step systems whose runs interleave freely. Times are in units of
100 ns and integers are unbounded, except where a field's width is part of the behaviour (the
32-bit and 64-bit fields of the file). Pacing and limiting use real numbers.

Where the code and its comments differ the model follows the code:

* `HeldFrame.hpp:15-18` says that the held frame can never miss its tick and that ticks choose
  exactly the frames they would have chosen with every frame prepared at arrival. A frame that
  arrives after the flush (`EncoderWorker.cpp:3183`) and is held does miss it, on time or late,
  when it is the newest frame or due by the tick's deadline (`SelectionRace.HeldFrameCanMissItsTick`).
* `FrameQueue.hpp:72-76` says that releasing frames at push leaves the encoded output unchanged.
  Once the following tick is announced (`EncoderWorker.cpp:3187-3188`), an arrival can release
  the frame a late tick is about to select (`SelectionRace.QueuedFrameCanLoseItsTick`).
  `SelectionRace.WakeLoses` is the exact condition for both, on the frames that arrive while the
  loop is awake; when none does, both promises hold.
* The comment at `Mp4Muxer.cpp:610-613` says that aligning a track keeps every timestamp inside the
  presentation. That holds while no more samples are dropped than the first retained one lasts in
  units of 100 ns; `AudioTimeline.LongDropCanStartBefore` is a track for which it does not.
* The coverage sweep's "within a millisecond" test ignores an interval that ends before the
  sample begins, even when the interval is within a millisecond of the sample's end.
* Normalisation counts a sample as an overlap when it overlaps only silence that was inserted
  before it: filling a gap to the nearest silence sample can end later than the sample's stamp.
  `AudioTimeline.SeparateSamplesAreKept` is the exact condition,
  `AudioTimeline.SeparateSampleCanBeDropped` an input.
* `GpuPriorityMemory::remember` hashes the name twice. If the first hash fails and the second does
  not, a known game is listed again (`PriorityMemory.FailedHashRepeats`).
* A frame with sequence number 0 may be served what the canonical texture has cached under the
  same epoch and sequence number 0, such as another frame's image.
* `GpuPriorityMemory::remember` changes the list in memory even when the file cannot be replaced.

## Model

| member | source | states |
|---|---|---|
| EncoderCadence.SplitDeadline | engine/include/clipture/EncoderCadence.hpp:44-46 | the overflow-avoiding split evaluates to floor(tick * 10^7 / fps) for every tick |
| EncoderCadence.SplitInverse | engine/include/clipture/EncoderCadence.hpp:33-36 | the split form of the inverse evaluates to the closed form |
| EncoderCadence.LatestTickIsLatest | engine/include/clipture/EncoderCadence.hpp:34-36 | the inverse is exact: tick k is due by `now` if and only if k is at most the computed tick, rounded boundaries included |
| EncoderCadence.TicksWithinOneUnit | engine/src/FrameQueue.cpp:46-50 | any later tick is within one unit of the rational distance, which the release rule's margin relies on |
| EncoderCadence.DeadlinesIncrease | engine/include/clipture/EncoderCadence.hpp:44-46 | deadlines are strictly increasing at every supported rate |
| EncoderCadence.AdvanceKeepsSchedule | engine/include/clipture/EncoderCadence.hpp:26-41 | within the catch-up budget no tick is skipped; beyond it the newest due tick is delivered and the next one lies in the future |
| EncoderCadence.PromptWakesSkipNothing | engine/include/clipture/EncoderCadence.hpp:26-33 | over every run of wakes within the catch-up budget each tick is delivered, one a wake |
| EncoderCadence.TicksAreDeliveredInOrder | engine/include/clipture/EncoderCadence.hpp:26-41 | over every run of wakes no tick is delivered twice or out of order |
| EncoderCadence.Cadence.Advance | engine/include/clipture/EncoderCadence.hpp:26-41 | the new clock, the delivered deadline, the lateness and the number of skipped ticks |
| EncoderCadence.Cadence.DeadlineOf | engine/include/clipture/EncoderCadence.hpp:44-46 | the rational deadline of a tick |
| FrameQueue.FrameQueue.Push | engine/src/FrameQueue.cpp:12-38 | at most one superseded frame leaves at the back, then just enough overflow at the front; all counters |
| FrameQueue.PushDropsTheOldest | engine/src/FrameQueue.cpp:26-34 | a push keeps one run of the queue; frames leave at the back only if superseded and at the front only when the queue is full, and both counters say how many |
| FrameQueue.NewerFramesStayToo | engine/src/FrameQueue.cpp:30-33 | if a queued frame stays, so does every newer one, apart from a superseded last one |
| FrameQueue.PushesKeepTheNewest | engine/src/FrameQueue.cpp:12-38 | while no tick is announced any run of pushes leaves exactly the newest frames that fit |
| FrameQueue.QueueKeepsOrder | engine/src/FrameQueue.cpp:12-160 | over every run of operations the queue holds frames it was given, in the order they came |
| FrameQueue.DepthWasReached | engine/src/FrameQueue.cpp:34-35 | the recorded maximum depth was reached |
| FrameQueue.FrameQueue.MakeRoom | engine/src/FrameQueue.cpp:30-33 | the loop drops exactly the oldest frames above capacity and counts them |
| FrameQueue.FrameQueue.AnnounceSelectionTicks | engine/src/FrameQueue.cpp:40-44 | the announced tick and rate, cleared together |
| FrameQueue.FrameQueue.ConsumeAllAndGetLatest | engine/src/FrameQueue.cpp:111-125 | the newest frame is taken, the others count as coalesced |
| FrameQueue.FrameQueue.ConsumeLatestAtOrBefore | engine/src/FrameQueue.cpp:127-145 | exactly the leading frames due by the deadline are consumed, the last of them is taken |
| FrameQueue.FrameQueue.Clear | engine/src/FrameQueue.cpp:155-160 | the queue empties and every frame is counted as cleared |
| FrameQueue.DueCount | engine/src/FrameQueue.cpp:132-136 | the consumed prefix is due and the next frame is not |
| FrameQueue.EveryFrameIsAccountedFor | engine/src/FrameQueue.cpp:12-160 | over every run of operations: pushed = delivered + coalesced + overflow + cleared + queued, and the recorded depth bounds the queue |
| FrameQueue.ReleasedFramesAreDead | engine/src/FrameQueue.cpp:71-81 | the rule releases a frame only when no remaining tick of the clock is due while it is the newest one |
| FrameQueue.KeptFramesAreNearATick | engine/src/FrameQueue.cpp:46-81 | the rule is prompt: a frame that no remaining tick comes within three units of is released |
| SelectionRace.SelectionsAgreeUnlessAWakeLoses | engine/src/EncoderWorker.cpp:3163-3197 | in every run without overflow, with frames held or queued at any moment, the selections are exactly those of a queue that keeps every frame if and only if no wake loses its frame; then the frames spared are the ones the plain queue drops later |
| SelectionRace.WakeAgreesUnlessItLoses | engine/src/EncoderWorker.cpp:3177-3197 | from any reachable pairing of the two queues, one wake, on time or late, with any frames arriving before and after the announcement, selects what the plain queue selects if and only if it does not lose its frame |
| SelectionRace.ReleaseKeepsEverySelection | engine/include/clipture/HeldFrame.hpp:13-18 | while frames arrive only between wakes every tick selects the plain queue's frame, whatever was held, queued or released |
| SelectionRace.LossRemovesChoice | engine/src/FrameQueue.cpp:26-29 | an arrival that loses has taken the plain queue's choice out of hold and queue, and is itself not due |
| SelectionRace.HeldFrameCanMissItsTick | engine/src/EncoderWorker.cpp:3182-3197 | from the start of a run at 60 fps, a frame held after the flush misses its tick, on time and late |
| SelectionRace.QueuedFrameCanLoseItsTick | engine/src/EncoderWorker.cpp:3187-3197 | from the start of a run at 60 fps, a frame queued after the announcement releases the frame a late tick needs |
| SelectionRace.PlainQueueKeepsIt | engine/src/EncoderWorker.cpp:3187-3197 | in that same case a queue that keeps every frame selects the one released |
| SelectionRace.HeldFrameWouldNotLoseIt | engine/src/WgcCaptureBackend.cpp:370-380 | held instead of queued, that arrival costs the tick nothing |
| FrameSelection.ThinnedSelect | engine/src/FrameQueue.cpp:127-145 | a queue thinned by dead frames selects the same frame at any remaining tick and stays thinned |
| FrameSelection.ArrivalKeepsRelated | engine/include/clipture/HeldFrame.hpp:28-41 | an arrival, held or queued, releasing or queueing the frame held before it, keeps both queues equivalent for all later ticks |
| FrameSelection.ReleasesAreDead | engine/include/clipture/HeldFrame.hpp:28-41 | whatever an arrival releases, from the hold or from the queue, no remaining tick would have selected |
| FrameSelection.FlushKeepsRelated | engine/src/EncoderWorker.cpp:3182-3183 | queueing the held frame at a wake keeps both queues equivalent |
| FrameSelection.AnnounceKeepsRelated | engine/src/EncoderWorker.cpp:3184-3188 | announcing the following tick keeps them equivalent, and still equivalent for the tick about to be selected |
| FrameSelection.TimedSelectionRule | engine/include/clipture/CatchUpSelection.hpp:7-15 | a wake selects by its tick's deadline exactly when another tick is due already or it came more than 2 ms late |
| FrameSelection.ReleaseIsPrompt | engine/include/clipture/HeldFrame.hpp:13-15 | once a wake has announced the next tick, a held or queued frame that no tick comes near is released when a newer one arrives, a held one unprepared |
| EncoderLoop.SelectionLoop.Arrive | engine/include/clipture/HeldFrame.hpp:28-41 | an arrival on the objects is the arrival step of the run |
| EncoderLoop.SelectionLoop.Flush | engine/src/EncoderWorker.cpp:3182-3183 | a wake's flush on the objects is the flush of the run |
| EncoderLoop.SelectionLoop.Announce | engine/src/EncoderWorker.cpp:3184-3195 | the objects advance and announce as the step does, and decide the deadline to select by, if any |
| EncoderLoop.SelectionLoop.Take | engine/src/EncoderWorker.cpp:3194-3196 | the objects select as the step does |
| EncoderLoop.SelectionLoop.Wake | engine/src/EncoderWorker.cpp:3182-3197 | a wake during which nothing arrives is flush, announcement and selection in turn |
| GpuHandoff.EveryReadSeesItsOwnImage | engine/src/GpuFrameHandoff.cpp:37-68 | in every interleaving a conversion of round k reads exactly image k |
| GpuHandoff.NoReadAfterItsImageIsReplaced | engine/src/GpuFrameHandoff.cpp:42-53 | once copy k+1 executes, no read of round k or earlier executes any more |
| GpuHandoff.NeverDeadlocked | engine/src/GpuFrameHandoff.cpp:37-68 | after complete rounds, some non-empty queue can execute its head |
| GpuHandoff.BothQueuesDrain | engine/src/GpuFrameHandoff.cpp:37-68 | from any state with no round open, both queues can run empty and the fences then agree with the sequence |
| GpuHandoff.GpuFrameHandoff.Begin | engine/src/GpuFrameHandoff.cpp:37-60 | on success the four steps of a round's opening in order; on failure the consumer gets no command |
| GpuHandoff.GpuFrameHandoff.End | engine/src/GpuFrameHandoff.cpp:62-68 | on success the step that closes the current round; on failure the consumer gets no command |
| DirectRead.NoSlotIsReusedUnderARead | engine/src/CaptureBackend.cpp:689-711 | no reachable state hands out or frees a slot that is leased, has a read still to execute, or is being read, however early its lease was dropped |
| DirectRead.EveryReadSeesItsFrame | engine/src/SharedTextureReader.cpp:50-72 | every executed direct read saw the image its frame was published with |
| DirectRead.FailedBeginStaysProtected | engine/src/SharedTextureReader.cpp:53-65 | a begin that fails after arming leaves its slot in the pool and unavailable, in every later state, until that reader's completion fence reaches the armed value |
| DirectRead.ReadersNeverDeadlock | engine/src/SharedTextureReader.cpp:50-72 | while a reader has commands, the capture queue or that reader can step; the capture queue itself has no wait |
| CaptureObjects.RetainKeepsTracking | engine/include/clipture/GpuTextureReadState.hpp:14-22 | one entry a fence, and every unfinished read stays listed |
| CaptureObjects.GpuTextureReadState.Collect | engine/include/clipture/GpuTextureReadState.hpp:29-34 | only finished reads are forgotten |
| CaptureObjects.GpuTextureReadState.RetainUntil | engine/include/clipture/GpuTextureReadState.hpp:14-22 | arming raises the guard of that fence and no other |
| CaptureObjects.GpuTextureReadState.Reusable | engine/include/clipture/GpuTextureReadState.hpp:23-27 | reusable if and only if every value ever armed has been reached, which is what the protocol means by it |
| CaptureObjects.BeginIsArmSignalAwait | engine/src/SharedTextureReader.cpp:50-65 | what a begin leaves is the arm, signal and await steps, by which of its calls succeeded |
| CaptureObjects.SnapshotIsOneRead | engine/src/EncoderSourceSnapshot.cpp:36-47 | a snapshot is the read protocol run once on the image in the slot |
| CaptureObjects.SharedTextureReader.Begin | engine/src/SharedTextureReader.cpp:50-65 | counter, both queues and guard after a begin; the guard is armed whatever fails |
| CaptureObjects.SharedTextureReader.End | engine/src/SharedTextureReader.cpp:67-73 | the step that ends the read in progress, whether the signal succeeds or not |
| CaptureObjects.EncoderSourceSnapshot.CopyAndRetire | engine/src/EncoderSourceSnapshot.cpp:27-49 | a failed allocation arms and queues nothing; success is one retired read; the texture is reused for the same size |
| CaptureObjects.CaptureTexturePool.Acquire | engine/src/CaptureBackend.cpp:689-748 | the loop computes the pool after a call, what is handed out, and the count of drops |
| CaptureObjects.AcquireRules | engine/src/CaptureBackend.cpp:689-748 | the first free slot; a drop when only GPU reads are in the way; growth only when every slot is leased |
| CaptureObjects.WarmPoolIsMirrored | engine/src/CaptureBackend.cpp:652-675 | the warm pool a capture starts with is a reachable state of the read protocol |
| CaptureObjects.AcquireIsSteps | engine/src/CaptureBackend.cpp:689-761 | every call of the pool is enabled acquire, grow and retire steps of the protocol, after which both hold the same slots |
| CaptureObjects.CaptureTexturePool.ReleaseIdleSlots | engine/src/CaptureBackend.cpp:751-761 | only idle slots at the back go, never below the warm count, and as many as possible |
| CaptureObjects.WhichSlotsStay | engine/src/CaptureBackend.cpp:751-761 | a slot stays exactly when it is a warm one, or it or one behind it is leased, still read, or was leased within the last two seconds |
| CaptureObjects.PoolNeverReusesUnderARead | engine/src/CaptureBackend.cpp:689-761 | in every run of pool calls, lease drops and read steps from the warm pool on, a slot handed out again or freed has no lease and no read queued or in preparation |
| NvencSurfaces.SurfaceCache.EnsureCanonicalSurface | engine/src/EncoderWorker.cpp:1245-1316 | coherent and of the session's size afterwards, the processor set up for the frame's size where a conversion needs it; a new texture carries no identity |
| NvencSurfaces.SurfaceCache.EnsureEncoderInputSurface | engine/src/EncoderWorker.cpp:1496-1531 | the slot's surface is kept as it is or replaced by one without identity, in the canonical format and size |
| NvencSurfaces.SurfaceCache.EnsureBgraCopyOutput | engine/src/EncoderWorker.cpp:1824-1860 | the slot's surface is kept or replaced by a BGRA one of the session's size without identity |
| NvencSurfaces.SurfaceCache.EnsureScaledOutput | engine/src/EncoderWorker.cpp:1982-2074 | likewise for the scaler's output, falling back from NV12 to BGRA |
| NvencSurfaces.SurfaceCache.PrepareCanonicalFrame | engine/src/EncoderWorker.cpp:1344-1454 | on success either the slot or the canonical texture shows the frame under its identity; the slot's surface, or the canonical one, is otherwise untouched or a new one without identity |
| NvencSurfaces.SurfaceCache.PrepareSharedFrame | engine/src/EncoderWorker.cpp:1533-1589 | the returned surface shows exactly the requested frame, in the session's size and a supported format; the one exception is an unnumbered frame served by the canonical image |
| NvencSurfaces.SurfaceCache.PrepareFrame | engine/src/EncoderWorker.cpp:1697-1803 | on every input path the surface has the session's width and height, a supported format and the frame's pixels, the processor scales from the frame's size, a cached surface is left as it is, and all caches are coherent |
| NvencSurfaces.SurfaceCache.PrepareRegistered | engine/src/EncoderWorker.cpp:733-789 | the size, the format and the pixels are right after every format fallback that a refused registration triggers |
| NvencPipeline.SlotsHaveOneUser | engine/src/EncoderWorker.cpp:707-935 | in every interleaving a slot is marked in flight if and only if it is in exactly one of reservation, prepared queue and in-flight order, with no repeats, and the count is the order's length |
| NvencPipeline.OutputsFollowSubmissions | engine/src/EncoderWorker.cpp:2290-2402 | outputs leave in submission order, each with the metadata and the pixels of its own frame |
| NvencPipeline.AcceptedFramesAreAccountedFor | engine/src/EncoderWorker.cpp:813-934 | accepted = outputs + in flight + prepared + failed submissions; no frame is ever dropped for an input still in flight |
| NvencPipeline.DrainedPipelineLosesNothing | engine/src/EncoderWorker.cpp:2259-2288 | an emptied pipeline has put out exactly the accepted frames in order |
| NvencPipeline.MappedSurfacesAreLeftAlone | engine/src/EncoderWorker.cpp:1384-1392 | no step changes the surface of a slot while it is mapped for NVENC |
| NvencPipeline.PreparedInputIsNotInFlight | engine/src/EncoderWorker.cpp:850-856 | the input-in-flight drop cannot happen with one surface per slot |
| NvencPipeline.SlotIsFree | engine/src/EncoderWorker.cpp:2411-2441 | with fewer prepared and in-flight frames than slots a reservation succeeds |
| NvencSession.DelayLeavesASlot | engine/include/clipture/EncoderPipelinePolicy.hpp:8-22 | the bounded output delay keeps prepared and in-flight frames below the slot count |
| NvencSession.NvencSession.constructor | engine/include/clipture/EncoderPipelinePolicy.hpp:8-22 | of 32 slots the prepared frames and two more are kept back from the preferred delay, which is else taken as it is |
| NvencSession.NvencSession.FreeOutputSlot | engine/src/EncoderWorker.cpp:2404-2454 | the first free slot that already shows the frame, else the first free one; nothing only if all are in flight |
| NvencSession.NvencSession.ReleaseIdleOutputSlot | engine/src/EncoderWorker.cpp:2161-2183 | the last slot free for three seconds that holds something loses its surface, and its buffer only beyond the warm set; nothing is released only if there is no such slot |
| NvencSession.NvencSession.InputResourceInFlight | engine/src/EncoderWorker.cpp:2214-2222 | true exactly when some slot in flight is mapped to the resource |
| NvencSession.NvencSession.SubmitFront | engine/src/EncoderWorker.cpp:836-934 | one submission is the pipeline's submit step, or its failure step |
| NvencSession.NvencSession.DrainOldestSyncOutput | engine/src/EncoderWorker.cpp:2290-2338 | one drain is the lock and retire steps on the oldest slot; a failed lock changes nothing |
| NvencSession.NvencSession.Encode | engine/src/EncoderWorker.cpp:707-934 | a successful call accepts the frame, keeps every invariant and never drops for want of a slot; one output comes out exactly when the prepared queue and the delay are full; only an unnumbered frame may show another image, the one cached under its identity |
| NvencSession.NvencSession.DrainAll | engine/src/EncoderWorker.cpp:2259-2288 | stopping empties both queues and returns one output for every frame in them |
| AnnexB.ParseRoundTrip | engine/src/H264PacketAnalyzer.cpp:46-74 | parsing recovers exactly the written units if and only if each is non-empty, holds no start code and does not end in a zero byte before a three-byte start code |
| AnnexB.ConformingUnitsRoundTrip | engine/src/H264PacketAnalyzer.cpp:46-74 | units that meet section 7.4.1 of ITU-T H.264 always come back, with any mix of start codes |
| AnnexB.UnitEndsWhereWritten | engine/src/H264PacketAnalyzer.cpp:28-33 | the next start code is found at a unit's end if and only if the unit is separable from what follows |
| AnnexB.ParsedSpansFit | engine/src/H264PacketAnalyzer.cpp:46-74 | every span found is non-empty and inside the data |
| AnnexB.FindStartCode | engine/src/H264PacketAnalyzer.cpp:28-33 | the scan loop finds the first start code and its size |
| AnnexB.AnalyzeH264Packet | engine/src/H264PacketAnalyzer.cpp:37-78 | inline and overflow parts together are the parsed spans in order, with exact flags and sample size |
| AnnexB.ParseAnnexBNalus | engine/src/Mp4Muxer.cpp:677-704 | the muxer's own parser finds the same spans, in 32-bit fields |
| AnnexB.NarrowingIsHarmless | engine/src/Mp4Muxer.cpp:692-698 | below 2^32 bytes those fields lose nothing |
| AnnexB.PrefixedRoundTrip | engine/src/Mp4Muxer.cpp:2104-2107 | a length-prefixed sample reads back as its units |
| AnnexB.UnprefixedInverse | engine/src/Mp4Muxer.cpp:2104-2107 | and no other bytes read as those units |
| AnnexB.SampleReadsBack | engine/src/Mp4Muxer.cpp:2233-2257 | a packet's sample has the planned size and decodes to its units without types 7, 8 and 9 |
| AnnexB.WritableByType | engine/src/Mp4Muxer.cpp:2236-2238 | what goes into a packet's sample are its units in order, but for those of types 7, 8 and 9 |
| AnnexB.SeparableUnitsComeBack | engine/src/H264PacketAnalyzer.cpp:46-74 | a stream of separable units is taken apart into exactly those units |
| AnnexB.BigEndian | engine/src/Mp4Muxer.cpp:234-238 | lengths and table entries have their most significant byte first |
| BufferedWriter.FileWriter.Write | engine/src/Mp4Muxer.cpp:1626-1640 | all bytes in order on success, a prefix on failure, and failure is remembered |
| BufferedWriter.BufferedByteWriter.Flush | engine/src/Mp4Muxer.cpp:1769-1793 | the staged bytes reach the file in order |
| BufferedWriter.BufferedByteWriter.Write | engine/src/Mp4Muxer.cpp:1712-1724 | for any capacity nothing is lost, repeated or reordered |
| BufferedWriter.BufferedByteWriter.WriteFromReader | engine/src/Mp4Muxer.cpp:1726-1767 | the same for ranges read in bounded chunks |
| BufferedWriter.BufferedByteWriter.WritePacketRange | engine/src/Mp4Muxer.cpp:2070-2083 | success means the range exists and its bytes were handed over |
| BufferedWriter.BufferedByteWriter.WriteAvccSample | engine/src/Mp4Muxer.cpp:2097-2109 | the sample written is the length-prefixed form of its spans |
| Mp4Save.Save | engine/src/Mp4Muxer.cpp:2178-2866 | planning, placing, tables, movie box and writing together: when a save succeeds and fits its size fields, a player that has the file's bytes alone gets every video packet's units without types 7, 8 and 9, every audio sample, how many there are, and durations that follow the packets' stamps and the samples' frames |
| Mp4Save.PlayerGetsEverySample | engine/src/Mp4Muxer.cpp:2584-2619 | walking the boxes to track k's tables and following them yields exactly sample i of track k |
| Mp4Save.PlayerGetsEveryDuration | engine/src/Mp4Muxer.cpp:1100-1118 | walking the boxes to track k's stts yields the planned durations |
| Mp4Save.KeepPackets | engine/src/Mp4Muxer.cpp:2221-2262 | the samples are the packets with a unit to write, in order |
| Mp4Save.WrittenPacketsAreKept | engine/src/Mp4Muxer.cpp:2258-2261 | a packet is kept, in its place, exactly when it has a unit for a sample |
| Mp4Save.PlanVideo | engine/src/Mp4Muxer.cpp:2353-2367 | sizes and durations of the video samples, the last from its own packet |
| Mp4Save.PlanFollowsStamps | engine/src/Mp4Muxer.cpp:2356-2367 | each sample lasts until the next stamp, the last as long as its packet says or one frame, so that with increasing stamps the first n durations add up to the distance of stamp n from the first |
| Mp4Save.StreamIsPlayed | engine/src/Mp4Muxer.cpp:2233-2257 | for a packet that is a stream of separable units a player decodes exactly those units, but for types 7, 8 and 9 |
| Mp4Save.MediaSize | engine/src/Mp4Muxer.cpp:2526-2530 | the planned size is the length of all payloads together |
| Mp4Save.PlaceTracks | engine/src/Mp4Muxer.cpp:2583-2599 | each track is laid out behind the ones before it, durations unchanged |
| Mp4Movie.TablesAreFound | engine/src/Mp4Muxer.cpp:1165-1266 | in the file as written a reader of boxes finds each track's own stts, stsc, stsz and co64 |
| Mp4Movie.BoxesComeBack | engine/src/Mp4Muxer.cpp:258-272 | a run of boxes is cut back into the same boxes by their declared sizes |
| Mp4Movie.KindsAreNames | engine/src/Mp4Muxer.cpp:258-264 | every box kind is its four characters |
| Mp4Movie.MakeTrak | engine/src/Mp4Muxer.cpp:1165-1233 | the nested boxes of a track, the tables innermost |
| Mp4Movie.MakeMoov | engine/src/Mp4Muxer.cpp:1235-1266 | the movie box holds the header and every track in order |
| Mp4File.TablesLocateSamples | engine/src/Mp4Muxer.cpp:1132-1156 | the chunk, size and offset tables as written give each sample its own chunk, its size and its offset, within their field widths |
| Mp4File.RangesTileMedia | engine/src/Mp4Muxer.cpp:2584-2599 | sample ranges follow each other without gap from the first to the end of the media |
| Mp4File.MdatCoversMedia | engine/src/Mp4Muxer.cpp:2692-2700 | the declared mdat size is header plus media, in the 32-bit and the 64-bit form |
| Mp4File.BoxDeclaresItsSize | engine/src/Mp4Muxer.cpp:258-272 | a full box declares its own length and carries its payload |
| Mp4File.RunsExpandToPlan | engine/src/Mp4Muxer.cpp:1103-1111 | the runs expand to the planned durations, none is empty and neighbouring runs differ |
| Mp4File.RunLengths | engine/src/Mp4Muxer.cpp:1103-1111 | the loop computes those runs |
| Mp4File.MakeStts | engine/src/Mp4Muxer.cpp:1100-1118 | the stts box holds those runs |
| Mp4File.SttsReadsBack | engine/src/Mp4Muxer.cpp:1100-1118 | a player that reads the counts and durations out of the written box gets the planned durations |
| Mp4File.MakeStsz | engine/src/Mp4Muxer.cpp:1141-1148 | the stsz box holds the sizes in order |
| Mp4File.MakeCo64 | engine/src/Mp4Muxer.cpp:1150-1156 | the co64 box holds the offsets in order |
| Mp4File.FinalDuration | engine/include/clipture/VideoSampleTiming.hpp:19-27 | the last sample's duration is positive and fits its 32-bit field |
| Mp4File.DurationsFollowStamps | engine/include/clipture/VideoSampleTiming.hpp:9-17 | with increasing stamps the durations add up to the distance from the first to the last |
| Mp4File.PlaceTrack | engine/src/Mp4Muxer.cpp:2586-2599 | offsets are the running positions of the payloads |
| Mp4File.WriteVideo | engine/src/Mp4Muxer.cpp:2741-2753 | the video loop hands over all sample payloads in order |
| Mp4File.WriteAudio | engine/src/Mp4Muxer.cpp:2830-2840 | the audio loops hand over all tracks' samples in order |
| Mp4File.Mux | engine/src/Mp4Muxer.cpp:2690-2866 | success means the file is header, media and index, byte for byte, for any staging capacity |
| WritePacing.WritePacer.PaceToTarget | engine/src/Mp4Muxer.cpp:1968-2004 | the pacer's new clock and when the request goes ahead |
| WritePacing.PacingBound | engine/src/Mp4Muxer.cpp:1968-2004 | at any rates, the cost of a window of requests is at most its length plus the first request's burst credit |
| WritePacing.ConstantRateBound | engine/src/Mp4Muxer.cpp:1968-2004 | at a constant rate, bytes in a window are at most rate times length plus one burst, idle gaps included |
| WritePacing.PromptUnlessOverBudget | engine/src/Mp4Muxer.cpp:1968-2004 | a request goes ahead at once if and only if, since every earlier limited request, no more was asked for than the time passed and that request's burst allow |
| WritePacing.PromptWithinRate | engine/src/Mp4Muxer.cpp:1968-2004 | at a constant rate: if and only if the bytes since every earlier request fit the rate times the time and one burst |
| WritePacing.DelayedNoLonger | engine/src/Mp4Muxer.cpp:1968-2004 | and else it waits only until they do |
| AudioTimeline.NormalisedIsContiguous | engine/src/Mp4Muxer.cpp:490-573 | every sample starts exactly where the one before it ends, in one epoch, from the first stamp on |
| AudioTimeline.DriftIsBounded | engine/src/Mp4Muxer.cpp:518-554 | with silence of one length a kept sample moves by at most 5 ms or half a silence sample, however many gaps came before |
| AudioTimeline.ContiguousTrackIsKept | engine/src/Mp4Muxer.cpp:515-555 | a contiguous track of samples longer than the tolerance is kept whole, without silence |
| AudioTimeline.NextSampleRule | engine/src/Mp4Muxer.cpp:515-555 | by the track's own last sample: a sample is dropped exactly when it starts more than 5 ms before the track's end or ends no more than 5 ms after it; else it is last, at the end or after silence that ends within half a silence sample of its stamp |
| AudioTimeline.SampleAfterTheEndIsKept | engine/src/Mp4Muxer.cpp:515-555 | a sample of more than 5 ms that starts at the track's end or later is never dropped |
| AudioTimeline.SeparateSamplesAreKept | engine/src/Mp4Muxer.cpp:515-555 | samples that overlap no other are all kept if and only if filling gaps never brings the track more than 5 ms ahead of a sample, computed from the stamps and the length of silence |
| AudioTimeline.ShortSilenceKeepsAll | engine/src/Mp4Muxer.cpp:528-546 | which holds for silence of at most 10 ms |
| AudioTimeline.SeparateSampleCanBeDropped | engine/src/Mp4Muxer.cpp:528-546 | and fails for silence as long as a sample on five samples at 48 kHz |
| AudioTimeline.MakeAudioTimelineContinuous | engine/src/Mp4Muxer.cpp:490-573 | the loop computes the normalised track and fails exactly when silence is needed and there is none; the closing check never fails |
| AudioTimeline.Verify | engine/src/Mp4Muxer.cpp:562-571 | the closing check passes exactly when every sample starts within 5 ms of where the one before it ends |
| AudioTimeline.ClampIsSmall | engine/src/Mp4Muxer.cpp:583-619 | the first retained sample starts less than one unit per dropped sample before the video, and not before it when none is dropped |
| AudioTimeline.LeadingDrop | engine/src/Mp4Muxer.cpp:590-600 | the fewest leading samples that hold all frames to discard, or all |
| AudioTimeline.DropCoversPriming | engine/src/Mp4Muxer.cpp:583-600 | what is dropped holds the priming frames and every frame before the start, and with one sample less it would not |
| AudioTimeline.LowerBound | engine/src/Mp4Muxer.cpp:626-632 | the first sample at or after the end |
| AudioTimeline.AlignAudioTrackToVideo | engine/src/Mp4Muxer.cpp:575-641 | one run of the input is retained, the first moved up to the start; what is kept starts before the end and what is cut does not; all of it starts inside the presentation unless more samples were dropped than the first one lasts units |
| AudioTimeline.InsideUnlessMovedPast | engine/src/Mp4Muxer.cpp:614-616 | all retained samples start inside the presentation if and only if the first was not moved past the second |
| AudioTimeline.ShortDropStartsInside | engine/src/Mp4Muxer.cpp:583-619 | they do whenever no more samples are dropped than the first retained one lasts units of 100 ns |
| AudioTimeline.LongDropCanStartBefore | engine/src/Mp4Muxer.cpp:583-619 | a track of 629 short samples at 48 kHz on which one starts before |
| AudioTimeline.EditListLasts | engine/src/Mp4Muxer.cpp:878-899 | the edits together last exactly as long as the movie |
| AudioTimeline.EditsPlayInOrder | engine/src/Mp4Muxer.cpp:878-899 | at every moment of the movie: silence up to the first sample, the media from its beginning, silence to the end |
| AudioTimeline.EditListIsShort | engine/src/Mp4Muxer.cpp:878-899 | at most three edits, none empty |
| AudioTimeline.MakeAudioEdts | engine/src/Mp4Muxer.cpp:864-912 | the edits listed are lead-in silence, media from its beginning, and closing silence |
| PcmCoverage.MergedIsApart | engine/src/Mp4Muxer.cpp:277-293 | merged intervals lie more than 5 ms apart |
| PcmCoverage.MergedCoversSamples | engine/src/Mp4Muxer.cpp:277-293 | every AAC sample lies inside a merged interval |
| PcmCoverage.MergedAddsOnlyGaps | engine/src/Mp4Muxer.cpp:277-293 | merging covers no moment more than 5 ms after a sample |
| PcmCoverage.SelectUncoveredPcm | engine/src/Mp4Muxer.cpp:274-309 | for all sorted inputs the single pass returns, in order, the samples no interval covers |
| PcmCoverage.SelectionIsExact | engine/src/Mp4Muxer.cpp:295-308 | for samples of at least 1 ms this is what a naive test of every interval returns |
| PcmCoverage.LeftOutIsHeard | engine/src/Mp4Muxer.cpp:295-308 | a sample is left out only if, but for a millisecond at each end, at every moment of it some AAC sample plays or ended at most 5 ms before |
| PcmCoverage.PlayedThroughIsLeftOut | engine/src/Mp4Muxer.cpp:295-308 | and is left out if one AAC sample plays through it |
| PcmCoverage.SweepIsExactUnlessBehind | engine/src/Mp4Muxer.cpp:300-305 | for any sample the two tests agree if and only if no interval ends before it within 1 ms of its end |
| PcmCoverage.ShortSampleCanDiffer | engine/src/Mp4Muxer.cpp:300-305 | a concrete short sample on which they differ |
| PcmMixer.MixIgnoresOrder | engine/src/Engine.cpp:1579-1581 | the mix does not depend on how equal starts are sorted |
| PcmMixer.OutsideInputsAreSilent | engine/src/Engine.cpp:1566-1569 | skipped inputs add nothing inside the clip |
| PcmMixer.MixChunk | engine/src/Engine.cpp:1591-1638 | with the moving first candidate a chunk holds the sum over all inputs at every frame and channel |
| PcmMixer.MixInto | engine/src/Engine.cpp:1603-1637 | one input adds its samples at its overlap and nothing elsewhere, or nothing if that read fails |
| PcmMixer.LimiterNeverClips | engine/src/Engine.cpp:1640-1670 | over the reals the clamp never acts; a quiet sum comes out unchanged and a loud one with its sign and its size times 32767 / peak, rounded down |
| PcmMixer.LoudestIsFullScale | engine/src/Engine.cpp:1640-1670 | the loudest sample of a loud chunk comes out at exactly full scale and none beyond it |
| PcmMixer.Sweep | engine/src/Engine.cpp:1590-1674 | chunks tile the clip, and each is the limited mix of its frames |
| PcmMixer.SweepMixesEverything | engine/src/Engine.cpp:1553-1638 | the sorted sweep equals the sum over every mixable packet |
| PcmMixer.MixPcmPackets | engine/src/Engine.cpp:1519-1676 | nothing to mix, or chunks of 10 ms that tile the clip, each sample the limited sum of what every packet is heard as at its frame; a read that fails silences one packet in one chunk |
| PcmMixer.MixIsEveryPacket | engine/src/Engine.cpp:1553-1573 | the placed inputs sum to what each packet of the clip's format, if audible, holds at that frame |
| PcmMixer.StartFrameIsNear | engine/src/Engine.cpp:1546-1548 | a packet begins within one frame of its exact position, rounded toward the clip's start on either side of it |
| PcmMixer.ChunkStampIsNear | engine/src/Engine.cpp:1593 | a chunk is stamped with the time of its first frame, rounded down |
| RepairRegister.RegisterIsTheMinimum | engine/src/AudioReplayCoordinator.cpp:98-103 | with any number of threads and spurious failures the register is the least request since the last exchange, zero if and only if there is none |
| RepairRegister.NextExchangeCoversRequest | engine/src/AudioReplayCoordinator.cpp:345-351 | the first exchange after a request took effect returns a point no later than it |
| RepairRegister.ExchangeReturnsARequest | engine/src/AudioReplayCoordinator.cpp:345-351 | what an exchange returns was requested since the one before |
| RepairRegister.ExchangedWasAsked | engine/src/AudioReplayCoordinator.cpp:98-103 | what an exchange returns is a point some call asked for, or 1 for an earlier one |
| GpuPriority.GpuPriorityControl.Apply | engine/src/GpuPriorityControl.cpp:82-107 | the state after the boost changes, is overridden or is started raised |
| GpuPriority.GpuPriorityControl.Observe | engine/src/GpuPriorityControl.cpp:112-180 | the state and event after an observation |
| GpuPriority.RaiseRule | engine/src/GpuPriorityControl.cpp:153-178 | while low it raises exactly when a game in front or running is remembered and not held back by its quiet step-down, or the game in front is starved, in that order |
| GpuPriority.LowerRule | engine/src/GpuPriorityControl.cpp:127-151 | while raised it lowers exactly when the game is missing for the second time in a row or the GPU is quiet for the first time in its session |
| GpuPriority.ClosedGameIsLowered | engine/src/GpuPriorityControl.cpp:127-134 | two observations in a row without the raised game lower it |
| GpuPriority.ConfigureRule | engine/src/GpuPriorityControl.cpp:84-104 | off and override lower, on raises once when asked to start raised and else keeps what was raised |
| GpuPriority.OneQuietStepDownPerSession | engine/src/GpuPriorityControl.cpp:137-160 | between two quiet step-downs of a game it was seen not running while low, or another game was stepped down |
| GpuPriority.MemoryDoesNotRaiseQuietGame | engine/src/GpuPriorityControl.cpp:153-168 | after a quiet step-down only drops can raise the same game again in its session |
| GpuPriority.FirstRememberedIsNotQuiet | engine/src/GpuPriorityControl.cpp:162-168 | the game chosen from memory runs, is remembered and is not the quiet one; none is chosen only if there is none |
| SampleRing.Wrap | engine/src/AudioCaptureWorker.cpp:179-203 | the modulo of the index takes off at most one length |
| SampleRing.RnnoiseFrameQueue.Push | engine/src/AudioCaptureWorker.cpp:179-184 | the contents gain the sample at the end |
| SampleRing.RnnoiseFrameQueue.PopFrame | engine/src/AudioCaptureWorker.cpp:186-198 | the oldest frame in order, or nothing |
| SampleRing.RnnoiseFrameQueue.EnsureCapacity | engine/src/AudioCaptureWorker.cpp:209-217 | growth keeps the wrapped contents in order |
| SampleRing.FramesFollowTheStream | engine/src/AudioCaptureWorker.cpp:172-224 | over every run, frames popped followed by what is held are exactly the samples pushed |
| SampleRing.MaxDepthIsGreatest | engine/src/AudioCaptureWorker.cpp:204-206 | the recorded depth is the greatest length ever reached |
| PriorityMemory.FormatRoundTrip | engine/src/GpuPriorityMemory.cpp:67-93 | reading what was printed gives it back if and only if key and ids are full-length and the ids distinct, with LF and with CRLF |
| PriorityMemory.ParsedIsProper | engine/src/GpuPriorityMemory.cpp:67-87 | whatever is read has a full key and distinct full ids |
| PriorityMemory.ReadableText | engine/src/GpuPriorityMemory.cpp:67-87 | a file is readable if and only if it begins with the header and a full key, and then exactly the lines that are ids are taken |
| PriorityMemory.FileText | engine/src/GpuPriorityMemory.cpp:89-93 | the printed file, literally |
| PriorityMemory.HexIsBigEndian | engine/src/GpuPriorityMemory.cpp:18-41 | digits count from 0 to f, the high one first |
| PriorityMemory.ParseText | engine/src/GpuPriorityMemory.cpp:67-87 | the parser's loop keeps each valid id once, in order |
| PriorityMemory.FormatContents | engine/src/GpuPriorityMemory.cpp:89-93 | the printer's loop writes the lines of the file |
| PriorityMemory.FromHexInvertsToHex | engine/src/GpuPriorityMemory.cpp:18-41 | decoding undoes encoding, and encoding writes two digits a byte |
| PriorityMemory.ToHexInvertsFromHex | engine/src/GpuPriorityMemory.cpp:18-41 | encoding undoes decoding for text of even length |
| PriorityMemory.RememberedIdsStayDistinct | engine/src/GpuPriorityMemory.cpp:138-163 | over every run of calls in which the first hash succeeds whenever the second does, the ids are distinct, and once one was added the newest is last and at most 512 remain |
| PriorityMemory.RunKeepsTheNewest | engine/src/GpuPriorityMemory.cpp:138-163 | over every run the list is the newest 512 of what it began with and what was added, in order |
| PriorityMemory.AddedGameStaysKnown | engine/src/GpuPriorityMemory.cpp:138-163 | a game that was added stays known until 512 others are added |
| PriorityMemory.DistinctUnlessRepeated | engine/src/GpuPriorityMemory.cpp:138-163 | the ids are distinct throughout a run if and only if no call adds one that stays listed already |
| PriorityMemory.FailedHashRepeats | engine/src/GpuPriorityMemory.cpp:138-143 | when only the first hash fails on a known game, the game is listed twice |
| PriorityMemory.NewestStaysDistinct | engine/src/GpuPriorityMemory.cpp:142-143 | adding an id keeps the list distinct exactly when it is not among those that stay |
| PriorityMemory.GpuPriorityMemory.Open | engine/src/GpuPriorityMemory.cpp:114-130 | the memory holds what the file parses to, or starts empty |
| PriorityMemory.GpuPriorityMemory.Contains | engine/src/GpuPriorityMemory.cpp:132-136 | a game is known if and only if it has a name and its hash is listed, whatever the early exits |
| PriorityMemory.GpuPriorityMemory.Remember | engine/src/GpuPriorityMemory.cpp:138-163 | one call is the step the run theorems use, and writes the file of the new list when it adds a game |
| CaptureFallback.FollowingDescends | engine/src/CaptureSession.cpp:113-245 | every backend tried ranks below all before it, so at most three are tried |
| CaptureFallback.CaptureController.NextBackend | engine/src/CaptureSession.cpp:82-205 | which backend follows, and when the monitor is quarantined |
| CaptureFallback.CaptureController.RunController | engine/src/CaptureSession.cpp:113-245 | the backends tried follow the rule, each move is counted once, and the first result is reported once |

## Left out

- GpuHandoff: the legacy keyed-mutex handoff and the recovery after a failed signal; a failed round ends the session.
- DirectRead: replacing the whole pool when size, format or device changes. The old textures are dropped, not reused, so no slot of the model is handed out again.
- NvencSession: the asynchronous mode's bounded waits. Its interleavings are those of `NvencPipeline`, whose output steps run at any time.
- NvencSurfaces: surfaces after a failed preparation. The session is then discarded.
- NVENC, Direct3D, Media Foundation and Win32 calls, COM set-up and shaders: each may succeed or fail; NVENC yields one output for each submitted slot.
- The cache of registered NVENC inputs, packet payload pools, latency statistics, traces and JSON diagnostics.
- Dropping the held frame alone when the capture size changes; the model's clear step drops it together with the queue.
- A change of the frame rate during a run, which starts a new cadence, and the blocking `waitPop` functions of the frame queue.
- Overflow of 64-bit times. Times and counters are unbounded integers.
- Mp4Save.Save: the contents of the boxes around the tables (movie, track and media headers, sample entries, sync samples, edit lists) are inputs; packets that arrive length-prefixed already, and a clip without a decoder configuration, are not modelled.
- The in-place and the aligned file layouts, pre-allocation, and the adaptive rate controller, whose rate is an input of the pacing model.
- AudioTimeline: sorting and thinning of the AAC samples before normalisation, and the encoding of silence, whose frame counts are an input.
- PcmMixer: interleaved bytes. A row of the model holds one frame's channels.
- PcmMixer.LimiterNeverClips: floating point rounding; the limiter is stated over the reals.
- RepairRegister: the second register for PCM recovery, which runs the same loop.
- GpuPriority: the detectors and the adapter's counters, whose answers are inputs.
- PriorityMemory: the keyed hash and the random key, which are inputs.
- CaptureFallback: the output selected again after monitor capture stops; the rule uses the output the run began with.
- Cursor shape decoding, video window selection, per-application audio reconciliation, the PCM window selection, motion counters, hotkeys, the host and the user interface, which would add easier members.
