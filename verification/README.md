# Verified model of the SimRT host and target kernels

This project models the stateful kernels of the SimRT tool chain in Dafny and proves what they
promise over unbounded runs. `dafny verify dfyconfig.toml` checks everything.

| file | what it models |
|---|---|
| `SignalRing.dfy`, `SignalCore.dfy`, `SignalPlot.dfy` | the C++ signal history: circular buffer with monotonic deques, all-or-nothing batch append, decimation, range query and cursor lookup |
| `RowMerge.dfy` | the k-way merge behind the table export |
| `XcpMemory.dfy`, `CalibrationSession.dfy` | chunked memory access over XCP (ASAM MCD-1 XCP V1.0, Part 2 Protocol Layer, section 1.6) and the calibration session with its recovery journal |
| `DaqFrames.dfy`, `DaqSamples.dfy`, `DaqOwnership.dfy` | the DAQ receive path: frame order, timestamp unwrapping, the bounded queue, and start/stop ownership |
| `RealTimeRelease.dfy` | the absolute release grid of the real-time loop and its statistics |
| `NetworkTransaction.dfy`, `NetworkProgress.dfy` | the confirmed network change: configure, confirm and the detached watchdog; what each achieves when all goes well |
| `CircularQueue.dfy`, `NetworkEndpoint.dfy`, `EndpointProgress.dfy` | the bounded queue and the network endpoint shared by model thread and worker; that everything gets through |
| `CanDriver.dfy`, `CanProgress.dfy` | channel ownership in the two-channel CAN driver: three kinds of threads and three locks; what goes in, and that it comes out |
| `Asap2Blocks.dfy`, `GroupPaths.dfy` | the ASAP2 block reader and the model group hierarchy |
| `Common.dfy`, `DivMod.dfy` | shared types; facts about division |

Objects that the source updates in place are classes; their methods are proved against plain
reference values (a sequence of everything appended, a memory, a ledger of bytes). Protocols
between processes and threads are state machines, one critical section to a step, with theorems
over every sequence of steps; a step that is not possible leaves the state unchanged, so every
interleaving is covered. Safety is proved beside progress: from every reachable state the steps
that go well lead where they should. Ledgers kept in a state are tied to the steps alone. Calls into code that cannot be seen (slave, sockets, clock, SDK, file
system) are nondeterministic or take their answers from an input: any may fail at any point.

## Where the code falls short

The proofs showed places where a plausible promise does not hold of the code. Each has a concrete
run and the condition under which the promise does hold.

- A `configure` that stalls between opening the lock file and taking the lock can get it after the
  watchdog has restored and removed the transaction. The new live address then stays without
  confirmation: `LateConfigureSticks`; all or nothing holds exactly otherwise:
  `AllOrNothingIffInTime`.
- The watchdog first reads the state file without the lock. If `confirm` is just rewriting it, the
  watchdog dies, and a `confirm` that then gives up leaves the new address for good:
  `BlindWatchdogSticks`, `DeadIsForGood`; after such a death the change is all or nothing exactly if
  it was confirmed: `DeadWatchdogIffConfirmed`.
- A stale DAQ event can be taken for a future sample, from before a counter wrap
  (`StaleAcrossWrap`) or when it is more than half the modulus old (`StaleByMoreThanHalf`). It is
  rejected exactly when its raw time is at most half the modulus behind: `StaleRejectedIff`.
- A transport loss of a whole multiple of the ODT count is counted but does not resynchronise the
  decoder, which then mixes two events: `LossOfWholeEventMixes`; inside an event this happens for
  exactly those losses: `OrderCheckBlindSpot`.
- The reported `deadline_misses` can exceed `skipped_releases` by one, because the miss of the last
  step has no later wait to skip a release for it: `MissWithoutSkip`; they do exactly when that step
  overran and no skip was left over: `MissesIff`.
- A group listed by a group with an empty name is placed at the top, because an empty parent name
  counts as no parent, and a cycle through an empty name is accepted: `EmptyNameIsNoParent`,
  `EmptyNameHidesCycle`; `ExtendsParentIffNamed`, `Resolve` and `CyclesAreNamed` say exactly when.
- Connecting again after the link was lost with values pending forgets them, so the promise of a
  clean disconnect does not reach across the reconnect: `ReconnectForgets`; originals are dropped
  exactly when some were pending and the session was not live: `Session.Connect`.
- A failed write restores what it has written, but skips an empty name, which `_unique_names` drops:
  the call reports that it rolled back while that value stays in memory and pending:
  `EmptyNameStaysPending`; the rollback is complete exactly when no empty name was tried:
  `Session.WriteCalibrations`.
- A watchdog that meets a torn state file once it has the lock restores nothing, not even the live
  address: `ErrorLeaves`, `TornIsForGood`.

## Model

| member | source | states |
|---|---|---|
| SignalRing.RunRing | app/qt_xcp_host/native/xcp_core.cpp:25-56 | After any run of appends and clears, reading the ring by index gives exactly the last `capacity` samples since the last clear, in order; the statistics are that window's newest value and true minimum and maximum; the deques pop exactly as often as the reference deques of the run, together at most twice for every append |
| SignalRing.PopsAmortised | app/qt_xcp_host/native/xcp_core.cpp:41-48 | Over any run of appends and clears a deque's pops and its length are together at most the appends |
| SignalRing.Ring.constructor | app/qt_xcp_host/native/xcp_core.cpp:25-32 | A new ring is empty and has popped nothing |
| SignalRing.Ring.Append | app/qt_xcp_host/native/xcp_core.cpp:38-49 | One more sample in the history; the circular vector still holds the last `capacity` samples, both deques are the reference deques and still staircases over that window, and exactly the entries that went are counted as popped |
| SignalRing.Ring.At | app/qt_xcp_host/native/xcp_core.cpp:34-37 | The slot computed from the wrapped start holds the sample at that position of the window, wrapped or not |
| SignalRing.Ring.Clear | app/qt_xcp_host/native/xcp_core.cpp:50-55 | The window is empty again and the pop budget is kept |
| SignalRing.Ring.Stats | app/qt_xcp_host/native/xcp_core.cpp:221-234 | Latest, minimum and maximum of the window by reading only the newest sample and the two deque fronts; zeros for an empty ring |
| SignalRing.FrontIsExtreme | app/qt_xcp_host/native/xcp_core.cpp:227-232 | The front of a staircase deque is the extreme value of the whole window |
| SignalRing.PushKeepsStaircase | app/qt_xcp_host/native/xcp_core.cpp:41-44 | Dropping the beaten back entries and pushing the new sample keeps every entry the extreme of all samples after its predecessor |
| SignalRing.PushReaches | app/qt_xcp_host/native/xcp_core.cpp:41-44 | After the push every entry still beats every sample from its predecessor to the end |
| SignalRing.DropKeepsStaircase | app/qt_xcp_host/native/xcp_core.cpp:46-48 | Moving the window by one and expiring at most the front entry keeps the staircase |
| SignalRing.PopBeaten | app/qt_xcp_host/native/xcp_core.cpp:41-42 | Exactly the back entries beaten by the new value go, the entry that stays is not beaten, and the count is the number that went |
| SignalRing.PopExpired | app/qt_xcp_host/native/xcp_core.cpp:46-48 | Exactly the front entries older than the window go, the deque never runs empty, and the count is the number that went |
| SignalRing.StoreKeepsWindow | app/qt_xcp_host/native/xcp_core.cpp:40 | Overwriting slot `sequence % capacity` replaces the oldest sample of the window and no other |
| SignalRing.AtSlot | app/qt_xcp_host/native/xcp_core.cpp:34-37 | The wrapped index arithmetic is in bounds and names the right sample |
| SignalCore.AcceptedIff | app/qt_xcp_host/native/xcp_core.cpp:184-197 | A batch is accepted if and only if every sample is well formed and storing the whole batch would leave every signal's times nondecreasing |
| SignalCore.Core.Validate | app/qt_xcp_host/native/xcp_core.cpp:184-197 | The verdict is that of the first sample refused after its predecessors, batch-internal order included, and nothing is written |
| SignalCore.Core.Append | app/qt_xcp_host/native/xcp_core.cpp:177-201 | Either the whole batch is stored or no ring changes; if it is, every signal's history is the old one followed by the times and values of exactly the batch's samples of that signal, in order |
| SignalCore.PutAllAdds | app/qt_xcp_host/native/xcp_core.cpp:198-200 | Storing a batch adds to every history exactly the points of its own signal, in order |
| SignalCore.Core.EnsureSignal | app/qt_xcp_host/native/xcp_core.cpp:159-175 | A known name keeps its id, a new one gets the next id and an empty ring, all rings keep their positions; refused without any change on a bad name or at the signal limit |
| SignalCore.Core.Clear | app/qt_xcp_host/native/xcp_core.cpp:203-209 | Every history is empty and the signals keep their ids |
| SignalCore.PutSortedIff | app/qt_xcp_host/native/xcp_core.cpp:193-195 | The order check of one sample passes if and only if storing it keeps the history sorted |
| SignalCore.JudgeStops | app/qt_xcp_host/native/xcp_core.cpp:187-197 | A refused prefix decides the verdict on the whole batch |
| SignalCore.LastStored | app/qt_xcp_host/native/xcp_core.cpp:193-194 | Time of the newest sample ever stored in the signal since the last clear, although only the window is retained |
| SignalPlot.PlotRing | app/qt_xcp_host/native/xcp_core.cpp:58-94 | Refused exactly when the output is too small; otherwise at most the budget is written, positions strictly increase, both end points appear, and each bucket's minimum and maximum are among them; cells behind stay untouched |
| SignalPlot.PlotKeepsExtremes | app/qt_xcp_host/native/xcp_core.cpp:77-93 | With a budget of four or more the plot contains the minimum and the maximum of the whole range: no spike is lost |
| SignalPlot.BucketsPartition | app/qt_xcp_host/native/xcp_core.cpp:78-82 | Floor-division edges partition the interior, and every bucket holds at least two samples |
| SignalPlot.BucketsJoin | app/qt_xcp_host/native/xcp_core.cpp:80-91 | Extremes of the first n buckets together are the extremes of the interior up to the n-th edge |
| SignalPlot.PlotBucket | app/qt_xcp_host/native/xcp_core.cpp:81-90 | One pass emits both extremes of the bucket in time order, once if they coincide |
| SignalPlot.PlotBuckets | app/qt_xcp_host/native/xcp_core.cpp:80-91 | The bucket loop keeps every bucket's extremes with at most two samples a bucket |
| SignalPlot.PlotFew | app/qt_xcp_host/native/xcp_core.cpp:69-76 | Budgets one to three: the last sample; both end points; both end points and the interior sample of largest magnitude |
| SignalPlot.Extremes | app/qt_xcp_host/native/xcp_core.cpp:83-88 | Positions of the minimum and of the maximum of a bucket |
| SignalPlot.Bound | app/qt_xcp_host/native/xcp_core.cpp:272-281 | The binary search returns the first position with time at or after, or strictly after, the given time |
| SignalPlot.PlotRange | app/qt_xcp_host/native/xcp_core.cpp:261-287 | An invalid query is refused; otherwise exactly the samples with time in the range and at most one neighbour on each side are plotted within the budget, both neighbours of a gap included; only a range that misses the retained span is empty |
| SignalPlot.ValueAt | app/qt_xcp_host/native/xcp_core.cpp:289-319 | Found exactly inside the retained span; at a sample time the last sample with that time; otherwise a value on the segment between two neighbours with different times |
| SignalPlot.Interpolated | app/qt_xcp_host/native/xcp_core.cpp:312-316 | The weighted form lies on the segment and between the two values |
| RowMerge.MergedRows | app/qt_xcp_host/qt_host/native.py:197-215 | Lossless: row keys (time, occurrence) strictly increase, no row is empty, every cell is the sample carrying the row's key, projecting the rows onto a signal gives back its series, and two samples of any signals stand in one row if and only if their times are equal and equally many samples of that time precede each in its own signal |
| RowMerge.PlacedMeet | app/qt_xcp_host/qt_host/native.py:202-215 | Rows with increasing keys whose cells each carry the row's key bring together exactly the samples of equal time and turn |
| RowMerge.OccurrenceCounts | app/qt_xcp_host/qt_host/native.py:212-214 | In a sorted series the occurrence number is the number of earlier samples of the same time |
| RowMerge.MergeKey | app/qt_xcp_host/qt_host/native.py:204-215 | The inner loop pops exactly the heads with the least key into one row and merges at least one sample |
| RowMerge.PopKeepsHeads | app/qt_xcp_host/qt_host/native.py:207-214 | After a pop the heap again holds the next sample of every unfinished signal, with its occurrence number, and its key is larger |
| RowMerge.PopLeast | app/qt_xcp_host/qt_host/native.py:207 | A least entry by (time, occurrence, signal) and the rest |
| RowMerge.Snapshot | app/qt_xcp_host/native/xcp_core.cpp:236-248 | The copied array is the ring's window, oldest first |
| RowMerge.Rows | app/qt_xcp_host/qt_host/native.py:159-176 | The exported table is the lossless merge of what is retained: strictly increasing row keys, no empty row, every cell the retained sample with the row's key, every column reads back as the last `capacity` samples accepted for that signal since the last clear, and samples of the same time and turn share a row |
| XcpMemory.ReadMemory | shared/python/simrt_xcp/client.py:257-283 | On success exactly the bytes of the span whatever the chunking, each UPLOAD within MAX_CTO; the refusals in the source's order; on a link without faults it succeeds if and only if the arguments and the link pass the checks, and does so for every span in the address space with MAX_CTO of at least 2 |
| XcpMemory.WriteMemory | shared/python/simrt_xcp/client.py:285-300 | Nothing outside the span is ever touched; the refusals in the source's order; without faults it succeeds if and only if the arguments and the link pass the checks, and then the span holds exactly the payload; it does so for every span in the address space with MAX_CTO of at least 3 |
| XcpMemory.AddressableIff | shared/python/simrt_xcp/client.py:246-255 | The checks pass if and only if the extension has 8 bits and every byte of the span a 32-bit address |
| XcpMemory.DownloadAll | shared/python/simrt_xcp/client.py:298-300 | Chunked writes from SET_MTA on, each within MAX_CTO, add up to one write of the payload |
| XcpMemory.WriteThenRead | shared/python/simrt_xcp/client.py:257-300 | A write followed by a read of the same span gives back the payload |
| XcpMemory.WriteCharacteristic | shared/python/simrt_xcp/client.py:325-353 | Success means the span holds the requested bytes even on a link that corrupts writes; the change stays in the span |
| XcpMemory.PatchAppend | shared/python/simrt_xcp/client.py:299-300 | Two adjacent writes are one write of the concatenation |
| XcpMemory.BytesAppend | shared/python/simrt_xcp/client.py:274-282 | Two adjacent reads are one read of the joint span |
| CalibrationSession.LeavesNoTrace | shared/python/pyxcp_host/services/xcp_session.py:51-273 | From connect through any run of writes, restores, lost links, further connects, disconnects and failures to a disconnect(restore=True) that returns normally, slave memory is byte for byte what it was at the first connect, unless some call gave pending values up. Nothing is given up, whatever fails, in any run whose disconnects all restore and that does not connect again after a lost link; so there a normal return always means unchanged memory. In a run without disconnects and lost links on a link where nothing fails the disconnect does return normally |
| CalibrationSession.RunSession | shared/python/pyxcp_host/services/xcp_session.py:51-273 | Every run of session calls, each failing anywhere and writes corrupted within their span, keeps the journal invariant: memory differs from connect time only inside journalled spans, those are pairwise disjoint, and each journalled value is the connect-time bytes; a run in which no call gave pending values up keeps its reference and has left connect-time memory unless it is attached or has values pending; on any link, no call gives values up if every disconnect restores and no connect follows a lost link (nor a start in a session that is not live) |
| CalibrationSession.Session.WriteCalibrations | shared/python/pyxcp_host/services/xcp_session.py:175-208 | Done: every requested value is in effect and journalled. WriteFailed: everything the call journalled is restored except under an empty name; if none of its names was pending before, memory and journal are as before the call if and only if no empty name was requested and is pending now. Where nothing fails, a value that cannot be encoded ends the call with WriteFailed, or with RestoreFailed if only empty names were tried, and leaves no trace if and only if no empty name was tried. Refusals, each with its exact condition, change nothing. Changes stay in the spans of the requested names |
| CalibrationSession.Session.WriteEntries | shared/python/pyxcp_host/services/xcp_session.py:188-199 | The loop journals before it writes; what it has written is in effect and stays so, whether or not the next entry fails; where nothing fails it stops exactly at the first value that cannot be encoded |
| CalibrationSession.Session.WriteNext | shared/python/pyxcp_host/services/xcp_session.py:190-199 | One turn of the loop, successful or not: at most its own name is journalled, and the values written before stay in effect |
| CalibrationSession.Session.WriteOne | shared/python/pyxcp_host/services/xcp_session.py:190-198 | The original bytes are journalled before the first byte of the span can change |
| CalibrationSession.Session.RestoreCalibrations | shared/python/pyxcp_host/services/xcp_session.py:210-245 | Every entry that left the journal has its original bytes back in memory, the others are untouched; on failure one of the selected names is still pending; without names, success means memory equals connect time; where nothing fails it succeeds |
| CalibrationSession.Session.RestoreOne | shared/python/pyxcp_host/services/xcp_session.py:227-242 | An entry is forgotten only when its original bytes were read back |
| CalibrationSession.Session.Recover | shared/python/pyxcp_host/services/xcp_session.py:200-208 | The way out of a failed write: if it succeeds, exactly the names that were tried and are not empty have left the journal, and if none of the names was pending and no empty one is, no byte differs from before the call; with no other name than empty ones it fails at once; an empty name stays pending with its span untouched |
| CalibrationSession.EmptyNameStaysPending | shared/python/pyxcp_host/services/xcp_session.py:200-203 | Counterexample: a request with an empty name and a value that cannot be encoded; where nothing fails the call reports that it rolled back, while the value under the empty name stays in memory and pending |
| CalibrationSession.UniqueNames | shared/python/pyxcp_host/services/xcp_session.py:322-328 | The names that are not empty, each once |
| CalibrationSession.Session.Connect | shared/python/pyxcp_host/services/xcp_session.py:51-86 | On success the journal is empty and the reference is the memory now. Exactly the pending originals of a session that was not live are dropped without an attempt to put them back, and only if the slave answers; memory is that of the earlier connect if it was live or nothing was pending; a connect that drops nothing keeps the reference, also if it fails, and a session with nothing pending or a link stays so |
| CalibrationSession.ReconnectForgets | shared/python/pyxcp_host/services/xcp_session.py:51-75 | Counterexample across sessions: on a link where nothing else fails, a value written before the link was lost is still there, and differs from connect time, after connecting again and a disconnect(restore=True) that returns normally |
| CalibrationSession.Session.Disconnect | shared/python/pyxcp_host/services/xcp_session.py:247-273 | With restore, a normal return from an attached session means memory equals connect time; without restore it writes nothing and says which pending names it gave up; without a client and with pending values it refuses and keeps the journal; one that gives nothing up keeps the reference, and one that restores leaves nothing pending without a link that had one |
| CalibrationSession.Session.ValidateNonOverlapping | shared/python/pyxcp_host/services/xcp_session.py:307-320 | Accepts if and only if no request overlaps a journalled span of another name or another request |
| CalibrationSession.OverlapIff | shared/python/pyxcp_host/services/xcp_session.py:312-313 | Two spans overlap if and only if they share a location |
| CalibrationSession.JournalAdds | shared/python/pyxcp_host/services/xcp_session.py:191-196 | A value read before the first write of its name is still the connect-time value, and the spans stay disjoint |
| CalibrationSession.JournalDrops | shared/python/pyxcp_host/services/xcp_session.py:228-240 | Once the original bytes are back the entry may go |
| CalibrationSession.JournalEmpty | shared/python/pyxcp_host/services/xcp_session.py:258-265 | An empty journal means memory equals connect time |
| CalibrationSession.JournalCoversWrite | shared/python/pyxcp_host/services/xcp_session.py:197 | A write inside a journalled span, corrupted or not, is covered by the journal |
| CalibrationSession.RolledBack | shared/python/pyxcp_host/services/xcp_session.py:200-208 | A failed call none of whose names was pending, once rolled back, changed no byte |
| DaqFrames.EveryRun | shared/python/pyxcp_host/services/daq_acquisition.py:135-192 | Whatever frames arrive, since the decoder's last reset it got ODTs 0, 1, ..., n-1 over and over; a pending reset means ODT 0 comes next; the 16-bit counter is congruent to the first one plus accepted frames plus counted gaps; without a counted loss an orderly slave's events are never mixed |
| DaqFrames.RunFeed | shared/python/pyxcp_host/services/daq_acquisition.py:135-187 | A receiver active from the first frame on passes to the decoder, and counts, exactly what the reference fold over the frames does, about which EveryRun speaks |
| DaqFrames.Receiver.Feed | shared/python/pyxcp_host/services/daq_acquisition.py:135-187 | One frame does what the reference step says, and the result is the ODT handed to the decoder: an acceptable fresh one that is expected or 0; a closed policy ignores the frame and an inactive one takes only its counter |
| DaqFrames.Receiver.TakeCounter | shared/python/pyxcp_host/services/daq_acquisition.py:142-150 | Repeated and reordered counters are refused, losses are counted modulo 65536 |
| DaqFrames.Receiver.Envelope | shared/python/pyxcp_host/services/daq_acquisition.py:157-176 | The ODT index, exactly when identifier, list number, range and length are right; otherwise a reset is pending |
| DaqFrames.Receiver.Sequence | shared/python/pyxcp_host/services/daq_acquisition.py:177-187 | The order check, the lazy decoder reset and the hand-over |
| DaqFrames.EventPasses | shared/python/pyxcp_host/services/daq_acquisition.py:157-187 | Whatever came before, good fresh frames from ODT 0 on are all given to the decoder, event after event |
| DaqFrames.NothingUntilZero | shared/python/pyxcp_host/services/daq_acquisition.py:177-192 | After a fresh frame that the decoder is not given, it is given nothing more before an ODT 0 |
| DaqFrames.ForwardedArePassed | shared/python/pyxcp_host/services/daq_acquisition.py:183-187 | The ODTs the decoder has since its last reset are the last ones it was given |
| DaqFrames.GapsAreExact | shared/python/pyxcp_host/services/daq_acquisition.py:143-150 | Frames numbered by the slave, each less than half a revolution after the one before: the losses counted are exactly the numbers that did not arrive |
| DaqFrames.FreshIffLater | shared/python/pyxcp_host/services/daq_acquisition.py:144-150 | Frame numbers less than half a revolution apart: fresh if and only if later, and the loss counted is exactly the frames between |
| DaqFrames.AcceptsExactly | shared/python/pyxcp_host/services/daq_acquisition.py:157-176 | An envelope is accepted for ODT k if and only if its identifier, the overload bit aside, is that of k, it is of DAQ list 0, and it is long enough for the field and the ODT |
| DaqFrames.ContinuesKeeps | shared/python/pyxcp_host/services/daq_acquisition.py:183-187 | An expected frame continues the decoder's cycle and, without loss, its event |
| DaqFrames.StartsOverKeeps | shared/python/pyxcp_host/services/daq_acquisition.py:177-185 | Any other frame makes the decoder start over with it if it is ODT 0, or wait with a reset pending |
| DaqFrames.CountedKeeps | shared/python/pyxcp_host/services/daq_acquisition.py:142-150 | Taking a fresh counter keeps it congruent to first, accepted and gaps |
| DaqFrames.LossOfWholeEventMixes | shared/python/pyxcp_host/services/daq_acquisition.py:145-150 | Counterexample to same-event decoding: with two ODTs per event a loss of two frames is counted, yet the decoder gets ODT 0 of one event followed by ODT 1 of the next |
| DaqFrames.OrderCheckBlindSpot | shared/python/pyxcp_host/services/daq_acquisition.py:142-187 | With part of an event in the decoder and the next m frames of the slave lost, as the counter says, the receiver adds the following frame to that event although it is of another one if and only if m is a positive multiple of the ODT count |
| DaqFrames.SkippedFrames | shared/python/pyxcp_host/services/daq_acquisition.py:177-186 | The arithmetic behind it: after m skipped frames the expected ODT comes if and only if m is a multiple of the ODT count, in the same event only for m = 0 |
| DaqFrames.InOrderNext | shared/python/pyxcp_host/services/daq_acquisition.py:186 | Forwarding the expected ODT continues the cycle 0, 1, ..., n-1 |
| DaqSamples.RunQueue | shared/python/pyxcp_host/services/daq_acquisition.py:194-229 | Any interleaving of events and drains, timely or not: samples, drained and queued, and all counts are exactly those of folding the unwrapping verdicts over the events; received = drained + queued + dropped, the queue stays within its capacity, drained times strictly increase; in a timely run exactly the events later than all before are received, with their values and their exact true time since the first event over any number of wraps, and drained, queued and dropped are exactly those of the reference queue |
| DaqSamples.EveryEventCounted | shared/python/pyxcp_host/services/daq_acquisition.py:194-223 | Every event of any run is counted exactly once, as received, invalid or late |
| DaqSamples.QueueHoldsNewest | shared/python/pyxcp_host/services/daq_acquisition.py:220-223 | In any run every sample received is drained, queued or dropped, and the queue holds the newest of them: a full queue loses its oldest |
| DaqSamples.WrapsAreExact | shared/python/pyxcp_host/services/daq_acquisition.py:198-200 | In a timely run the wraps counted are exactly those of the target counter between the first and the newest event |
| DaqSamples.TimelyClock | shared/python/pyxcp_host/services/daq_acquisition.py:194-214 | After any timely run the clock shows true time since the first event, and its offset is that of the wraps counted |
| DaqSamples.PrepareGuardSuffices | shared/python/pyxcp_host/services/daq_acquisition.py:123-125 | When the target counter wraps in more than two periods, every run of back-to-back events is timely |
| DaqSamples.FreshIsExact | shared/python/pyxcp_host/services/daq_acquisition.py:197-214 | Less than half the modulus ahead: accepted, and the unwrapped time is exact again |
| DaqSamples.StaleRejectedIff | shared/python/pyxcp_host/services/daq_acquisition.py:197-209 | A repeated or late event of any age is rejected if and only if its raw time is at most half the modulus behind the newest one's; otherwise it is accepted with a later time |
| DaqSamples.RecentlyStaleRejectedIff | shared/python/pyxcp_host/services/daq_acquisition.py:197-209 | For an event at most half the modulus old: rejected if and only if no wrap of the counter lies between it and the newest event |
| DaqSamples.StaleAcrossWrap | shared/python/pyxcp_host/services/daq_acquisition.py:197-203 | Concrete stale event just before a wrap that is accepted as a future sample |
| DaqSamples.StaleByMoreThanHalf | shared/python/pyxcp_host/services/daq_acquisition.py:197-203 | Concrete stale event without any wrap in between, more than half the modulus old, that is accepted as a future sample |
| DaqSamples.SampleQueue.OnDaqList | shared/python/pyxcp_host/services/daq_acquisition.py:194-223 | An event is judged and stored exactly as its unwrapping verdict says; a timely later one is stored with its exact time since the first, a stale one changes nothing; the queue keeps the newest samples and counts what it drops |
| DaqSamples.SampleQueue.TakeTime | shared/python/pyxcp_host/services/daq_acquisition.py:195-215 | Acceptance is exactly 'later than the newest' while events are timely; accepted times strictly increase always |
| DaqSamples.SampleQueue.Store | shared/python/pyxcp_host/services/daq_acquisition.py:220-223 | Oldest out when full, newest in, and the accounting still adds up |
| DaqSamples.SampleQueue.Drain | shared/python/pyxcp_host/services/daq_acquisition.py:225-229 | The oldest samples in order, at most the limit; a limit below one is an error without effect |
| DaqSamples.SampleQueue.Perform | shared/python/pyxcp_host/services/daq_acquisition.py:194-229 | Any event or read, timely or not, does to samples and counts exactly what the fold does, and a timely one what the reference queue of true times does |
| DaqOwnership.EveryRun | shared/python/pyxcp_host/services/daq_acquisition.py:247-343 | Any run of starts and stops, each command reaching the slave or not and confirmed or not: a slave that streams has a policy of ours as its consumer, and when the acquisition is not active nothing streams and the client has the consumer it was found with |
| DaqOwnership.StopAlwaysRecovers | shared/python/pyxcp_host/services/daq_acquisition.py:314-319 | After any run, however it failed, one stop that the slave confirms leaves nothing behind |
| DaqOwnership.StartsAndStops | shared/python/pyxcp_host/services/daq_acquisition.py:247-343 | After any run that left nothing active: a start that goes well streams to a new policy of ours; one that fails is undone, unless the stop is not confirmed once our consumer is in place; and a stop ends what is active if and only if it is confirmed |
| DaqOwnership.RunAcquisition | shared/python/pyxcp_host/services/daq_acquisition.py:247-343 | The calls made in place end in exactly the state of the reference run, and every policy ever created is finalized unless it is the consumer |
| DaqOwnership.Acquisition.Start | shared/python/pyxcp_host/services/daq_acquisition.py:247-334 | Outcome and new state exactly as the course of the commands has it: a failure either undoes everything or, when the stop was not confirmed, keeps consumer and ownership so that it can be retried |
| DaqOwnership.Acquisition.Stop | shared/python/pyxcp_host/services/daq_acquisition.py:336-343 | Afterwards nothing is left behind, or nothing has changed and it can be retried |
| RealTimeRelease.EveryRun | toolchain/simrt_linux_target/src/simrt_rt_runtime.c:816-910 | After any passes of the generated main under any timing: next release = first grid point + (cycles + skipped) periods, one cycle a pass, and deadline misses <= skipped releases |
| RealTimeRelease.MissesIff | toolchain/simrt_linux_target/src/simrt_rt_runtime.c:715-733 | In the report, misses <= skipped if and only if the last active step ended by its next grid point or the misses at the last return of the wait were fewer than the skipped releases; otherwise they are one more; a stop seen after the skip is always covered |
| RealTimeRelease.MissWithoutSkip | toolchain/simrt_linux_target/src/simrt_rt_runtime.c:912-919 | With any period, a run of one step that ends one nanosecond late and is the last, by itself or by a stop signal: one deadline miss and no skipped release |
| RealTimeRelease.IntervalsTelescope | toolchain/simrt_linux_target/src/simrt_rt_runtime.c:480-490 | Interval totals telescope to last start minus first start, and minimum times samples <= total <= maximum times samples |
| RealTimeRelease.LegalNeverBack | toolchain/simrt_linux_target/src/simrt_rt_runtime.c:816-910 | The starts of the loop and of the model step never run back in a legal run |
| RealTimeRelease.RunRelease | toolchain/simrt_linux_target/src/simrt_rt_runtime.c:790-919 | For any sequence of clock readings, signals and sleep results: the passes made and the end of the run are exactly those that the readings determine; they are a legal run, of which the report prints exactly the counters, intervals, outlier counts and execution times; cycles, skipped releases and deadline misses are those of the releases as least grid points, one miss for every step still active a period after its release; an overflow is reported at a reading from which no release fits the 64-bit range; a run that ends by itself made every round |
| RealTimeRelease.MissesCounted | toolchain/simrt_linux_target/src/simrt_rt_runtime.c:715-733 | After any legal passes a miss was counted for every step that was still active a period after its release when the next wait was entered, and for no other; releases are the least grid points ahead |
| RealTimeRelease.ReportCounts | toolchain/simrt_linux_target/src/simrt_rt_runtime.c:715-733 | The report's misses count the last step too, if it was still active a period after its release at the ending's reading; cycles and skipped releases leave the next release on the grid |
| RealTimeRelease.ReleasesExist | toolchain/simrt_linux_target/src/simrt_rt_runtime.c:838-886 | Every legal run has such releases |
| RealTimeRelease.ReleasesUnique | toolchain/simrt_linux_target/src/simrt_rt_runtime.c:838-886 | And no others |
| RealTimeRelease.IntervalsDescribe | toolchain/simrt_linux_target/src/simrt_rt_runtime.c:480-490 | Count, minimum, maximum and total of the intervals are exactly those of the distances between neighbouring times |
| RealTimeRelease.ExecutionsDescribe | toolchain/simrt_linux_target/src/simrt_rt_runtime.c:523-541 | Likewise for the execution times |
| RealTimeRelease.OutliersCounted | toolchain/simrt_linux_target/src/simrt_rt_runtime.c:452-457 | The outlier counts are the numbers of intervals more than 50 us shorter, and longer, than the period |
| RealTimeRelease.PassReadings | toolchain/simrt_linux_target/src/simrt_rt_runtime.c:836-909 | A pass starts with the first reading at or after its release, the step begins and ends with the next two, and no check on the way found a stop |
| RealTimeRelease.UndisturbedCompletes | toolchain/simrt_linux_target/src/simrt_rt_runtime.c:836-919 | A run without stop, failed sleep or word from the background thread, with all readings a period inside the 64-bit range, makes and reports all its rounds unless the readings end before; if the clock moves on by a period within every w readings, w + 3 readings a round and one more are enough |
| RealTimeRelease.CalmPass | toolchain/simrt_linux_target/src/simrt_rt_runtime.c:836-909 | An undisturbed pass takes its release, and the next release is again at most a period ahead of the next reading |
| RealTimeRelease.OutliersBounded | toolchain/simrt_linux_target/src/simrt_rt_runtime.c:477-506 | In the report of any legal run, early intervals <= steps before the last that began more than 50 us after their release, and late intervals <= steps that began so late + skipped releases |
| RealTimeRelease.OneInterval | toolchain/simrt_linux_target/src/simrt_rt_runtime.c:477-506 | A single interval is early only after a late begin, and late only with a late begin or a skipped release |
| RealTimeRelease.Runtime.Round | toolchain/simrt_linux_target/src/simrt_rt_runtime.c:816-910 | One pass comes to exactly what its readings say, no release is taken before it is due, and counters, outlier counts and each statistic get exactly its interval |
| RealTimeRelease.Runtime.PostStop | toolchain/simrt_linux_target/src/simrt_rt_runtime.c:912-919 | The post of the stop semaphore finishes the step that is still active and counts its miss |
| RealTimeRelease.Runtime.Wait | toolchain/simrt_linux_target/src/simrt_rt_runtime.c:836-909 | The wait ends as its readings say and takes exactly as many; the release is the least grid point still ahead when the wait was entered, the step never starts before it, every skipped grid point is counted, one miss is counted exactly if the step before was still active a period after its release, and the cycle interval is the distance of the two starts |
| RealTimeRelease.Runtime.EnterWait | toolchain/simrt_linux_target/src/simrt_rt_runtime.c:836-844 | The step before is finished, its miss counted, and unless a stop is seen the missed grid points are skipped |
| RealTimeRelease.Runtime.SkipMissed | toolchain/simrt_linux_target/src/simrt_rt_runtime.c:841-844 | Every missed grid point up to now is skipped and counted, none else |
| RealTimeRelease.Runtime.FinishStep | toolchain/simrt_linux_target/src/simrt_rt_runtime.c:715-733 | A deadline miss is counted exactly when an active step ran past the next grid point |
| RealTimeRelease.Runtime.StepBegin | toolchain/simrt_linux_target/src/simrt_rt_runtime.c:470-521 | The interval error is the change of release lateness plus a whole number of skipped periods, so an early outlier needs a predecessor more than 50 us late; the statistics take exactly this interval |
| RealTimeRelease.Runtime.StepEnd | toolchain/simrt_linux_target/src/simrt_rt_runtime.c:523-541 | The execution time enters the statistics once per begun step |
| RealTimeRelease.NextIsLeast | toolchain/simrt_linux_target/src/simrt_rt_runtime.c:543-559 | The new release is on the grid, in the future, and the least such point not before the scheduled one |
| RealTimeRelease.NoOverflowInRange | toolchain/simrt_linux_target/src/simrt_rt_runtime.c:551-554 | Overflow is reported only within one period of the end of the 64-bit range |
| RealTimeRelease.ErrorExplained | toolchain/simrt_linux_target/src/simrt_rt_runtime.c:478-482 | Interval error = lateness now - lateness before + skipped periods, with the consequences for early and late outliers |
| RealTimeRelease.AddKeepsBounds | toolchain/simrt_linux_target/src/simrt_rt_runtime.c:483-490 | The mean stays between the recorded minimum and maximum |
| RealTimeRelease.SleepDeadline | toolchain/simrt_linux_target/src/simrt_rt_runtime.c:460-468 | At most half a millisecond before the release and never after it |
| RealTimeRelease.Runtime.SleepToward | toolchain/simrt_linux_target/src/simrt_rt_runtime.c:853-861 | The sleep loop ends as its readings say: again only after an interruption before the deadline |
| RealTimeRelease.Runtime.Spin | toolchain/simrt_linux_target/src/simrt_rt_runtime.c:874-881 | The busy tail ends at the first reading that reaches the release, or at a stop before it |
| NetworkTransaction.EveryRun | shared/python/pyxcp_host/services/network_configuration.py:174-336 | The invariant holds in every interleaving of configure, any number of confirms, the watchdog, crashes and passing time, the unlocked reads of the watchdog in the middle of a rewrite of the state file included |
| NetworkTransaction.RestoreExcludesConfirm | shared/python/pyxcp_host/services/network_configuration.py:228-245 | Once the watchdog has restored, no confirm ever succeeds; once confirm has set the marker, the watchdog never restores |
| NetworkTransaction.InTimeIsAllOrNothing | shared/python/pyxcp_host/services/network_configuration.py:174-245 | When configure and watchdog are through and configure got the lock in time, live state and files are both new if the marker was set by confirm, otherwise both old, however files were partly written on the way; a watchdog that gives up met a failed rollback, a state file left torn, or one that confirm was rewriting |
| NetworkProgress.ConfirmSucceedsIffInTime | shared/python/pyxcp_host/services/network_configuration.py:314-336 | From every reachable state in which configure is done and its work untouched, a confirm all of whose answers are good makes the change last if and only if it comes more than two seconds before the deadline; live state and all files are then new and stay so in every continuation, for any plan, persistent or not |
| NetworkProgress.RollbackSucceeds | shared/python/pyxcp_host/services/network_configuration.py:228-245 | From every reachable state past the deadline in which the watchdog's turn has come, a watchdog all of whose answers are good finishes: it restores live state and all files if and only if nobody has set the marker |
| NetworkProgress.ConfigureApplies | shared/python/pyxcp_host/services/network_configuration.py:284-310 | A configure that nothing stops applies the new live configuration and leaves a watchdog behind |
| NetworkProgress.ConfigureUndoes | shared/python/pyxcp_host/services/network_configuration.py:300-310 | A configure whose commands fail restores the old live configuration and calls the watchdog off |
| NetworkProgress.TooLateIsForGood | shared/python/pyxcp_host/services/network_configuration.py:318-335 | From two seconds before the deadline on no confirm succeeds any more, however far it has got short of the marker |
| NetworkProgress.RefusedChangesNothing | shared/python/pyxcp_host/services/network_configuration.py:314-325 | A confirm that is refused leaves everything as it was |
| NetworkProgress.FailedWriteIsUndone | shared/python/pyxcp_host/services/network_configuration.py:182-191 | A confirm that cannot write a file puts all files back and frees the lock |
| NetworkProgress.MarkerEndsWatchdog | shared/python/pyxcp_host/services/network_configuration.py:231-234 | A watchdog that sees the marker before the deadline is through at once |
| NetworkProgress.CrashIsTakenBack | shared/python/pyxcp_host/services/network_configuration.py:228-245 | A configure that dies while changing the live configuration leaves a mixture, which the watchdog takes back |
| NetworkProgress.ConfirmDies | shared/python/pyxcp_host/services/network_configuration.py:174-191 | A confirm that dies frees the lock and leaves the files as far as written; in the middle of the rewrite it leaves the state file torn |
| NetworkProgress.ConfirmGivesUp | shared/python/pyxcp_host/services/network_configuration.py:174-191 | A confirm gives up and frees the lock when the state file cannot be rewritten or the directory is gone |
| NetworkProgress.ConfigureFails | shared/python/pyxcp_host/services/network_configuration.py:284-310 | Without a watchdog nothing is begun and the directory goes; a configure that cannot take back what it has done leaves that to the watchdog |
| NetworkProgress.RollbackFails | shared/python/pyxcp_host/services/network_configuration.py:235-244 | A rollback whose commands fail reports it and gives up |
| NetworkProgress.TornErrorHappens | shared/python/pyxcp_host/services/network_configuration.py:174-245 | Concrete run: confirm dies while rewriting the state file, and the watchdog, which read it before, gives up on it with the new address in place |
| NetworkProgress.ConfirmedLife | shared/python/pyxcp_host/services/network_configuration.py:284-336 | A change that is configured, left alone for any time and then confirmed lasts if and only if the confirm was in time |
| NetworkTransaction.AllOrNothingIffInTime | shared/python/pyxcp_host/services/network_configuration.py:290-310 | After a successful configure and a finished watchdog the change is all or nothing if and only if configure took the lock before the watchdog's turn was over |
| NetworkTransaction.LateConfigureSticks | shared/python/pyxcp_host/services/network_configuration.py:290-310 | Concrete run: configure stalls before the lock until the watchdog has restored, then applies the new address, which nobody confirms and nobody takes back |
| NetworkTransaction.DeadWatchdogIffConfirmed | shared/python/pyxcp_host/services/network_configuration.py:228-230 | After a watchdog died reading the state file the new live configuration stays, and the change is all or nothing if and only if confirm set the marker |
| NetworkTransaction.DeadIsForGood | shared/python/pyxcp_host/services/network_configuration.py:318-320 | From two seconds before the deadline on, an unconfirmed change with a dead watchdog stays unconfirmed in every continuation |
| NetworkTransaction.BlindWatchdogSticks | shared/python/pyxcp_host/services/network_configuration.py:182-191 | Concrete run: a slow watchdog reads the state file while confirm rewrites it and dies; confirm then fails and gives up; the new address stays for good |
| NetworkTransaction.ErrorLeaves | shared/python/pyxcp_host/services/network_configuration.py:235-244 | A watchdog that gives up on a torn state file has restored nothing: the live configuration is new, the files are old, so the change is not all or nothing; if it gave up on a command that failed, a finished configure has left the live configuration new if and only if it came too late |
| NetworkTransaction.TornIsForGood | shared/python/pyxcp_host/services/network_configuration.py:235-244 | And it stays so in every continuation |
| NetworkTransaction.ErrorStep | shared/python/pyxcp_host/services/network_configuration.py:174-245 | No step of anyone changes what goes with a watchdog that gives up |
| NetworkTransaction.ConfigureKeeps | shared/python/pyxcp_host/services/network_configuration.py:284-310 | Every step of configure keeps the invariant |
| NetworkTransaction.WatchdogKeepsFiles | shared/python/pyxcp_host/services/network_configuration.py:193-245 | Restoring file by file keeps the record of what is old and what is new |
| NetworkTransaction.WatchdogKeepsTime | shared/python/pyxcp_host/services/network_configuration.py:231-245 | The watchdog acts only from the deadline on |
| NetworkTransaction.ConfirmKeepsFiles | shared/python/pyxcp_host/services/network_configuration.py:174-191 | Writing and undoing file by file after the write-ahead state keeps the files recoverable |
| NetworkTransaction.ConfirmKeepsTime | shared/python/pyxcp_host/services/network_configuration.py:314-335 | A confirm that got past the lock finds the watchdog's turn still to come or gives up |
| CircularQueue.Queue.Push | toolchain/simrt_linux_target/drivers/tc1013/src/simrt_tc1013_can.c:151-157 | Appends at the back unless full; full changes nothing |
| CircularQueue.Queue.Pop | toolchain/simrt_linux_target/drivers/tc1013/src/simrt_tc1013_can.c:158-165 | Removes the front unless empty |
| CircularQueue.Queue.ReplaceFront | toolchain/simrt_linux_target/drivers/network/src/simrt_network.c:404-406 | Overwrites the front in place and leaves the rest |
| CircularQueue.QueuedPush | toolchain/simrt_linux_target/drivers/network/src/simrt_network.c:374-377 | The cell at (head + count) modulo the capacity is none of the queued ones, and writing it appends |
| CircularQueue.QueuedPop | toolchain/simrt_linux_target/drivers/network/src/simrt_network.c:148-150 | Advancing the head modulo the capacity drops exactly the front |
| NetworkEndpoint.StreamIsPreserved | toolchain/simrt_linux_target/drivers/network/src/simrt_network.c:170-209 | TCP, every interleaving of model thread and worker, any read capacities: bytes returned by receive, then bytes queued, then the chunk under way are exactly the chunks that the socket yielded, as the steps have them, in order; nothing is dropped |
| NetworkEndpoint.TakenIsArrivals | toolchain/simrt_linux_target/drivers/network/src/simrt_network.c:186-199 | The bytes taken are those of the chunks that sockets yielded and that fit a packet, computed from the steps |
| NetworkEndpoint.DatagramsArrive | toolchain/simrt_linux_target/drivers/network/src/simrt_network.c:186-206 | UDP, every interleaving: the model got exactly the datagrams that arrived, in order, each cut to its buffer, but for those that found the queue full; the others wait |
| NetworkEndpoint.SentIsTaken | toolchain/simrt_linux_target/drivers/network/src/simrt_network.c:142-168 | Every interleaving: what was accepted is the data of the sends answered well since the connection began, and what was sent is exactly the first of it, as many bytes as the socket took |
| EndpointProgress.EverythingArrives | toolchain/simrt_linux_target/drivers/network/src/simrt_network.c:170-209 | From every reachable state of a stream, a model that reads on gets every byte that arrived |
| EndpointProgress.EverythingIsSent | toolchain/simrt_linux_target/drivers/network/src/simrt_network.c:142-169 | From every reachable state of a connection that is up, a socket that takes what it is offered gets every byte accepted, streams and datagrams alike |
| NetworkEndpoint.NothingStaleIsSent | toolchain/simrt_linux_target/drivers/network/src/simrt_network.c:89-100 | Every interleaving: what each connection sent is a prefix of what was accepted for it; an endpoint that is not up has an empty transmit queue and no partly sent packet; on one that is up, sent, being sent and queued are together what was accepted |
| NetworkEndpoint.Reachable | toolchain/simrt_linux_target/drivers/network/src/simrt_network.c:142-415 | Every state any interleaving of the atomic steps can reach satisfies the ledgers |
| NetworkEndpoint.RunEndpoint | toolchain/simrt_linux_target/drivers/network/src/simrt_network.c:142-415 | The steps done in place on circular queues end in exactly the state of the reference run; the model is handed a prefix of the bytes that arrived from a stream, and exactly the kept datagrams cut to its buffers |
| NetworkEndpoint.Endpoint.constructor | toolchain/simrt_linux_target/drivers/network/src/simrt_network.c:333-337 | A zeroed endpoint is pending, with nothing sent, taken or queued |
| NetworkEndpoint.Endpoint.Send | toolchain/simrt_linux_target/drivers/network/src/simrt_network.c:362-382 | Queued as a whole only on a connection that is up and with room, otherwise not at all, with the source's result code in the source's order of checks |
| NetworkEndpoint.Endpoint.Receive | toolchain/simrt_linux_target/drivers/network/src/simrt_network.c:383-415 | The result codes in the source's order, a pending error reported once; the data handed out is the oldest chunk or as much of it as fits |
| NetworkEndpoint.Endpoint.TakeFront | toolchain/simrt_linux_target/drivers/network/src/simrt_network.c:399-412 | A stream chunk larger than the buffer keeps its rest at the front; a larger datagram is cut and reported |
| NetworkEndpoint.Endpoint.ComeUp | toolchain/simrt_linux_target/drivers/network/src/simrt_network.c:235-266 | A connection that comes up starts with nothing queued and nothing sent |
| NetworkEndpoint.Endpoint.Dequeue | toolchain/simrt_linux_target/drivers/network/src/simrt_network.c:145-155 | The next packet is fetched only when none is under way |
| NetworkEndpoint.Endpoint.Transmit | toolchain/simrt_linux_target/drivers/network/src/simrt_network.c:159-168 | A partial send advances the offset by what the socket took; a datagram goes as a whole or counts as a failure |
| NetworkEndpoint.Endpoint.CloseSocket | toolchain/simrt_linux_target/drivers/network/src/simrt_network.c:91-93 | The packet under way is forgotten with the socket |
| NetworkEndpoint.Endpoint.ResetQueue | toolchain/simrt_linux_target/drivers/network/src/simrt_network.c:94-99 | The transmit queue is emptied together with the status going down; received chunks stay |
| NetworkEndpoint.Endpoint.LookForRoom | toolchain/simrt_linux_target/drivers/network/src/simrt_network.c:176-182 | A stream takes nothing from the socket without room |
| NetworkEndpoint.Endpoint.Recv | toolchain/simrt_linux_target/drivers/network/src/simrt_network.c:186-199 | A chunk that fits a packet is under way as it is; a longer one is dropped and reported |
| NetworkEndpoint.Endpoint.Store | toolchain/simrt_linux_target/drivers/network/src/simrt_network.c:200-206 | A stream chunk always finds room; a datagram that does not is reported and dropped |
| NetworkEndpoint.HandOutKeeps | toolchain/simrt_linux_target/drivers/network/src/simrt_network.c:401-411 | Handing out n bytes of the front chunk, cut or whole, keeps order and loses nothing |
| NetworkEndpoint.TransmitKeeps | toolchain/simrt_linux_target/drivers/network/src/simrt_network.c:166-167 | Sent, rest and queue still concatenate to what was accepted |
| NetworkEndpoint.NothingLeftToSend | toolchain/simrt_linux_target/drivers/network/src/simrt_network.c:89-100 | Not being up means nothing is left to send, so coming up starts a clean ledger |
| CanDriver.FramesStayWithTheirOwner | toolchain/simrt_linux_target/drivers/tc1013/src/simrt_tc1013_can.c:272-350 | In every interleaving a frame goes to the SDK only while the token it was queued under owns the channel and the device is connected, a received one goes to the model only while the token it was fetched under does; for every owner ever, frames come out in the order they went in, none twice, none of another owner's |
| CanDriver.NothingLostWhileOwned | toolchain/simrt_linux_target/drivers/tc1013/src/simrt_tc1013_can.c:285-346 | While a token owns its channel, frames given to the SDK, held by the worker and queued are together exactly the frames accepted; likewise for received frames; queues stay within capacity and a free channel holds nothing |
| CanProgress.AcceptedIsOffers | toolchain/simrt_linux_target/drivers/tc1013/src/simrt_tc1013_can.c:523-531 | In every interleaving the frames accepted are exactly those the model queued on an owned channel with room, each under the owner's token, in order |
| CanProgress.StoredIsKept | toolchain/simrt_linux_target/drivers/tc1013/src/simrt_tc1013_can.c:318-345 | In every interleaving the frames stored are exactly those the device yielded, in order, as many at a time as fit while their owner owned the channel |
| CanProgress.WorkerHolds | toolchain/simrt_linux_target/drivers/tc1013/src/simrt_tc1013_can.c:318-334 | What the worker holds for the queue is exactly what the device yielded last, under the token it asked for |
| CanProgress.AcceptedIsSent | toolchain/simrt_linux_target/drivers/tc1013/src/simrt_tc1013_can.c:272-350 | In every run, with the lifecycle thread idle, the worker alone brings every frame accepted for a channel's owner to the device |
| CanProgress.WorkerEmpties | toolchain/simrt_linux_target/drivers/tc1013/src/simrt_tc1013_can.c:272-350 | From every state the invariant allows, the worker's own steps empty both transmit queues |
| CanProgress.StoredIsRead | toolchain/simrt_linux_target/drivers/tc1013/src/simrt_tc1013_can.c:562-570 | A model that keeps reading an owned channel gets every frame stored for its owner |
| CanProgress.SetupInstalls | toolchain/simrt_linux_target/drivers/tc1013/src/simrt_tc1013_can.c:377-478 | A configure of a free channel that goes well installs a new owner with empty queues and leaves the other channel alone |
| CanProgress.SetupFails | toolchain/simrt_linux_target/drivers/tc1013/src/simrt_tc1013_can.c:377-456 | A configure that is refused, or whose device or worker fails, leaves channels, connection and worker as they were |
| CanProgress.ReleaseFrees | toolchain/simrt_linux_target/drivers/tc1013/src/simrt_tc1013_can.c:480-511 | A release frees its owner's channel and no other; with the last owner the worker is told to stop |
| CanProgress.JoinWaits | toolchain/simrt_linux_target/drivers/tc1013/src/simrt_tc1013_can.c:496-511 | The join waits for the worker to exit, and then the device is free again |
| CanDriver.OwnersAreDistinct | toolchain/simrt_linux_target/drivers/tc1013/src/simrt_tc1013_can.c:457-465 | Two channels never share a token, and a channel has an owner only while a live worker serves a connected device |
| CanDriver.NoDeadlock | toolchain/simrt_linux_target/drivers/tc1013/src/simrt_tc1013_can.c:377-510 | No deadlock over sdk_lock and the join of the worker: a blocked lifecycle thread leaves the worker able to move, a blocked live worker leaves the holder of the SDK able to move. Sections under queue_lock take no other lock and are part of one step |
| CanDriver.JoinEnds | toolchain/simrt_linux_target/drivers/tc1013/src/simrt_tc1013_can.c:496-508 | The join of the last release ends within five worker steps, hands nothing more to the SDK, and the model thread can change nothing at any of them |
| CanDriver.Reachable | toolchain/simrt_linux_target/drivers/tc1013/src/simrt_tc1013_can.c:272-570 | Every state any interleaving can reach satisfies the invariant |
| CanDriver.SendKeeps | toolchain/simrt_linux_target/drivers/tc1013/src/simrt_tc1013_can.c:307-317 | Handing one frame over under sdk_lock keeps the books: the token checked at line 301 still owns the channel |
| CanDriver.GrabKeeps | toolchain/simrt_linux_target/drivers/tc1013/src/simrt_tc1013_can.c:290-296 | Taking a batch moves it from the queue into flight, in order |
| CanDriver.StoreKeeps | toolchain/simrt_linux_target/drivers/tc1013/src/simrt_tc1013_can.c:335-345 | Received frames enter the queue only under the token they were fetched with, as many as fit |
| CanDriver.WorkerMoves | toolchain/simrt_linux_target/drivers/tc1013/src/simrt_tc1013_can.c:298-306 | The recheck under sdk_lock lets a batch through only for its present owner |
| CanDriver.InstallKeeps | toolchain/simrt_linux_target/drivers/tc1013/src/simrt_tc1013_can.c:457-468 | A new owner starts with empty queues and a token nobody ever had |
| CanDriver.ClearOwnerKeeps | toolchain/simrt_linux_target/drivers/tc1013/src/simrt_tc1013_can.c:484-501 | Clearing the owner under sdk_lock never takes it away from a frame being handed over |
| CanDriver.QueueKeeps | toolchain/simrt_linux_target/drivers/tc1013/src/simrt_tc1013_can.c:523-531 | An accepted frame is the last of its owner's frames |
| CanDriver.ReadKeeps | toolchain/simrt_linux_target/drivers/tc1013/src/simrt_tc1013_can.c:562-570 | The model gets the oldest received frame of the present owner |
| Asap2Blocks.AcceptedIffNested | shared/python/pyxcp_host/services/a2l_metadata.py:23-50 | A token sequence is accepted if and only if, comments aside, it spells properly nested content |
| Asap2Blocks.ReadsWhole | shared/python/pyxcp_host/services/a2l_metadata.py:23-50 | And what is built is exactly the block that content describes |
| Asap2Blocks.ReadBlocks | shared/python/pyxcp_host/services/a2l_metadata.py:23-50 | The loop with its stack computes that reading, with the source's three errors |
| Asap2Blocks.ReadsContent | shared/python/pyxcp_host/services/a2l_metadata.py:27-47 | Reading the tokens of some content fills the open block with it and goes on behind, at any depth |
| Asap2Blocks.ContentOf | shared/python/pyxcp_host/services/a2l_metadata.py:31-49 | From any accepted reading the nested content can be read off |
| Asap2Blocks.WrittenIsRead | shared/python/pyxcp_host/services/a2l_metadata.py:23-50 | Round trip: every tree of blocks with any texts, written out with quoted texts, is read back as it is, texts and nested blocks in their order |
| Asap2Blocks.FaultsAreTold | shared/python/pyxcp_host/services/a2l_metadata.py:35-49 | Behind well-formed blocks a boundary without a kind, an end without a block and a block without an end are each refused by name |
| Asap2Blocks.CaseIgnored | shared/python/pyxcp_host/services/a2l_metadata.py:31-31 | Boundaries are recognised in any letter case |
| Asap2Blocks.CommentsOfBothForms | shared/python/pyxcp_host/services/a2l_metadata.py:29-30 | Comments of both forms are no tokens |
| Asap2Blocks.CommentsIgnored | shared/python/pyxcp_host/services/a2l_metadata.py:29-34 | Comments, even between a boundary and its kind, change nothing |
| Asap2Blocks.QuotedRoundTrip | shared/python/pyxcp_host/services/a2l_metadata.py:45-46 | Every text with quotes and backslashes survives being written as a quoted string |
| GroupPaths.Resolve | shared/python/pyxcp_host/services/a2l_metadata.py:61-116 | Accepts if and only if the groups are complete, named apart, have one parent each and no cycle of parents is free of empty names; then a scalar has a place exactly when a group references it, and the place is the longest common prefix of the paths of all groups that do; the unknown-parent error cannot occur |
| GroupPaths.PathFor | shared/python/pyxcp_host/services/a2l_metadata.py:82-94 | The memoised recursion ends on every hierarchy, answers with the parent's path and one label, and reports a cycle only if there is one |
| GroupPaths.PathsIffAcyclic | shared/python/pyxcp_host/services/a2l_metadata.py:82-94 | Every group has a path if and only if no cycle of parents is free of empty names |
| GroupPaths.CyclesAreNamed | shared/python/pyxcp_host/services/a2l_metadata.py:89-92 | Without a group of empty name every cycle of parents is one the resolver refuses |
| GroupPaths.PathIsUnique | shared/python/pyxcp_host/services/a2l_metadata.py:82-94 | A group has at most one path, so memoising it changes nothing |
| GroupPaths.PathEndsWith | shared/python/pyxcp_host/services/a2l_metadata.py:88-94 | The last step of a path is the title of a numbered model group and the name of any other group |
| GroupPaths.CitesIff | shared/python/pyxcp_host/services/a2l_metadata.py:100-105 | A reference block cites the scalars it lists as measurement or characteristic, as its kind says |
| GroupPaths.SharedBelongsAbove | shared/python/pyxcp_host/services/a2l_metadata.py:61-116 | Concrete file: what two subgroups reference is placed at the model group by its title, what one references at that one |
| GroupPaths.PathMeansNoCycle | shared/python/pyxcp_host/services/a2l_metadata.py:85-86 | No group on a cycle free of empty names has a path |
| GroupPaths.Gather | shared/python/pyxcp_host/services/a2l_metadata.py:64-78 | Accepts exactly well-formed groups, with the error naming a defect that is there, and collects exactly the groups and parents given |
| GroupPaths.AdoptChildren | shared/python/pyxcp_host/services/a2l_metadata.py:73-78 | Every listed subgroup gets this parent unless it already has another |
| GroupPaths.CommonPrefix | shared/python/pyxcp_host/services/a2l_metadata.py:109-115 | The longest common prefix of two paths |
| GroupPaths.PlaceGroup | shared/python/pyxcp_host/services/a2l_metadata.py:97-115 | After a group every scalar's place is the longest path shared by all citations so far |
| GroupPaths.OrderIrrelevant | shared/python/pyxcp_host/services/a2l_metadata.py:61-116 | The same groups in any order are accepted or refused alike and place every scalar alike |
| GroupPaths.ExtendsParentIffNamed | shared/python/pyxcp_host/services/a2l_metadata.py:89-93 | A listed group's path extends the path of the group that lists it if and only if that group's name is not empty |
| GroupPaths.EmptyNameIsNoParent | shared/python/pyxcp_host/services/a2l_metadata.py:89-93 | Concrete accepted file where a subgroup of a group with an empty name is placed at the top |
| GroupPaths.EmptyNameHidesCycle | shared/python/pyxcp_host/services/a2l_metadata.py:85-92 | Concrete accepted file with a group that is its own parent under its empty name |

## Left out

- Floating point: doubles are `real` (or a non-finite marker that the code rejects), so rounding, overflow to infinity and signed zero are not modelled; the running totals kept in `long double` are exact here.
- Integer width: 64-bit sample sequences, saturating counters, 32-bit tokens and byte counts are unbounded; only the 16-bit transport counter, the timestamp modulus, 32-bit addresses and the overflow test of the release grid are explicit.
- RealTimeRelease.RunRelease: one begin and one end per wait, as the generated main calls them; any positive period, where the source accepts 1, 10 and 100 ms only; the 64-bit overflow of `next_release + period` after the range test is not modelled. Sleep and entry-delay counters, base-loop execution time, the outlier record and the status file are left out.
- RealTimeRelease.Runtime.Wait: a non-zero sleep status other than an interruption ends the run (`SleepError`), as `require_zero` does. The clock may stall for ever: readings are a finite input, and a run whose readings end before it does is `CutOff`.
- RealTimeRelease.SleepDeadline: negative releases and spin times outside 0 to 500 us give -1 as in the source and are not constrained further.
- RowMerge.MergedRows: rows are keyed by the index of a signal instead of its name; the heap is a set from which a least entry is taken, as `heapq` promises.
- RowMerge.Rows: reads all rings in one step, as the buffer does under its lock; CSV text is left out.
- Core handles, the registry, error strings and the mutex of the C interface.
- CalibrationSession.RunSession: the address catalogue is fixed while a session is connected, because loading another file disconnects first; memory changes only through the session; a client that loses its link does so between calls; starting an acquisition is not a session call here, and stopping it succeeds or fails as the call says.
- XcpMemory.WriteCharacteristic: encoding and decoding of values are not modelled; a value that cannot be encoded is `None`. Without verification (`verify=False`) is left out.
- DaqFrames.RunFeed: the policy is activated before the first frame; `Feed` alone covers an inactive or closed one.
- DaqSamples.SampleQueue.OnDaqList: the `timestamp_gap_samples` estimate is left out, and invalid frames are counted separately by `DaqFrames` and `DaqSamples` while the source keeps one count.
- DaqOwnership.Acquisition.Start: the checks of the selected measurements and of the slave's properties are one refusal; exchanging the consumer is one step that does not fail.
- NetworkTransaction.EveryRun: a rewrite of the state file is a truncation and a completion, and a read sees the old, the torn or the new file. The transaction is modelled on values, because its subject is interleaving; its lock is not a file. Removing the transaction directory is one step, opening the lock file never recreates it, and the token reaches `confirm` only through the result of `configure`; netplan merging, the `ip` commands and edits of the netplan files by others are abstract. An incomplete rollback (`rollback-error.txt`) is outside the all-or-nothing theorems and flagged `damaged`.
- NetworkEndpoint.RunEndpoint: one endpoint with its worker; configure, release and tokens of the network driver are not modelled (the CAN driver's are), and a release is the end of a run. The batch of eight receives is any number of them.
- CanDriver.NoDeadlock: `queue_lock` is not a lock of its own in the model; a section under it takes no other lock and is one step or part of one.
- CanDriver.FramesStayWithTheirOwner: received frames are those that pass the driver's own validity test; pending and setup errors, CAN FD mode, loading the SDK and its directory change are left out, and an API call that reports an error is a step without effect. Queues are sequences here, in this state machine; `CircularQueue` is the array behind them.
- CanDriver.Reachable: the CAN driver is modelled on values, because its subject is interleaving; update in place of its array queues is in `CircularQueue`.
- Asap2Blocks.ReadBlocks: starts from the tokens of the file; open blocks are values on the stack and become children when they close, where the source appends them when they open, so a partly read document is not modelled. Letter case is that of ASCII.
- The walk that skips A2ML blocks, the XCP endpoint metadata and scalar decoding of the ASAP2 reader.
- The user interface, remote shells, deployment, audit and build scripts, serial, DIO and EtherCAT drivers: plumbing, or thin wrappers whose models would only add easy members.
