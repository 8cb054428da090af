# Verified model of the media SDK

A Dafny model of the parts of the media SDK that keep state under adverse input: the jitter buffer, the
RTP sequence and timestamp clock with DTMF sending, the two rendezvous protocols (the synchronous pipe
and the RTP read stream), the mixer with its ring buffer, and the SDP offer/answer selection.

Code that changes things step by step is modelled by classes and loops (`PacketList`, `JitterBuffer`,
`RingBuffer`, `Mixer`, `Rtp`, the loop of `Dtmf.Write`, the loops of `Sdp` and `SdpText`). Each method is
proved to compute a function of the old abstract state, and what the program promises is proved about
those functions over every run. Code that runs in several goroutines is modelled by state machines whose
steps are single lock, channel or copy operations (`Pipe`, `Session`) or single critical sections
(`RtpModel`, `MixerModel.System`, `JitterModel.Step`), and the theorems quantify over all step sequences.

## The parts

- **Jitter buffer.** `PacketList` is the doubly linked list with its free pool on the heap; `JitterList`
  says what a list means (samples, places); `JitterBuffer` is the buffer with its two sequence lines;
  `JitterModel` and `JitterLines` are the same over values. `JitterSafety` holds what every run keeps, for
  arbitrary packets, clocks and operation orders. `JitterArrival` says in numbers what becomes of one packet
  pushed, `JitterRelease` when samples are let go and what is handed over. `JitterWindow` holds the exact accounting and ordering
  results for streams that stay in a window of fewer than 3000 sequence numbers, and `JitterDelivery` that
  a stream in the window whose packets arrive in time is handed over whole. `JitterLoss` says, for
  arbitrary streams, which numbers losses are measured between, and `JitterJumps` is a run in which a
  measure goes wrong.
- **RTP clock.** `RtpModel` has every function twice, told apart by a flag: with 32-bit wrapping
  timestamps, and with unbounded ones. The unbounded clock is easy to reason about and the 32-bit one is
  proved to follow it. `Rtp` is the writer and its streams as classes. `Dtmf` is the tick loop on top.
- **Pipe and session.** A step that is not enabled changes nothing, so every sequence of actions is a run.
  `PipeRace` is one particular run, and `PipeProgress` says that calls do not get stuck.
- **Mixer.** `RingBuffer` refines a bounded sequence, `MixerModel` has conservation and the clock, `Mixer`
  has the loops over inputs.
- **SDP.** `SdpText` prints and parses the crypto attribute, `Sdp` selects codec, DTMF payload and keys on
  both ends.

Time is an integer argument in nanoseconds. Callbacks are ghost logs: the packets given to `onPacket`, the
counters given to `onPacketLoss`, the frames written downstream, the RTP packets written. A writer that
may fail does so nondeterministically.

## Where code and comments differ

The model follows the code.

- `rtp/rtp.go:197` says that CurTS is always ahead of the latest packet written. It may also repeat that
  timestamp: `RtpModel.CurTSRepeats` is a run in which it does, and `RtpModel.CurTSAheadWhen` says exactly
  when it does not.
- `jitter/buffer.go:558-561` says that missingBetween is never given a number at or behind prevSN.
  `JitterJumps.MissingWrapsOutsideWindow` is a run in which it is. `JitterLoss.FlushMeasures`,
  `JitterLoss.PopReadyMeasures`, `JitterLoss.DropHeadMeasures` and `JitterLoss.SampleMeasures` say exactly
  when each operation does so: when an entry that is not marked discontinuous is at or behind the one
  before it. `JitterLoss.MeasuresAhead` says that no run does as long as every packet that is placed out
  of range of its predecessor is a partition head, as all audio packets are
  (`JitterLoss.AudioMeasuresAhead`), and `JitterLoss.WindowMeasuresAhead` that none does in the window.
- `jitter/lines.go:58` says that a line keeps the arrivals within lineWindow. It keeps all arrivals since
  the last count, which drops those older than lineParallel.
- A pipe is meant to deliver a prefix of what was written. A write that waits for the lock while the pipe
  is closed does not look at done again, and may still meet a reader after the write before it was cut
  short (`PipeRace.LateWriteBreaksPrefix`). `Pipe.ReceivedInPlace` says exactly when something is left out;
  nothing is unless a write takes the lock after the close (`Pipe.ChunksArePrefix`), which none can when no
  write waits for the lock at the close (`Pipe.CloseWithoutWaiters`). The count and error of each write are
  exact in any case (`Pipe.WriteOutcome`).

## Model

| member | source | states |
|---|---|---|
| `JitterList.RunLength` | jitter/packet.go:50-68 | the length found is that of a complete sample (partition head to first tail, consecutive numbers) at the head of the list, and it is 0 exactly when no prefix of the list is one |
| `JitterList.FromTailFits` | jitter/buffer.go:376-395 | the search from the tail always ends by inserting or freeing, never falls off the list, and inserts only between neighbours that are out of range of the packet or 1..2999 away in the right direction; it frees only a number already in the list |
| `JitterList.FromHeadFits` | jitter/buffer.go:397-415 | the same of the search from the head |
| `JitterList.PlaceFits` | jitter/buffer.go:356-423 | the five insertion cases together, for every list and every number other than those of head and tail: the packet finds a place that keeps adjacent numbers in order, or is a duplicate; nothing is lost |
| `JitterList.PlaceMarks` | jitter/buffer.go:356-423 | a packet is marked exactly when it is out of range of the one it is put after, the playing position standing before the first, and counted as reordered exactly when one comes after it |
| `PacketList.PacketList.NewPacket` | jitter/packet.go:30-47 | takes a node off the pool or allocates one; the node is in neither list, both lists stay well formed and disjoint, size counts it |
| `PacketList.PacketList.Free` | jitter/packet.go:70-78 | the node becomes the first of the pool; list, entries and links are as before |
| `PacketList.PacketList.PopHead` | jitter/buffer.go:546-556 | unlinks the first node; prev/next, head and tail form a doubly linked list of the rest |
| `PacketList.PacketList.HeadIsComplete` | jitter/packet.go:50-68 | walking the links answers whether the head starts a complete sample, as RunLength defines it |
| `PacketList.PacketList.TakeSample` | jitter/buffer.go:525-544 | the loop takes exactly the sample at the head, frees its nodes, never runs off the list, and keeps the packets that are not padding in order |
| `PacketList.PacketList.InsertFromTail` | jitter/buffer.go:376-395 | the pointer walk from the tail links the node where the value-level search says or frees it, and the assertion after the loop shows the walk never reaches the end of the list |
| `PacketList.PacketList.InsertFromHead` | jitter/buffer.go:397-415 | the same for the walk from the head |
| `PacketList.PacketList.LinkAmong` | jitter/buffer.go:356-423 | the switch over the five cases leaves a well-formed doubly linked list, disjoint from the pool, size equal to its length, with the packet where Place puts it and the discontinuity flag of its case |
| `PacketList.PacketList.Enqueue` | jitter/buffer.go:345-423 | a packet gets a node and its place, or its node goes back to the pool |
| `JitterLines.CountIsExact` | jitter/lines.go:91-101 | when arrivals are in order, count equals the number of arrivals in the window over the line's whole history, although it forgets the older ones |
| `JitterLines.VoteKeepsOrder` | jitter/lines.go:113-153 | every vote keeps both lines in the condition that makes the next counts exact |
| `JitterLines.TakeoverCondition` | jitter/lines.go:113-135 | a takeover happens exactly when the packet does not belong to the playing line and that line was silent for 60 ms without a rival that ran beside it for a second, or the rival has five arrivals and twice as many as the playing line in the window, told over full histories |
| `JitterLines.VerdictBounds` | jitter/lines.go:113-153 | an accepted packet is at most lineBehind behind the line then playing; a rejected one leaves that line's fields and history alone |
| `JitterLines.BelongsMeans` | jitter/lines.go:57-89 | a packet belongs to the playing line exactly when there is none yet, or it is at most 50 past or 100 behind the line's highest number and the alternate's highest does not lie between the two; the line's highest number and history afterwards |
| `JitterLines.RivalIs` | jitter/lines.go:117-121 | the alternate keeps its history and first arrival and takes the packet when it is near, and otherwise begins anew with it |
| `JitterLines.TakeoverMeans` | jitter/lines.go:137-152 | a takeover continues the stream exactly when the packet is 0..2999 ahead of the playing line; it counts as no restart exactly when it does so after a silence; the alternate then plays, with its history, and the other is empty |
| `JitterLines.NoTakeover` | jitter/lines.go:113-135 | without a takeover nothing is counted as a restart |
| `JitterBuffer.SeqLine.Add` | jitter/lines.go:77-87 | the fields updated in place are those of the value-level line |
| `JitterBuffer.SeqLine.Count` | jitter/lines.go:91-101 | the two loops drop and count exactly the leading arrivals older than lineParallel and than the window |
| `JitterBuffer.Buffer.AcceptLine` | jitter/lines.go:113-153 | the vote, the swap of the two line objects and the reset of the stream compute what the value-level vote says |
| `JitterBuffer.Buffer.constructor` | jitter/buffer.go:87-118 | a new buffer is empty and uninitialised, and its timer is set to fire after the latency |
| `JitterBuffer.Buffer.PopSample` | jitter/buffer.go:525-544 | hands over the sample at the head, and moves prevSN and the counters |
| `JitterBuffer.Buffer.DropIncomplete` | jitter/buffer.go:471-488 | the loop drops incomplete heads up to the expiry or all of them, counting what is missing before each unless it is discontinuous or the first |
| `JitterBuffer.Buffer.ReleaseReady` | jitter/buffer.go:432-452 | the release loop equals the recursive definition Release, loss flag included |
| `JitterBuffer.Buffer.PopReady` | jitter/buffer.go:427-458 | one call drops expired incomplete heads, releases what may go, and sets the timer for the head that is left |
| `JitterBuffer.Buffer.FlushLocked` | jitter/buffer.go:498-523 | the flush loop equals the recursive definition Drain after dropping incomplete heads, and reports loss when there was any |
| `JitterBuffer.Buffer.SwitchStream` | jitter/buffer.go:255-272 | flushes, forgets the position and both lines, and counts a switch |
| `JitterBuffer.Buffer.Enqueue` | jitter/buffer.go:345-423 | places a packet in the list and counts duplicates and reordering |
| `JitterBuffer.Buffer.Push` | jitter/buffer.go:294-424 | the whole push on the linked structure computes what the value-level Push says of its abstract state |
| `JitterBuffer.Buffer.PushAt` | jitter/buffer.go:184-194 | one critical section: push, then popReady unless the list is empty |
| `JitterBuffer.Buffer.OnTimer` | jitter/buffer.go:427-458 | a timer expiry is a step of the state machine |
| `JitterBuffer.Buffer.FlushAll` | jitter/buffer.go:490-496 | Flush, and Close but for the timer, is a step of the state machine |
| `JitterBuffer.Buffer.UpdateLatency` | jitter/buffer.go:160-168 | sets the latency and moves the timer of a waiting head |
| `JitterSafety.AlwaysSafe` | jitter/buffer.go:160-523 | in every run of pushes of arbitrary packets, timer expiries, flushes and latency changes: adjacent packets in range of each other are 1..2999 apart; PacketsPushed is the sum of popped, dropped, duplicate, waiting and padding discarded on arrival; every sample given to onPacket is the non-padding part of a complete run, which popReady releases only as first, contiguous, discontinuous or at least the latency old; the loss handler last heard the current counters; and a waiting head has the timer set for its deadline |
| `JitterSafety.FlushKeeps` | jitter/buffer.go:498-523 | every flush, and so every stream reset, ends with an empty list, keeps the accounts, and has reported every loss |
| `JitterSafety.PopReadyAdvances` | jitter/buffer.go:427-486 | a head held longer than the latency is taken off by one call, complete or not |
| `JitterSafety.Settles` | jitter/buffer.go:427-486 | at a fixed clock value, at most as many calls of popReady as there are packets leave no head older than the latency |
| `JitterSafety.RejectionIsHarmless` | jitter/buffer.go:312-324 | pushing a packet of a line that is not playing leaves the list, prevSN, the timer and the playing line with its history alone, and only counts the packet: dropped and stray up by one and reported, or one more padding packet discarded |
| `JitterSafety.NewStreamStarts` | jitter/buffer.go:303-353 | the first packet of another SSRC, or of a line that takes over without being 0..2999 ahead of the playing one, is never expired: it is the only packet of an uninitialised buffer, and one switch, or one restart, is counted |
| `JitterSafety.AcceptedIsPlain` | jitter/buffer.go:312-424 | every other accepted packet is taken as by a buffer that does not tell lines apart: list, position, counters and log are the same, but for one restart counted when a takeover did not follow a silence |
| `JitterArrival.AheadIsKept` | jitter/buffer.go:326-424 | a packet 1..0x8000 ahead of prevSN, or any before something has played, whose number does not wait yet is put on the list: the list is one longer, with the packet and its flags between neighbours out of range or 1..2999 apart; reordered is up by one exactly when a packet comes after it; dropped, duplicate and everything else are as before |
| `JitterArrival.BehindIsDropped` | jitter/buffer.go:326-335 | a packet at prevSN or less than half the circle behind it leaves the list alone, counts as dropped and is reported; padding is discarded silently |
| `JitterArrival.DuplicateIsDropped` | jitter/buffer.go:337-343 | a packet whose number waits at an end of the list, or anywhere in the window, leaves the list alone and counts as duplicate |
| `JitterArrival.EarlyPaddingIsDropped` | jitter/buffer.go:294-301 | padding that comes before anything has played is counted and discarded |
| `JitterRelease.NothingReadyWaits` | jitter/buffer.go:432-452 | after popReady no complete sample heads the list that is the first, contiguous, discontinuous or at least the latency old |
| `JitterRelease.ReleasesWhen` | jitter/buffer.go:427-488 | popReady takes packets off exactly when the head is a complete sample of one of those kinds, or incomplete and older than the latency; otherwise what is played, counted and reported stays as it was |
| `JitterRelease.PopReadyHandsOver` | jitter/buffer.go:427-488 | popReady breaks up no complete sample: those released, followed by those that wait, are what they were |
| `JitterRelease.FlushHandsOver` | jitter/buffer.go:498-523 | a flush releases every complete sample that waits, whole and in order |
| `JitterRelease.PopReadyReports` | jitter/buffer.go:443-468 | in popReady the loss handler is called exactly when lost or dropped grew |
| `JitterRelease.FlushReports` | jitter/buffer.go:498-523 | so it is in a flush, at most once |
| `JitterSafety.LinesStayOrdered` | jitter/lines.go:77-105 | in every run whose arrival times do not decrease, both lines keep exact histories |
| `JitterSafety.TakeoverInRuns` | jitter/lines.go:113-135 | the takeover condition, in any such run, over the full histories of both lines |
| `JitterWindow.FromTailOrders` | jitter/buffer.go:376-395 | in the window the search from the tail finds the one place that keeps the list ascending |
| `JitterWindow.PlaceOrders` | jitter/buffer.go:356-423 | in the window every insertion keeps the list ascending and is never marked discontinuous |
| `JitterWindow.Accounting` | jitter/buffer.go:427-564 | over any run in the window, the unrolled advance of prevSN is the packets popped plus the incomplete packets dropped off the list plus the increase of PacketsLost, and every waiting packet stays 1..2999 ahead |
| `JitterWindow.InOrderDelivery` | jitter/buffer.go:326-424 | whatever the reordering, duplication and delay, everything given to onPacket is strictly ascending in the sender's extended sequence numbers, without repeats, across wraps |
| `JitterWindow.FirstSamplePlays` | jitter/buffer.go:345-374 | a first sample of any number of packets arriving in order before its head is overdue is handed over whole and puts a new buffer in the window |
| `JitterDelivery.HeadIsNext` | jitter/packet.go:50-68 | when every packet up to the end of a sample has arrived, the head of the list is the next number and its sample is complete |
| `JitterDelivery.ReleaseHolds` | jitter/buffer.go:432-452 | when every packet is in time, releasing samples finds nothing missing and keeps every packet that arrived waiting or handed over |
| `JitterDelivery.DeliveredInTime` | jitter/buffer.go:294-458 | in the window, in every run in which no packet is held for the latency while one before it or of its sample is still to come: nothing is lost, nothing incomplete is dropped off the list, and every packet up to the end of a sample by which all have arrived is handed over, whatever the reordering, duplication and wraps |
| `JitterLoss.FlushMeasures` | jitter/buffer.go:498-523 | a flush of an initialised buffer gives missingBetween a number at or behind prevSN exactly when some entry not marked discontinuous is at or behind the one before it, prevSN coming before the first |
| `JitterLoss.PopReadyMeasures` | jitter/buffer.go:427-486 | the same of popReady, for the entries it takes off |
| `JitterLoss.DropHeadMeasures` | jitter/buffer.go:474-483 | dropping an incomplete head measures a number at or behind exactly when the buffer is initialised and the head is not marked and at or behind prevSN |
| `JitterLoss.SampleMeasures` | jitter/buffer.go:503-511 | releasing the sample at the head of an initialised buffer does so exactly when the head is not marked and at or behind prevSN |
| `JitterLoss.PlaceForward` | jitter/buffer.go:345-423 | in an arbitrary list in which every entry is marked or 1..2999 ahead of the one before it, a packet is placed 1..2999 ahead of its predecessor unless the place is flagged out of range, and what follows it is marked or 1..2999 ahead of it |
| `JitterLoss.MeasuresAhead` | jitter/buffer.go:293-564 | in every run, with arbitrary jumps, SSRC switches and line restarts, in which each packet placed out of range of its predecessor is a partition head, every number given to missingBetween is 1..2999 ahead of prevSN |
| `JitterLoss.AudioMeasuresAhead` | rtp/jitter.go:87-93 | so it is in every run of audio packets, which are all partition heads |
| `JitterLoss.WindowMeasuresAhead` | jitter/buffer.go:558-564 | so it is in every run in the window |
| `JitterJumps.MissingIsExact` | jitter/buffer.go:562-564 | of two extended numbers, missingBetween gives the count of those between exactly when the first is ahead of the second by at most 65536 |
| `JitterJumps.MissingWrapsOutsideWindow` | jitter/buffer.go:558-564 | a concrete run of four packets and a flush in which missingBetween is given 10000 and prevSN 30000, and 45535 packets are counted lost for that jump, which the comment on missingBetween rules out |
| `Ring.WriteIsPushes` | ring/buffer.go:99-107 | writing in bulk leaves what pushing each element leaves, for every contents, input and capacity |
| `Ring.WriteSplits` | ring/buffer.go:136-166 | splitting a write in two changes nothing |
| `Ring.AdvanceIsModulo` | ring/buffer.go:70-134 | the wrap by subtraction is reduction modulo the capacity |
| `Ring.Buffer.TryPop` | ring/buffer.go:70-80 | takes the oldest element, or says that there is none |
| `Ring.Buffer.TryPush` | ring/buffer.go:88-97 | adds an element exactly when there is room |
| `Ring.Buffer.Push` | ring/buffer.go:99-107 | adds an element and keeps the last Size |
| `Ring.Buffer.ReadChunk` | ring/buffer.go:115-131 | one copy of a read moves a prefix of the contents, whatever the position of the wrap |
| `Ring.Buffer.Read` | ring/buffer.go:109-134 | returns and removes exactly the first min(len(p), Len) elements, and leaves the rest of p alone, for every position of the wrap and the full flag; EOF exactly when p has room and there is nothing |
| `Ring.Buffer.Write` | ring/buffer.go:136-166 | leaves the last Size elements of the old contents followed by p, and returns len(p) |
| `MixerModel.WriteKeepsIntact` | mixer/mixer.go:387-400 | a write keeps each input's account: written = mixed + discarded + held, the held samples being the last written |
| `MixerModel.ReadKeepsIntact` | mixer/mixer.go:353-369 | a read keeps it too, through buffering and starving |
| `MixerModel.WriteGives` | mixer/mixer.go:387-400 | a write that fits loses nothing; one that does not leaves the input full of the latest samples, and counts the frame and the samples dropped |
| `MixerModel.ReadGives` | mixer/mixer.go:353-369 | a read gives the oldest samples held, as many as there are up to the size of a mix, and none while too few are buffered; an empty read counts as a restart |
| `MixerModel.SamplesConserved` | mixer/mixer.go:166-187 | over any interleaving of joins, writes and reads, InputSamples = MixedSamples + InputSamplesDropped + samples held by all inputs ever created, and an input that never overflowed contributes exactly a prefix of its written stream, in order |
| `MixerModel.SumsFit` | mixer/mixer.go:181-185 | with at most 65535 inputs the 32-bit sums do not wrap |
| `MixerModel.MixedIsClipped` | mixer/mixer.go:202-210 | with at most 65535 inputs of 16-bit samples, sample j of a mix is the plain sum of the j-th samples given when that lies in -32767..32767, and 32767 or -32767 when it is above or below |
| `MixerModel.OutputsAreClipped` | mixer/mixer.go:195-232 | so is every sample of all the mixes of one firing, each of what the inputs hold by then |
| `MixerModel.UpdateOnSchedule` | mixer/mixer.go:234-271 | one firing keeps the mixed time at one period per mix since the anchor, and the clock within a quarter period behind and three quarters ahead |
| `MixerModel.NoDrift` | mixer/mixer.go:234-271 | so does every run of nondecreasing clock readings |
| `MixerModel.AnchoredOnce` | mixer/mixer.go:238-267 | without a timing reset lastMixEndTs = first tick + (mixCnt - 1) * tickerDur, whatever the clock does |
| `Mixer.Input.WriteSample` | mixer/mixer.go:387-400 | an input on its ring buffer does what the value-level write says, counters included |
| `Mixer.Input.ReadSample` | mixer/mixer.go:353-369 | the samples given out are the first ones held; nothing is read while buffering; an empty read starts buffering again |
| `Mixer.Mixer.MixInputs` | mixer/mixer.go:166-187 | the accumulating loop leaves in every position the wrapped sum of the samples of all inputs that gave one, and reads each input once |
| `Mixer.Mixer.MixOnce` | mixer/mixer.go:195-232 | one mix puts out one frame, directly or over the output channel, whose samples are the clipped plain sums of what the inputs gave, and takes that from them |
| `Mixer.Mixer.Send` | mixer/mixer.go:215-231 | a frame is written directly, or joins the channel, a blocked mix counted when that is full; frames put out are those written followed by those in the channel, in order |
| `Mixer.Mixer.Writer` | mixer/mixer.go:273-285 | the writer behind the channel writes the oldest frame; nothing is lost or reordered |
| `Mixer.Mixer.Due` | mixer/mixer.go:234-267 | the clock arithmetic equals the value-level Update, and at most inputBufferFrames mixes are due |
| `Mixer.Mixer.MixUpdate` | mixer/mixer.go:234-271 | one firing runs exactly the due mixes, frame by frame |
| `Mixer.Mixer.NewInput` | mixer/mixer.go:308-329 | a new input is buffering with room for inputBufferFrames frames; a stopped mixer gives none |
| `Mixer.Mixer.RemoveInput` | mixer/mixer.go:331-343 | removes exactly the given input and keeps the order of the others; one that is not there changes nothing |
| `RtpModel.SequenceNumbers` | rtp/rtp.go:220-238 | in every interleaving of the critical sections of all streams, failed writes included, the packets written carry consecutive sequence numbers modulo 65536 |
| `RtpModel.WritesAreTries` | rtp/rtp.go:219-238 | in every interleaving, the packets written are those the writer downstream took, in order, with the timestamp of their stream; the first try, even a failed one, anchors its timestamp to its time for good; and the unbounded clock's latest timestamp is that of the packets written |
| `RtpModel.FramesRounds` | rtp/rtp.go:193-195 | the rounding gives the nearest number of whole frames, and of two equally near the one farther from zero |
| `RtpModel.WallIs` | rtp/rtp.go:193-195 | the projection of the wall clock is the anchor plus whole frames, within half a frame of the time passed |
| `RtpModel.SyncIs` | rtp/rtp.go:315-324 | syncing sets that stream alone to the projection of the wall clock, or before any write to the latest timestamp |
| `RtpModel.FollowsIdeal` | rtp/rtp.go:193-238 | while no comparison spans 2^31 ticks, the 32-bit clock is the unbounded clock modulo 2^32 in every interleaving |
| `RtpModel.IdealAdvances` | rtp/rtp.go:290-302 | in the unbounded clock consecutive packets of the automatic stream are at least a frame apart, in every run |
| `RtpModel.AutoStreamAdvances` | rtp/rtp.go:290-302 | so the program's timestamps are 32-bit images of numbers that grow by at least a frame each |
| `RtpModel.CurTSBounds` | rtp/rtp.go:197-217 | the corrected timestamp is neither behind the latest written nor more than ten frames behind the wall clock, and where it is ahead of both the latest written and the stream it is within half a frame of the wall clock |
| `RtpModel.CurTSAheadWhen` | rtp/rtp.go:197-217 | it is strictly ahead of the latest written exactly when the stream already was, or the wall clock is more than ten frames ahead of it; otherwise it repeats it |
| `RtpModel.CurTSRepeats` | rtp/rtp.go:197-217 | a run, for every frame size and number of frames, in which a manual stream syncs and writes and CurTS then returns that packet's own timestamp, so it is not always ahead of the latest packet written |
| `RtpModel.JitterImmunity` | rtp/rtp.go:199-217 | while each correction finds the rounded wall clock at most ten frames ahead and no other stream ahead, the n-th automatic packet has timestamp start + n frames, exactly, modulo 2^32 |
| `RtpModel.StartsSteady` | rtp/rtp.go:240-253 | a new automatic stream is in that condition, at the latest timestamp written |
| `Rtp.SeqWriter.CurTS` | rtp/rtp.go:199-217 | the 32-bit branches compute the value-level correction |
| `Rtp.SeqWriter.WriteEvent` | rtp/rtp.go:219-238 | anchors on the first write, and on success numbers the packet and raises maxTS; a failed write changes nothing but the anchor |
| `Rtp.SeqWriter.NewStream` | rtp/rtp.go:240-253 | refuses another clock rate and a second automatic stream, and does so only then |
| `Rtp.Stream.WritePayload` | rtp/rtp.go:289-302 | the two critical sections in a row; the stream moves on by a frame only when the write succeeded |
| `Rtp.Stream.WritePayloadAtCurrent` | rtp/rtp.go:304-313 | writes at the stream's timestamp and does not move it; refused on the automatic stream |
| `Rtp.Stream.SyncTimestamp` | rtp/rtp.go:315-324 | sets the projected wall-clock timestamp; refused on the automatic stream |
| `Dtmf.CodesInvert` | dtmf/dtmf.go:168-199 | the two tables are inverse to each other, for every character and every code |
| `Dtmf.CodeTable` | dtmf/dtmf.go:194-199 | digits have the codes 0 to 9, star 10, hash 11 and the letters 12 to 15, and nothing else has one (section 3.2 of RFC 4733) |
| `Dtmf.EncodeBytes` | dtmf/dtmf.go:253-267 | the payload is the code, the end bit above the low six bits of the volume, and the duration with its high byte first (section 2.3 of RFC 4733) |
| `Dtmf.RoundTrip` | dtmf/dtmf.go:209-267 | decoding what was encoded gives the event back |
| `Dtmf.Write` | dtmf/dtmf.go:281-386 | the loop stops after 26 ticks per character and 25 per 'w', having sent exactly the packets and audio frames that the recursive definitions Packets and Audio list; cancelled or stopped by a write error, it has sent a prefix of each, up to what stopped it |
| `Dtmf.PacketCount` | dtmf/dtmf.go:351-382 | 15 packets for each recognised digit and none for anything else |
| `Dtmf.DigitsWellSent` | dtmf/dtmf.go:351-382 | for every digit of every string: one timestamp, that of its first tick, a marker on the first packet only, durations one step a tick, and the end packet three times (section 2.5.1.4 of RFC 4733) |
| `Dtmf.TicksCount` | dtmf/dtmf.go:320-350 | a call takes 26 frames for each digit and 25 for each delay |
| `Dtmf.AudioOfDigit` | dtmf/dtmf.go:320-350 | at its place in the audio each digit is 13 frames of its tone and 13 of silence, a delay 25 of silence |
| `Dtmf.DurationsGrow` | dtmf/dtmf.go:353-361 | durations are the time passed in whole units of the rate, never shrink, and grow by equal steps when the rate divides a frame evenly |
| `Dtmf.DigitsDistinct` | dtmf/dtmf.go:366-368 | digits sent without audio get timestamps at least 25 frames apart |
| `Pipe.AlwaysInv` | pipe.go:53-126 | the invariant of the protocol holds in every interleaving of any number of readers, writers and closes |
| `Pipe.ChunksArePrefix` | pipe.go:53-99 | in every run in which no write takes the lock after the close, however many receives come after it, what was received is a prefix of what was written, in the order of the lock |
| `Pipe.ReceivedInPlace` | pipe.go:53-99 | in every run the chunks received are, in order, what each write delivered in the order of the lock, each element the one written at its place and places only going up; nothing is left out exactly when no write that took the lock after one cut short delivered an element |
| `Pipe.CloseWithoutWaiters` | pipe.go:79-109 | if no write waits for the lock when the pipe is closed, the prefix holds in every continuation |
| `PipeRace.LateWriteBreaksPrefix` | pipe.go:60-97 | a run in which a write takes the lock after the close, behind one that was cut short, meets a waiting read, and the data received is not a prefix of the data written |
| `Pipe.WriteOutcome` | pipe.go:79-99 | for every write that has returned, the chunks received from it are the first n elements of its data, each returned by its own read; n is all of them when there is no error, which otherwise is the readers' or ErrClosedPipe |
| `Pipe.ReadOutcome` | pipe.go:53-68 | a read that fails took nothing, and its error is the writers' or ErrClosedPipe |
| `Pipe.OnePair` | pipe.go:60-64 | a write waiting on rdCh always has exactly one reader between its receive and its reply, and the other way round |
| `PipeProgress.MeetMoves` | pipe.go:53-64 | a read takes the longest prefix of what is left of the write that its buffer holds, and no other call is touched |
| `PipeProgress.NeverStuck` | pipe.go:53-99 | in every reachable state with a write and a read in progress, or either once the pipe is closed, some call in progress can take a step |
| `Session.AlwaysInv` | rtp/session.go:164-237 | the invariant of the read stream holds in every interleaving of one reader, the serialised writers and the close |
| `Session.ReturnsInOrder` | rtp/session.go:164-237 | packets returned are an in-order subsequence of those written, without repeats, header and payload from one packet, the payload cut to the caller's buffer |
| `Session.OnlyTheseAreLost` | rtp/session.go:164-187 | in every run a packet written is returned, on its way to the reader, queued or being written, exactly unless it found ten packets queued or was copied for a reader that the close took away |
| `Session.NeverStuck` | rtp/session.go:164-237 | in every reachable state some call in progress can take a step, unless the only one is a read that waits on an empty queue of an open stream |
| `Session.BuffersAreLeftAlone` | rtp/session.go:202-215 | once ReadRTP has returned, the caller's buffers are never written again, in any continuation |
| `Session.OfferMeansEmptyQueue` | rtp/session.go:192-216 | while a reader's buffers are on offer the queue is empty, so a direct copy never overtakes a queued packet |
| `SdpText.AtoiOfItoa` | sdp/offer.go:636-639 | every 64-bit index survives printing and parsing |
| `SdpText.PrintParse` | sdp/offer.go:116-129 | parsing a printed crypto attribute gives the profile back without MKI and lifetime, its key material cut anew after 16 or 32 bytes as its cipher says, and fails exactly when there are fewer; for every profile whose name has no space |
| `SdpText.AttributeText` | sdp/offer.go:116-129 | the text is the tag in decimal, the name and inline: with the encoded key and salt, as section 9.1 of RFC 4568 has it |
| `SdpText.OtherKeysAreIgnored` | sdp/offer.go:636-644 | keys in another form are ignored, unless the tag is not a number |
| `SdpText.ProperSurvives` | sdp/offer.go:629-698 | a supported profile with a key of the right length comes back unchanged but for MKI and lifetime |
| `SdpText.PrintParseAll` | sdp/offer.go:116-129 | a list of profiles arrives complete and in order |
| `SdpText.ParseProfiles` | sdp/offer.go:774-781 | the loop keeps the good attributes in order, skips those to be ignored, and fails on the first bad one |
| `Sdp.SelectDtmf` | sdp/offer.go:874-891 | the two searches find the first telephone-event entry of the audio clock rate, else the first of the highest lower rate (the last one when all are negative), and none only when there is none |
| `Sdp.SelectAudio` | sdp/offer.go:854-896 | the loop finds the first entry of an answer, or the first of highest priority of an offer, and the DTMF entry for its clock rate |
| `Sdp.SelectedIsUnique` | sdp/offer.go:854-896 | these conditions leave one choice for every description |
| `Sdp.AnswerReselects` | sdp/offer.go:390-401 | selecting again from the answer's single audio and data entries gives the answerer's choice, for every offer |
| `Sdp.Match` | sdp/offer.go:902-910 | the answerer's first profile that is supported and was offered |
| `Sdp.SelectCrypto` | sdp/offer.go:898-949 | the loop, with its swaps of keys, salts and MKIs, computes the pairing of that profile with the first offered one of its name |
| `Sdp.ChosenIs` | sdp/offer.go:898-949 | for any profiles, MKIs included: there is a choice exactly when a supported name is in both lists; it pairs the first such profile of the answerer with the first offered one of its name, takes key, salt and MKI of the end itself as the local ones, and returns its profile with the offered tag |
| `Sdp.Answer` | sdp/offer.go:334-362 | the answerer's result: no common media, no common crypto, or the choice |
| `Sdp.Apply` | sdp/offer.go:421-443 | the offerer's result |
| `Sdp.KeysMirror` | sdp/offer.go:898-949 | for offered and local lists without MKI: a choice is made exactly when a supported profile is in both; it is the answerer's first profile of an offered name with the first offered one of that name; each end's local key and salt are its own profile's, its remote ones the other's, the cipher is that name's, and the answer carries the offered tag |
| `Sdp.BothEndsAgree` | sdp/offer.go:334-443 | for every pair of encryption modes, with the attributes printed and parsed in both directions: when each end refuses, when both use keys, and that they then agree on codec, DTMF payload, cipher and tag, each with its own key as the local one and the other's as the remote one |

## Left out

Jitter buffer:

- onStats snapshots, loggers and nil handlers: notifyStats reports the counters that are modelled; losses are logged whether or not a handler is set.
- Real timers, goroutine start-up, mono.Now and the closed signal: times count from the creation of a buffer, a timer is the deadline it was last set to, and an expiry is a step with a clock reading.
- Counters are unbounded: 64-bit wrap-around of statistics is not modelled.
- The fields head, tail, pool and size are grouped in class PacketList, and the per-packet increments of popSample are added up once; the buffer never reads them in between.
- The depacketizer is its two answers per packet; the identity of a packet object is the field origin, which no branch reads.
- The backing array of a line's arrivals, which count compacts in place, is a sequence.
- JitterDelivery.DeliveredInTime: has no flushes or latency changes in the run; a flush drops what is incomplete, on time or not.
- JitterWindow.InOrderDelivery: covers one SSRC with line detection off and arrivals less than half the number circle behind; after a restart the sender's numbering begins anew and there is no order to keep.

RTP clock and DTMF:

- Header fields other than sequence number, timestamp, type and marker, payload bytes, and the panics of NewStream as anything but a refusal.
- Dtmf.Write: does not model the synthesis of tones and clearing of samples, an absent audio or events stream, or the wrap of durations at event rates that overflow 16 bits.
- Saturation of time differences and of Duration.Round at the ends of the 64-bit range.

Pipe and session:

- Several concurrent readers of one read stream, which `rtp/session.go:218-223` documents as racy.
- The socket, packet parsing, the MTU limit and the map of streams by SSRC: writers of one stream are serialised, as the session's read lock does.

Mixer and ring buffer:

- Ring buffers of capacity 0, Peek and Pop (thin wrappers that panic), and Go slices of the output frame beyond their contents.
- The counters of ticks by kind (TimedMixes, JumpMixes, ZeroMixes, NegativeMixes, TimingResets), of mixes, of output and of tracks.
- Mixer.Mixer.constructor: asks for a positive mix size and ticker period, without which the program would divide by zero or mix nothing.

SDP:

- Base64, parseLifetime and parseMKI are parameters (datatype SdpText.Codec); only that decoding undoes encoding, without white space or a bar in the text, is used.
- MKI agreement: the MKI is not printed, so nothing is stated about profiles that have one.
- The grammar around attributes, rtpmap and fmtp parsing, the codec registry, addresses, ports and session identifiers; the generation of default profiles, which are arguments here.
- ApplyWithLocal and buildLocalSDP, which build text from the same choice.

Everything else in the repository: codecs, resamplers and tones (foreign or floating-point code), g711 tables, gain and frame buffers, multiplexing, port probing, SRTP sessions, and file formats.
