# sceptre-pipeline, verified

The pipeline turns arbitrary UDP datagrams into labelled, contiguous windows of IQ
samples. This project models its four coupled machines and proves what they promise over
whole runs.

| file | models |
|---|---|
| `Bytes.dfy`, `Formats.dfy` | bytes, big-endian integers, shifts; the wire-format constants |
| `PayloadFormat.dfy` | the 64-bit payload format word (ANSI/VITA 49.2, section 9.13.3) |
| `Header.dfy` | the flag-driven packet prologue (section 5.1), with its printer |
| `ContextWalk.dfy`, `ContextValues.dfy` | the CIF0 walk (section 9.1), with its encoder by bytes and by value |
| `Trim.dfy` | cutting a data packet down to whole samples |
| `WireLayout.dfy` | all of it once more by byte positions and literal codes |
| `Interpreter.dfy` | per-stream contexts and packet counters; the `Interpreter` class |
| `Buffering.dfy`, `Routing.dfy` | one stream's buffer, one buffer per stream, as values |
| `Ingest.dfy` | the `IngestBuffer` and `BufferRouter` classes and the consumer |
| `Segmentation.dfy`, `WindowLaws.dfy` | which windows an event list has, said without the buffer, and what follows |
| `Stack.dfy`, `Streams.dfy`, `Contiguity.dfy`, `EndToEnd.dfy` | interpreter and router as one machine over whole runs |
| `Jitter.dfy`, `Capture.dfy`, `Meter.dfy` | the jitter buffer, the capture integral, the meter classes |
| `RawQueue.dfy`, `Runtime.dfy`, `Turns.dfy`, `Pipeline.dfy` | the lossy queue, both threads as an interleaving of steps, the turns the loop takes in it, the dequeue loop over the real objects |

How it is put together. Each object that the source updates in place is a class. Every
method's contract gives its whole new state, and everything it emitted, as a value-level
function of the old state; the theorems are about those functions over arbitrary event
lists. `emit` appends to the consumer's list of units. Clock readings are inputs: a poll
carries the reading each stream's buffer sees, because each buffer reads the clock itself.
Frequencies are raw signed integers; time and rate are reals. `Bits`, `Shr` and `FromBE`
spell out the source's shifts and masks on unbounded integers. Where only the proofs of a
lemma would be slowed down by a definition, the lemma hides it.

Results that a reader might not expect:

- The gap flag misses a jump exactly when the number of missing packets is a multiple of
  sixteen (`GapFlagExact`): sixteen packets lost in a row, or one that is sixteen positions
  late. Every unit is consecutive up to such jumps (`UnitsAreCounterRuns`) and is a run of
  consecutive packets if and only if there is none inside it (`CounterRunIsPacketRun`).
  Losing fewer than sixteen in a row is harmless as long as no packet is sixteen or more
  positions late (`GapFreeUnderSmallJumps`).
- The jitter buffer commits in sorted order if and only if the j + 1 smallest windows are
  always among the first j + 65 arrivals (`CommitOrderIsSorted`).
- Trimming gives the payload back if and only if the padding is shorter than one sample
  (`DataPacketRoundTrip`); the source documents the other half as a known limitation.
- The buffer's defensive branches (unusable data, failing latch, mixed interpretations)
  cannot be reached from the interpreter (`DataAlwaysFits`), although the buffer handles
  them for hand-fed records.
- The end mark of a replay can never be evicted from the lossy queue, whatever the
  interleaving (`ShutdownNeverLost`).

## Model

| member | source | states |
|---|---|---|
| PayloadFormat.EncodeDecode | src/sceptre_pipeline/interpreter.py:214-224 | the eleven windows cover all 64 bits: a word is rebuilt exactly from its decoded windows |
| PayloadFormat.DecodeEncode | src/sceptre_pipeline/interpreter.py:214-224 | the windows do not overlap: every combination of window values is read back as written |
| PayloadFormat.SupportedExactly | src/sceptre_pipeline/interpreter.py:226-244 | a 64-bit word is supported if and only if it is one of the plain real or complex words of the eight item formats |
| PayloadFormat.SupportedCount | src/sceptre_pipeline/formats.py:115-124 | those are exactly sixteen words |
| PayloadFormat.SampleSize | src/sceptre_pipeline/interpreter.py:245-270 | supported words, and only they, have a component type and a sample size, the size being one or two components |
| PayloadFormat.ComplexMeans | src/sceptre_pipeline/interpreter.py:245 | for every word, samples are complex exactly when bits 62 and 61 are 01 |
| PayloadFormat.ListedDecoded | src/sceptre_pipeline/formats.py:115-124 | each listed item format code and size, real or complex, decodes as supported, with the listed component kind and size and one or two components a sample |
| PayloadFormat.SupportedListed | src/sceptre_pipeline/formats.py:115-124 | and every supported word is one of those, by its literal code |
| Header.ParseHeader | src/sceptre_pipeline/interpreter.py:122-173 | the advancing-offset parser reads each field at the closed-form offset of the present fields before it, and fails exactly on datagrams shorter than their flags imply |
| Header.ParsePrint | src/sceptre_pipeline/interpreter.py:122-173 | parsing a printed header gives every field back, for every flag combination and whatever follows |
| Header.PrintParse | src/sceptre_pipeline/interpreter.py:122-173 | printing a parsed header gives the datagram's header bytes back |
| Header.EncodeDecodeWord0 | src/sceptre_pipeline/formats.py:19-25 | word 0 is rebuilt exactly from its flag windows |
| Header.TimestampRead | src/sceptre_pipeline/interpreter.py:117-119 | a timestamp gives its seconds and picoseconds back, the seconds alone as its whole part exactly when the picoseconds are below one second |
| WireLayout.HeaderLayout | src/sceptre_pipeline/interpreter.py:122-173 | every header field by byte position and bit, and the exact length below which a datagram fails |
| Bytes.BitsAreShifts | src/sceptre_pipeline/interpreter.py:301-302 | each indicator bit is the source's shift and mask |
| ContextWalk.DecodeContext | src/sceptre_pipeline/interpreter.py:287-340 | the loop over the indicator bits computes the recursive walk, error cases included |
| ContextWalk.ContextMeaning | src/sceptre_pipeline/interpreter.py:287-320 | decoding fails exactly when the declared or received bytes end inside the indicator word or a field above the stop bit, and otherwise reads each used field behind the sizes of the present fields above it |
| WireLayout.FieldDistance | src/sceptre_pipeline/formats.py:68-90 | a field starts four, eight, 44 or 52 bytes behind the indicator word for each present bit above it, by kind of bit |
| WireLayout.StopsBelowTen | src/sceptre_pipeline/interpreter.py:307-316 | the walk stops at the highest present bit below ten, and at no other |
| WireLayout.ContextLayout | src/sceptre_pipeline/interpreter.py:276-340 | every used field by bit number and byte position, and exactly when decoding fails |
| ContextWalk.ContextPacketRoundTrip | src/sceptre_pipeline/interpreter.py:276-340 | for every indicator word (with or without bit 31, with or without stop bits), any field bytes and any tail, decoding the encoded packet finds exactly the bytes of each field above the stop bit |
| ContextValues.ContextRoundTrip | src/sceptre_pipeline/interpreter.py:317-336 | by value: every in-range bandwidth, frequency, pair of gain stages, sample rate and format word serialised in two's complement is read back, sign included, with the fields below the stop bit and the absent ones left out |
| ContextValues.GainReadBack | src/sceptre_pipeline/interpreter.py:324-326 | the two gain stages are 16-bit values with a sign each |
| Bytes.SignedRoundTrip | src/sceptre_pipeline/interpreter.py:320-328 | a signed big-endian field gives back every value in its range |
| Bytes.SignedInRange | src/sceptre_pipeline/interpreter.py:320-328 | and every byte string spells one value in range, which spells it |
| WireLayout.SignBit | src/sceptre_pipeline/interpreter.py:320-328 | a signed field is negative exactly when its first transmitted bit is set |
| ContextWalk.ContextIgnoresTail | src/sceptre_pipeline/interpreter.py:287-290 | context fields are never read past the declared packet end |
| ContextWalk.DecodedFormat | src/sceptre_pipeline/interpreter.py:331-337 | every decoded context has a whole sample interpretation or none, with sample size one or two components |
| Trim.DataPacketRoundTrip | src/sceptre_pipeline/interpreter.py:343-383 | a serialised data packet with optional trailer, padding and trailing bytes parses to its header, and trims to exactly its payload if and only if the padding is shorter than one sample |
| Trim.TrimMeaning | src/sceptre_pipeline/interpreter.py:363-383 | trimming fails exactly on data shorter than declared or without a sample size, and otherwise keeps every whole sample between header and trailer, none if the declared size ends before them |
| Trim.TrimIgnoresTail | src/sceptre_pipeline/interpreter.py:349-352 | bytes past the declared end are never taken for samples |
| Interpreter.Interpreter.Process | src/sceptre_pipeline/interpreter.py:414-429 | processing a datagram never fails and changes contexts, counters and totals exactly as specified |
| Interpreter.Interpreter.TryProcess | src/sceptre_pipeline/interpreter.py:431-516 | whatever raises has changed nothing before it raised |
| Interpreter.Accounting | src/sceptre_pipeline/interpreter.py:399-516 | over every run, records plus errors plus drops are the calls; tracked streams stay within the bound; only tracked streams have a counter |
| Streams.RunAccounting | src/sceptre_pipeline/interpreter.py:399-516 | the same for the interpreter inside every run of the whole pipeline |
| Interpreter.StepAccounts | src/sceptre_pipeline/interpreter.py:431-516 | a call without a record leaves contexts and counters alone and raises one total by one |
| Interpreter.WhyNoRecord | src/sceptre_pipeline/interpreter.py:389-394 | exactly which datagrams count as errors and which as policy drops |
| WireLayout.RecordTypes | src/sceptre_pipeline/interpreter.py:431-440 | only packets of type 1 and 4 become records, data and contexts; every other type is one drop |
| WireLayout.CutContext | src/sceptre_pipeline/interpreter.py:289-320 | a context datagram of a stream with a slot that is cut inside its indicator word or a field is one error and changes nothing else |
| WireLayout.FirstShowsNoGap | src/sceptre_pipeline/interpreter.py:501-502 | the first accepted data packet of a stream carries no gap flag |
| Interpreter.EncodedContextProcessed | src/sceptre_pipeline/interpreter.py:445-471 | a serialised context packet of a stream with a slot is adopted and announced with exactly the values that were serialised |
| Interpreter.EncodedDataProcessed | src/sceptre_pipeline/interpreter.py:473-531 | a serialised data packet of a usable stream yields exactly its payload, its header's metadata and the gap flag of its counter |
| Interpreter.NeverEvicted | src/sceptre_pipeline/interpreter.py:403-407 | a tracked stream is tracked for ever |
| Interpreter.TrailingBytesInvisible | src/sceptre_pipeline/interpreter.py:287-320 | for a datagram as long as its header and its declared size, appending bytes changes neither the record nor the state |
| Interpreter.ForeignDatagram | src/sceptre_pipeline/interpreter.py:445-516 | a datagram that does not address a stream leaves that stream's context and counter alone |
| Interpreter.OwnDatagram | src/sceptre_pipeline/interpreter.py:445-516 | a stream's own datagram acts the same in any two states that agree on the stream, unless one has locked it out |
| Interpreter.LockedOutStays | src/sceptre_pipeline/interpreter.py:446-461 | a stream beyond the limit never gets a slot later |
| Buffering.FlushSound | src/sceptre_pipeline/buffer.py:215-250 | every open window converts without an error into exactly its sample count, and nothing stays behind |
| Buffering.PushSound | src/sceptre_pipeline/buffer.py:99-205 | any record, hand-fed ones included, keeps the buffer convertible |
| Buffering.PollSound | src/sceptre_pipeline/buffer.py:207-213 | after a poll no window is as old as the limit |
| Buffering.ContextPushMeaning | src/sceptre_pipeline/buffer.py:108-128 | a context is adopted; it emits the open window, under the old context, exactly when a configured field differs, and otherwise leaves it as it is |
| Buffering.DefaultIdentity | src/sceptre_pipeline/buffer.py:62-64 | the default identity is frequency, sample rate, component type and complexity |
| Ingest.IngestBuffer.Push | src/sceptre_pipeline/buffer.py:99-106 | the new state and the emitted units of any record, and nothing for none |
| Ingest.IngestBuffer.PushContext | src/sceptre_pipeline/buffer.py:108-122 | flushes under the old label before adopting a context that changes the flush identity |
| Ingest.IngestBuffer.PushData | src/sceptre_pipeline/buffer.py:130-169 | drop, gap flush, mixed-interpretation flush and empty data as specified |
| Ingest.IngestBuffer.Append | src/sceptre_pipeline/buffer.py:170-179 | latches the first chunk's interpretation and flushes at the size limit |
| Ingest.IngestBuffer.Latch | src/sceptre_pipeline/buffer.py:181-205 | latches exactly the convertible interpretations |
| Ingest.IngestBuffer.MaybeFlushOnAge | src/sceptre_pipeline/buffer.py:207-213 | flushes exactly a window as old as the limit |
| Ingest.IngestBuffer.Flush | src/sceptre_pipeline/buffer.py:215-250 | emits the open window once, resets it and keeps the context; the conversion it calls cannot raise |
| Ingest.BufferRouter.Push | src/sceptre_pipeline/buffer.py:278-302 | one buffer per stream, created while there is room; the other buffers are untouched |
| Ingest.BufferRouter.MaybeFlushOnAge | src/sceptre_pipeline/buffer.py:304-307 | every buffer is polled once, in creation order |
| Ingest.BufferRouter.FlushAll | src/sceptre_pipeline/buffer.py:309-312 | every buffer is flushed once, in creation order |
| Segmentation.BufferRefinesSegmentation | src/sceptre_pipeline/buffer.py:99-250 | for every event list the emitted units are the windows of its segmentation, and the buffer holds the rest |
| Segmentation.WindowsAreCorrect | src/sceptre_pipeline/buffer.py:10-25 | that segmentation is cut precisely at the first identity change, gap, size, age or final flush |
| Segmentation.UniqueSegmentation | src/sceptre_pipeline/buffer.py:10-25 | and no other way of cutting the events is correct |
| WindowLaws.BytesConserved | src/sceptre_pipeline/buffer.py:99-250 | emitted bytes plus open window are the accepted bodies in arrival order, each once |
| WindowLaws.DrainedCompletely | src/sceptre_pipeline/buffer.py:309-312 | after a final flush nothing remains and every accepted byte has been emitted |
| WindowLaws.NoGapInside | src/sceptre_pipeline/buffer.py:158-167 | no admitted data inside a window, empty bodies included, followed a counter gap or was read differently |
| WindowLaws.LabelsCorrect | src/sceptre_pipeline/buffer.py:108-128 | a unit's context agrees on every flush field with the context in force when each of its chunks was accepted |
| WindowLaws.WindowsBounded | src/sceptre_pipeline/buffer.py:176-179 | a window is below the size limit without its last chunk |
| WindowLaws.OpenWindowBounded | src/sceptre_pipeline/buffer.py:176-179 | an open window is below the size limit |
| WindowLaws.DropsCounted | src/sceptre_pipeline/buffer.py:130-173 | the drop count is the number of refused data records |
| Routing.RouteOneStream | src/sceptre_pipeline/buffer.py:278-302 | routing moves the record's own stream as a lone buffer would, and no other |
| Routing.FullSweep | src/sceptre_pipeline/buffer.py:304-312 | a sweep lets every stream react exactly once |
| Routing.RouteMeaning | src/sceptre_pipeline/buffer.py:278-302 | a new stream gets a buffer exactly while there is room, at the end of the order; beyond that its record is dropped and counted and nothing else changes |
| Routing.SweepInOrder | src/sceptre_pipeline/buffer.py:304-312 | a sweep emits stream by stream, in order of creation |
| Stack.DefaultCoversReading | src/sceptre_pipeline/buffer.py:62-64 | the default flush fields include how bytes are read, which is all the lockstep results ask of the configuration |
| Stack.AlwaysLockstep | src/sceptre_pipeline/buffer.py:278-302 | with equal stream limits, in every run router and interpreter have the same streams and contexts, a buffer is inert exactly when the interpreter withholds data, and nothing is dropped downstream |
| Stack.DataAlwaysFits | src/sceptre_pipeline/buffer.py:130-205 | in every run the defensive drops, the failing latch and the mixed-interpretation flush are unreachable |
| Streams.Demultiplexed | src/sceptre_pipeline/buffer.py:253-312 | in every run each stream's units and open window are those of a lone buffer given that stream's events |
| Streams.NonInterference | src/sceptre_pipeline/interpreter.py:445-516 | unless locked out by the stream limit, a stream's units and open window equal those of a run given only its own datagrams and the same polls |
| Streams.SoloUnits | src/sceptre_pipeline/buffer.py:253-312 | such a solo run emits nothing but that stream's units |
| Streams.UntrackedSilent | src/sceptre_pipeline/interpreter.py:473-485 | a stream that is not tracked has emitted and buffered nothing |
| Streams.NoOldWindows | src/sceptre_pipeline/buffer.py:304-307 | after a poll no stream holds a window as old as the limit |
| Contiguity.StreamRemembered | src/sceptre_pipeline/interpreter.py:496-510 | in every run the gap flags of a stream's data compare each counter with that of the accepted data packet before it |
| Contiguity.GapFlagExact | src/sceptre_pipeline/interpreter.py:501-502 | the flag misses exactly the jumps past a multiple of sixteen packets |
| Contiguity.SixteenMissingUnseen | src/sceptre_pipeline/interpreter.py:501-502 | sixteen missing packets in a row go unnoticed |
| Contiguity.SixteenLateUnseen | src/sceptre_pipeline/interpreter.py:501-502 | so does a packet that arrives sixteen positions late |
| Contiguity.WindowNumbers | src/sceptre_pipeline/buffer.py:158-179 | inside any window, whatever was lost, repeated or reordered, every data packet's number follows the one before it up to a multiple of sixteen |
| Contiguity.UnitsAreCounterRuns | src/sceptre_pipeline/buffer.py:158-179 | for every run and every numbering, each unit is exactly the bodies of a span of the stream's packets, empty ones included, whose numbers follow one another up to multiples of sixteen |
| Contiguity.CounterRunIsPacketRun | src/sceptre_pipeline/interpreter.py:501-502 | such a span is a run of consecutive packets if and only if no jump inside it, forwards or backwards, is a non-zero multiple of sixteen off |
| Contiguity.GapFreeWindows | src/sceptre_pipeline/buffer.py:158-179 | unless a packet of the stream jumps by such a distance, every unit of every run is exactly the bodies of a run of consecutive packets, in whatever order packets arrive |
| Contiguity.GapFreeUnderSmallJumps | src/sceptre_pipeline/buffer.py:158-179 | so fewer than sixteen packets missing in a row, repeated packets, and packets fewer than sixteen positions late never put a gap inside a unit |
| EndToEnd.UnitsConvert | src/sceptre_pipeline/buffer.py:219-228 | every unit of every run converts into exactly its sample count |
| EndToEnd.RunLabels | src/sceptre_pipeline/buffer.py:108-128 | label correctness over whole pipeline runs, for any choice of flush fields |
| EndToEnd.RunTuning | src/sceptre_pipeline/buffer.py:108-128 | with the default identity, in every run each chunk of a unit was accepted under the unit's own frequency, sample rate, component type and complexity |
| EndToEnd.RetuneOrHeartbeat | src/sceptre_pipeline/buffer.py:118-128 | with the default identity, in every run a context packet that changes none of those four emits nothing and leaves the open window alone, and one that changes any emits just the open window, under its own context |
| EndToEnd.UnitsBounded | src/sceptre_pipeline/buffer.py:176-179 | a unit exceeds the limit less one by at most the samples one 16-bit-sized packet has room for; an open window stays below the limit |
| Jitter.CommitOrderIsSorted | src/sceptre_pipeline/metrics.py:79-103 | a history is committed in sorted order if and only if it was reordered within the buffer's depth |
| Jitter.NothingLost | src/sceptre_pipeline/metrics.py:79-83 | for any arrival order at most 64 windows are held after an add, and held plus committed windows are those added |
| Capture.TotalsMeaning | src/sceptre_pipeline/metrics.py:85-98 | for any commit order delivered is every sample once, expected is delivered plus the gap losses and never less, and the frontier is the furthest end at the rate of the first window to reach it |
| Capture.GapsAreUncovered | src/sceptre_pipeline/metrics.py:85-98 | in time order the charged gaps are exactly the sample times between first start and furthest end that no window covers |
| Capture.LossIsUncoveredTime | src/sceptre_pipeline/metrics.py:85-98 | at one constant rate the loss is that rate times the uncovered length |
| Capture.DisjointExpected | src/sceptre_pipeline/metrics.py:85-98 | for disjoint windows expected is the rate times the whole span |
| Meter.StreamStat.Add | src/sceptre_pipeline/metrics.py:79-83 | pushes a window and commits the oldest one when too many are held |
| Meter.StreamStat.CommitWindow | src/sceptre_pipeline/metrics.py:85-98 | the incremental integral step |
| Meter.StreamStat.Finalize | src/sceptre_pipeline/metrics.py:100-103 | the drain loop commits everything held, smallest first |
| Meter.JitterRefinesSorting | src/sceptre_pipeline/metrics.py:79-103 | with bounded reordering the final totals are those of sorting the whole history first |
| Meter.EfficiencySound | src/sceptre_pipeline/metrics.py:57-61 | after draining, for any arrival order, delivered is everything added and expected is not below it |
| Meter.TallyMeaning | src/sceptre_pipeline/metrics.py:128-160 | the meter's sample, byte and unit totals are those of all units, and each stream's statistics are those of its own units alone |
| Meter.DeclarationsMeaning | src/sceptre_pipeline/metrics.py:150-157 | a stream's rate and bandwidth are its latest declared ones, and it counts as retuned exactly when two of its rates in a row differ |
| Meter.DeclaredByContext | src/sceptre_pipeline/metrics.py:144-156 | the declared rate and bandwidth are the context's raw fields in steps of 2^-20 hertz |
| Meter.RatedMeans | src/sceptre_pipeline/metrics.py:144-160 | a unit enters the integral exactly when it has a start time, samples and a positive rate, and covers its own samples at that rate |
| Meter.BytesMetered | src/sceptre_pipeline/metrics.py:134-140 | the tallied bytes of convertible units are exactly the bytes they carry |
| Meter.OrderOfAppearance | src/sceptre_pipeline/metrics.py:147-150 | the streams are kept once each, in order of their first unit |
| Meter.MeterIntegrates | src/sceptre_pipeline/metrics.py:151-159 | a stream's final totals are the integral of its own rated, timed windows |
| Meter.EfficiencyAtMostOne | src/sceptre_pipeline/metrics.py:195-224 | the reported stream delivered every rated sample it emitted, and no more than was expected of it |
| Meter.Choose | src/sceptre_pipeline/metrics.py:208-224 | reports the first stream whose share of delivered to expected samples, by cross multiplication, is least among those with a rate and a positive expectation, or why there is none |
| Meter.ThroughputMeter.Call | src/sceptre_pipeline/metrics.py:128-160 | tallies a unit in the totals and in its own stream, then hands it on |
| Meter.ThroughputMeter.CaptureSummary | src/sceptre_pipeline/metrics.py:214-228 | drains every stream before choosing |
| RawQueue.BoundedRawQueue.Create | src/sceptre_pipeline/queues.py:27-33 | refuses exactly sizes below one |
| RawQueue.BoundedRawQueue.Put | src/sceptre_pipeline/queues.py:35-42 | appends, evicting and counting the oldest item when full |
| RawQueue.BoundedRawQueue.Get | src/sceptre_pipeline/queues.py:44-52 | takes the oldest item, or nothing from an empty queue |
| RawQueue.PutMeaning | src/sceptre_pipeline/queues.py:35-42 | a put into a queue with room drops nothing; into a full one it drops exactly the oldest item and leaves it full |
| RawQueue.AllGotten | src/sceptre_pipeline/queues.py:18-25 | with nothing dropped and nothing left every put was gotten, in order |
| Runtime.QueueLaws | src/sceptre_pipeline/queues.py:35-52 | over all interleavings the contents are the latest puts, gets are in put order, puts are gets plus drops plus contents, no more are dropped than puts exceed the size, and the bound holds |
| Runtime.ShutdownNeverLost | src/sceptre_pipeline/sources.py:206-232 | once put, the end mark stays the newest item until it is the last one gotten |
| Runtime.LoopFinishes | src/sceptre_pipeline/runtime.py:87-95 | after that the loop leaves within as many gets as there were items, and finishes, under every interleaving |
| Runtime.SourceEnds | src/sceptre_pipeline/sources.py:206-232 | the replay source ends within two steps a packet and two more, on every path and under every interleaving |
| Runtime.EveryRunFinishes | src/sceptre_pipeline/runtime.py:87-123 | so every interleaving that lets both threads step often enough ends with the loop finished |
| Runtime.StoppedLoopFinishes | src/sceptre_pipeline/runtime.py:87-95 | once the stop event is set the loop finishes within five of its own steps, whatever is queued |
| Runtime.StoppedSourceEnds | src/sceptre_pipeline/sources.py:214-232 | a stopped source puts at most the packet it was about to put and ends within three of its own steps |
| Runtime.FinalFlush | src/sceptre_pipeline/runtime.py:115-121 | on every exit path no stream has an open window and each stream's units hold exactly its accepted bodies |
| Runtime.CompleteReplay | src/sceptre_pipeline/sources.py:214-232 | a replay that neither stopped, failed nor overflowed has handed every packet to the interpreter once, in order |
| Runtime.RoomForAll | src/sceptre_pipeline/queues.py:35-42 | a queue with room for the capture and its end mark never drops anything, under any interleaving |
| Runtime.RoomyReplay | src/sceptre_pipeline/sources.py:214-232 | so a finished replay through it that neither stopped nor failed has handed over the whole capture |
| Runtime.ReplayDelivers | src/sceptre_pipeline/runtime.py:87-123 | without a stop or a failure, and with enough steps of both threads, such a replay finishes and has handed over every packet once, in order |
| Runtime.NoOldWindowAfterTurn | src/sceptre_pipeline/runtime.py:89-114 | whenever the loop comes back to its stop test, after a datagram or a timeout, no stream holds a window as old as the limit |
| Turns.InterleavingIsLoop | src/sceptre_pipeline/runtime.py:87-121 | every interleaving in which the loop has finished is a run of the loop on the turns it took: they got what the queue gave, in order, and give the same final state |
| Pipeline.Pipeline.Handle | src/sceptre_pipeline/runtime.py:96-113 | one datagram moves the objects as one machine input |
| Pipeline.Pipeline.Loop | src/sceptre_pipeline/runtime.py:87-121 | the loop over the real objects, final flush included, leaves them where the run of its inputs does |

## Left out

- Floating point: a decoded frequency is the raw integer and not its quotient, so two raw
  values beyond 2^53 that would collapse to one float stay different here; timestamps and
  rates are exact reals.
- numpy's value conversion: only byte, component and sample counts are modelled. Component
  types are the eight of the format table plus text that numpy cannot use; other numpy
  spellings of numeric types in hand-fed records are not told apart.
- A hand-fed context record without a context, records of other types, and items in the
  queue that are not bytes.
- Jitter.Insert: the heap list of the standard library is kept as its pop order; only the
  order in which windows come out is modelled, not the array layout.
- Header.Word0Of: the two reserved bits of word 0 are carried by the printer, since the
  parser ignores them.
- Runtime.After: thread and condition-variable mechanics; puts, gets, timeouts and stop tests
  are atomic steps, and a `get` gives up only on an empty queue. `LiveSource`, sockets and the
  bind watchdog are not modelled, the replay source is a step machine in all its exit paths.
- Meter.Choose: percentages are not rounded and no summary text is built.
- An `emit` that raises, the guard around `process` in the loop (it cannot raise here), and
  adds after `finalize`.
- Logging and its rate limits, the recorder, pickle files, the command line, build scripts.
