# Verified model of the multi-connectivity emulator

The repository emulates a 5G split bearer: a CU that numbers packets and forwards them over several
links, DUs that segment and schedule them, a UE that puts them back in order, and a RIC agent that
divides frames over the links. This project models its stateful and arithmetic core in Dafny 4.11
and proves properties of the model for all inputs, all runs and all thread interleavings.
`dafny verify dfyconfig.toml` checks everything.

| files | what they model |
|---|---|
| `Spsc*.dfy`, `PowersOfTwo.dfy` | the lock-free single-producer single-consumer queue: every shared load and store is one step of a two-thread transition system |
| `Semaphore.dfy`, `CircularBuffer.dfy` | the lightweight semaphore with its undo loop, and the blocking circular buffer on two of them |
| `BlockingQueue.dfy` | the blocking queue: the lock-free queue and a semaphore together |
| `PdcpHeader.dfy`, `PdcpReceiver.dfy`, `PdcpReorder.dfy` | the PDCP header, the receiver with its reorder ring and timer, and what the ring means |
| `PdcpSender.dfy`, `PdcpPaths.dfy`, `Multilink.dfy`, `PdcpEndToEnd.dfy` | the PDCP sender, the path each packet takes, the weighted choice, and sender, links and receiver together |
| `RlcSegmentation.dfy`, `RlcSender.dfy`, `RlcFlow.dfy`, `RlcPdus.dfy` | segments, the RLC sender of one queue, the byte FIFO it implements, and what its PDUs carry |
| `RlcReassembly.dfy`, `ReassemblyRounds.dfy`, `ReassemblyTheorems.dfy` | the receiver's reassembly manager, and when a cut packet is handed on |
| `RlcTransfers.dfy` | RLC sender and receiver together: the PDUs of a packet from its cut to its hand-over |
| `MacSender.dfy`, `MacTheorems.dfy` | the MAC slot scheduler over several RLC senders |
| `LinkAllocation.dfy` | the division of a frame over links before a deadline |
| `Arq.dfy`, `ArqRuns.dfy`, `ArqTheorems.dfy` | the retransmission manager |
| `UplinkMac.dfy` | status PDUs on the UE's uplink |
| `PdcpCommon.dfy`, `StatusPdu.dfy`, `RicMessage.dfy`, `Bytes.dfy` | IP checksum and encapsulation, status PDUs, RIC messages, byte order |
| `Options.dfy` | the optional value |

Objects that the source updates in place are classes (`PdcpReceiver`, `PdcpSender`, `RlcSender`,
`ReassemblyManager`, `MacSender`, `RetransmissionManager`, `MacReceiver`, `RicControlMessage`); each method is proved equal
to a function of the old state, and the theorems are about these functions and their runs. The queue,
the semaphore and the circular buffer are read by two threads at once; they are transition systems
whose steps are the source's atomic accesses. Inputs the source takes from elsewhere (clocks, random
draws, environment variables, callback answers, whether memory could be allocated) are parameters.

## Assumptions

- Atomics are sequentially consistent. One thread produces and one thread consumes, except for the UE's uplink queue,
  which has two consuming threads.
- PDCP receiver: buffering with its delivery callback, one delivery, and a timeout with its callback are
  each one atomic step. The source tests sequence numbers before it takes the lock
  (`emulator/mc_emulator/src/UE_pdcp/pdcp_receiver.cpp:201`, `:213`), so two receiving threads could
  interleave there. The delivery callback is registered.
- PDCP end to end: payloads are not empty, fewer than 2^32 packets are sent, and an arriving number is
  below `nextExpected + 1024`. The last is exact: `PDCP_MAX_REORDER_WINDOW` is `1024*8` without parentheses,
  so the slot is `seq % 1024 * 8`, and `RightIffWithin1024` shows what happens beyond.
- RLC sender: `enqueuePacket` and `dequeuePacket` are each one step, and four times the buffer size is positive in
  32 bits. A cut runs in the consumer's thread on an empty segment buffer, so it takes exactly
  `SpscCapacity.Capacity` segments; whether the packet buffer takes a packet is an input.
- RLC receiver: each PDU and each clean-up is one step, and PDUs have fewer than 16 or at least 22 bytes (between
  the two the source reads fields it has not set). The sender masks packet ids to 12 bits.
- MAC: no packet is enqueued during a slot, and both callbacks are set.
- UE uplink: accepting a PDU and each section under the pending lock is one step; a take is two, its load of the front
  with the element and its store of the front. The queue's slots are not used again while a take is under way.
- Link allocation and multilink ratios use exact reals; frames are not empty.
- Integers have the source's widths where they can wrap: the sender's 32-bit number, segment counts and
  sizes, attempt and statistics counters, the checksum sum. 64-bit counters do not wrap.

## Findings

Places where the code does less than its comments or names say; each has a lemma with the failing case
and, where there is one, the exact condition.

- A queue built for 0 elements violates its own assertion (`SpscZero.ZeroFails`).
- `signal(0)` invents a permit when a waiter is blocked (`Semaphore.ZeroSignalInvents`).
- The reorder ring of 8192 slots has a window of 1024 (`PdcpReorder.RightIffWithin1024`).
- `dequeuePacket` counts 16 bytes for a 22-byte header, and the MAC then drops the packet
  (`RlcFlow.ResultSize`, `MacTheorems.DiscardLosesThePacket`).
- A packet with more segments than the segment buffer takes loses its end (`RlcFlow.WholeIffSegmentsFit`,
  `RlcFlow.SmallSlotOverflows`).
- A segment that comes again after its packet is complete opens a new context; a second full set is handed on again,
  and a context left over can spoil the next packet of its id, even an equal one (`ReassemblyTheorems.HandedOnOnceIff`,
  `ReassemblyTheorems.OpenContextIff`, `ReassemblyTheorems.SmallerCutLosesTheEnd`).
- The UE's uplink queue is made for one consumer and has two without a common lock: a grant and an immediate uplink
  that overlap transmit and delete a PDU twice (`UplinkMac.ExactlyOnePlaceIffApart`,
  `UplinkMac.OverlapTransmitsTwice`).
- A late ACK can hit a reused id, and NACKs can wrap the attempt counter (`ArqTheorems.RepeatedAckIgnoredIff`,
  `ArqTheorems.ExceedsMaxIff`, with the instances `ArqTheorems.LateAckHitsReusedId` and `ArqRuns.WrapForgetsAttempts`).
- The prefix search misses solutions exactly as `LinkAllocation.MissedIff`, `CompleteIff` and
  `AlwaysCompleteIffInOrder` say (an instance is `SlowLinkHidesASolution`). The field `total_delivery_time_ms` holds
  seconds.
- The PDCP receiver's delivered counter also counts late packets, whose payload its caller discards, and the
  duplicate branch is never taken (`PdcpEndToEnd.DeliveredCounterCountsLateOnes`).
- Counts and sizes in RIC messages are not checked against the buffer (`RicMessage.PastTheEndIff`).
- The wrap branch of the PDCP sender compares a 32-bit number with 2^32 - 1 and is never taken
  (`PdcpSender.WrapBranchIsNeverTaken`), so the epoch stays 0 and the model has no such branch.

## Model

| member | source | states |
|---|---|---|
| `SpscTheorems.Fifo` | emulator/mc_emulator/external/readerwriterqueue/readerwriterqueue.h:285-376 | in every interleaving of the two threads, what has been taken out is a prefix of what has been put in: nothing is skipped, repeated, reordered or invented |
| `SpscTheorems.EmptyReportIsTrue` | emulator/mc_emulator/external/readerwriterqueue/readerwriterqueue.h:285-376 | a dequeue, pop or peek that reports an empty queue was preceded, within that call, by an instant at which everything put in had been taken out |
| `SpscTheorems.RefusalMeansFull` | emulator/mc_emulator/external/readerwriterqueue/readerwriterqueue.h:535-644 | a refused `try_enqueue` saw, during that call, at least the `n` elements the queue was built for |
| `SpscTheorems.FoundFullMeansFull` | emulator/mc_emulator/external/readerwriterqueue/readerwriterqueue.h:556-600 | the same of every enqueue that finds no room, whether it then refuses or allocates: within that call at least the `n` elements were held |
| `SpscCalls.EnqueueAccepts` | emulator/mc_emulator/external/readerwriterqueue/readerwriterqueue.h:535-644 | whatever the consumer does, an `enqueue` whose moves all get the memory they ask for ends within 12 of them, and by accepting |
| `SpscCalls.EnqueueEnds` | emulator/mc_emulator/external/readerwriterqueue/readerwriterqueue.h:535-644 | every enqueue ends within 12 moves of its own, and it accepts just its element, or fails at an allocation, or, if it may not allocate, refuses |
| `SpscCalls.DequeueEnds` | emulator/mc_emulator/external/readerwriterqueue/readerwriterqueue.h:285-422 | every `try_dequeue`, `pop` and `peek` ends within 14 moves of its own, by taking, by showing the front, or by reporting an empty queue |
| `SpscCapacity.AcceptsExactlyUpToCapacity` | emulator/mc_emulator/external/readerwriterqueue/readerwriterqueue.h:105-158 | once the queue is empty and its consumer idle, `try_enqueue` accepts exactly while fewer elements are held than the constructor's blocks have usable slots, one less than its size for each block |
| `SpscCapacity.CapacitySuffices` | emulator/mc_emulator/external/readerwriterqueue/readerwriterqueue.h:105-158 | those usable slots are at least the `n` the queue was built for |
| `SpscCapacity.TryEnqueueEnds` | emulator/mc_emulator/external/readerwriterqueue/readerwriterqueue.h:535-644 | a `try_enqueue` ends after at most 11 of its atomic accesses, whatever the consumer does, and by accepting or refusing |
| `SpscTheorems.BothAssertions` | emulator/mc_emulator/external/readerwriterqueue/readerwriterqueue.h:351 | the assertions on moving to the next block, here and at line 588, hold in every reachable state of a queue built for at least one element |
| `SpscZero.AssertionsHoldIffPositive` | emulator/mc_emulator/external/readerwriterqueue/readerwriterqueue.h:588 | both assertions hold in all reachable states exactly if the queue was built for at least one element |
| `SpscZero.ZeroFails` | emulator/mc_emulator/external/readerwriterqueue/readerwriterqueue.h:116 | a queue built for zero elements has blocks of size 1 and reaches a state that violates the assertion at line 351 |
| `SpscTheorems.NeverStuck` | emulator/mc_emulator/external/readerwriterqueue/readerwriterqueue.h:535-644 | no step of either thread ever goes through a wild block pointer, outside a block, or to a slot without a live object, so every run can be extended by either thread |
| `SpscTheorems.NeverOverwrites` | emulator/mc_emulator/external/readerwriterqueue/readerwriterqueue.h:556-566 | an element is constructed only in a slot that holds none |
| `SpscTheorems.PeekIsFront` | emulator/mc_emulator/external/readerwriterqueue/readerwriterqueue.h:384-422 | `peek` gives the oldest element that has not been taken |
| `SpscTheorems.IncIsMask` | emulator/mc_emulator/external/readerwriterqueue/readerwriterqueue.h:556 | the wrap-around step of the model is `(i + 1) & sizeMask` on every block of every run |
| `SpscSteps.InvStep` | emulator/mc_emulator/external/readerwriterqueue/readerwriterqueue.h:552-644 | every step of either thread keeps the invariant: blocks strictly between front and tail are full, blocks outside that range are empty, shadow indices lag on the safe side |
| `SpscRuns.Construct` | emulator/mc_emulator/external/readerwriterqueue/readerwriterqueue.h:105-158 | the constructor's branches and block-linking loop build exactly the initial ring |
| `SpscRuns.Ring` | emulator/mc_emulator/external/readerwriterqueue/readerwriterqueue.h:125-146 | the loop links `initialBlockCount` empty blocks into one ring |
| `SpscRuns.BlockCountSuffices` | emulator/mc_emulator/external/readerwriterqueue/readerwriterqueue.h:123 | one block less than the block-count formula gives holds `n` elements, at block size minus one each |
| `PowersOfTwo.CeilToPow2Correct` | emulator/mc_emulator/external/readerwriterqueue/readerwriterqueue.h:654-666 | `ceilToPow2` gives the least power of two that is at least `x` if and only if 1 <= x <= 2^63, and 0 for every other 64-bit value |
| `PowersOfTwo.SmearAllFills` | emulator/mc_emulator/external/readerwriterqueue/readerwriterqueue.h:658-663 | the doubling shifts fill every bit below the top bit |
| `BlockingQueue.InnerDequeueSucceeds` | emulator/mc_emulator/external/readerwriterqueue/readerwriterqueue.h:861-940 | the blocking queue's assertions on `success` hold in every run: with a permit in hand the inner dequeue or pop never finds the queue empty |
| `BlockingQueue.CountIsContent` | emulator/mc_emulator/external/readerwriterqueue/readerwriterqueue.h:946-949 | the blocking queue is first in first out, and between calls the semaphore's count, its approximate size, is the number of elements |
| `BlockingQueue.BlockedConsumerIsWoken` | emulator/mc_emulator/external/readerwriterqueue/readerwriterqueue.h:877-883 | a consumer blocked while the queue holds something has been posted to, or the producer is about to |
| `Semaphore.PermitsConserved` | emulator/mc_emulator/external/readerwriterqueue/atomicops.h:678-756 | with one waiter and one signaller that signals positive counts, no permit is invented, the count is exact whenever the waiter is idle, and it never falls below -1 |
| `Semaphore.NoLostWakeup` | emulator/mc_emulator/external/readerwriterqueue/atomicops.h:678-756 | while the waiter is blocked in the kernel, a permit is available exactly if a post has been made or is about to be made |
| `Semaphore.GivesUpHonestly` | emulator/mc_emulator/external/readerwriterqueue/atomicops.h:678-756 | a wait that gives up does so at an instant at which no permit is available |
| `Semaphore.UndoSettles` | emulator/mc_emulator/external/readerwriterqueue/atomicops.h:706-719 | a timed-out waiter that finds a permit in the undo loop takes it within three steps |
| `Semaphore.TryWaitEnds` | emulator/mc_emulator/external/readerwriterqueue/atomicops.h:727-735 | a plain `tryWait` never blocks: in every interleaving it takes a permit on its second step if there is one at its first, and otherwise is over after that one |
| `Semaphore.SignalKeepsIff` | emulator/mc_emulator/external/readerwriterqueue/atomicops.h:747-756 | handing in `k` permits keeps the books exactly if `k` is positive or nobody waits |
| `Semaphore.ZeroSignalInvents` | emulator/mc_emulator/external/readerwriterqueue/atomicops.h:747-756 | `signal(0)`, which the assertion admits, hands a blocked waiter a permit that was never signalled |
| `PowersOfTwo.MaskPlusOne` | emulator/mc_emulator/external/readerwriterqueue/readerwritercircularbuffer.h:40-49 | the constructor's in-place rounding leaves `ceilToPow2(capacity) - 1` in the mask and the rounded size in `capacity` |
| `PowersOfTwo.MaskIsRem` | emulator/mc_emulator/external/readerwriterqueue/readerwritercircularbuffer.h:275 | masking an index with the rounded size minus one takes its remainder |
| `CircularBuffer.MakeInv` | emulator/mc_emulator/external/readerwriterqueue/readerwritercircularbuffer.h:34-51 | the constructor establishes the invariant for every capacity below 2^63, 0 included; from there on the cast to a signed size is negative |
| `CircularBuffer.BoundedFifo` | emulator/mc_emulator/external/readerwriterqueue/readerwritercircularbuffer.h:272-287 | in every interleaving with waits, timeouts and their undo, the buffer is first in first out and holds at most `capacity` elements, and no step leaves the array or reads an empty slot |
| `CircularBuffer.NeverOverwrites` | emulator/mc_emulator/external/readerwriterqueue/readerwritercircularbuffer.h:272-277 | a store goes into a slot that holds no object |
| `CircularBuffer.ReadsOldest` | emulator/mc_emulator/external/readerwriterqueue/readerwritercircularbuffer.h:280-287 | what is read is the oldest stored element |
| `CircularBuffer.FailuresAreHonest` | emulator/mc_emulator/external/readerwriterqueue/readerwritercircularbuffer.h:99-104 | an enqueue gives up only when the buffer is full, a dequeue only when it is empty, counting what the other thread has moved but not yet announced |
| `PdcpHeader.HeaderRoundTrip` | emulator/mc_emulator/src/pdcp_common.cpp:107-134 | decoding an encoded 28-byte header gives back epoch, flags, pad, number and time, and leaves the payload |
| `PdcpReceiver.PdcpReceiver.constructor` | emulator/mc_emulator/src/UE_pdcp/pdcp_receiver.cpp:14-36 | the receiver starts with an empty ring at number 0 and the timer off |
| `PdcpReceiver.PdcpReceiver.DeliverPacket` | emulator/mc_emulator/src/UE_pdcp/pdcp_receiver.cpp:261-337 | one delivery attempt, with its effect on ring, numbers, timer and counters, and the payload copied out |
| `PdcpReceiver.PdcpReceiver.DeliveryCallback` | emulator/mc_emulator/src/UE_pdcp/pdcp_receiver_main.cpp:114-133 | the callback's loop drains the ring until nothing comes or an empty payload comes |
| `PdcpReceiver.PdcpReceiver.ProcessPacket` | emulator/mc_emulator/src/UE_pdcp/pdcp_receiver.cpp:158-258 | one arrival: too short, too long, late, duplicate, or buffered and drained |
| `PdcpReceiver.PdcpReceiver.CheckReorderingTimeout` | emulator/mc_emulator/src/UE_pdcp/pdcp_receiver.cpp:123-155 | one timeout: search the least occupied number, move to it, drain |
| `PdcpReorder.DrainWalks` | emulator/mc_emulator/src/UE_pdcp/pdcp_receiver.cpp:261-337 | draining terminates and hands out exactly the held numbers from the next expected one up to the first gap; it leaves the timer running exactly if the highest number is still to come |
| `PdcpReorder.ArrivalRefinesMap` | emulator/mc_emulator/src/UE_pdcp/pdcp_receiver.cpp:220-255 | a packet of the window is treated as by a map from numbers to payloads: added, then everything up to the first missing number is handed out in order |
| `PdcpReorder.RightIffWithin1024` | emulator/mc_emulator/src/UE_pdcp/pdcp_receiver.cpp:198 | although the ring has 8192 slots, a new packet is handed out in its own place and leaves the ring in order if and only if its number is less than 1024 above the next expected one |
| `PdcpReorder.OverrunIsHandedOutEarly` | emulator/mc_emulator/src/UE_pdcp/pdcp_receiver.cpp:198 | the packet numbered 1024 above the next expected one is handed out at once in that one's place |
| `PdcpReorder.LateArrival` | emulator/mc_emulator/src/UE_pdcp/pdcp_receiver.cpp:201-210 | a number below the next expected one changes nothing but a counter |
| `PdcpReorder.TimerRunsIffHeld` | emulator/mc_emulator/src/UE_pdcp/pdcp_receiver.cpp:272-288 | between events the reordering timer runs exactly while something is held, so no packet is stranded |
| `PdcpReorder.TimeoutRefinesMap` | emulator/mc_emulator/src/UE_pdcp/pdcp_receiver.cpp:123-155 | a timeout moves to the least held number, never past a held one, and hands out at least that packet |
| `PdcpReorder.TimeoutIdle` | emulator/mc_emulator/src/UE_pdcp/pdcp_receiver.cpp:123-155 | with nothing held a timeout changes nothing |
| `PdcpSender.PdcpSender.ProcessPacket` | emulator/mc_emulator/src/CU/pdcp_sender.cpp:124-333 | numbering, path choice, duplicates or probes, re-injection and the packet itself: the exact sequence of forwarding calls, the new state with every byte counter, and the returned length |
| `PdcpSender.PdcpSender.ForwardCopies` | emulator/mc_emulator/src/CU/pdcp_sender.cpp:250-271 | the loop over the copies calls the callback once for each path, in order, and charges exactly the successful counted calls |
| `PdcpSender.PdcpSender.PickTarget` | emulator/mc_emulator/src/CU/pdcp_sender.cpp:197-215 | the chosen path: the environment's, the multilink pick, or the active path, and 0 if that does not exist; `PdcpPaths` says it without this method's own functions |
| `PdcpPaths.SentOnFixedPath` | emulator/mc_emulator/src/CU/pdcp_sender.cpp:190-215 | the last call of a packet, which carries the packet itself, goes to the environment's path if that is in range, and otherwise, without a table, to the active path, or to 0 if that does not exist |
| `PdcpPaths.SentByShare` | emulator/mc_emulator/src/CU/pdcp_sender.cpp:197-215 | with a table and no path from the environment it goes to the path of the one entry whose part of the ratios' sum the draw falls into, a part as long as the entry's ratio, or to 0 if that link does not exist |
| `PdcpPaths.HeadersOfCalls` | emulator/mc_emulator/src/CU/pdcp_sender.cpp:137-181 | every call's header, read back, has epoch 0, the packet's number, the clock and the queue, which is 3 in the re-injected copy |
| `PdcpPaths.BurstCountsDown` | emulator/mc_emulator/src/CU/pdcp_sender.cpp:300-322 | the burst counts down by one exactly if the call before the last is a re-injected copy that succeeded |
| `PdcpSender.EveryCallCarriesThePacket` | emulator/mc_emulator/src/CU/pdcp_sender.cpp:241-325 | in every mode each forwarding call carries the packet under its one number and goes to an existing link; only the last call goes to the chosen path |
| `PdcpSender.WrapBranchIsNeverTaken` | emulator/mc_emulator/src/CU/pdcp_sender.cpp:142 | no 32-bit number is beyond the limit, so the branch that starts a new epoch is never taken, and the number after the limit is 0 |
| `PdcpSender.CopiesReach` | emulator/mc_emulator/src/CU/pdcp_sender.cpp:241-299 | with duplication every listed path, and when probing every link, gets a copy |
| `PdcpEndToEnd.InOrderWithoutDuplicates` | emulator/mc_emulator/src/UE_pdcp/pdcp_receiver.cpp:158-337 | over links that reorder, lose and repeat, the payloads handed up are sent payloads in sending order, none twice |
| `PdcpEndToEnd.ExactPrefixWithoutTimeouts` | emulator/mc_emulator/src/UE_pdcp/pdcp_receiver_main.cpp:91-133 | if no timeout took effect, exactly the prefix of the sent payloads up to the next expected number is handed up, and all of them once every number has arrived |
| `PdcpEndToEnd.AcceptedIsNeverLost` | emulator/mc_emulator/src/UE_pdcp/pdcp_receiver.cpp:220-255 | a number that was buffered is handed up exactly once or is still held with its own payload and the timer running |
| `PdcpEndToEnd.DeliveredCounterCountsLateOnes` | emulator/mc_emulator/src/UE_pdcp/pdcp_receiver.cpp:201-216 | over any run the delivered counter is what was handed up plus the late arrivals, which are not handed up, and nothing counts as dropped |
| `PdcpEndToEnd.StepKeeps` | emulator/mc_emulator/src/CU/pdcp_sender.cpp:141-181 | sending, changing paths, arrivals in any order and timeouts all keep the end-to-end invariant |
| `Multilink.BuildTable` | emulator/mc_emulator/src/CU/pdcp_sender.cpp:576-614 | the multilink command keeps the usable entries, and turns multilink on exactly if some are left and their sum is positive; the table is the cumulative shares |
| `Multilink.Accumulate` | emulator/mc_emulator/src/CU/pdcp_sender.cpp:591-593 | the accumulating loop computes each prefix's share of the sum |
| `Multilink.Pick` | emulator/mc_emulator/src/CU/pdcp_sender.cpp:204-208 | the pick loop stops at the first entry not below the draw, or at the last entry |
| `Multilink.TableShape` | emulator/mc_emulator/src/CU/pdcp_sender.cpp:591-593 | the table is non-decreasing and ends at exactly 1 |
| `Multilink.PicksExactlyItsShare` | emulator/mc_emulator/src/CU/pdcp_sender.cpp:203-208 | the draws in (0, 1] that pick an entry are exactly an interval whose length is its ratio divided by the sum |
| `Multilink.ZeroRatioPick` | emulator/mc_emulator/src/CU/pdcp_sender.cpp:203-208 | an entry with ratio 0 is picked only by the draw 0, and then only as the first entry |
| `RlcSegmentation.SerializeHeader` | emulator/mc_emulator/src/rlc_segmentation.cpp:9-41 | copying field after field to its place gives the 22-byte header |
| `RlcSegmentation.HeaderRoundTrip` | emulator/mc_emulator/src/rlc_segmentation.cpp:43-75 | deserialising a serialised header gives every field back |
| `RlcSegmentation.SegmentRoundTrip` | emulator/mc_emulator/src/rlc_segmentation.cpp:103-137 | a segment survives serialisation with its data |
| `RlcSegmentation.SegmentPacket` | emulator/mc_emulator/src/DU/rlc_sender.cpp:22-67 | the cutting loop produces the specified segments, none if the header does not fit |
| `RlcSegmentation.SegmentsTileIffCountFits` | emulator/mc_emulator/src/DU/rlc_sender.cpp:32 | the segments make up the packet if and only if their number fits the 16-bit variable; otherwise its end is lost |
| `RlcSegmentation.OneLast` | emulator/mc_emulator/src/DU/rlc_sender.cpp:46 | exactly one segment is marked last, and each carries between 1 and the maximal number of bytes |
| `RlcReassembly.ReassemblyManager.ProcessSegment` | emulator/mc_emulator/src/UE_stack/rlc_receiver.cpp:18-93 | one segment: refused for want of a context, ignored as out of range, repeated or overflowing, or copied to its offset, with the packet returned and the context erased when as many segments as announced have come |
| `RlcReassembly.ReassemblyManager.CleanupExpired` | emulator/mc_emulator/src/UE_stack/rlc_receiver.cpp:95-112 | the erase-while-iterating loop removes exactly the contexts not updated within the timeout |
| `ReassemblyTheorems.HandedOnAtLastMissing` | emulator/mc_emulator/src/UE_stack/rlc_receiver.cpp:18-93 | in every run, whatever other packets, clean-ups and repeats come between, a packet cut by the sender is handed on exactly at the arrival of its last missing segment, complete and byte for byte correct, and at no other arrival |
| `ReassemblyTheorems.HandedOnOnceIff` | emulator/mc_emulator/src/UE_stack/rlc_receiver.cpp:18-112 | it is handed on exactly once if and only if all its segments are taken in between two losses and not all taken once more after that, and never if and only if they are not |
| `ReassemblyRounds.ExactlyOnceIff` | emulator/mc_emulator/src/UE_stack/rlc_receiver.cpp:83-90 | the collection is complete exactly once if and only if some stretch without loss has every segment, and no two stretches after each other do |
| `ReassemblyTheorems.OpenContextIff` | emulator/mc_emulator/src/UE_stack/rlc_receiver.cpp:32-90 | whatever context is open under a packet's id, of any packet, size and cut: if from then on only the packet's segments arrive under the id, what is next handed on is the packet if and only if the packet has a single segment, or the context has the packet's size and, in every piece whose segment it has already or does not expect, the packet's bytes |
| `ReassemblyTheorems.StaleContextMixes` | emulator/mc_emulator/src/UE_stack/rlc_receiver.cpp:32-36 | for a context of an old packet cut like the new one: the old packet's pieces are handed on where the context had them, so it is the new packet if and only if those pieces are the same |
| `ReassemblyTheorems.SmallerCutLosesTheEnd` | emulator/mc_emulator/src/UE_stack/rlc_receiver.cpp:32-90 | for instance 240 bytes cut at 120, the first piece received, and cut again at 80: the last 80 bytes are handed on as zeros, which is right only if they are zeros |
| `ReassemblyTheorems.ExpiresAfterLastTouch` | emulator/mc_emulator/src/UE_stack/rlc_receiver.cpp:30-112 | in every run a context's age counts from the event that opened it or last put a segment into it, refused segments do not count, and a clean-up erases it exactly if that age is over the timeout |
| `RlcSender.RlcSender.EnqueuePacket` | emulator/mc_emulator/src/DU/rlc_sender.cpp:135-174 | a packet is refused if it is shorter than an IP header or the buffer refuses it, otherwise it is appended, numbered and counted |
| `RlcSender.RlcSender.SetMaxSegmentSize` | emulator/mc_emulator/src/DU/rlc_sender.cpp:491-496 | sizes above 100 are taken over, others are ignored; it may come between any two calls of a run |
| `RlcSender.RlcSender.DequeuePacket` | emulator/mc_emulator/src/DU/rlc_sender.cpp:176-407 | the whole of one call, recursion included, with every counter and the poll flag; `RlcPdus` and `RlcTransfers` say what the PDU is to the receiver |
| `RlcPdus.EveryPduIsAPiece` | emulator/mc_emulator/src/DU/rlc_sender.cpp:185-407 | in every run each PDU handed out comes from a packet accepted before it, and reads back as that packet or one of its pieces, with id, number, total, sizes, offset, queue, priority, bytes, and a poll on a last piece only, if and only if the packet's size fits 32 bits and the PDU's payload 16 |
| `RlcPdus.AcceptedIds` | emulator/mc_emulator/src/DU/rlc_sender.cpp:135-174 | the packets accepted in a run are numbered from 1 in 12 bits |
| `RlcPdus.PollOfSegment` | emulator/mc_emulator/src/DU/rlc_sender.cpp:185-231 | a waiting segment that goes out takes a pending poll along exactly if it is a last piece, and leaves it pending otherwise |
| `RlcPdus.PollOfWhole` | emulator/mc_emulator/src/DU/rlc_sender.cpp:276-318 | a packet that goes out whole takes a pending poll along, and none is pending after it |
| `RlcTransfers.RunCounted` | emulator/mc_emulator/src/DU/rlc_sender.cpp:135-407 | in every run the byte counters are what is in the buffers, the condition under which the next three are stated |
| `RlcTransfers.PiecesGoOutInOrder` | emulator/mc_emulator/src/DU/rlc_sender.cpp:185-407 | in every run, from the call that cuts a packet whole, the `m`-th PDU handed out is piece `m` of that packet |
| `RlcTransfers.PdusAreTransfer` | emulator/mc_emulator/src/DU/rlc_sender.cpp:185-407 | these PDUs are the wire of a transfer of the packet, as the receiver's theorems take it |
| `RlcTransfers.CutPacketArrives` | emulator/mc_emulator/src/UE_stack/rlc_receiver.cpp:18-93 | fed in that order to a receiver with room and nothing open under the id, they give back the packet, byte for byte, at the last of them and nothing before |
| `RlcTransfers.WholePacketArrives` | emulator/mc_emulator/src/UE_stack/rlc_receiver.cpp:508-530 | the PDU of a packet that goes out whole is handed on at once, and is the packet if and only if its size fits 16 bits |
| `RlcSender.RlcSender.QueueSegments` | emulator/mc_emulator/src/DU/rlc_sender.cpp:380-393 | the loop queues the segments the buffer takes, and drops the others |
| `RlcFlow.ByteFifoIffCutsFit` | emulator/mc_emulator/src/DU/rlc_sender.cpp:176-407 | in every run the payloads handed out, the segment buffer and the packet buffer concatenate to everything accepted, if and only if every packet that was cut needed no more segments than 16 bits count and the segment buffer takes |
| `RlcFlow.WholeIffSegmentsFit` | emulator/mc_emulator/src/DU/rlc_sender.cpp:380-393 | all of a cut's segments are queued, and they make up the packet, if and only if their number fits 16 bits and the usable slots of the segment buffer; otherwise fewer bytes are queued |
| `RlcFlow.SmallSlotOverflows` | emulator/mc_emulator/src/DU/rlc_sender.cpp:329-341 | with the default sizes the segment buffer takes 511 segments, so a budget of 100 bytes loses the end of exactly the packets longer than 39858 bytes |
| `RlcFlow.CountersMatchBuffers` | emulator/mc_emulator/src/DU/rlc_sender.cpp:135-407 | in every run the byte counters equal the buffers' contents and the 32-bit packet and segment counters differ by what is held |
| `RlcFlow.RecursesAtMostOnce` | emulator/mc_emulator/src/DU/rlc_sender.cpp:405-406 | the call after a cut always hands out a segment that fits, so the recursion is one deep |
| `RlcFlow.NullChangesNothing` | emulator/mc_emulator/src/DU/rlc_sender.cpp:237-247 | a null result leaves both buffers and all counters as they were |
| `RlcFlow.SomethingIff` | emulator/mc_emulator/src/DU/rlc_sender.cpp:176-407 | something is handed out exactly if one of the three sending branches applies |
| `RlcFlow.ResultSize` | emulator/mc_emulator/src/DU/rlc_sender.cpp:253 | a result is at most 6 bytes over the budget, and is over it exactly when a whole packet fits with 16 bytes of header but not with 22 |
| `RlcFlow.DequeueFlow` | emulator/mc_emulator/src/DU/rlc_sender.cpp:176-407 | what one call hands out followed by what still waits is what waited, or strictly less if its cut lost a segment |
| `RlcFlow.WholePduDecodes` | emulator/mc_emulator/src/DU/rlc_sender.cpp:276-318 | a whole packet is sent as the one segment of itself: deserialising gives its data, id, queue, priority and the poll flag |
| `RlcFlow.PollGoesOnLast` | emulator/mc_emulator/src/DU/rlc_sender.cpp:350-378 | a pending poll goes on the last of the new segments and on no other |
| `MacSender.MacSender.ProcessSlot` | emulator/mc_emulator/src/DU/mac_sender.cpp:91-208 | one slot: what fits is sent exactly if the PHY accepts it, a refusal is the last attempt and ends the slot, the bytes sent and the budget left add up to the budget, priority is strict, and a slot that ends with budget left has tried every queue in vain with that budget; with an accepting PHY and a running scheduler it always ends so, or with nothing left |
| `MacSender.MacSender.ProcessGroup` | emulator/mc_emulator/src/DU/mac_sender.cpp:127-194 | within one priority each attempt goes to the first non-empty queue after the one tried before it, in ring order; the round robin ends with budget left, nothing sent and no refusal only after every queue of the group was empty or tried in vain |
| `MacSender.MacSender.FindQueue` | emulator/mc_emulator/src/DU/mac_sender.cpp:132-149 | the search from the shared pointer finds the first non-empty queue in ring order |
| `MacSender.BuildGroups` | emulator/mc_emulator/src/DU/mac_sender.cpp:110-114 | every queue is in the group of its priority, and the groups come by descending priority |
| `MacSender.ArcGrows` | emulator/mc_emulator/src/DU/mac_sender.cpp:129-149 | each try in vain extends the covered arc of the ring past the skipped queues and the tried one, whatever group the pointer was left by |
| `MacTheorems.NothingElseFits` | emulator/mc_emulator/src/DU/mac_sender.cpp:196-205 | work conservation: when a slot ends with budget left, each queue is empty or had, in the last pass and for just that budget, nothing that could be sent |
| `MacTheorems.HigherHadNothing` | emulator/mc_emulator/src/DU/mac_sender.cpp:120-200 | strict priority: each queue that outranks a sent packet's queue was empty or had nothing that fits in that pass |
| `MacTheorems.DiscardLosesThePacket` | emulator/mc_emulator/src/DU/mac_sender.cpp:159-163 | a dequeued packet is discarded, and lost, exactly when it fits with 16 bytes of header but not with 22 |
| `LinkAllocation.CalculateDeliveryTime` | ric/multi_conn_agent/link_performance.cpp:158-347 | from the links' figures: the result is the least number of first links by priority that can, by one time within the deadline, each send exactly its queue and its share of the frame, counted from its Xn delay and wake-up on, with that time and those shares; there is none exactly if no such number of links can |
| `LinkAllocation.AcceptedIffTogether` | ric/multi_conn_agent/link_performance.cpp:192-318 | the accepted prefixes of the model's link list are exactly those whose links can so send their queues and the frame together |
| `LinkAllocation.SplitsDivide` | ric/multi_conn_agent/link_performance.cpp:255-284 | the splits are non-negative and sum to exactly 1, and every selected link finishes exactly at the common time |
| `LinkAllocation.NoDivisionIsFaster` | ric/multi_conn_agent/link_performance.cpp:242-245 | any other division over the same links has a used link that finishes no earlier |
| `LinkAllocation.NoShorterPrefixIsPossible` | ric/multi_conn_agent/link_performance.cpp:231-318 | no division of the frame over any shorter prefix of the priority order meets the deadline |
| `LinkAllocation.ShorterTakesLonger` | ric/multi_conn_agent/link_performance.cpp:232-245 | every shorter prefix takes at least as long |
| `LinkAllocation.PossibleIffMost` | ric/multi_conn_agent/link_performance.cpp:231-318 | some division meets the deadline if and only if the frame is no larger than what the links with a delay below the deadline can deliver by then |
| `LinkAllocation.AcceptedIffBetween` | ric/multi_conn_agent/link_performance.cpp:242-313 | the first `k` links are accepted exactly for the frames from what they deliver by their largest delay to what they deliver by the deadline |
| `LinkAllocation.MissedIff` | ric/multi_conn_agent/link_performance.cpp:231-318 | for a list and a frame size: a possible division is missed if and only if the frame is larger than what the links before the first with a delay beyond the deadline deliver, or falls between what `k - 1` links can deliver and what `k` are needed for |
| `LinkAllocation.CompleteIff` | ric/multi_conn_agent/link_performance.cpp:231-318 | for a list: the search finds a result for every possible frame size if and only if no link with a delay below the deadline follows one with a delay beyond it, and no prefix before that link leaves such a gap |
| `LinkAllocation.AlwaysCompleteIffInOrder` | ric/multi_conn_agent/link_performance.cpp:231-318 | for given delays: the search finds every possible result for all throughputs and all frames of whole bytes if and only if no link with a delay below the deadline comes after a link with a larger delay |
| `LinkAllocation.AcceptedIsPossible` | ric/multi_conn_agent/link_performance.cpp:231-318 | whatever the order, a result gives a division that meets the deadline |
| `LinkAllocation.SlowLinkHidesASolution` | ric/multi_conn_agent/link_performance.cpp:271-280 | for instance a slow link in the middle makes the search fail for 6 bytes although a division exists |
| `LinkAllocation.TrySplits` | ric/multi_conn_agent/link_performance.cpp:255-284 | the inner loop is feasible exactly if every delay is within the common time, and then computes the splits |
| `LinkAllocation.Collect` | ric/multi_conn_agent/link_performance.cpp:168-198 | links without throughput are skipped; delay is the Xn delay, the whole milliseconds to wake-up and the queue's bits at the link's rate, as `AcceptedIffTogether` confirms from the figures |
| `Arq.RetransmissionManager.ProcessStatusPdu` | emulator/mc_emulator/include/DU/rlc_retransmission.hpp:401-533 | an ACK of a pending id counts and removes it, an unknown one is refused, and NACKs mark and count their ids |
| `Arq.RetransmissionManager.CheckForRetransmissions` | emulator/mc_emulator/include/DU/rlc_retransmission.hpp:543-580 | the loop over the map in key order, with erasure, marks, counters and the returned ids |
| `Arq.RetransmissionManager.SortedKeys` | emulator/mc_emulator/include/DU/rlc_retransmission.hpp:548 | the traversal order of the map: every key, ascending, once |
| `ArqRuns.EveryPacketIsAccountedFor` | emulator/mc_emulator/include/DU/rlc_retransmission.hpp:353-533 | over any run packets added = acknowledged + dropped + pending + overwritten by id reuse, and the acknowledged-byte counter is the sum of the acknowledged sizes, in 32 bits |
| `ArqRuns.ReturnedAtMostMaxTimes` | emulator/mc_emulator/include/DU/rlc_retransmission.hpp:555-573 | an entry is returned at most the maximal number of times while its 16-bit attempt counter has not wrapped |
| `ArqRuns.WrapForgetsAttempts` | emulator/mc_emulator/include/DU/rlc_retransmission.hpp:526-527 | enough NACKs wrap that counter, and an exhausted entry is returned again |
| `ArqTheorems.ReturnedIff` | emulator/mc_emulator/include/DU/rlc_retransmission.hpp:555-573 | in every run a pending packet found overdue is returned if and only if its returns and NACKs so far, modulo 2^16, are below the maximum, and is dropped otherwise |
| `ArqTheorems.ExceedsMaxIff` | emulator/mc_emulator/include/DU/rlc_retransmission.hpp:526-573 | in every run a packet has been returned more often than the maximum if and only if, since it was added, some check found it overdue after exactly the maximal number of returns, with so many NACKs that both together, modulo 2^16, were below the maximum |
| `ArqTheorems.RepeatedAckIgnoredIff` | emulator/mc_emulator/include/DU/rlc_retransmission.hpp:401-520 | in every run an ACK that repeats an earlier one is refused and changes no packet or byte count if and only if the id was not added again in between, or was acknowledged or dropped again since its last addition; otherwise it removes the new packet and counts it |
| `ArqTheorems.LateAckHitsReusedId` | emulator/mc_emulator/include/DU/rlc_retransmission.hpp:353-363 | for instance, once the id is used again the repeated ACK removes the new packet and counts its bytes |
| `ArqTheorems.PendingIff` | emulator/mc_emulator/include/DU/rlc_retransmission.hpp:353-573 | a packet that is not pending becomes so exactly by an addition that no ACK and no drop has followed |
| `ArqTheorems.TimeIsLastStamp` | emulator/mc_emulator/include/DU/rlc_retransmission.hpp:353-573 | in every run a pending packet's time is that of the last step that added it or returned it |
| `ArqTheorems.MarkedIff` | emulator/mc_emulator/include/DU/rlc_retransmission.hpp:518-605 | in every run a pending packet is marked for retransmission if and only if a NACK or a check has asked for it since it was last added or marked as sent again |
| `ArqRuns.NothingOverdueAfterCheck` | emulator/mc_emulator/include/DU/rlc_retransmission.hpp:543-580 | after the check no pending entry is overdue |
| `ArqRuns.CheckReturns` | emulator/mc_emulator/include/DU/rlc_retransmission.hpp:543-580 | the check returns exactly the overdue entries with attempts left, marks them, advances their counter and resets their timer, and removes exactly the exhausted ones |
| `ArqRuns.StepIsTheClass` | emulator/mc_emulator/include/DU/rlc_retransmission.hpp:353-602 | apart from the recorded history, a run goes through exactly the class's operations |
| `UplinkMac.MacReceiver.SendStatusPdu` | emulator/mc_emulator/src/UE_stack/mac_receiver.cpp:101-122 | a PDU is queued with its deadline exactly if the module runs and the queue takes it |
| `UplinkMac.MacReceiver.CollectReady` | emulator/mc_emulator/src/UE_stack/mac_receiver.cpp:270-287 | the erase-while-iterating loop splits the pending list into what is due and what is not, each in order |
| `UplinkMac.MacReceiver.CheckAndTransmitPendingPdus` | emulator/mc_emulator/src/UE_stack/mac_receiver.cpp:270-298 | what is due leaves the pending list and is finished, and the callback is called with each of them, in order, exactly if the module runs |
| `UplinkMac.MacReceiver.ProcessTxOpportunity` | emulator/mc_emulator/src/UE_stack/mac_receiver.cpp:247-268 | a grant moves the whole queue to the end of the pending list |
| `UplinkMac.MacReceiver.ProcessImmediateUplink` | emulator/mc_emulator/src/UE_stack/mac_receiver.cpp:300-346 | an immediate uplink finishes the queue and then the pending list, and calls the callback with each of them exactly if the module runs |
| `UplinkMac.ExactlyOnePlaceIffApart` | emulator/mc_emulator/src/UE_stack/mac_receiver.cpp:247-346 | in every interleaving every accepted PDU is in exactly one place, and so is transmitted at most once, if and only if no store of the queue's front, by a grant or an immediate uplink, has fallen between the other's load and store of it |
| `UplinkMac.OverlapTransmitsTwice` | emulator/mc_emulator/src/UE_stack/mac_receiver.cpp:255-311 | for instance a grant and an immediate uplink that load the same front both transmit, and delete, the one PDU |
| `UplinkMac.SentInOrderAfterDeadline` | emulator/mc_emulator/src/UE_stack/mac_receiver.cpp:247-298 | without immediate uplinks and with a constant delay, PDUs go out in the order accepted, none before its deadline or before a grant |
| `UplinkMac.OrderKeptIffByDeadline` | emulator/mc_emulator/src/UE_stack/mac_receiver.cpp:278-287 | collecting keeps the order at every time exactly if the deadlines on the list do not decrease |
| `UplinkMac.ImmediateKeepsOrderIff` | emulator/mc_emulator/src/UE_stack/mac_receiver.cpp:300-336 | in every run whose takes are apart, the queue and then the pending list, as an immediate uplink finishes them, are in the order accepted if and only if one of them is empty; for the first one, with nothing on its way, exactly then everything accepted goes out in order |
| `UplinkMac.ImmediateBreaksOrder` | emulator/mc_emulator/src/UE_stack/mac_receiver.cpp:306-333 | for instance, from the initial state an immediate uplink sends a queued PDU before an earlier, granted one, and both at the moment of acceptance, whatever the delay |
| `PdcpCommon.CalculateIpChecksum` | emulator/mc_emulator/src/pdcp_common.cpp:34-49 | the loops compute the complement of the folded word sum, without 32-bit overflow up to 65537 words |
| `PdcpCommon.FoldKeepsResidue` | emulator/mc_emulator/src/pdcp_common.cpp:45-47 | folding terminates, keeps the sum modulo 65535, and gives 0 only for 0 |
| `PdcpCommon.StoredChecksumVerifies` | emulator/mc_emulator/src/pdcp_common.cpp:179-180 | storing the checksum in a zeroed, even-aligned field makes a recomputation give 0 |
| `PdcpCommon.ExtractInvertsCreate` | emulator/mc_emulator/src/pdcp_common.cpp:147-216 | extraction gives back packet, epoch, sequence number and timestamp |
| `PdcpCommon.OuterHeaderIsValid` | emulator/mc_emulator/src/pdcp_common.cpp:167-181 | the outer header of every encapsulated packet passes the checksum test and its length field is the packet's length |
| `PdcpCommon.OuterHeaderFields` | emulator/mc_emulator/src/pdcp_common.cpp:167-178 | byte for byte the outer header is version 4 with 20 bytes, the number's low half as identification, time to live 64, protocol 4, from 10.100.0.1 to 9.9.9.9 |
| `StatusPdu.Serialize` | emulator/mc_emulator/include/DU/rlc_retransmission.hpp:119-154 | the header and the NACKs are copied to their places in zeroed bytes |
| `StatusPdu.StatusRoundTrip` | emulator/mc_emulator/include/DU/rlc_retransmission.hpp:157-212 | deserialising a serialised PDU gives every field and NACK back |
| `StatusPdu.ConstructorsAreWellFormed` | emulator/mc_emulator/include/DU/rlc_retransmission.hpp:82-117 | what the constructors make can be sent, and the NACK list is the first 32 of the missing ones |
| `RicMessage.RicControlMessage.Serialize` | ric/multi_conn_agent/types.h:102-144 | the loops write the fixed part and the list that belongs to the type |
| `RicMessage.RicControlMessage.Deserialize` | ric/multi_conn_agent/types.h:146-211 | for every buffer whose counts and sizes stay inside, reading sets exactly the fields the message carries, and refuses buffers shorter than the fixed part |
| `RicMessage.MessageRoundTrip` | ric/multi_conn_agent/types.h:102-211 | for lists and packets of any length, what was written meets that condition, and reading it recovers every field the type carries |
| `RicMessage.PastTheEndIff` | ric/multi_conn_agent/types.h:146-211 | reading goes past the end if and only if the buffer ends before the count, or before the 12 bytes of each announced link, or before the running sum of the announced packets' headers and sizes |
| `RicMessage.CountIsNotChecked` | ric/multi_conn_agent/types.h:146-184 | for instance a positive link count in a buffer that ends there leads past its end |
| `RicMessage.SizeIsNotChecked` | ric/multi_conn_agent/types.h:185-207 | for instance a positive packet size in a buffer that ends right after it leads past its end |

## Left out

- Weak memory, allocator alignment and placement construction in the queue.
- Moves, swaps and destructors of the containers: not concurrent, no invariant of their own.
- Sequence wrap beyond 2^32 and epoch advance in PDCP: the sender never advances the epoch. At the number 2^32 - 1 the 32-bit search loop of the timeout would not end; runs stop before it.
- The thread loop of the reordering timer: when a timeout happens is arbitrary here.
- The QoS classifier: the queue of a packet is an input.
- The RLC receiver's status thread: the lists of missing segments, the choice of ACKs and NACKs and its timers; the status PDUs themselves are in `StatusPdu.dfy`.
- `ReassemblyTheorems.OpenContextIff`: is for one packet arriving under its id; what segments of two packets that arrive in turn under one id yield is not stated.
- `RicMessage.RicControlMessage.Deserialize`: is for buffers that are read inside their bounds, because beyond them the source has no defined result; `RicMessage.PastTheEndIff` says which these are.
- `RlcSender.RlcSender.DequeuePacket`: does not call the retransmission manager, which is modelled on its own in `Arq.dfy`; delay metrics are not modelled.
- The MAC constructor's sort: the groups are rebuilt in every slot in any case; slot timing and statistics.
- The UE MAC's wake-up times: when each thread moves is arbitrary here. Deletion of PDUs is being finished.
- `UplinkMac.SentInOrderAfterDeadline`: assumes a constant `txDelay`, because a shorter one set later lets newer PDUs overtake (see `UplinkMac.OrderKeptIffByDeadline`).
- Link allocation: throughput averaging, the metrics maps and rounding; `std::sort` is any order by priority.
- `LinkDecision::update_link_priorities` and the small helpers around it: one pass over a sorted list.
- The JSON command parsing around the multilink table, KPM reports, TUN devices, sockets, logging: input and output only.
- `shouldProcessPacket`, `analyzeTcp`: single tests of header fields.
- The reorder buffer of `emulator/enhanced_tun_emulator/src/pdcp.c`: its receive side tests the PDCP header as if it were IPv4, so it has no contract to prove.
