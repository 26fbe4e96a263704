# Verified model of the QEMU board support package's rings and drivers

This project models the parts of the WinCE 8 board support package for QEMU whose correctness depends on
a protocol, and proves what those protocols are for. It stands alone: `dafny verify dfyconfig.toml`
checks everything with Dafny 4.11.

## What is modelled

**Virtqueues.** Both ring formats of VIRTIO 1.1, packed (section 2.7) and split (section 2.6). Each
driver call is a function on the whole state of the queue (`PackedRing`, `SplitRing`); a class holds the
same state in fields and arrays (`PackedQueue`, `SplitQueue`), and each of its methods is proved equal to
the function. A queue and its device form a system whose steps are `add_buf`, a device that reads a
chain, a device that completes any chain it has read, `get_buf` and `kick_prepare`. `PackedInvariant` and
`SplitInvariant` say what every reachable state satisfies: a ledger that puts every descriptor id in
exactly one place of exactly one list, positions that never wrap behind the indices that do, and what
each ring slot holds. Both systems are shown to refine one abstract bag of buffers (`BufferQueue`), over
whole runs. `PackedKicks` and `SplitKicks` say what a kick at the end of a run is worth. `PackedPublish`
and `PackedTurns` interleave the single writes of an add with the device. `PackedInterrupts` and `SplitInterrupts`
interleave `enable_cb` and `get_buf`, one access at a time, with a device that decides whether to
interrupt; `PackedNotify` and `SplitNotify` interleave the driver's adds and kicks with a device that sleeps
until it is notified.

**The block driver's request engine** (`Blk*`). `DoDiskIO` cuts a scatter/gather request into chains of
descriptors, one per sector, posts them in batches, and collects the status bytes. The class `BlkDisk` is
the driver's data structure and a device that completes the requests of a batch in any order, as many
at a time as it likes, and logs each request with the status it reports. The result is one flat copy
between sectors and buffers.

**The flow state machine** (`Flow*`). The lock-free start/stop/drain protocol of the network driver, as
interleaved accesses of one controlling thread and any number of others. `FlowTheorems` says, for every
state that a run can reach, what a Stop called there does; the class `FlowStateMachine` has the source's
methods, each proved to take exactly those steps.

**The SMSC9118 driver** (`Smsc*`). The transmit path merges short fragments into FIFO commands. The
receive path moves 256 packets between two circular lists, two handlers and NDIS, here one access of a
list at a time.

**KITL framing and the real-time clock** (`KitlSerial`, `RtcCalendar`). A parser that resumes over polls,
against its encoder, and two loops that convert a 32-bit count of seconds to a date and back.

### Assumptions

Memory accesses are sequentially consistent (this build compiles the barriers out). Ring sizes are at most
32768, for the split ring powers of two; queue pages start zeroed. Tokens are not null, and a buffer has
at least one element. A device completes only buffers it has read and not completed yet, writes a used
entry before it reads the driver's event field, and reads event flags before an event position. It looks
at the event field at least once in 2^16 entries. Puts to the SMSC9118's empty list come from the deferred
handler and from NDIS; they are serialised, and NDIS returns a packet only after the deferred handler has
looked at its status (`ReturnIsSafeIff` says that this is exactly what it takes).

### Where the code falls short of its promise

- A direct add of exactly as many descriptors as the packed ring has leaves `avail_wrap_counter` behind:
  the test `i < head` (VirtIORing-packed.c line 274) does not see a chain that ends at its own head.
  `WrapCounterFollowsLap` says exactly when the counter follows; `FullRingAddMissesWrap` is an instance.
- The packed kick decision goes wrong while that counter is behind, and a 16-bit test cannot tell counts of
  2^16 and more apart. `PackedKicks.KickOverRuns` says, for the end of any run, exactly when no event is
  missed and exactly when the decision is right for every event; `FullAddMisses` is a run of one add, and
  in the run of `FullAddIsNotNotified` the device sleeps on with the buffer unread.
- The split kick counts added buffers in 32 bits. `SplitKicks.KickOverRuns` says exactly when it notifies
  for exactly the positions that were passed; `WrappedCountMisses` is a run of 2^32 buffers.
- An indirect table of more than 2^16 elements is linked with 16-bit indices (VirtIORing.c line 248);
  `TableReadsIff` says that a device that walks it reads the caller's list exactly up to that size.
- `DoDiskIO` adds up the lengths, and computes `sr_num_sec * 512` and `sr_start + sr_num_sec`, in 32 bits.
  `SizeCheckIsExact` and `RangeCheckIsExact` say exactly when its checks mean what they are for;
  `SizeCheckMisses` and `RangeCheckMisses` are requests that pass them wrongly.
- `CompleteStopping` tests the state and stores it apart, without a lock in this build, and apart from the
  release that led to it (ParaNdis-SM.h lines 116 to 127), while Start and Stop decide by the same state
  (lines 28, 39, 166). A thread left over there can end a later Stop while items are registered, or before
  it clears its event, so that it waits for ever. Its store can come after the next Start: then the plain
  machine's Stop returns at once with items registered, the config machine's Stop waits for ever without
  dropping its reference, and a second Start takes a second reference, which one Stop does not drop. A late
  notification can make a Stop return early; then the config machine's next Stop releases a reference that
  is not its own. And a Stop of a config machine that was never started can be ended by a refused
  registration before it clears its event. `EveryStopIsGoodIff` says, for every reachable state, exactly when
  a Stop called there is safe, leaves nothing registered, cannot lose its wake-up and releases only its own
  reference; `StopIsSafeIff`, `StopWakesIff` and `StopPaysIff` say it for each of these. `FlowReachable` has
  runs to all the failing states.
- The SMSC9118's transmit command for merged bytes carries the whole address of the temporary buffer in its
  upper half (smsc9118.c lines 3240 and 3252), though the driver aligns that address only to four bytes (line
  961). The chip reads five bits of it as data offset and two as the alignment to which the data is padded.
  `MergedIsReadIff` says exactly which commands it reads right, and `ServesAllIff` which addresses serve all
  packets; a multiple of 32 is not enough (`AlignedButMisread`).
- A packet of more than 86 buffers of which the last one is empty makes the copy loop ask for a buffer behind
  the end of the list, and so does a packet of no buffers (smsc9118.c lines 3159 and 3463 to 3469).
  `XmitOnePacket` says exactly when; `EmptyLastLooksBehind` is such a packet.
- A receive packet that NDIS returns between its indication and the test of its status is put into the empty
  list twice (smsc9118.c lines 2741 to 2752 and 3074 to 3076). `ReturnIsSafeIff` says that this is the only
  case, and `EarlyReturnIsReachable` is a run to it.
- `OEMSetRealTime` tests the target month instead of the current one (timer.c line 103), so it never
  adds the leap day. `RoundTripIffNoLeapDay` says exactly which dates survive the round trip, and
  `LeapDayIsLost` is one that does not.

## Model

| member | source | states |
|---|---|---|
| BufferQueue.RunConserves | drivers/virtio/VirtIO.h:42-62 | over any run of the abstract queue, what was held and what was accepted is what came back and what is still held, each buffer with its multiplicity |
| BufferQueue.RunKeepsOrder | drivers/virtio/VirtIO.h:42-62 | buffers come back in the order of completion, with the lengths the device wrote |
| Ledger.ListsAreDisjoint | drivers/virtio/VirtIORing-packed.c:307-317 | every id is free or in a chain; no list repeats an id, and no two lists share one |
| Ledger.TakeKeepsPartition | drivers/virtio/VirtIORing-packed.c:226-235 | moving the first free ids into a chain keeps every id in exactly one place |
| Ledger.PutKeepsPartition | drivers/virtio/VirtIORing-packed.c:307-317 | putting a chain back in front of the free list keeps every id in exactly one place |
| EventIndex.NeedEventIsInterval | drivers/virtio/VirtIORing.c:167-175 | the event test asks whether the event lies in the circular interval from the old to the new index |
| EventIndex.KickSplitIsExact | drivers/virtio/VirtIORing.c:355-376 | the split kick notifies exactly when the event position was passed since the last kick, however many buffers were added |
| PackedIds.AcceptKeepsIds | drivers/virtio/VirtIORing-packed.c:226-287 | an add takes its ids from the front of the free list and records head, length and last id of the chain; all other chains and the partition stay |
| PackedIds.DetachKeepsIds | drivers/virtio/VirtIORing-packed.c:307-317 | `detach_buf_packed` links the whole chain in front of the free list and leaves all other chains as they were |
| PackedSteps.AcceptKeeps | drivers/virtio/VirtIORing-packed.c:176-305 | an accepted add keeps the whole invariant: ids, positions, laps, and what every ring slot holds |
| PackedSteps.DeviceSeesExactly | drivers/virtio/VirtIORing-packed.c:237-298 | a device at its next position finds an available head exactly when a buffer is unread, on every lap |
| PackedSteps.DeviceReadsOldest | drivers/virtio/VirtIORing-packed.c:247-298 | what the device reads there is the oldest unread buffer, as the caller gave it: as many descriptors as its list has elements, each with the element's address and length, NEXT exactly on all but the last, WRITE exactly from element `out` on; or one with the table's address, its length of 16 bytes an element, and INDIRECT; all with the buffer's id |
| PackedSteps.AcceptWritesList | drivers/virtio/VirtIORing-packed.c:247-298 | an add without a table leaves exactly those descriptors in the next slots of the ring, with the lap bits of their slots |
| PackedSteps.CompleteKeeps | drivers/virtio/VirtIORing-packed.c:352-363 | a device that completes any chain it has read, in any order, keeps the invariant |
| PackedSteps.UsedExactly | drivers/virtio/VirtIORing-packed.c:352-363 | a used element looks used at the driver's position exactly when one waits there, and it is the oldest completion; stale laps and chain interiors never look used |
| PackedSteps.ReapKeeps | drivers/virtio/VirtIORing-packed.c:512-569 | taking a used element and skipping `num` slots keeps the invariant |
| PackedRuns.FreshKeeps | drivers/virtio/VirtIORing-packed.c:635-687 | a new queue on zeroed pages satisfies the invariant |
| PackedRuns.GetOutcome | drivers/virtio/VirtIORing-packed.c:512-569 | `get_buf` returns NULL and changes nothing exactly when nothing is completed; otherwise it returns token and length of the oldest completion |
| PackedRuns.AddOutcome | drivers/virtio/VirtIORing-packed.c:176-302 | in every reachable state, an add is accepted exactly if as many descriptors are free, beside those of the buffers in the queue, as its list has elements, or one for a table; then the buffer with the caller's list is the last unread one, through the table exactly if one was free; otherwise nothing changes |
| PackedRuns.StepKeeps | drivers/virtio/VirtIORing-packed.c:176-569 | every call and every device action keeps the invariant |
| PackedRuns.StepRefines | drivers/virtio/VirtIORing-packed.c:176-569 | every call and every device action is one event of the abstract queue; an add that is refused changes nothing |
| PackedRuns.RunRefines | drivers/virtio/VirtIORing-packed.c:176-569 | any run keeps the invariant and is a run of the abstract queue |
| PackedRuns.EachBufferReturnsOnce | drivers/virtio/VirtIORing-packed.c:176-569 | from a new queue, for any run: each accepted buffer came back once or is still held, and buffers came back in completion order with the device's lengths |
| PackedTheorems.PositionsCountFlight | drivers/virtio/VirtIORing-packed.c:225-282 | unwrapped, the next available position is ahead of the last used one by exactly `num - num_free`; `avail_used_flags` is the parity of its lap |
| PackedTheorems.WrapCounterFollowsLap | drivers/virtio/VirtIORing-packed.c:217-275 | `avail_wrap_counter` follows the lap over an add if and only if the add is indirect or shorter than the ring |
| PackedTheorems.FullRingAddMissesWrap | drivers/virtio/VirtIORing-packed.c:274-275 | a ring of four filled by one direct add: the flags change laps, the counter does not |
| PackedTheorems.MoreUsedIsExact | drivers/virtio/VirtIORing-packed.c:506-510 | in every reachable state `more_used_packed` is true exactly when a completed buffer waits |
| PackedTheorems.GetOnAnyRing | drivers/virtio/VirtIORing-packed.c:512-569 | whatever is in the ring: `get_buf` returns a token exactly if the next element is used and names a buffer that the driver has, and then that one's token and the length written there; otherwise it changes nothing |
| PackedTheorems.NewQueueIsEmpty | drivers/virtio/VirtIORing-packed.c:635-687 | a new queue has all descriptors free and no token, returns nothing, shows the device nothing, and lets it interrupt |
| PackedTheorems.AddLeavesFilledSlots | drivers/virtio/VirtIORing-packed.c:247-272 | an add overwrites neither a used element that waits nor a descriptor the device may still read |
| PackedTheorems.HalfAddIsInvisible | drivers/virtio/VirtIORing-packed.c:237-299 | whatever has been written of a new chain, as long as its head's flags word is the old one, a device polling in ring order finds the head not available and every earlier chain whole |
| PackedTheorems.DetachUnusedStep | drivers/virtio/VirtIORing-packed.c:319-340 | one call of `detach_unused_buf` returns the token of a buffer in flight and frees its ids |
| PackedTheorems.DrainReturnsAll | drivers/virtio/VirtIORing-packed.c:319-340 | called until NULL, it returns the token of every buffer in flight once and leaves all ids free |
| PackedTheorems.TeardownDrains | drivers/virtio/VirtIORing-packed.c:307-340 | the same from whatever state a run has reached |
| PackedEvents.PackedTest | drivers/virtio/VirtIORing-packed.c:106-114 | the event test, for an event in this lap or the one before, is true exactly for a position that was passed, or spuriously for a future one when the count comes within a lap of 2^16 |
| PackedKicks.MissesNoneIff | drivers/virtio/VirtIORing-packed.c:106-114 | for any count: no event of this lap or the one before is missed if and only if the count fits in 16 bits or what is left of it covers both laps |
| PackedKicks.NoneExtraIff | drivers/virtio/VirtIORing-packed.c:106-114 | for any count: no event that was not passed makes the test true if and only if what is left of the count in 16 bits leaves room for the rest of the lap |
| PackedKicks.WrongLapMisses | drivers/virtio/VirtIORing-packed.c:612-617 | when the wrap correction is a lap off, some event that was passed is missed as soon as something was added |
| PackedKicks.StepKeepsKick | drivers/virtio/VirtIORing-packed.c:598-600 | over every call, kick and device action `num_added` stays the number of descriptors added since the last kick, in 32 bits |
| PackedKicks.KickOverRuns | drivers/virtio/VirtIORing-packed.c:577-620 | a kick at the end of any run: no event passed since the last kick is missed if and only if nothing was added, or an even number of direct adds has filled the whole ring and the count fits in 16 bits or covers both laps; the decision is right for every event if and only if, besides, the 16-bit count leaves room for the rest of the lap |
| PackedKicks.FullAddMisses | drivers/virtio/VirtIORing-packed.c:274-275 | on a new queue of any size, one direct add that fills it leads to a kick that misses an event |
| PackedNotify.KickForFlags | drivers/virtio/VirtIORing-packed.c:603-617 | a device whose structure says ENABLE is notified by every kick, one that says DISABLE by none, one that names a position by what the event test says |
| PackedNotify.NoLostNotificationPacked | drivers/virtio/VirtIORing-packed.c:176-620 | from a new queue, in any interleaving of adds, gets and kicks with a device that sleeps when it finds nothing: once the driver has kicked after its last add, a device asleep with a buffer unread has been notified since it fell asleep; without any condition if it asks for every notification, and if it names its position as long as each kick meets a count and a wrap counter that miss no event |
| PackedNotify.FullAddIsNotNotified | drivers/virtio/VirtIORing-packed.c:274-275 | on a new queue of any size whose device sleeps until its first position is reached, one direct add that fills the queue, and a kick, leave it asleep with the buffer unread |
| PackedPublish.ReadsAreFetches | drivers/virtio/VirtIORing-packed.c:247-298 | what a device reads from memory in the middle of an add moves it exactly as if the add had not begun |
| PackedPublish.AccessKeeps | drivers/virtio/VirtIORing-packed.c:206-298 | a write of the add, a read and a used element of the device, in any order, leave memory half-written over a queue that satisfies the invariant |
| PackedPublish.DeviceIsUndisturbed | drivers/virtio/VirtIORing-packed.c:206-298 | in any interleaving the device does exactly what it would have done had the add not begun |
| PackedTurns.AddTakesEffectAtLastWrite | drivers/virtio/VirtIORing-packed.c:247-298 | the driver writes address, length, id and flags of each slot in the order of its loop, the device acts between any two words: the device moves as if the add had not begun, and after the `4 * k - 1` words of a chain of `k` the write of the head's flags word makes memory what an add done at once, then, would make of it |
| PackedTurns.TurnKeeps | drivers/virtio/VirtIORing-packed.c:247-298 | at every word of the add, whatever the device has written meanwhile, each slot holds exactly the words written so far over what the device left there |
| PackedPublish.PublishedIsInvisible | drivers/virtio/VirtIORing-packed.c:206-298 | at each write of the driver's own add, the new head is not available and the device moves as before |
| PackedQueueClass.PackedQueue.constructor | drivers/virtio/VirtIORing-packed.c:635-687 | builds the queue that `Fresh` describes, its free list linked by a loop |
| PackedQueueClass.PackedQueue.AddBuf | drivers/virtio/VirtIORing-packed.c:176-305 | leaves exactly the state of the add function, returns 0 or -ENOSPC, fills the indirect table exactly when it uses it, and writes the head's flags word last, after every other write |
| PackedQueueClass.PackedQueue.AddIndirect | drivers/virtio/VirtIORing-packed.c:199-235 | the indirect path: the table holds the caller's list, one ring descriptor points at it, and the head is published last |
| PackedQueueClass.PackedQueue.AddDirect | drivers/virtio/VirtIORing-packed.c:237-302 | the direct path: refused without any change, or the accepted state, published by its last write |
| PackedQueueClass.PackedQueue.FillChain | drivers/virtio/VirtIORing-packed.c:245-272 | the loop writes every descriptor of the chain but the head's flags word, in ring order, and every intermediate memory is invisible to the device |
| PackedQueueClass.PackedQueue.DetachBuf | drivers/virtio/VirtIORing-packed.c:307-317 | the new state is that of the detach function |
| PackedQueueClass.PackedQueue.GetBuf | drivers/virtio/VirtIORing-packed.c:512-569 | state, token and length are those of the get function, for any contents of the ring, the two bad-ring returns included |
| PackedQueueClass.PackedQueue.DetachUnusedBuf | drivers/virtio/VirtIORing-packed.c:319-340 | the loop detaches the first id that holds a token, or returns NULL |
| PackedQueueClass.PackedQueue.EnableCb | drivers/virtio/VirtIORing-packed.c:381-421 | position and flags are written as `enable_cb` writes them, and the last look, through the packed `off_wrap`, is true exactly when nothing waits |
| PackedQueueClass.PackedQueue.DisableCb | drivers/virtio/VirtIORing-packed.c:342-350 | interrupts are off, and the driver's flags are written only when they were on |
| PackedQueueClass.PackedQueue.KickPrepare | drivers/virtio/VirtIORing-packed.c:577-620 | the decision and the reset count are those of the kick function |
| PackedInterrupts.IrqStepKeeps | drivers/virtio/VirtIORing-packed.c:342-421 | every single access of `enable_cb`, `disable_cb`, `get_buf` and of the device keeps the law that ties the event structure to the driver's place |
| PackedInterrupts.EventIsHit | drivers/virtio/VirtIORing-packed.c:106-114 | the driver's position, as `off_wrap`, passes the device's test as long as one of the descriptors it counts is unread |
| PackedInterrupts.NoLostInterruptPacked | drivers/virtio/VirtIORing-packed.c:342-421 | from a new queue, in any interleaving: if the driver has seen the ring empty with interrupts on and a used element waits at an idle device, the device has raised an interrupt |
| PackedInterrupts.ReapThenWriteIsGet | drivers/virtio/VirtIORing-packed.c:512-569 | the two steps of `get_buf` used there, with nothing in between, are `get_buf` |
| SplitIds.WriteChainWrites | drivers/virtio/VirtIORing.c:266-290 | writing a chain changes exactly its own descriptors, to the caller's elements in order |
| SplitIds.SAcceptKeepsIds | drivers/virtio/VirtIORing.c:239-291 | an add takes its descriptors from the front of the free list; the list, the other chains and the tokens stay right |
| SplitIds.FollowsChain | drivers/virtio/VirtIORing.c:207-222 | following NEXT from a chain's head ends, and visits exactly that chain |
| SplitIds.PutKeepsIds | drivers/virtio/VirtIORing.c:207-222 | `put_unused_desc_chain` returns exactly the chain's descriptors and clears exactly its token |
| SplitSteps.SlotOfLow16 | drivers/virtio/VirtIORing.c:294 | a position and its low 16 bits name the same slot, because the ring size divides 2^16 |
| SplitSteps.PublishKeepsAvail | drivers/virtio/VirtIORing.c:294-300 | an add writes the one available slot past the last unread buffer, so none is overwritten |
| SplitSteps.SAcceptKeeps | drivers/virtio/VirtIORing.c:225-304 | an accepted add keeps the whole invariant |
| SplitSteps.DeviceHasExactly | drivers/virtio/VirtIORing.c:294-300 | the device has something to read exactly when a buffer is unread, across index wrap-around |
| SplitSteps.DeviceReadsOldestSplit | drivers/virtio/VirtIORing.c:225-330 | what the device finds at its next available slot is the head of the oldest unread buffer, and the walk along NEXT reads it as the caller gave it: each element's address and length in order, NEXT exactly on all but the last, WRITE exactly from element `out` on; or one descriptor with the table's address and 32-bit length, and INDIRECT |
| SplitSteps.DeviceReadsTable | drivers/virtio/VirtIORing.c:237-256 | if the oldest unread buffer was added through a table, the device finds its one descriptor, and walking the table that it names reads the caller's list if and only if that has at most 2^16 elements |
| SplitSteps.SCompleteKeeps | drivers/virtio/VirtIORing.c:324-329 | a device that completes any chain it has read keeps the invariant |
| SplitSteps.UsedExactlySplit | drivers/virtio/VirtIORing.c:315-329 | the driver finds a used element exactly when a completion waits, and it is the oldest one, with the device's length |
| SplitSteps.SReapKeeps | drivers/virtio/VirtIORing.c:307-345 | taking a used element keeps the invariant |
| SplitRuns.FreshSKeeps | drivers/virtio/VirtIORing.c:511-556 | a new queue satisfies the invariant |
| SplitRuns.NewSQueueIsEmpty | drivers/virtio/VirtIORing.c:510-556 | a new queue has all descriptors free and no token, indices at zero, and lets the device interrupt |
| SplitRuns.SAddOutcome | drivers/virtio/VirtIORing.c:225-330 | in every reachable state, an add is accepted exactly if as many descriptors are free, beside those of the buffers in the queue, as its list has elements, or one for a table of more than one element; then the buffer with the caller's list is the last unread one; otherwise nothing changes |
| SplitRuns.SStepKeeps | drivers/virtio/VirtIORing.c:225-345 | every call and every device action keeps the invariant |
| SplitRuns.SStepRefines | drivers/virtio/VirtIORing.c:225-345 | every call and every device action is one event of the abstract queue |
| SplitRuns.SRunRefines | drivers/virtio/VirtIORing.c:225-345 | any run keeps the invariant and is a run of the abstract queue |
| SplitRuns.SEachBufferReturnsOnce | drivers/virtio/VirtIORing.c:225-345 | from a new queue, for any run: each accepted buffer came back once or is still held, in completion order with the device's lengths |
| SplitTheorems.IndexDistanceIsCount | drivers/virtio/VirtIORing.c:294-334 | `avail.idx - last_used` in 16 bits is the number of buffers in the queue, at most the ring size |
| SplitKicks.NeverWithoutNeed | drivers/virtio/VirtIORing.c:355-376 | a kick notifies only for a position passed since the last one, however many buffers were added |
| SplitKicks.KickMissesOne | drivers/virtio/VirtIORing.c:365-372 | after 2^32 or more buffers with less than 2^16 left of the count, the next position was passed and the kick does not notify for it |
| SplitKicks.SStepKeepsKick | drivers/virtio/VirtIORing.c:301-369 | over every call, kick and device action the count stays the number of buffers added since the last kick, in 32 bits |
| SplitKicks.KickOverRuns | drivers/virtio/VirtIORing.c:355-376 | a kick at the end of any run never notifies without need, and notifies for exactly the positions passed since the last kick if and only if fewer than 2^32 buffers were added since or at least 2^16 are left of the 32-bit count |
| SplitKicks.WrappedCountMisses | drivers/virtio/VirtIORing.c:355-376 | on a new queue of any size, 2^32 buffers added, used and returned one after the other lead to a kick that misses an event |
| SplitNotify.KickForFlag | drivers/virtio/VirtIORing.c:355-376 | without event suppression a kick notifies exactly if the device has not set NO_NOTIFY |
| SplitNotify.NoLostNotificationSplit | drivers/virtio/VirtIORing.c:225-376 | from a new queue, in any interleaving of adds, gets and kicks with a device that sleeps when it finds nothing: once the driver has kicked after its last add, a device asleep with a buffer unread has been notified since it fell asleep; without event suppression in any case, and with it as long as each kick's 32-bit count is below 2^32 or has at least 2^16 left |
| SplitRing.TableLinksIff | drivers/virtio/VirtIORing.c:243-250 | an indirect table links each element to the next one if and only if it has at most 2^16 elements |
| SplitRing.TableReadsIff | drivers/virtio/VirtIORing.c:237-256 | walking a full table along its 16-bit links reads the caller's list if and only if that has at most 2^16 elements; otherwise the walk never comes to the last one |
| SplitTheorems.SDetachStep | drivers/virtio/VirtIORing.c:480-495 | one call of `detach_unused_buf` returns the token of a buffer in the queue and frees its chain |
| SplitTheorems.SDrainReturnsAll | drivers/virtio/VirtIORing.c:480-495 | called until NULL, it returns the token of every buffer once and leaves every descriptor free |
| SplitTheorems.STeardownDrains | drivers/virtio/VirtIORing.c:480-495 | from whatever state a run has reached, teardown ends, returns each buffer once, frees every descriptor, and takes the available index back to the driver's used index |
| SplitQueueClass.SplitQueue.constructor | drivers/virtio/VirtIORing.c:511-556 | builds the queue that `FreshSplit` describes |
| SplitQueueClass.SplitQueue.AddBuf | drivers/virtio/VirtIORing.c:225-304 | leaves exactly the state of the add function, returns 0 or -ENOSPC, and fills the indirect table exactly when it uses it |
| SplitQueueClass.SplitQueue.TakeDirect | drivers/virtio/VirtIORing.c:259-291 | the loop takes and links one descriptor per element, and only the last one ends the chain |
| SplitQueueClass.SplitQueue.PutUnusedDescChain | drivers/virtio/VirtIORing.c:207-222 | the loop along NEXT ends, counts the chain, and leaves the state of the put function |
| SplitQueueClass.SplitQueue.GetBuf | drivers/virtio/VirtIORing.c:307-345 | state, token and length are those of the get function |
| SplitQueueClass.SplitQueue.EnableCb | drivers/virtio/VirtIORing.c:393-411 | interrupts are on, the event index is the driver's position, and the answer is whether nothing waits |
| SplitQueueClass.SplitQueue.KickPrepare | drivers/virtio/VirtIORing.c:355-376 | decision and reset count are those of the kick function |
| SplitQueueClass.SplitQueue.DetachUnusedBuf | drivers/virtio/VirtIORing.c:480-495 | the loop frees the chain of the first token, takes the available index back by one, or returns NULL |
| SplitInterrupts.SIrqStepKeeps | drivers/virtio/VirtIORing.c:393-450 | every single access of `enable_cb`, `disable_cb`, `get_buf` and of the device keeps the law that ties the event index to the driver's place |
| SplitInterrupts.EventIsHit | drivers/virtio/VirtIORing.c:167-175 | an event index at the driver's position passes the device's test as long as one of the entries it counts is unread |
| SplitInterrupts.NoLostInterruptSplit | drivers/virtio/VirtIORing.c:393-411 | from a new queue, in any interleaving: if the driver has seen the ring empty with interrupts on and an entry waits at an idle device, the device has raised an interrupt |
| SplitInterrupts.ReapThenWriteIsGet | drivers/virtio/VirtIORing.c:307-345 | the two steps of `get_buf` used there, with nothing in between, are `get_buf` |
| BlkPlan.MoveKeepsBytes | drivers/virtio_blk/virtio.c:328-333 | advancing in the buffer list keeps the numbering of the request's bytes |
| BlkPlan.PiecesAreOk | drivers/virtio_blk/virtio.c:307-341 | every piece of a sector lies inside one buffer and one page |
| BlkPlan.PiecesFill | drivers/virtio_blk/virtio.c:307-341 | the pieces of a sector are 512 bytes together |
| BlkPlan.PiecesAreFew | drivers/virtio_blk/virtio.c:311-341 | a sector takes at most two pieces per buffer, empty buffers included |
| BlkPlan.PieceIsContiguous | drivers/virtio_blk/virtio.c:313-322 | a piece is physically contiguous from the address its descriptor carries |
| BlkPlan.PiecesCarryBytes | drivers/virtio_blk/virtio.c:307-341 | the pieces are exactly the next bytes of the request, in order, at their physical addresses |
| BlkDevice.ChainIsRequest | drivers/virtio_blk/virtio.c:298-349 | a device that reads header, data and tail by the rules of VIRTIO 1.1 makes of the chain the request it stands for, and reports in that chain's own tail |
| BlkCopy.AnyOrderCopies | drivers/virtio_blk/virtio.c:284-418 | byte moves that write each target once have the same result in any order |
| BlkCopy.RequestsAreFlat | drivers/virtio_blk/virtio.c:284-357 | the sectors' requests one after the other are one flat copy between the sectors and the buffers laid end to end |
| BlkCopy.TransferIsFlatCopy | drivers/virtio_blk/virtio.c:284-418 | in whatever order the device runs them, byte `i` of the sectors and byte `i` of the buffers are equal afterwards and nothing else changed |
| BlkEngine.PageIndex | drivers/virtio_blk/virtio.c:311-322 | the page row entry a place in a buffer uses is inside that buffer's own row |
| BlkEngine.SectorBytes | drivers/virtio_blk/virtio.c:292-341 | sector number `j` starts at byte `512 * j` of the buffers laid end to end |
| BlkEngine.CutIsWanted | drivers/virtio_blk/virtio.c:292-351 | a sector cut where the loop stands moves exactly the bytes it is to move |
| BlkEngine.SizeCheckIsExact | drivers/virtio_blk/virtio.c:265-277 | a request that passes the 32-bit size check has the right number of bytes if and only if buffers and sectors lose the same multiple of 2^32 bytes |
| BlkEngine.SizeCheckMisses | drivers/virtio_blk/virtio.c:265-277 | two requests that pass with the wrong size: 2^23 sectors with no buffers, one sector with buffers of 2^32 + 512 bytes |
| BlkEngine.RangeCheckIsExact | drivers/virtio_blk/virtio.c:239 | a request that passes the 32-bit range check lies on the disk if and only if its end does not wrap |
| BlkEngine.RangeCheckMisses | drivers/virtio_blk/virtio.c:239 | the last sector number there is passes the check on any disk |
| BlkEngine.BatchFits | drivers/virtio_blk/virtio.c:353-356 | the chains of a batch never pass the descriptor table, and there are at most half as many chains as descriptors |
| BlkEngine.CompleteTails | drivers/virtio_blk/virtio.c:344-348 | the status of one request never hides that of another |
| BlkEngine.BatchIsWanted | drivers/virtio_blk/virtio.c:284-418 | a batch completed in any order has executed exactly the requests of its sectors, each once |
| BlkEngine.ExecutedIsFlatCopy | drivers/virtio_blk/virtio.c:284-418 | what one call had executed, in whatever order: for a write, byte `i` after the first sector is byte `i` of the buffers laid end to end, at its physical address, and no other byte of the disk changed; for a read the other way round |
| BlkDriver.UnreadIsVisible | drivers/virtio_blk/virtio.c:392 | the 16-bit comparison of used indices is true exactly when something is unread |
| BlkDriver.BlkDisk.DataAddr | drivers/virtio_blk/virtio.c:311-322 | the address is the place's physical address, and the entry used is inside the buffer's own row |
| BlkDriver.BlkDisk.FillData | drivers/virtio_blk/virtio.c:307-341 | the loop lays exactly the pieces of one sector; the branch for buffers that are too small is never taken |
| BlkDriver.BlkDisk.PostSector | drivers/virtio_blk/virtio.c:292-357 | one more sector's chain is laid behind the others and its head is in the next available slot; earlier chains stay |
| BlkDriver.BlkDisk.FillBatch | drivers/virtio_blk/virtio.c:292-357 | a batch takes at least one sector, stays in the table, and posts the chains of consecutive sectors in order |
| BlkDriver.BlkDisk.DeviceCompletes | drivers/virtio_blk/virtio.c:392-414 | what the device finds through the available ring is the request of its choice; it is logged with the status reported for it, and the batch is still in flight with one more completed |
| BlkDriver.BlkDisk.FindTail | drivers/virtio_blk/virtio.c:393-403 | the walk over 512 + 16 bytes of lengths ends exactly at that request's tail |
| BlkDriver.BlkDisk.ReapOne | drivers/virtio_blk/virtio.c:397-413 | the status read is that of the request that the used entry names |
| BlkDriver.BlkDisk.ReapBatch | drivers/virtio_blk/virtio.c:381-415 | both completion loops end with every posted request reaped, whatever the device does meanwhile, and failure means exactly that some status in the device's log is bad |
| BlkDriver.BlkDisk.RunBatch | drivers/virtio_blk/virtio.c:284-418 | after a batch no request is under way, so its descriptors may be used again; the device's log has grown by exactly its sectors' requests, and failure means exactly that one of them was logged as failed |
| BlkDriver.BlkDisk.LockBuffers | drivers/virtio_blk/virtio.c:258-273 | the page rows hold every page of every buffer, and the lengths are added up in 32 bits |
| BlkDriver.BlkDisk.DoDiskIO | drivers/virtio_blk/virtio.c:215-424 | the first failing check gives its status and nothing is executed: too many buffers, 32-bit range past the end, a write to a read-only disk, pages that cannot be locked, a size that is not the sectors'; something is executed exactly if none of them fails, then exactly one request per sector, and the result is success exactly when every one of them was logged as successful |
| FlowMachine.MaskTests | drivers/netkvm/Common/ParaNdis-SM.h:59-85 | below 2^30 references the two tests of a returned counter value are exact |
| FlowMachine.RunAccounted | drivers/netkvm/Common/ParaNdis-SM.h:26-99 | in every run the counter is what the items, the refused registrations and the references of Start add up to, and the mask is only off after a Start |
| FlowMachine.CleanStopIsSafe | drivers/netkvm/Common/ParaNdis-SM.h:37-127 | the Stop of a machine that was started once, with nobody in `CompleteStopping`: in every interleaving the event means that everything was released, no wake-up is lost, and when Stop has returned nothing is registered and the state is Stopped |
| FlowTheorems.StopIsSafeIff | drivers/netkvm/Common/ParaNdis-SM.h:37-127 | a Stop of either machine called in any state that satisfies what every run keeps: in every interleaving the event means that everything was released, and nothing is registered when Stop has returned, if and only if nothing is registered or can be, or nobody is left in `CompleteStopping` and, in the plain machine, the state is Running |
| FlowTheorems.SafeRun | drivers/netkvm/Common/ParaNdis-SM.h:164-180 | every run of one Stop is safe that begins with nothing registered and the mask set, whoever is left over, or with nobody in `CompleteStopping` and the event not set after it was cleared |
| FlowTheorems.StopWakesIff | drivers/netkvm/Common/ParaNdis-SM.h:37-127 | a Stop of either machine called in any state that satisfies what every run keeps never loses its wake-up, in any interleaving, if and only if it takes the way of a started machine, with one reference of Start and nobody left in `CompleteStopping` before its last access, or does not come to wait |
| FlowTheorems.StopPaysIff | drivers/netkvm/Common/ParaNdis-SM.h:37-49 | such a Stop never releases a reference that is not its own if and only if it owns one or does not take the way of a started machine |
| FlowTheorems.EveryStopIsGoodIff | drivers/netkvm/Common/ParaNdis-SM.h:26-180 | for every run of either machine and the state it has reached: a Stop called there is safe, leaves nothing registered, loses no wake-up and releases only its own reference, in every interleaving, if and only if it takes the way of a started machine, with one reference of Start, nobody left in `CompleteStopping` before its last access, and nobody at that access while something is or can be registered, or is the plain machine's Stop with nothing to do |
| FlowTheorems.StaleCompleterLosesWakeUp | drivers/netkvm/Common/ParaNdis-SM.h:43-48 | the interleaving in which a thread left over ends the stop before Stop clears the event, so that Stop waits for ever |
| FlowTheorems.KeptReferenceHangs | drivers/netkvm/Common/ParaNdis-SM.h:164-180 | a Stop that leaves a reference of Start behind waits for ever, with everything else released |
| FlowTheorems.UnstartedStopHangs | drivers/netkvm/Common/ParaNdis-SM.h:164-180 | the interleaving in which a refused registration ends the Stop of a config machine that owns no reference before the event is cleared |
| FlowTheorems.UnstartedAfterClear | drivers/netkvm/Common/ParaNdis-SM.h:164-180 | from the moment its event is cleared, the Stop of a config machine that owns no reference is safe and loses no wake-up |
| FlowReachable.StaleCompleterIsReachable | drivers/netkvm/Common/ParaNdis-SM.h:56-74 | a run from the initial state that leaves a thread in `CompleteStopping` behind: a registration refused before the first start |
| FlowReachable.StoredOverIsReachable | drivers/netkvm/Common/ParaNdis-SM.h:122-126 | a run to a machine that was started, has an item registered and nobody in `CompleteStopping`, but whose state a late store has set to Stopped |
| FlowReachable.StartedTwiceIsReachable | drivers/netkvm/Common/ParaNdis-SM.h:26-35 | from there a second Start is taken, so that the machine owns two references |
| FlowReachable.ReturnedEarlyIsReachable | drivers/netkvm/Common/ParaNdis-SM.h:116-127 | a run in which a late notification ends a Stop early: an item is registered, the reference is gone, and a config machine's next Stop releases one that is not its own |
| FlowReachable.UnstartedIsReachable | drivers/netkvm/Common/ParaNdis-SM.h:18-24 | the state in which a config machine is created is one in which a Stop can lose its wake-up |
| FlowFused.FusedRunsAreSafe | drivers/netkvm/Common/ParaNdis-SM.h:76-127 | if a release and its completion check were one step, every Stop of every run of either machine would be safe, would leave nothing registered and release only its own reference, and would lose no wake-up as long as no config machine is stopped that does not run |
| FlowFused.FusedPlainRunsWake | drivers/netkvm/Common/ParaNdis-SM.h:76-127 | for the plain machine that is no condition |
| FlowFused.FusedConfigStopWakesIff | drivers/netkvm/Common/ParaNdis-SM.h:164-180 | even then a config machine's Stop, in whatever state a run has reached, cannot lose its wake-up if and only if the machine runs |
| FlowObject.FlowStateMachine.constructor | drivers/netkvm/Common/ParaNdis-SM.h:18-24 | a new machine is stopped with the mask set |
| FlowObject.StartAlone | drivers/netkvm/Common/ParaNdis-SM.h:26-35 | with nothing in between, Start of a stopped machine takes one reference, clears the mask and makes it run; of any other machine it does nothing |
| FlowObject.StopAlone | drivers/netkvm/Common/ParaNdis-SM.h:37-49 | with nothing in between, Stop of a plain machine that does not run does nothing; any other Stop clears the event, sets the mask, drops the reference of Start unless the config machine was stopped, and ends the stop exactly if only the mask is left |
| FlowObject.RegisterAlone | drivers/netkvm/Common/ParaNdis-SM.h:56-74 | with nothing in between, items are taken exactly if the mask is off; a refusal leaves the counter as it was, and ends a stop under way exactly if only the mask is left |
| FlowObject.UnregisterAlone | drivers/netkvm/Common/ParaNdis-SM.h:76-99 | with nothing in between, a release takes exactly its items from the counter, and ends a stop under way exactly if only the mask is left |
| FlowObject.FlowStateMachine.Start | drivers/netkvm/Common/ParaNdis-SM.h:26-35 | alone, it takes the controlling thread's start steps, or none if the machine is not stopped |
| FlowObject.FlowStateMachine.Stop | drivers/netkvm/Common/ParaNdis-SM.h:37-49 | alone, it takes the controlling thread's stop steps up to the wait, in either machine |
| FlowObject.FlowStateMachine.CompleteStopping | drivers/netkvm/Common/ParaNdis-SM.h:116-127 | its accesses are the three steps of the completing thread, whoever that is |
| FlowObject.FlowStateMachine.RegisterOutstandingItems | drivers/netkvm/Common/ParaNdis-SM.h:56-74 | refused exactly when the mask is set; then the references are taken back, and the stop is completed if that leaves the bare mask |
| FlowObject.FlowStateMachine.UnregisterOutstandingItems | drivers/netkvm/Common/ParaNdis-SM.h:76-99 | the release completes the stop exactly when it leaves the bare mask |
| SmscTx.WordMeans | drivers/smsc9118/smsc9118.c:3240-3258 | what the chip reads from the first command word: the two flags, the size, the low five bits of the pointer as data offset, and its bits 8 and 9 as end alignment |
| SmscTx.WordBMeans | drivers/smsc9118/smsc9118.c:3146 | what the chip reads from the second command word: the packet's length, the same as tag, and that it is to pad and to add the checksum |
| SmscTx.Issue | drivers/smsc9118/smsc9118.c:3240-3258 | the two words written for a command, taken apart by the chip, give its flags, sizes and offsets and the packet's length |
| SmscTx.MergedIsReadIff | drivers/smsc9118/smsc9118.c:3240-3283 | for any address that is a multiple of four and any length: the chip takes as much data as the driver writes for a merged command, and then sends exactly the bytes, if and only if the offset bits are zero and the length is padded alike under the announced alignment |
| SmscTx.ServesAllIff | drivers/smsc9118/smsc9118.c:952-963 | the temporary buffer serves every packet if and only if its address sets neither field |
| SmscTx.AlignedButMisread | drivers/smsc9118/smsc9118.c:3240-3258 | an address that is a multiple of 32 with which a command is read wrongly |
| SmscTx.SendPending | drivers/smsc9118/smsc9118.c:3169-3292 | a buffer behind bytes that wait is merged with them and sent from the temporary buffer, or waits on |
| SmscTx.SendFresh | drivers/smsc9118/smsc9118.c:3392-3443 | a buffer with nothing waiting is sent where it lies, unless it is short and in the middle |
| SmscTx.Coalesce | drivers/smsc9118/smsc9118.c:3151-3453 | for any temporary buffer: every command says how long the packet is, which is the sum of the sizes; the chip accepts all commands if and only if every merged length of the packet fits its address, and then their payloads concatenate to the packet; FIRST is on exactly the first and LAST on exactly the last, middle commands carry at least four bytes, and each command costs at most 14 bytes beyond its payload |
| SmscTx.CopyAll | drivers/smsc9118/smsc9118.c:3455-3499 | a highly fragmented packet goes out as one command with both flags, the packet's length and its bytes, unless the last buffer is empty: then, and only then, the loop looks behind the list |
| SmscTx.XmitOnePacket | drivers/smsc9118/smsc9118.c:3111-3499 | refused exactly when the buffer list is shorter than the count; looks behind the list exactly when it is empty, or longer than 86 with an empty last buffer; otherwise the commands are well framed, each says the packet's length, they take no more of the FIFO than the estimate of line 3580, and the chip accepts them and gets the packet if and only if the packet is copied or every merged length fits |
| SmscTx.EmptyLastLooksBehind | drivers/smsc9118/smsc9118.c:3463-3469 | a packet of 87 buffers, the last one empty, that fits the size limit and makes the loop look behind the list |
| SmscRx.TestsAreExact | drivers/smsc9118/SMSC9118.h:143-152 | the empty and full tests are exact, and one of the 257 places stays free |
| SmscRx.PktList.Put | drivers/smsc9118/smsc9118.c:2630-2662 | appends the packet exactly when fewer than 256 are there |
| SmscRx.PktList.Get | drivers/smsc9118/smsc9118.c:2592-2628 | takes the oldest packet, or nothing when the list is empty |
| SmscRx.TakeAdvances | drivers/smsc9118/smsc9118.c:2601-2602 | the consumer's increment removes the oldest packet |
| SmscRx.WriteIsInvisible | drivers/smsc9118/smsc9118.c:2637 | the producer's write, before its increment, changes nothing the consumer sees |
| SmscRx.PutAdvances | drivers/smsc9118/smsc9118.c:2637-2638 | the producer's increment appends what it wrote |
| SmscRx.IsrPutHasRoom | drivers/smsc9118/smsc9118.c:2956 | the full list always has room for the interrupt handler's packet |
| SmscRx.EmptyHasRoom | drivers/smsc9118/smsc9118.c:2752 | the empty list always has room for a packet that comes back |
| SmscRx.IndicationHasRoom | drivers/smsc9118/smsc9118.c:2721-2727 | the indication array always has a place for the packet being taken |
| SmscRx.StepKeeps | drivers/smsc9118/smsc9118.c:2669-3082 | every single list access of the handlers and of NDIS keeps every packet in exactly one place |
| SmscRx.ReturnIsSafeIff | drivers/smsc9118/smsc9118.c:2741-2752 | in every reachable state, the return of a packet keeps every packet in one place if and only if the deferred handler has looked at its status; otherwise the packet is in two places |
| SmscRx.EarlyReturnIsReachable | drivers/smsc9118/smsc9118.c:3074-3076 | a run to a state in which a return puts the packet twice |
| SmscRx.PacketsAreConserved | drivers/smsc9118/smsc9118.c:2592-3082 | in every interleaving in which no packet is returned before its status was looked at, each of the 256 packets is in exactly one place, no Put fails, and the indication array is not overrun |
| KitlSerial.EncodeIsValid | kitl/init.c:143-162 | the receiver takes every encoded frame that fits the MTU, and decoding gives the payload back |
| KitlSerial.EncodeLayout | kitl/init.c:143-153 | the frame byte by byte: the signature, the packet type, the reserved byte, the size low byte first, the payload's checksum, the checksum of the nine bytes before it, the payload |
| KitlSerial.ValidFrameLayout | kitl/init.c:100-131 | the frames that are valid, byte by byte |
| KitlSerial.OnlyValidFrames | kitl/init.c:89-141 | whatever is on the line, an accepted frame is valid, fits the caller's room, and is what was kept and read, in order |
| KitlSerial.ChkSumAdds | kitl/init.c:40-47 | the checksum of two stretches is the sum of theirs in eight bits |
| KitlSerial.ChkSumOfOne | kitl/init.c:40-47 | the checksum of one byte is that byte, and of none is zero |
| KitlSerial.ChkSumTells | kitl/init.c:40-47 | changing one byte changes the checksum |
| KitlSerial.RecvIsBounded | kitl/init.c:89-141 | what is kept between polls is shorter than the MTU, and nothing is kept after an accept or a reject |
| KitlSerial.PollOfFrame | kitl/init.c:89-141 | one poll in the middle of a frame keeps everything until the frame is whole, then returns it and leaves the rest on the line |
| KitlSerial.StreamKeepsFrames | kitl/init.c:89-141 | however a stream of frames is split over polls, the frames returned are the first ones, in order, each once, and nothing of the others is lost |
| KitlSerial.FramesArrive | kitl/init.c:89-153 | frames sent in whatever portions all arrive, in order, each once, and the parser is back in its start state |
| KitlSerial.PayloadRoundTrip | kitl/init.c:89-162 | the round trip of one payload over any split of its frame |
| KitlSerial.KitlState.SerialRecv | kitl/init.c:89-141 | outcome, kept bytes and what stays on the line are those of the receive function |
| KitlSerial.SerialEncode | kitl/init.c:143-153 | the frame becomes the encoding of the payload already in it; bytes behind it and the reserved byte stay |
| RtcCalendar.YearStartIsGregorian | oal/oallib/timer.c:36-37 | the loop's year starts follow the closed form of the Gregorian rule |
| RtcCalendar.MonthStartIsGregorian | oal/oallib/timer.c:45-63 | the months' starts follow the closed form of the Gregorian calendar |
| RtcCalendar.SecondsTick | oal/oallib/timer.c:24-75 | the count is zero at the beginning of 1970 and goes up by one with each second, over the carries into minutes, hours, days, months and years |
| RtcCalendar.DaysAreUnique | oal/oallib/timer.c:45-63 | no two dates have the same day number |
| RtcCalendar.SecondsAreUnique | oal/oallib/timer.c:24-75 | a count of seconds denotes at most one date and time |
| RtcCalendar.GetRealTime | oal/oallib/timer.c:24-75 | for every 32-bit count, the one valid date and time it denotes; the branch for a thirteenth month is never taken |
| RtcCalendar.SetRealTime | oal/oallib/timer.c:82-113 | the count written is that of the date, in 32 bits, less a day where the leap day is missed |
| RtcCalendar.RoundTripIffNoLeapDay | oal/oallib/timer.c:82-113 | reading the clock and writing the result back restores the count if and only if the date is in a common year or before March |
| RtcCalendar.LeapDayIsLost | oal/oallib/timer.c:100-108 | the first of March 1972 is written as the day before |

## Left out

- PackedQueueClass.PackedQueue.AddBuf: takes fewer than 2^16 elements, because the loop of the indirect path counts in 16 bits and does not end for more.
- PackedInterrupts.NoLostInterruptPacked: `disable_cb`, `enable_cb` and `get_buf` only; a driver that counts on `enable_cb_delayed` is not covered.
- SplitInterrupts.NoLostInterruptSplit: the shadow flags word and `avail->flags` are one Boolean, since every call writes through when it matters.
- BlkDriver.BlkDisk.DoDiskIO: takes the requests for which the 32-bit size check is exact (`SizeCheckIsExact`); the check lets others through whose buffers do not match, and what the loops do then is not modelled. `MAX_SG_BUF` is a parameter, its definition is not part of this repository. Page unlocking and its failure status, the notification and `used_event` writes, and time-outs are not modelled.
- BlkEngine.ExecutedIsFlatCopy: for a read the buffers must not overlap in physical memory, and sector numbers must not wrap; otherwise the result depends on the device's order.
- SmscTx.XmitOnePacket: the packet is shorter than 2048 bytes (the size field has 11 bits) and the list not longer than its count. `MAX_NUM_SEGMENTS * count` does not wrap. Of what the pointer sets in a merged command's word, the reserved bits and the interrupt-on-completion bit are not modelled, nor what the chip does after it has read a command wrongly.
- SmscRx.PacketsAreConserved: the two producers of the empty list are serialised; without a lock their writes could meet.
- FlowTheorems.EveryStopIsGoodIff: a run ends where a Stop releases a reference that is not its own, because the counter's tests mean something else from there on.
- KitlSerial.PayloadRoundTrip: the frame fits the caller's room and `KITL_MTU`; the receiver does not check the signature and the encoder does not set the reserved byte, so neither is claimed.
- SplitQueueClass.SplitQueue.GetBuf: the length is 0 when nothing is returned, where the source leaves it unset, and `DESC_INDEX` masking is written as the remainder by a power of two.
- FlowObject.FlowStateMachine.Stop: called where it does not release a reference that is not its own (`StopPaysIff`).
- FlowObject.FlowStateMachine.RegisterOutstandingItems: takes at least one item and fewer than 2^30 references at a time; the reported reason is not modelled.
- RtcCalendar.SetRealTime: takes valid dates from 1970 on; the day of the week is not computed by the source.
- `enable_cb_delayed` of both rings and `is_interrupt_enabled_packed`: the first compares without 16-bit wrap, the second has the opposite polarity of its split counterpart.
- `vring_size_*`, `vring_init`, `shutdown`, `kick_always` and queue memory: they would add only easy members.
- The tablet driver's ring, which compares a 32-bit with a 16-bit index and takes in-order completion for granted.
- `CMiniportStateMachine`, `CFlowStateMachineWithPointer`, `COwnership`, CNBL and `CTXVirtQueue`.
- The SMSC9118's deferred queue, status FIFO, DMA paths, PHY and MAC set-up, power states and OIDs.
- PCI capability discovery, BAR mapping, MSI-X, register access, page locking, interrupts and clocks of the operating system.
- Weak memory, and packet contents in the receive path.
- Registry, audio, UART, boot loader and co-installer code.
