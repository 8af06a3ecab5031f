# Verified model of arm9linuxfw

arm9linuxfw runs on the security processor of a handheld console and serves VirtIO devices to a Linux
guest on the application processor. This project models the device side of the split virtqueue of
VirtIO 1.1 (section 2.6), the scheduler and the notification path around it, the word protocol that
carries register accesses, the two devices behind it (entropy, block), and the three loops that run
against hardware, and proves what they are for.

Every method that changes state is an object method on the fields the C code changes, proved against a
function on values; the properties are lemmas about those functions, or invariants of every run.

| file | source | content |
|---|---|---|
| `Bits.dfy` | `include/common.h` | `&`, `|`, `<<`, `>>` on natural numbers; masking as remainder; the power-of-two test |
| `QueueRegs.dfy`, `VirtQueues.dfy` | `source/virt/queue.c`, `include/virt/manager.h` | one queue on values, and as an object over guest memory |
| `SplitRing.dfy` | `source/virt/queue.c` | driver and device as two programs over shared rings, every observable access its own step |
| `Chains.dfy` | `source/virt/queue.c`, `include/virt/manager.h` | descriptor chains |
| `Drain.dfy`, `DeviceJobs.dfy`, `Buffers.dfy` | `source/vdev/*.c` | what draining a backlog does, on values, whatever the device |
| `Entropy.dfy`, `BlockDevice.dfy` | `source/vdev/hwrng.c`, `source/vdev/sdcard.c` | the two devices, loops and results |
| `Descriptors.dfy` | `source/virt/queue.c`, `source/vdev/*.c` | a drain in the guest's terms: descriptors, bytes and used entries |
| `PendingList.dfy` | `include/sys/list.h` | the circular intrusive list on the heap |
| `Scheduler.dfy`, `Service.dfy` | `source/virt/manager.c` | pending list and all rings over whole runs from boot; one service as part of such a run |
| `HeapRuns.dfy` | `source/virt/manager.c` | the manager's objects and guest memory as a state of such a run |
| `Boot.dfy` | `source/virt/manager.c`, `source/virt/device.c` | bringing the devices up |
| `VirtIrqs.dfy` | `source/virt/irq.c`, `include/sys/event.h` | bank bits and event flag, interleaved access by access |
| `Machine.dfy`, `Manager.dfy` | `source/virt/manager.c`, `source/virt/device.c` | the register file on values, and the manager's objects tied to it |
| `GuestView.dfy` | `source/virt/manager.c`, `source/virt/device.c`, `source/virt/queue.c` | the registers in the guest's packed numbers, set-up, and what it learns of services |
| `Transport.dfy` | `source/main.c` | framing and the receive handler |
| `SdTransfer.dfy`, `SectorReads.dfy`, `IrqDispatch.dfy`, `Timer.dfy` | `source/hw/*.c`, `include/hw/timer.h` | loops against hardware, over arbitrary traces |

## Main results

- **Ring safety and refinement** (`SplitRing.RingSafety`, `SplitRing.IndicesRefineCounters`): over every
  interleaving of a driver (at most a ring full of heads outstanding) and the device, returned ids are the
  published heads in order, no unreaped used entry is overwritten, and the re-masked 16-bit indices stand
  for unbounded counters.
- **Draining** (`Drain.DrainComplete`, both `ProcessQueue` methods): exactly `(last - availIdx) mod size`
  jobs, in order, each with its used entry, for an arbitrary well-formed table. `Descriptors` tells the same
  of the guest's table, memory and used ring, byte by byte.
- **Served in turn** (`Scheduler.ServedInTurn`, `Scheduler.ServiceReturnsEverything`): over every run from
  boot, with queues brought up at any time or never. Manager and memory show such a run at all times:
  `HeapRuns.BootIsTraced`, `HeapRuns.WriteRegister`, `HeapRuns.Process` and `HeapRuns.DriverTraced` each
  continue it, so the theorems speak of the manager's own list and rings (`HeapRuns.InTurnOnHeap`).
- **Gathered read equals contiguous read** (`BlockDevice.GatheredReadIsContiguous`), also for each request
  of a whole backlog when the drain is over (`BlockDevice.BacklogRead`).
- **No notification lost** (`VirtIrqs.NothingLost`, `VirtIrqs.EverySetIsAnnounced`), none made without need
  (`VirtIrqs.TriggersOnlyAfterSets`), and a guest that reads the banks learns of exactly the services finished
  (`GuestView.GuestIsTold`).
- **The word stream is executed as sent** (`Transport.OnPxiRecv`), and seen from the other processor the
  register file is a map (`Transport.WireIsARegisterMap`).

## Where the code falls short of its promise

Each of these is stated as an exact condition.

- A backlog of exactly the ring size looks like an empty ring. `SplitRing.StuckExactly` shows that driver
  and device come to a standstill exactly then (or, on the 65536-slot ring, with 65536 unreaped entries),
  and `SplitRing.StandstillReachable` that a driver within the bounds of VirtIO 1.1 can get there. The device
  alone stalls exactly then or when everything is returned, hence below a full ring only when everything is
  returned (`SplitRing.DeviceStalledExactly`).
- Size 0 passes the power-of-two test and selects all 65536 slots, although the maximum advertised is
  32768 (`QueueRegs.SetDescCountExact`). The ready flag can be set and cleared after a size write, and a
  ready queue can yield jobs, exactly when the size is 0 or a power of two from 2 to 32768
  (`QueueRegs.ReadyFollowsExactly`, `QueueRegs.YieldsExactly`); a rejected size, and size 1, leave the flag
  stuck until such a size is written (`QueueRegs.RejectedSizeIsInert`).
- The tick count is right exactly when bit 31 is clear or the upper word is all ones
  (`Timer.ComposeExact`), because `quart << 16` is a signed expression.
- The devices report bytes they have not written, unless every reported buffer is whole words (entropy) or
  whole sectors (block) and, for the block device, every read was complete
  (`DeviceJobs.ReportedIsWrittenExactly`). The bytes in question keep their old values (`DeviceJobs.TailKept`).
- The block device writes the status byte outside the buffers it was given exactly when a writable buffer is
  empty (`DeviceJobs.StaysInBuffersExactly`).
- A sector read can return without error and without data (`SectorReads.CleanReturnWithoutData`). All sectors
  have come exactly when at least as many turns as sectors found a block ready before the loop was left
  (`SectorReads.ReadSectors`); the block device goes on regardless and reports success.
- Every call of the receive handler returns, on a stream that arrives in full, exactly when that does not end
  in a write header without its data (`Transport.Pxi.AlwaysReturnsExactly`).
- An SD read stays inside its buffer exactly when the block length rounded up to sixteen bytes still adds
  up to no more than the request (`SdTransfer.StaysInBufferExactly`).
- Milliseconds survive the trip through ticks exactly on multiples of 250 (`Timer.MiliRoundTrip`).

## Assumptions

- Shared memory is sequentially consistent. A descriptor table, an available ring, a used ring and the
  data bytes are different objects, so that none overlaps another; each C structure at a guest address is
  looked up by that address.
- A ready queue that is served has rings and a table at least as large as its size, and the chains in its
  backlog are in range and acyclic with buffers in guest memory (`VirtQueues.Serviceable`), as section
  2.6.5.2 of VirtIO 1.1 obliges the driver. `Chains.TerminatesExactlyWhenWellFormed` shows that the
  walk needs no less.
- A driver sets up its queue's registers and rings while the queue is not ready, uses the rings once it is,
  and from then on leaves size, ready flag and addresses alone.
- Words arrive and room in the send FIFO appears at arbitrary times, which covers FIFOs of any depth; room
  keeps coming back.
- No two ready queues share a ring.
- The receive handler does not run inside a service, which the manager performs with interrupts disabled
  (source/virt/manager.c:139-159).

## Model

The main results come first; the operations and the steps behind the results follow, file by file.

| member | source | states |
|---|---|---|
| `SplitRing.RingSafety` | source/virt/queue.c:119-162 | in every reachable state returned ids are a prefix of the published heads in order, the driver has reaped a prefix of what was returned, and every unreaped entry is intact in its slot |
| `SplitRing.IndicesRefineCounters` | source/virt/queue.c:127-134 | in every reachable state the masked indices are the fetch and push counts modulo size, used `last` the push count modulo 65536, and a fetch fails exactly when the backlog is a multiple of size; otherwise its slot holds the next head |
| `SplitRing.StuckExactly` | source/virt/queue.c:127-131 | no step changes anything exactly when the unfetched backlog is a whole ring, or 65536 entries are unreaped |
| `SplitRing.DeviceStalledExactly` | source/virt/queue.c:119-162 | in every reachable state no device step moves exactly when everything published is returned or the unfetched backlog is a whole ring; with fewer heads outstanding than slots, exactly when everything is returned |
| `SplitRing.StandstillReachable` | source/virt/queue.c:127-131 | for every ring size a driver with as many heads outstanding as slots can reach a standstill of both sides |
| `Chains.TerminatesExactlyWhenWellFormed` | source/virt/queue.c:137-143 | the walk from a head ends exactly when everything reachable from it is in range and acyclic |
| `Drain.DrainComplete` | source/vdev/hwrng.c:26-42 | a drain takes exactly `(last - availIdx) mod size` jobs, leaves nothing to fetch and the two indices as so many re-masked increments leave them, advances used `last` by that count, names the heads in order and changes no other slot |
| `Descriptors.OnlyWritableChange` | source/virt/queue.c:164-176 | over a drain no byte of memory changes but in descriptors of the jobs served that have flag bit 1 |
| `Entropy.ProcessQueue` | source/vdev/hwrng.c:22-45 | a ready queue is drained, one that is not ready is left alone, and the guest is notified once either way |
| `Descriptors.EntropyEntry` | source/vdev/hwrng.c:26-42 | the i-th used entry stands in the i-th next slot, names the i-th head and carries the sum of `len` over the job's descriptors with flag bit 1, modulo 2^32 |
| `Descriptors.EntropyByte` | source/vdev/hwrng.c:26-42 | after the drain, byte j of word w of such a descriptor, at its address modulo 2^32, is byte j of the generator word that follows those of the jobs and descriptors before it |
| `BlockDevice.ProcessQueue` | source/vdev/sdcard.c:63-91 | a ready queue is drained, one that is not ready is left alone, and the guest is notified once either way |
| `Descriptors.BlockEntry` | source/vdev/sdcard.c:66-88 | the same of the block device's entries, summing descriptors of 512 bytes and more |
| `Descriptors.BlockByte` | source/vdev/sdcard.c:66-88 | after the drain, byte j of sector t of a segment of a completely read request is byte j of the disk sector that is as many after the header's number, read low byte first, as the segments before hold; its status byte is 0 |
| `Entropy.UsedLengths` | source/vdev/hwrng.c:26-42 | every used entry of a drained backlog carries its head and its writable total modulo 2^32 |
| `Entropy.BacklogHoldsStream` | source/vdev/hwrng.c:26-42 | when a drain is over, every writable buffer of every job of a backlog whose jobs keep apart holds its own stretch of the generator's output |
| `Entropy.WordsCoverLength` | source/vdev/hwrng.c:36-38 | the words drawn account for the length reported exactly when every writable length is a multiple of 4 |
| `BlockDevice.GatheredReadIsContiguous` | source/vdev/sdcard.c:66-88 | for a header, any cut into segments of 512 bytes or more and a status buffer: if the reads are complete, the whole sectors of the segments together equal the sectors from the number on that the header's bytes 8 to 11 spell low byte first, modulo 2^32, and whole-sector segments receive the contiguous read in full; complete or not, each segment starts with the sectors that came for it, status is 0, the used length is that of the segments, the stored sector points past the last |
| `BlockDevice.BacklogRead` | source/vdev/sdcard.c:66-88 | when a drain is over, every read request of a backlog whose jobs keep apart has status 0 and a used entry with the total length of its segments, and, if its reads were complete, the sectors numbered by its header before the drain |
| `BlockDevice.ReportedIsDelivered` | source/vdev/sdcard.c:80-83 | the length reported is that of the sectors delivered exactly when the data buffers are multiples of 512 |
| `DeviceJobs.ReportedIsWrittenExactly` | source/vdev/sdcard.c:77-84 | every byte reported is one the device writes exactly when each reported buffer is whole words (entropy) or whole sectors (block) and each read of the disk was complete |
| `DeviceJobs.StaysInBuffersExactly` | source/vdev/sdcard.c:76-79 | only bytes of writable buffers are written exactly when, for the block device, none of them has length 0 |
| `DeviceJobs.TailKept` | source/vdev/sdcard.c:79-83 | in any chain with separate buffers the bytes of a writable buffer past the last word or sector that came keep their old values, though they are reported |
| `Boot.InitAll` | source/virt/manager.c:32-43 | the loop over devices ends with a valid manager in its reset state, whatever devices are linked in |
| `Scheduler.RunKeeps` | source/virt/manager.c:133-166 | in every state of every run from boot each ring is asleep or keeps its invariant, pending queues are distinct, and only the queue being served is between fetch and push |
| `Scheduler.EveryRingSafe` | source/virt/manager.c:133-166 | ring safety for every queue of the system, whatever the others do |
| `Scheduler.ServedInTurn` | source/virt/manager.c:133-166 | from boot on, a notified queue with k ahead is served by the (k+1)-th later service and by none before |
| `Scheduler.ServiceReturnsEverything` | source/virt/manager.c:154-156 | from boot on, when a service ends every head published earlier has its used entry, in order, unless the backlog is exactly the ring size |
| `Manager.VirtManager.ProcessPending` | source/virt/manager.c:133-161 | false exactly when nothing was pending; else the head is taken off and its queue drained, and no register of another queue or device and no other used ring changes |
| `Service.ProcessPendingIsARun` | source/virt/manager.c:133-161 | the effect proved of `ProcessPending` is an event sequence of the scheduler: a service begins, only the device moves, it ends, and the ring shows exactly what the manager then sees |
| `HeapRuns.Process` | source/virt/manager.c:133-161 | manager and memory that show a run from boot show, after `ProcessPending`, that run continued by one service |
| `HeapRuns.WriteRegister` | source/virt/manager.c:102-126 | and after any register write, that run continued by one event at most |
| `HeapRuns.InTurnOnHeap` | source/virt/manager.c:133-166 | of the manager's own list: after at most k services the queue that had k ahead of it has that many fewer ahead, so it is the next to be served exactly after k |
| `PendingList.PendingList.SelfLinkedMeansAbsent` | include/sys/list.h:20-22 | a node is self-linked exactly when it is not in the list, the head exactly when the list is empty; else the head points at the first and last |
| `PendingList.PendingExactly` | source/virt/manager.c:149-166 | over every run of adds, removals and takes, an item is pending exactly when it was notified and not taken off since, and then once |
| `VirtIrqs.NothingLost` | source/virt/irq.c:24-44 | at any point of any interleaving bits handed out together with bits pending are the bits set since reset, and each get returned exactly the bits set since the get before |
| `VirtIrqs.EverySetIsAnnounced` | source/virt/irq.c:47-51 | with the event down, a trigger was issued after the last set |
| `VirtIrqs.TriggersOnlyAfterSets` | source/virt/irq.c:46-51 | in every interleaving the guest is triggered only when something was set since the trigger before, once each time |
| `GuestView.GuestIsTold` | source/virt/manager.c:52-65 | over any run of services, reads and writes from reset on, a read of packed register 4 * (8 + b) + 3 answers bit t exactly when a service of device 32 * b + t has finished since that bank was last read; bits not handed out are still in the bank; the configuration banks read 0 |
| `Machine.DecodeInjective` | source/virt/manager.c:71-126 | one location is reached by one device number and packed register only |
| `Machine.RegistersAreAMap` | source/virt/manager.c:71-126 | after any writes a register reads as the last value written to its location |
| `QueueRegs.SetDescCountExact` | source/virt/queue.c:83-91 | any write leaves a power-of-two ring; it reads back as the size written, as 65536 for 0, and as 1 when rejected |
| `QueueRegs.ReadyFollowsExactly` | source/virt/queue.c:83-102 | after a size write the ready flag follows what is written to it, cleared or set, exactly when the size is 0 or a power of two from 2 to 32768 |
| `QueueRegs.YieldsExactly` | source/virt/queue.c:83-135 | and a queue left ready yields a job for some published index exactly then |
| `QueueRegs.RejectedSizeIsInert` | source/virt/queue.c:83-102 | after any other size, 1 included, and any writes but such a size: mask 0, reads back 1, ready flag as it was, and no fetch succeeds whatever is published |
| `GuestView.GuestSetsUp` | source/virt/queue.c:83-117 | from a reset queue, size and addresses written in any order among any other writes, then ready: the queue comes up with that size, those addresses and both indices 0 |
| `Transport.ParseEncoded` | source/main.c:16-40 | decoding an encoded command list gives it back with nothing left over |
| `Transport.EncodeParsed` | source/main.c:16-40 | every word stream is whole commands and at most one write without its data |
| `Transport.OnPxiRecv` | source/main.c:16-40 | on any stream and any arrival times, if the handler returns: a whole number of commands, in order, one reply per read, and at exit everything that has arrived is consumed |
| `Transport.Pxi.AlwaysReturnsExactly` | source/main.c:17-35 | on a stream that arrives in full every call of the handler returns exactly when the stream is whole commands |
| `Transport.WireIsARegisterMap` | source/main.c:24-37 | the reply to a read of a storing register is the last value sent to it before, at that read's place among the replies |
| `SdTransfer.BytesConserved` | source/hw/sdmmc.c:98-170 | with block lengths in sixteens the same holds of the bytes copied |
| `SdTransfer.StaysInBufferExactly` | source/hw/sdmmc.c:109-118 | a read never passes the buffer end on any trace exactly under the rounding condition, so always in sixteens |
| `SdTransfer.ErrorExactly` | source/hw/sdmmc.c:149-169 | `get_error` is nonzero exactly when the loop was left through the error mask; else every awaited flag was seen |
| `SdTransfer.SendCommand` | source/hw/sdmmc.c:98-170 | on every trace that leaves the loop, the first such turn ends it; the buffer is then the FIFO's prefix in order, the words sent the buffer's prefix, and the counters are those of the trace |
| `SectorReads.ReadSectors` | source/hw/sdmmc.c:201-215 | whatever the controller does, the buffer holds the first sectors asked for, as many as there were turns with a block ready before the loop was left, and is otherwise unchanged; so all have come exactly when there were that many such turns; the result tells only of error bits 0 to 6 and 15 |
| `SectorReads.WriteSectors` | source/hw/sdmmc.c:185-199 | whatever the controller does, the words sent are the buffer's first sectors, as many as there were turns with room for one |
| `SectorReads.CleanReturnWithoutData` | source/hw/sdmmc.c:155-169 | `get_error` can be 0 with no sector moved: the awaited flags may come before the data |
| `IrqDispatch.HighestFirst` | source/hw/irq.c:68 | each turn serves the highest pending line |
| `IrqDispatch.EveryRaiseIsServed` | source/hw/irq.c:64-74 | a line raised at any moment of a turn is served in that turn or later, or still pending |
| `IrqDispatch.QuietServesEachOnce` | source/hw/irq.c:64-74 | with no arrivals exactly the lines set at first are served, once each |
| `IrqDispatch.IrqController.Process` | source/hw/irq.c:64-74 | at any call: if some turn finds nothing pending the loop ends so, having added one call per turn, of the table's entry for the line served and with that line |
| `IrqDispatch.EnableThenProcess` | source/hw/irq.c:37-74 | after a line is enabled with a handler, every raise of it while the dispatcher runs, and a raise pending before, has that handler called with that line at that turn or later |
| `Timer.ComposeExact` | source/hw/timer.c:48-52 | the four parts of a tick compose to it modulo 2^64 exactly when bit 31 is clear or the upper word is all ones; the value otherwise |
| `Timer.TickCounter.ReadTicks` | source/hw/timer.c:39-53 | the first accepted pass gives the result; if it spans fewer than 65536 ticks, its parts are those of the single tick of its last read |
| `Timer.MiliRoundTrip` | include/hw/timer.h:13-19 | milliseconds come back as they were or one less, unchanged exactly on multiples of 250 |
| `Bits.AndMask` | source/virt/queue.c:127-128 | masking with `2^k - 1` is reduction modulo `2^k`, for every number |
| `Bits.NextSlot` | source/virt/queue.c:133 | incrementing a re-masked index in 16 bits keeps it congruent to the unbounded count, because the size divides 65536 |
| `Bits.Pow2TestExact` | include/common.h:52 | `x & (x - 1)` is zero exactly for 0 and the powers of two, with the 32-bit wrap of `x - 1` |
| `QueueRegs.RegWriteKeepsPowerSized` | source/virt/queue.c:93-117 | no register write leaves a mask other than `2^k - 1` with `k` at most 16 |
| `QueueRegs.ResetIsPowerSized` | source/virt/queue.c:27-37 | reset leaves such a mask |
| `QueueRegs.SetUpExactly` | source/virt/queue.c:93-102 | out of reset, size then ready: the queue comes up exactly for an odd ready value and a size that works, with both indices 0 |
| `QueueRegs.FieldsFollowWrites` | source/virt/queue.c:93-117 | over any writes the addresses are the last values put to registers 4, 5 and 6, the size that of the last put to register 1, and the two indices stay |
| `QueueRegs.ReadyFollowsWrites` | source/virt/queue.c:99-102 | and ready is bit 0 of the last value put to register 2 while there was more than one slot |
| `QueueRegs.SetUpInAnyOrder` | source/virt/queue.c:93-117 | size and addresses in any order, then ready: the queue is up, and reads back the maximum 32768, its size, ready 1 and the addresses |
| `SplitRing.SetUpStarts` | source/virt/queue.c:83-102 | that set-up sequence over fresh rings is a start state of the protocol |
| `SplitRing.StepKeepsInv` | source/virt/queue.c:119-162 | every step of driver or device keeps the ring invariant |
| `SplitRing.FetchIndexMeaning` | source/virt/queue.c:127-131 | the fetch test compares unbounded counts modulo size |
| `SplitRing.ReapMeaning` | source/virt/queue.c:159-160 | the driver's test of used `last` is exact below 65536 unreaped entries, and it reads the entry it is due |
| `SplitRing.FullBacklogReachable` | source/virt/queue.c:127-131 | a driver can publish any number of heads up to the size before the device looks |
| `Chains.ChainAtMostSize` | include/virt/manager.h:116-121 | a walk that ends visits at most `size` descriptors |
| `Chains.ChainDistinct` | include/virt/manager.h:116-121 | a walk that ends visits no descriptor twice |
| `Chains.ChainUnique` | source/virt/queue.c:137-143 | the head determines the chain |
| `Chains.NextIs` | source/virt/queue.c:137-143 | the walk follows `next` exactly when flag bit 0 is set |
| `Chains.BufferIs` | source/virt/queue.c:164-176 | a buffer is the descriptor's address modulo 2^32 and its length, the device's to write exactly with flag bit 1 |
| `Chains.LinkedIsChain` | source/virt/queue.c:137-143 | chains are the sequences linked by flag bit 0 and `next` within the ring |
| `VirtQueues.VirtQueue.constructor` | source/virt/queue.c:19-25 | a new queue has a self-linked node and reset registers |
| `VirtQueues.VirtQueue.Reset` | source/virt/queue.c:27-37 | the registers are reset and the queue has left the pending list, whether or not it was in it |
| `VirtQueues.VirtQueue.ReadRegister` | source/virt/queue.c:39-56 | the method computes the register image's value for every register number |
| `VirtQueues.VirtQueue.WriteRegister` | source/virt/queue.c:93-117 | registers become those of the register image; a notification alone touches the list, where it enqueues the queue once |
| `VirtQueues.VirtQueue.FetchAvailFirst` | source/virt/queue.c:119-135 | -1 and no change when not ready or when the masked indices agree; otherwise the head in the slot, with the index advanced |
| `VirtQueues.VirtQueue.FetchAvailNext` | source/virt/queue.c:137-143 | the next index of a descriptor with flag bit 0, else -1 |
| `VirtQueues.VirtQueue.PushUsed` | source/virt/queue.c:145-162 | one used slot changes, the index is re-masked and advanced, `last` advances modulo 65536 |
| `VirtQueues.VirtQueue.GetDesc` | source/virt/queue.c:164-176 | the buffer of an in-range descriptor, its direction told by flag bit 1, with the high address half dropped; nothing usable otherwise |
| `VirtQueues.FetchJobNew` | include/virt/manager.h:107-114 | the job starts at the fetched head with total 0 |
| `VirtQueues.FetchJobNext` | include/virt/manager.h:116-121 | the job moves to the next descriptor, or answers -1 at the end |
| `VirtQueues.PushJob` | include/virt/manager.h:128-130 | the job's first descriptor and total become the used entry |
| `Drain.BacklogMeaning` | source/virt/queue.c:127-131 | after m jobs of a backlog the fetch fails exactly when m is the whole backlog, else takes the slot m further on |
| `Drain.DrainedOneMore` | source/virt/queue.c:119-162 | one fetch and push carry the drained state one job further, leaving all other used slots alone |
| `Drain.ReachedReady` | source/vdev/hwrng.c:26 | in each round of a drain the fetch finds the next pending head, and nothing exactly when all are served |
| `Drain.ReachedNext` | source/vdev/hwrng.c:26-42 | one more round leads from k jobs served to k + 1 |
| `Drain.DrainExists` | source/vdev/hwrng.c:26-42 | every backlog that can be served job by job reaches its drained state in that many rounds |
| `Drain.EntryOf` | source/vdev/hwrng.c:26-42 | the i-th entry of a drain is the i-th pending head with the length its service came to after the earlier ones |
| `Drain.Undisturbed` | source/vdev/hwrng.c:26-42 | if no job writes what another uses, what a job uses is as before the drain when it starts and stays as it leaves it |
| `Drain.SlotIsRemainder` | source/virt/queue.c:127-134 | consecutive positions fall into consecutive slots modulo size |
| `DeviceJobs.OnlyWindowsChange` | source/vdev/hwrng.c:32-38 | nor any outside what it may write at most |
| `DeviceJobs.WindowExactly` | source/vdev/sdcard.c:77-78 | the status byte goes past its buffer exactly when that is writable and empty |
| `DeviceJobs.TailNotWritten` | source/vdev/sdcard.c:79-83 | no part of the job writes them |
| `DeviceJobs.OnlyWrittenChange` | source/vdev/hwrng.c:32-38 | a job changes no byte but whole words of writable buffers (entropy), or the sectors that came and status bytes (block) |
| `DeviceJobs.SectorBytesAre` | source/hw/sdmmc.c:201-215 | byte j of the i-th of consecutive sectors stands at 512 * i + j |
| `Buffers.BlitAppend` | source/vdev/hwrng.c:36-37 | filling word by word equals one write of the concatenation |
| `Buffers.WordBytesAre` | source/vdev/hwrng.c:37 | a word is laid out low byte first |
| `Buffers.LoadWordIs` | source/vdev/sdcard.c:73-74 | four bytes that are those of w, low byte first, load as w |
| `Buffers.LoadedBytes` | source/vdev/sdcard.c:73-74 | and the word loaded has the bytes that stand there |
| `Buffers.StreamBytesAre` | source/vdev/hwrng.c:36-37 | byte j of word i of a stream stands at 4 * i + j |
| `Descriptors.JobIs` | source/vdev/hwrng.c:27-39 | the buffers served for the i-th job are the descriptors of its chain, in order |
| `Entropy.ReportedLength` | source/vdev/hwrng.c:27-39 | the length of a job is the sum of its writable lengths modulo 2^32, with one word drawn per whole word of each |
| `Entropy.BuffersHoldStream` | source/vdev/hwrng.c:35-37 | each writable buffer ends up holding its own consecutive stretch of the generator's output |
| `Entropy.FillBuffer` | source/vdev/hwrng.c:35-37 | the buffer's whole words become the generator's next words, and nothing else changes |
| `Entropy.ServeDesc` | source/vdev/hwrng.c:27-39 | one turn of the body has the effect of serving that buffer; a readable one is skipped |
| `Entropy.ServeChain` | source/vdev/hwrng.c:27-39 | the do-while loop serves exactly the buffers of the chain, once each and in order |
| `Entropy.ServeJob` | source/vdev/hwrng.c:26-41 | one round fetches, serves and pushes one job, or finds none |
| `Entropy.DrainBacklog` | source/vdev/hwrng.c:26-42 | the loop ends having served the whole backlog |
| `BlockDevice.DataBufferHolds` | source/vdev/sdcard.c:79-83 | in any chain each data buffer starts with the consecutive sectors that came for it, from the running number on, whatever is served after it |
| `BlockDevice.ReportedLength` | source/vdev/sdcard.c:77-84 | any chain reports the total length of its writable buffers of 512 bytes and more |
| `BlockDevice.SdCard.ReadSectors` | source/hw/sdmmc.c:201-215 | the sectors that came, as many as this read brings, stand in order at the address given, and nothing else has changed |
| `BlockDevice.ServeDesc` | source/vdev/sdcard.c:67-85 | one turn of the body has the effect of serving that buffer: header, data or status, whatever the read brought |
| `BlockDevice.ServeChain` | source/vdev/sdcard.c:67-86 | the do-while loop serves exactly the buffers of the chain, once each and in order |
| `BlockDevice.ServeJob` | source/vdev/sdcard.c:66-88 | one round fetches, serves and pushes one job, or finds none |
| `BlockDevice.DrainBacklog` | source/vdev/sdcard.c:66-88 | the loop ends having served the whole backlog |
| `PendingList.PendingList.constructor` | source/virt/manager.c:40 | the list starts empty over self-linked nodes |
| `PendingList.PendingList.NodeEmbedded` | include/sys/list.h:20 | the pointer test answers membership |
| `PendingList.PendingList.Empty` | include/sys/list.h:22 | the pointer test answers emptiness |
| `PendingList.PendingList.Unlink` | include/sys/list.h:25-29 | the neighbours are joined, the node self-linked and no other node's links change |
| `PendingList.PendingList.Remove` | include/sys/list.h:25-29 | the list stays well formed and loses that node; on an absent node nothing changes in the sequence |
| `PendingList.PendingList.AddTail` | include/sys/list.h:38-43 | the list stays well formed with the node appended |
| `PendingList.PendingList.AppendIfNotEmbedded` | include/sys/list.h:45-51 | appends exactly when absent and answers whether; otherwise no link changes |
| `PendingList.PendingList.TakeHead` | source/virt/manager.c:149-150 | takes the oldest node off |
| `Boot.InitDevice` | source/virt/device.c:16-19 | the loop over queues numbers and resets each; the device has its number and its reset registers |
| `Boot.BootState` | source/virt/device.c:24-41 | what a guest finds after boot: classes and offered features as linked in, everything else 0, every queue with one slot and not ready |
| `Scheduler.MovesUp` | source/virt/manager.c:149-150 | a pending queue moves up by one with each service begun, whatever is notified in between and whether or not those ahead are ready |
| `Scheduler.WriteKeepsRing` | source/virt/queue.c:93-117 | any register write to a queue not ready leaves it asleep or starts its protocol |
| `Scheduler.SetUpWakes` | source/virt/queue.c:93-102 | a size and then the ready flag wake a reset queue, for every accepted size but 1 |
| `Service.RoundIsServeNext` | source/vdev/hwrng.c:26-41 | with the driver silent, the device steps fetch, load, store and bump of the ring protocol are one round of the drain loop |
| `Service.RestOfService` | source/vdev/hwrng.c:26-42 | the device steps alone carry a service from any round to the drained state |
| `Service.OutcomeUnique` | source/virt/queue.c:119-162 | serving a backlog has one outcome, in registers, used ring, device state and memory |
| `HeapRuns.BootIsTraced` | source/virt/manager.c:32-43 | what `InitAll` leaves shows the start of a run |
| `HeapRuns.DriverTraced` | source/virt/queue.c:71-81 | a step of a driver on its rings in memory continues the run by that step |
| `HeapRuns.Serve` | source/virt/manager.c:133-161 | the views before and after a service, and that memory is otherwise unchanged |
| `VirtIrqs.VirtIrq.constructor` | source/virt/irq.c:13-22 | all banks and the event are clear |
| `VirtIrqs.VirtIrq.Set` | source/virt/irq.c:24-37 | the device's bit is or-ed into its bank and the event raised, within range only; the old bank is answered |
| `VirtIrqs.VirtIrq.Get` | source/virt/irq.c:39-44 | the bank is answered and cleared at once; 0 out of range |
| `VirtIrqs.VirtIrq.Sync` | source/virt/irq.c:47-51 | one trigger exactly when the event was raised, which is then clear |
| `VirtIrqs.RoutinesAreSteps` | source/virt/irq.c:24-51 | the routines are the interleaved steps in sequence |
| `VirtIrqs.StepKeepsInv` | source/virt/irq.c:24-51 | each step keeps the notification invariant |
| `VirtIrqs.SetVirqExactly` | source/virt/irq.c:24-37 | setting sets digit d mod 32 of bank d / 32 of that mode and no other digit |
| `Machine.Unpacked` | source/virt/manager.c:71-74 | the masks and shifts cut a packed register into type, queue number and register number |
| `Machine.DecodePacked` | source/virt/manager.c:71-126 | and every location is reached, by a 24-bit register number |
| `Machine.ReadBack` | source/virt/manager.c:76-100 | reading a storing register yields what its location holds and changes nothing |
| `Machine.WriteOne` | source/virt/manager.c:102-126 | a write changes a location exactly when it addresses it |
| `Machine.WriteIsLocal` | source/virt/device.c:88-119 | a write leaves every other device and queue unchanged, and only a notification touches the pending list |
| `Machine.SizesStayPowers` | source/virt/queue.c:83-102 | over any writes every ring size stays a power of two up to 65536 |
| `GuestView.DeviceRegistersRead` | source/virt/device.c:64-86 | what packed register 4 * n of a device reads, for every n |
| `GuestView.ConfigBytesRead` | source/vdev/sdcard.c:57-61 | what packed register 4 * offset + 1 reads: the byte of the space, 255 past its end, 0 for a device without one |
| `GuestView.QueueRegistersRead` | source/virt/queue.c:39-56 | what packed register 4 * (q + 128 * r) + 2 reads, for every queue and register |
| `GuestView.ManagerRegistersRead` | source/virt/manager.c:52-65 | version and device count; 0 for unmapped registers and devices that do not exist |
| `GuestView.FixedStayFixed` | source/virt/device.c:88-104 | no writes change class, offered features, generation or configuration space |
| `GuestView.DeviceFollowsItsWrites` | source/virt/device.c:88-104 | status, of 16 bits, and the driver's features are what was last put to packed registers 8, 20 and 24 |
| `GuestView.QueueFollowsItsWrites` | source/virt/device.c:114-119 | a queue is as its own writes, in order, leave it, whatever else is written in between |
| `GuestView.ServiceIsTold` | include/virt/manager.h:102-105 | right after a service of a device a read of its bank has its bit, clears that bank and leaves every other |
| `GuestView.BankFollowsServices` | source/virt/irq.c:24-44 | from reset on a device's bit is set exactly when a service of it has finished since its bank was last read |
| `Manager.VirtManager.constructor` | source/virt/manager.c:39-40 | over initialised devices, clear interrupts and an empty list make a valid manager |
| `Manager.VirtManager.RegRead` | source/virt/manager.c:52-65 | version, device count and the interrupt banks, whose reading clears them |
| `Manager.VirtManager.ReadReg` | source/virt/manager.c:76-100 | objects and register file stay in step, with the register file's answer |
| `Manager.VirtManager.WriteReg` | source/virt/manager.c:102-126 | objects and register file stay in step, notifications included |
| `Manager.VirtManager.WriteInternal` | source/virt/manager.c:119-120 | of the register file one device changes, by its internal write |
| `Manager.VirtManager.WriteQueueReg` | source/virt/device.c:114-119 | of the register file one queue changes, and on a notification the pending list |
| `Manager.VirtManager.ContainerOf` | source/virt/manager.c:152 | finds the queue a node is embedded in |
| `Manager.VirtManager.TakeOldest` | source/virt/manager.c:149-152 | the oldest pending queue is off the list and identified |
| `Manager.VirtManager.Dispatch` | include/virt/manager.h:102-105 | the device's own service runs and the guest is notified for that device |
| `Manager.VirtManager.TakePending` | source/virt/manager.c:142-152 | nothing when the list is empty; else the oldest queue is off the list |
| `Manager.VirtManager.TakeNext` | source/virt/manager.c:142-152 | taking a queue off the list leaves its registers, rings and device as they were |
| `Manager.VirtManager.RunService` | source/virt/manager.c:154-156 | a service changes no manager variable but the interrupts, and no other queue |
| `Manager.VirtManager.ServeQueue` | source/virt/manager.c:154-156 | the queue is served to the end and no other register changes |
| `Transport.FieldsOf` | source/main.c:12-14 | the macros cut a word into bit 31, bits 24 to 30 and bits 0 to 23 |
| `Transport.HeaderRoundTrip` | source/main.c:12-14 | fields of a packed header and header of unpacked fields, both ways |
| `Transport.NextCommand` | source/main.c:16-40 | the words of each command stand right behind those of the ones before it |
| `Transport.SplitAnywhere` | source/main.c:16-40 | executing a stream in two parts at any command equals executing it at once |
| `Transport.Pxi.AwaitWord` | source/main.c:34-35 | the busy wait ends at the first look that finds a word, with that word |
| `Transport.Pxi.Reply` | source/main.c:30-31 | the busy wait ends and one word is sent, never into a full FIFO |
| `Transport.Perform` | source/main.c:20-38 | one turn performs the next command and consumes exactly its words |
| `Transport.Pxi.WholeCommandsReturn` | source/main.c:16-40 | when a stream of whole commands arrives in full the handler always returns |
| `Transport.Pxi.LoneHeaderHangs` | source/main.c:34 | after a last write header without data it does not |
| `Transport.SeenIsNext` | source/main.c:17-24 | what has been seen, and will be finished, is the next whole command |
| `Transport.NextTurn` | source/main.c:17-38 | one turn leads from one command boundary to the next |
| `SdTransfer.BlocksConserved` | source/hw/sdmmc.c:98-170 | on every trace bytes remaining plus block length times blocks moved is the size requested |
| `SdTransfer.NeverPastCapacity` | source/hw/sdmmc.c:109-142 | on any trace the words moved stay within the rounded block count |
| `SdTransfer.NoErrorWhileRunning` | source/hw/sdmmc.c:149-169 | while the loop runs the error bit is clear |
| `SdTransfer.SectorCommands` | source/hw/sdmmc.c:185-215 | the two sector commands move data one way and wait for response and data end |
| `SdTransfer.NothingLeftMeansAllMoved` | source/hw/sdmmc.c:185-215 | a sector transfer with nothing left over moved every sector requested, one way |
| `SdTransfer.Fifo.ReadBlock` | source/hw/sdmmc.c:111-117 | a block's words land in order and the rest of the buffer is unchanged |
| `SdTransfer.Fifo.WriteBlock` | source/hw/sdmmc.c:134-140 | a block's words are sent in order |
| `SdTransfer.MoveIn` | source/hw/sdmmc.c:102-124 | one turn's reading half moves a block exactly when ready, wanted and still fitting, and keeps buffer and FIFO in step |
| `SdTransfer.MoveOut` | source/hw/sdmmc.c:125-147 | the same for the writing half |
| `SdTransfer.SeenBits` | source/hw/sdmmc.c:100-167 | the bits a turn looks at: 8 and 9 of the control word, 0 to 6, 14 and 15 of status 1, 0 and 2 of status 0 |
| `SdTransfer.CompleteBits` | source/hw/sdmmc.c:167 | a sector command ends on bits 0 and 2 of status 0 together |
| `SdTransfer.ErrorWordExactly` | source/hw/sdmmc.c:155-165 | bits 0 and 1 of the error word tell whether a turn saw the response, and the end of the data |
| `SectorReads.SectorsMoved` | source/hw/sdmmc.c:98-124 | at every turn until the loop is left, the sectors moved are the smaller of those asked for and the turns with a block ready |
| `SectorReads.SectorsSent` | source/hw/sdmmc.c:98-147 | at every turn until the loop is left, the sectors sent are the smaller of those given and the turns with room for one |
| `IrqDispatch.TopBitIsHighest` | include/common.h:46 | the position found is set and nothing above it is |
| `IrqDispatch.ServedWasRaised` | source/hw/irq.c:64-74 | what is served or left was pending at first or raised on the way |
| `IrqDispatch.ServedTwiceRaisedTwice` | source/hw/irq.c:71-72 | a line is served again only if raised again after its acknowledgement |
| `IrqDispatch.QuietDescends` | source/hw/irq.c:64-74 | with no arrivals lines are served in strictly descending order |
| `IrqDispatch.QuietEnds` | source/hw/irq.c:64-74 | once arrivals stop, some turn finds nothing pending |
| `IrqDispatch.RaiseReachesHandler` | source/hw/irq.c:64-74 | a raise of a line whose calls go to a handler has that handler called at that turn or later |
| `IrqDispatch.CallHasRaise` | source/hw/irq.c:64-74 | a call for a line has its raise, or the line was pending at first |
| `Timer.AcceptedExactly` | source/hw/timer.c:45-50 | within 65536 ticks a pass is accepted exactly when the low timer has not wrapped |
| `Timer.AtMostOneRetry` | source/hw/timer.c:45-50 | two passes within 65536 ticks cannot both be rejected |
| `Timer.TickCounter.OneOfTwoAccepted` | source/hw/timer.c:45-50 | of two passes that together span fewer than 65536 ticks one is accepted |
| `Timer.TickCounter.AcceptedIsSnapshot` | source/hw/timer.c:46-50 | an accepted pass used the parts of the single tick of its last read |
| `Timer.ConversionsMonotone` | include/hw/timer.h:13-19 | within 64 bits both conversions keep order |
| `Timer.ConversionsRoundDown` | include/hw/timer.h:13-19 | within 64 bits both conversions are the quotients at 67027964 ticks a second, rounded down |
| `VirtQueues.VirtJob.AddWritten` | include/virt/job.h:11-13 | the running total grows modulo 2^32 |
| `Manager.VirtDev.GetQueue` | source/virt/device.c:43-48 | the numbered queue, or null past the end |
| `Timer.TickCounter.ReadPass` | source/hw/timer.c:46-49 | the five reads of one pass, in order |
| `VirtQueues.VirtQueue.SetSize` | source/virt/queue.c:83-91 | only the mask changes, to the register image's new mask |
| `Manager.VirtDev.constructor` | source/virt/device.c:33-36 | a new device has status, generation and driver features 0 |
| `Manager.VirtDev.InternalRegRead` | source/virt/device.c:64-86 | reads agree with the register file |
| `Manager.VirtDev.InternalRegWrite` | source/virt/device.c:88-104 | writes keep the fields in step with the register file |
| `Buffers.StoreWord` | source/vdev/hwrng.c:37 | exactly four bytes change, to the word's little-endian bytes |
| `IrqDispatch.IrqController.Enable` | source/hw/irq.c:37-47 | one handler and one enable bit change |

## Left out

- Boot, relocation, memory protection, vectors and the fatal-error screen: hardware bring-up and display.
- Barriers, cache and BootROM wrappers: memory is sequentially consistent, critical sections are atomic.
- PXI, NDMA and SD registers beyond the FIFOs, status words and trigger count: thin wrappers.
- SD and eMMC card initialisation, clocking and the size decode (source/hw/sdmmc.c:251-488): fixed register scripts; so are the wait for an idle controller and the register writes before and after the transfer loop.
- Rings and table in one byte-addressed memory: they are objects of their own, found by guest address; only data buffers are bytes. Overlap of a ring with a buffer is not modelled.
- `irqDisable` and the acknowledge loop of `irqReset`: the first is not called; the second waits on hardware.
- That the processor never sleeps with a queue pending: an interrupt can arrive between the critical section and the wait (source/main.c:61-62).
- Device reset on status 0, feature negotiation, event-index suppression, indirect descriptors and block writes: the code does not implement them.
- The feature and class constants that DECLARE_VIRTDEV gives each device: they are parameters of `Boot.DevSpec`.
- The filling of the block configuration space (source/vdev/sdcard.c:47-55).
- Boot.InitDevice: objects are created where the code initialises static storage, so the second reset of each queue in virtDevReset has nothing to do; the hardReset hook is not modelled.
- Boot.InitAll: the list is created after the devices, whose nodes it ranges over, and not before.
- Manager.VirtDev.constructor: the registers only; queues are initialised by `Boot.InitDevice`.
- Manager.VirtManager.constructor: the interrupt and list state only; the loop over devices is in `Boot.InitAll`.
- The 8-bit owner and 7-bit queue id fields: numbers are unbounded, which agrees for up to 256 devices and 128 queues each.
- New heads published while a drain runs, at the level of the device loops: `Drain` fixes `last`; `SplitRing` and `Scheduler` let it move but do not bound how long a service lasts.
- BlockDevice.SdCard.ReadSectors: how many sectors a read brings is arbitrary, and `SectorReads.ReadSectors` says what decides it; the shift of the sector number for cards that are not SDHC and the 16-bit block count register are not modelled.
- BlockDevice.GatheredReadIsContiguous: the status byte is not in the used length, as the code has it, although section 2.6.8 of VirtIO 1.1 counts every byte written; sector numbers wrap at 2^32.
- Manager.VirtManager.ContainerOf: searches for the queue whose node it is, where the code subtracts a field offset.
- SdTransfer.SendCommand: requires that some turn leaves the loop, which is exactly when it ends; the register writes before and after the loop and the response words are not modelled, nor the 32-bit wrap of `numsectors << 9`.
- IrqDispatch.IrqController.Process: requires that some turn finds nothing pending, which is exactly when the loop ends; `IrqDispatch.QuietEnds` gives such a turn once arrivals stop.
- Timer.TickCounter.ReadTicks: requires that some pass is accepted, which is exactly when the loop ends; `Timer.TickCounter.OneOfTwoAccepted` gives one within 65536 ticks.
- Transport.OnPxiRecv: requires that it returns within some number of turns, which is exactly when it does; `Transport.Pxi.AlwaysReturnsExactly` says for which streams.
