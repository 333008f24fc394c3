# Virtio rpmsg drivers and the memory-map device: a verified model

The repository holds the remote-processor messaging (rpmsg) stack of a Linux kernel, with its virtio transport,
its character device, and a small character device over physical memory. This project models the parts whose
correctness depends on interleaving, on shared resources or on arithmetic, and proves what they promise.

| file | what it models |
|---|---|
| `Wire.dfy` | the packed 16-byte header, the checks of a send, the checks and dispatch of a receive |
| `TxMachine.dfy` | sending as a step protocol: any number of senders, the remote, the tx interrupt; a send taken as one piece |
| `TxSafety.dfy` | the invariant of that protocol, kept by each of its eighteen steps |
| `TxTheorems.dfy` | what follows for every run: wake-ups, slots, frames, ring capacity |
| `TxWaiting.dfy` | a send taken as one piece, waits included, is a run of the protocol |
| `TxSignals.dfy` | what a pending signal does to a blocking send, and when a send times out, in every run |
| `Endpoints.dfy`, `EndpointSafety.dfy` | the id table, reference counts and callback locks, with receivers and destroyers interleaved |
| `EndpointCalls.dfy` | which callbacks the registry makes, over every run and in a dispatch nobody disturbs |
| `RxRing.dfy` | draining the used ring; which callbacks run, and where every receive buffer is, with the remote filling buffers meanwhile |
| `Virtproc.dfy` | the bus object with its fields and buffer memory updated in place, each method tied to the function above that it implements |
| `VirtprocRuns.dfy`, `Processor.dfy` | the bus object together with the runs of the protocols that lead to what it holds; the remote's moves |
| `DeviceNames.dfy` | C strings, printed device names and their rewriting by the driver core |
| `Channels.dfy`, `ChannelRegistry.dfy` | channel matching and the name service, for any number of processors on one bus; the channels against the announcements, over every history |
| `CharReader.dfy`, `CharReaderSafety.dfy` | the character device's queue with any number of blocking readers, the callback, destruction and release |
| `CharReads.dfy` | the character device object, and one read call as a run of the reader protocol |
| `CharDevices.dfy` | the three id allocators shared by two kinds of device, with goto unwinding and release functions, and the registered device numbers |
| `MemMap.dfy` | the page-by-page read and write of physical memory against one flat copy, and seeking |

## How to read the models

Concurrent parts are state machines: `Step` is one atomic step, `Run` any finite sequence of steps, and each
theorem speaks about every run from the initial state. A region under one lock is one step. `wait_event` is split
into the check before queueing, joining the wait queue, the check after it, and giving up the processor. Device
and interrupt have steps of their own; in particular the device returns a buffer in one step and looks at the
interrupt flag in a later one. The virtqueue is its contract (section 2.6 of VIRTIO 1.1): an add fails when no
descriptor is free, the device moves each buffer once from the available to the used ring, a used buffer is handed
back once, and the interrupt flag decides whether the device raises an interrupt. A signal sent to a context stays
pending until the context is back in user space. `TxMachine.State` carries an owner for each slot and a few counters
that no step looks at; the theorems are stated without them wherever the rings, the senders and the buffers say the
same.

Sequential parts are classes over mutable fields and arrays. Their methods are proved against functions on values,
and those functions are proved to be runs of the step protocols, from any state that meets the stated conditions
(`SendIsARun`, `DestroyIsARun`, `DrainIsARun`, `ReadIsARun`, `CreateIsARun`). The class `Processor` joins the bus
object to ghost logs of its steps. Its invariant says that the tx pool, the rx state and the endpoints are each what a
run of the protocol from probe leads to, the registry's run having made the callbacks that the object holds, and each of
its methods (a send, a drain, creating and destroying an endpoint, and the remote taking, returning and filling
buffers) prolongs those runs. So what holds of every run of the three protocols holds of the object between calls;
`Processor.SlotsApart` is one instance. Likewise the class `ChannelRegistry.Bus` keeps the history of announcements
that its channels come from.

Failures the code cannot foresee are parameters: memory allocation, DMA or broken-queue errors on an add, faults
of the user's buffer, pages that cannot be mapped or read, signals, and the end of a timeout.

## Where the code does less than its comments or its caller may expect

- A signal does not end a blocking send. It stays pending, so from then on every wait of that send is over at once:
  the sender never sleeps again, no longer times out, and tries until a buffer turns up
  (`TxSignals.TurnedBackNeverSleeps`). In every run, a send has returned `-ERESTARTSYS` if and only if it has returned
  and the timer had ended a wait of it without a buffer, and that wait is its first and only one
  (`TxSignals.TimesOutInFirstWait`).
- The transmit pool is sized by the rx ring alone. No slot is ever lost, barring reported errors, if and only if
  the tx ring has at least as many entries as the rx ring, or at least 256 (`TxTheorems.RingCapacity`).
- A message whose reported length is below 16 passes the receive check, and then its payload always lies outside
  that length (`Wire.AcceptedPayloadInBounds`, `Wire.ShortReportAccepted`).
- A rejected inbound message is not given back to the remote: its buffer is dropped. Barring reported errors the dropped
  buffers are those of the rejected messages, in order, and no others (`RxRing.OnlyRejectedDropped`).
- A create that fails for memory, or for an error of registration other than a name in use, leaves no trace and counts
  as not announced. With that, channels and announcements agree after every message of a history if and only if none of
  these happens: a destroy with the wildcard address finds a channel with an address of its own (it removes the oldest
  of that name), a create with the wildcard address finds the name in use (it is refused), or a create finds its device
  name taken on the bus by a channel that is not the one announced (`ChannelRegistry.AgreesExactly`). What exists after any history, these
  included, is `ChannelRegistry.RegistryExact`; inputs are `WildcardBreaksExactness`, `WildcardCreateRefused`,
  `ProcessorsCollide` and `SlashCollides`.
- A device name no longer starts with the name of the parent, and the driver core turns each slash into an exclamation
  mark. So a create that finds no such channel at its own processor is still refused exactly when another processor has
  a channel of that name and address, or the same processor one whose name differs only in that respect
  (`ChannelRegistry.NoNameCollision`).
- A blocking read of the character device can return `-EFAULT` for want of a message it was woken for if and only if
  there are at least two readers (`CharReaderSafety.NeverEmptyIffSoleReader`).
- The release functions of the character devices give the minor back before they delete the cdev. Two registered cdevs
  have one device number at some time if and only if a cdev is added under a number between these two steps of a release
  (`CharDevices.NumbersUnsharedExactly`; an input is `CharDevices.NumberReused`).
- A write to the memory-map device that meets a bad user page may zero bytes after those it reports as written,
  even when it returns `-EFAULT`; it changes exactly the reported prefix if and only if those bytes were zero
  already or there is no padding (`MemMap.PrefixExact`; an input is `MemMap.PaddingLosesByte`).

## Model

| member | source | states |
|---|---|---|
| Wire.DecodeEncode | virtio_rpmsg_test/virtio_rpmsg_bus.c:119-126 | every header is recovered from its 16 bytes, the 16-bit length included |
| Wire.EncodeDecode | virtio_rpmsg_test/virtio_rpmsg_bus.c:119-126 | every 16 bytes are the encoding of the header they decode to |
| Wire.EncodeLayout | virtio_rpmsg_test/virtio_rpmsg_bus.c:119-126 | the five fields of a header by their offsets 0, 4, 8, 12 and 14, least significant byte first |
| Wire.FrameLayout | virtio_rpmsg_test/virtio_rpmsg_bus.c:648-653 | the bytes of a frame: source, destination, four zeros, the length of the payload, two zeros, the payload |
| Wire.SendCheckExact | virtio_rpmsg_test/virtio_rpmsg_bus.c:598-616 | the result of the checks by numbers: -22 for a wildcard address, else 0 exactly for a length from 0 to 496, else -90; a negative length is refused by the unsigned comparison |
| Wire.AcceptsExact | virtio_rpmsg_test/virtio_rpmsg_bus.c:753-757 | a message is accepted if and only if the reported length is below 16, or at most 512 and at least 16 plus the length in the header |
| Wire.ReceiveExact | virtio_rpmsg_test/virtio_rpmsg_bus.c:735-783 | for any 512 bytes and any report: lengths, destination and source are read at their offsets, and the endpoint bound to the destination is called once with the bytes from 16 on, unless the message is rejected, the address unbound or the callback cleared |
| Wire.AcceptedPayloadInBounds | virtio_rpmsg_test/virtio_rpmsg_bus.c:753-757 | an accepted message's payload lies within the reported length, and within the 512-byte buffer, when that length covers the header; within the reported length only then |
| Wire.ShortReportAccepted | virtio_rpmsg_test/virtio_rpmsg_bus.c:753-757 | a concrete report below 16 that is accepted with a payload beyond the buffer |
| Wire.RoundTrip | virtio_rpmsg_test/virtio_rpmsg_bus.c:648-783 | the frame of any accepted send, reported with length 16 + len, makes exactly one call, to the endpoint bound to its destination, with the same bytes, length and source, or none when unbound or cleared |
| TxSafety.InitInv | virtio_rpmsg_test/virtio_rpmsg_bus.c:914-978 | the state set up by probe satisfies the invariant of the transmission protocol |
| TxSafety.StepInv | virtio_rpmsg_test/virtio_rpmsg_bus.c:474-682 | every step of every sender, of the device and of the interrupt keeps that invariant |
| TxTheorems.NoLostWakeup | virtio_rpmsg_test/virtio_rpmsg_bus.c:513-646 | in every reachable state, a sleeping sender and a non-empty used ring imply a pending interrupt, or a device about to look at a flag that is set |
| TxTheorems.WakeupDelivers | virtio_rpmsg_test/virtio_rpmsg_bus.c:830-845 | from every such state the interrupt and the sleeper's own steps give it the buffer returned first |
| TxTheorems.SleeperAccounting | virtio_rpmsg_test/virtio_rpmsg_bus.c:513-551 | `sleepers` is the number of senders between upref and downref, and tx interrupts are asked for exactly while it is positive |
| TxTheorems.SlotsExclusive | virtio_rpmsg_test/virtio_rpmsg_bus.c:474-495 | in every run each slot is in at most one place at most once; no two senders hold the same slot; no sender holds one that is in the ring |
| TxTheorems.SlotsConserved | virtio_rpmsg_test/virtio_rpmsg_bus.c:474-682 | never issued, held, available, at the device, returned and failed adds always sum to the number of slots |
| TxTheorems.LostAreFailedAdds | virtio_rpmsg_test/virtio_rpmsg_bus.c:664-682 | the slots that are in none of those places are exactly as many as the adds that failed |
| TxTheorems.TimeoutHoldsNone | virtio_rpmsg_test/virtio_rpmsg_bus.c:641-645 | a send about to report a timeout holds no slot |
| TxTheorems.RingSlotUntouched | virtio_rpmsg_test/virtio_rpmsg_bus.c:648-682 | no step of any context writes a slot between its add and its reuse |
| TxTheorems.RingSlotHoldsFrame | virtio_rpmsg_test/virtio_rpmsg_bus.c:648-682 | in every run a buffer in the ring starts with the frame of the last successful send that was given its slot |
| TxTheorems.FramesInOrder | virtio_rpmsg_test/virtio_rpmsg_bus.c:648-682 | the frames the remote has read are those of the successful sends, in queue order, each once, byte for byte; the rest are still available |
| TxTheorems.SentMeansSuccess | virtio_rpmsg_test/virtio_rpmsg_bus.c:664-682 | the log of sends grows exactly when a sender's add succeeds, by that sender's message |
| TxTheorems.SuccessOnlyByQueueing | virtio_rpmsg_test/virtio_rpmsg_bus.c:664-682 | a send returns 0 by no other step |
| TxTheorems.EndToEnd | virtio_rpmsg_test/virtio_rpmsg_bus.c:648-783 | the k-th frame read, put before a receiver, calls the endpoint bound to the k-th successful send's destination with that send's bytes |
| TxTheorems.RingCapacity | virtio_rpmsg_test/virtio_rpmsg_bus.c:933-941 | no run without reported errors loses a slot if and only if the rx ring has at most as many entries as the tx ring, or the tx ring has at least 256 |
| TxMachine.FirstReturn | virtio_rpmsg_test/virtio_rpmsg_bus.c:624-646 | the first of a send's waits during which a buffer is returned |
| TxWaiting.WaitingIsARun | virtio_rpmsg_test/virtio_rpmsg_bus.c:624-646 | for every account of what happens during the waits, with a signal pending or not, the closed form of waiting (the first wait may time out unless a signal is pending; after that only a returned buffer ends it; sleepers and interrupts as before) is what the protocol's steps do |
| TxWaiting.SendIsARun | virtio_rpmsg_test/virtio_rpmsg_bus.c:587-683 | a whole send, refused, immediate, turned away or waiting, is a run of the protocol with the same pool and return value |
| TxWaiting.SendReturns | virtio_rpmsg_test/virtio_rpmsg_bus.c:587-683 | the value a send returns, by numbers: -22, -90, -12 without a buffer and without waiting, -512 when the first wait runs out of time with no signal pending, -5 for a reported error, -28 without a free descriptor, else 0; none while it still waits |
| TxWaiting.SendLeaves | virtio_rpmsg_test/virtio_rpmsg_bus.c:474-682 | the whole pool after a send: unchanged without a buffer; else the buffer handed out is the one never used, the oldest returned or the first returned meanwhile, it starts with the frame, it is available exactly on success, and all else is as before |
| TxSignals.TimesOutInFirstWait | virtio_rpmsg_test/virtio_rpmsg_bus.c:618-646 | over every run in which a send begins: it has returned -ERESTARTSYS if and only if it has returned and at some point the timer had ended a wait of it without a buffer, and then it began exactly one wait |
| TxSignals.TimeoutNeverTurnedBack | virtio_rpmsg_test/virtio_rpmsg_bus.c:624-646 | over every run: a send that was turned back by a signal at any point does not return -ERESTARTSYS |
| TxWaiting.SendsStayRuns | virtio_rpmsg_test/virtio_rpmsg_bus.c:587-683 | after any run from probe, a send leads to the state of a longer run |
| TxSignals.TurnedBackNeverSleeps | virtio_rpmsg_test/virtio_rpmsg_bus.c:624-646 | over every run: a send that has to wait with a signal pending, or one of whose waits ended with neither a buffer nor a timeout, is never on the wait queue from then on, never sleeps, and ends only with the answer of an add |
| Endpoints.AddressChosen | virtio_rpmsg_test/virtio_rpmsg_bus.c:286-303 | an explicit address is bound if and only if it is below 2^31 and free; a dynamic one is the lowest free from 1024 up |
| Endpoints.DestroyIsARun | virtio_rpmsg_test/virtio_rpmsg_bus.c:335-349 | destroying in one piece is a run of the destroyer's three steps: the address leaves the table, and the endpoint is freed if nobody else refers to it and kept without callback otherwise |
| EndpointSafety.StepInv | virtio_rpmsg_test/virtio_rpmsg_bus.c:265-349 | every step of every receiver, creator and destroyer keeps the registry's invariant |
| EndpointSafety.NoUseAfterFree | virtio_rpmsg_test/virtio_rpmsg_bus.c:253-262 | in no run does any step touch an endpoint that is not allocated |
| EndpointSafety.RefcountExact | virtio_rpmsg_test/virtio_rpmsg_bus.c:759-781 | a reference count is one for the creator until destruction drops it, plus the receivers between get and put; an endpoint in the table has one |
| EndpointSafety.FreedOnceAndOnlyUnused | virtio_rpmsg_test/virtio_rpmsg_bus.c:335-349 | an endpoint is freed at most once, and is freed if and only if its destruction has returned and no receiver uses it |
| EndpointSafety.CallbackQuiescence | virtio_rpmsg_test/virtio_rpmsg_bus.c:343-348 | once a destroy has returned, nobody is inside the callback and no continuation of the run ever calls it, not even for a receiver that looked it up before |
| EndpointSafety.AddressBinding | virtio_rpmsg_test/virtio_rpmsg_bus.c:295-303 | in every run the table maps each address to the endpoint that carries it, and endpoints not being destroyed have distinct addresses |
| EndpointSafety.CreateBinds | virtio_rpmsg_test/virtio_rpmsg_bus.c:265-313 | what a creation binds, a new endpoint with one reference, no lock and the callback given, all else unchanged; and exactly when it returns NULL leaving everything as it was |
| EndpointCalls.LeavingLocked | virtio_rpmsg_test/virtio_rpmsg_bus.c:774-776 | in every run a receiver that has locked an endpoint leaves that point only by its own step, which calls the endpoint once if the callback is set then and calls nobody otherwise |
| EndpointCalls.CallsExact | virtio_rpmsg_test/virtio_rpmsg_bus.c:759-783 | over every run the call log grows by exactly those calls, in that order, and by no other step |
| EndpointCalls.DispatchIsARun | virtio_rpmsg_test/virtio_rpmsg_bus.c:759-783 | after any run, a receiver that looks up an address whose endpoint is not locked, and is not interrupted, adds one call of the endpoint bound to it if the callback is set and none otherwise; heap, table and everything else end as they were |
| EndpointCalls.FrameDispatch | virtio_rpmsg_test/virtio_rpmsg_bus.c:759-783 | the calls of the wire dispatch on a buffer are those of the receiver that looks the frame's destination up |
| RxRing.ReceivedInOrder | virtio_rpmsg_test/virtio_rpmsg_bus.c:735-828 | in every run, with the remote returning buffers at any time, the callbacks are those of the messages it returned, in that order, each once, with the bytes it put there |
| RxRing.StepConserves | virtio_rpmsg_test/virtio_rpmsg_bus.c:735-828 | no step of the remote or the handler creates or loses a buffer, and dropped grows by one per failure only |
| RxRing.BuffersConserved | virtio_rpmsg_test/virtio_rpmsg_bus.c:735-828 | in every run each buffer is in exactly one of posted, used, in hand and dropped, and dropped counts the rejected messages and failed re-adds |
| RxRing.OnlyRejectedDropped | virtio_rpmsg_test/virtio_rpmsg_bus.c:753-796 | in every run without reported errors the dropped buffers are those of the rejected messages, in order: giving a buffer back never lacks a descriptor |
| RxRing.DrainIsARun | virtio_rpmsg_test/virtio_rpmsg_bus.c:799-828 | the outcome of a drain, up to its first failure, is that of the handler's steps one by one |
| RxRing.DrainsStayRuns | virtio_rpmsg_test/virtio_rpmsg_bus.c:799-828 | after any run from set-up, a drain leads to the state of a longer run |
| Virtproc.VirtprocInfo.constructor | virtio_rpmsg_test/virtio_rpmsg_bus.c:937-978 | as many buffers each way as the smaller of the rx ring and 256, in one region of twice that many times 512 bytes, every rx buffer posted once in order, tx interrupts off: the initial states of both protocols |
| Virtproc.VirtprocInfo.GetATxBuf | virtio_rpmsg_test/virtio_rpmsg_bus.c:474-495 | a never-used slot first, else the oldest returned one, else none; the whole new pool |
| Virtproc.VirtprocInfo.RpmsgUprefSleepers | virtio_rpmsg_test/virtio_rpmsg_bus.c:513-524 | one more sleeper, and interrupts on if it is the first: the pool step of the protocol |
| Virtproc.VirtprocInfo.RpmsgDownrefSleepers | virtio_rpmsg_test/virtio_rpmsg_bus.c:540-551 | one sleeper less, and interrupts off if it was the last: the pool step of the protocol |
| Virtproc.VirtprocInfo.CopyInto | virtio_rpmsg_test/virtio_rpmsg_bus.c:648-653 | bytes copied into one buffer of the shared region change that stretch of it and no other buffer |
| Virtproc.VirtprocInfo.FillMessage | virtio_rpmsg_test/virtio_rpmsg_bus.c:648-653 | the buffer starts with the frame, the bytes after it and every other buffer of either direction unchanged |
| Virtproc.VirtprocInfo.WaitForBuf | virtio_rpmsg_test/virtio_rpmsg_bus.c:634-636 | one wait: the buffer the remote returns, of those it has, if there is one; the timeout reported only without one and without a pending signal |
| Virtproc.VirtprocInfo.AwaitBuf | virtio_rpmsg_test/virtio_rpmsg_bus.c:624-646 | the waiting loop: a timeout of the first wait, unless a signal is pending, or else the first buffer the remote returns; sleepers and the interrupt flag end as they began |
| Virtproc.VirtprocInfo.Send | virtio_rpmsg_test/virtio_rpmsg_bus.c:587-683 | the whole send on the object's memory has the pool and return value of the one-piece send; rx buffers are untouched |
| Virtproc.VirtprocInfo.CreateEpt | virtio_rpmsg_test/virtio_rpmsg_bus.c:265-313 | the new table, endpoints and result for every address, and exactly when NULL is returned with no change; the creation step of the registry |
| Virtproc.VirtprocInfo.DestroyEpt | virtio_rpmsg_test/virtio_rpmsg_bus.c:335-349 | the address leaves the table, and the endpoint is freed or kept without callback by its remaining references |
| Virtproc.VirtprocInfo.DispatchMsg | virtio_rpmsg_test/virtio_rpmsg_bus.c:759-783 | one call of the endpoint bound to the destination at offset 4, with the bytes from 16 on, the length at offset 12 and the source at offset 0, if its callback is set, else none; every reference taken is given back |
| Virtproc.VirtprocInfo.InboundOk | virtio_rpmsg_test/virtio_rpmsg_bus.c:753-757 | accepted if and only if the reported length is below 16, or at most 512 and at least 16 plus the length at offset 12 |
| Virtproc.VirtprocInfo.VirtqueueAddInbuf | virtio_rpmsg_test/virtio_rpmsg_bus.c:789-793 | a buffer is posted exactly when no error is reported and a descriptor is free |
| Virtproc.VirtprocInfo.RecvOne | virtio_rpmsg_test/virtio_rpmsg_bus.c:735-796 | -22 for a message that check rejects, else -5 for a reported error, else 0; posted again exactly on 0 and dropped otherwise; a descriptor is always free |
| Virtproc.VirtprocInfo.RecvLoop | virtio_rpmsg_test/virtio_rpmsg_bus.c:813-821 | the loop handles the messages in order and stops at the first failure or the end of the ring, with the used ring as measure |
| Virtproc.VirtprocInfo.RecvDone | virtio_rpmsg_test/virtio_rpmsg_bus.c:799-828 | the rx state is the drained one, and the remote is kicked exactly when something was handled |
| Processor.Processor.constructor | virtio_rpmsg_test/virtio_rpmsg_bus.c:937-978 | the object starts where the runs of the three protocols start |
| Processor.Processor.Send | virtio_rpmsg_test/virtio_rpmsg_bus.c:587-683 | a send keeps the tx pool reached by a run, for every account of its waits in which the remote returns buffers it has; the rx side is unchanged |
| Processor.Processor.RecvDone | virtio_rpmsg_test/virtio_rpmsg_bus.c:799-828 | a drain keeps the rx state reached by a run, and the registry reached by a run whose calls are, message by message, those the drain made; the tx pool is unchanged |
| Processor.Processor.CreateEpt | virtio_rpmsg_test/virtio_rpmsg_bus.c:265-313 | creating an endpoint keeps table and endpoints reached by a run |
| Processor.Processor.DestroyEpt | virtio_rpmsg_test/virtio_rpmsg_bus.c:335-349 | destroying one does |
| Processor.SlotsApart | virtio_rpmsg_test/virtio_rpmsg_bus.c:474-495 | so no slot is ever in two places of the object's tx ring |
| DeviceNames.StrnEqualExact | virtio_rpmsg_test/rpmsg_core.c:302-303 | comparing two name arrays with strncmp over their whole size is comparing the strings in them |
| DeviceNames.StrncpyKeeps | virtio_rpmsg_test/virtio_rpmsg_bus.c:462-462 | a name copied with strncpy is the same string |
| DeviceNames.PrintedInjective | virtio_rpmsg_test/rpmsg_core.c:527-527 | what is printed for two channels is equal if and only if name, source and destination agree, dots in names or not |
| DeviceNames.PrintDExact | virtio_rpmsg_test/rpmsg_core.c:527-527 | an address is printed as a signed number in decimal without leading zeros |
| DeviceNames.RewriteExact | virtio_rpmsg_test/rpmsg_core.c:527-527 | two strings are the same after rewriting if and only if they differ only by slashes and exclamation marks |
| DeviceNames.DeviceNameExample | virtio_rpmsg_test/rpmsg_core.c:520-532 | service a/b at address 53 is the device a!b.-1.53 |
| DeviceNames.DeviceNameExact | virtio_rpmsg_test/rpmsg_core.c:520-532 | two channels get one device name if and only if their addresses agree and their names agree after slashes are rewritten |
| Channels.MatchesExact | virtio_rpmsg_test/rpmsg_core.c:291-307 | matching with strncmp over the name arrays compares the strings in them, and the addresses up to wildcards |
| Channels.FindDevice | virtio_rpmsg_test/rpmsg_core.c:309-314 | the first matching channel, or none when no channel matches |
| Channels.ParseEncode | virtio_rpmsg_test/virtio_rpmsg_bus.c:863-888 | what one processor encodes as an announcement the other parses: the name cut to 31 characters, the address, and the operation in the low bit |
| Channels.ParseExact | virtio_rpmsg_test/virtio_rpmsg_bus.c:848-888 | any 40 bytes: the name is the string in the first 31, the address is at offset 32, and the lowest bit of the byte at 36 says destroy |
| Channels.TakenExact | virtio_rpmsg_test/rpmsg_core.c:520-532 | a device name is taken on the bus if and only if a channel of some processor has that destination and that name after rewriting |
| ChannelRegistry.NoNameCollision | virtio_rpmsg_test/virtio_rpmsg_bus.c:433-468 | after any history, a create that finds no such channel at its processor succeeds, errors apart, if and only if no channel of another processor, or of another name equal after rewriting, is in the way |
| ChannelRegistry.ChannelsUnique | virtio_rpmsg_test/virtio_rpmsg_bus.c:425-471 | after every history, no two channels of the bus share a device name, or a destination and a rewritten name |
| ChannelRegistry.RegistryExact | virtio_rpmsg_test/virtio_rpmsg_bus.c:848-901 | for every history, wildcards and several processors included, a channel exists if and only if the last announcement about it, creates that failed for memory or registration apart, was a create that was not refused and no wildcard destroy has taken it since |
| ChannelRegistry.AnnouncementExact | virtio_rpmsg_test/virtio_rpmsg_bus.c:848-901 | for an announcement encoded from a name, an address and flags, after any history, what exists then, at every processor: decided by the name cut to 31 characters, the address, and destroy exactly when the flags are odd |
| ChannelRegistry.AgreesExactly | virtio_rpmsg_test/virtio_rpmsg_bus.c:886-898 | channels and announcements agree after every prefix of a history if and only if no announcement of it takes one of three named branches |
| ChannelRegistry.PlainAgrees | virtio_rpmsg_test/virtio_rpmsg_bus.c:848-901 | with one processor, no wildcard address and no slash in a name they always agree, creates that failed for memory or registration counting as not announced |
| ChannelRegistry.WildcardDestroy | virtio_rpmsg_test/rpmsg_core.c:546-560 | the exact effect of a wildcard destroy after any history |
| ChannelRegistry.WildcardBreaksExactness | virtio_rpmsg_test/virtio_rpmsg_bus.c:890-893 | a concrete history with a wildcard destroy after which channels and announcements disagree |
| ChannelRegistry.WildcardCreateRefused | virtio_rpmsg_test/virtio_rpmsg_bus.c:894-897 | a concrete history of two creates, the second with the wildcard address, after which they disagree |
| ChannelRegistry.ProcessorsCollide | virtio_rpmsg_test/rpmsg_core.c:526-532 | two processors announce one service, and the second gets no channel |
| ChannelRegistry.SlashCollides | virtio_rpmsg_test/rpmsg_core.c:526-532 | one processor announces a/b and a!b, and the second gets no channel |
| ChannelRegistry.Bus.RpmsgCreateChannel | virtio_rpmsg_test/virtio_rpmsg_bus.c:425-471 | one more channel, last, with the name, source, destination and printed name asked for, if and only if none matches, nothing fails and the device name is free; else no change |
| ChannelRegistry.Bus.RpmsgUnregisterDevice | virtio_rpmsg_test/rpmsg_core.c:546-560 | 0 and the first match removed if one matches, else -22 and no change |
| ChannelRegistry.Bus.RpmsgNsCb | virtio_rpmsg_test/virtio_rpmsg_bus.c:848-901 | -22 and no change if and only if the length is not 40 or a device is given; else 0, and what exists is what the history extended by the announcement in the bytes says; the encoding of a name, address and flags announces just these, the name cut to 31 |
| ChannelRegistry.Bus.BindSource | virtio_rpmsg_test/rpmsg_core.c:474-474 | one channel gets the source address of the driver's endpoint, and the bus stays what its history leads to |
| CharReaderSafety.StepInv | virtio_rpmsg_test/rpmsg_char.c:81-211 | every step of readers, callback, destroyer and release keeps the queue's invariant |
| CharReaderSafety.QueueIsFifo | virtio_rpmsg_test/rpmsg_char.c:101-211 | in every run, the messages given to the callback are in order those taken, those purged at release, and those queued |
| CharReaderSafety.DeliveryEffect | virtio_rpmsg_test/rpmsg_char.c:101-121 | one callback, whatever is queued, puts the message last and wakes the readers; without memory nothing happens |
| CharReaderSafety.EachMessageOnce | virtio_rpmsg_test/rpmsg_char.c:199-210 | in every run each message taken is either held by the reader that took it and no other, or exactly one call of that reader returned having held it |
| CharReaderSafety.ReturnsExact | virtio_rpmsg_test/rpmsg_char.c:204-210 | over every run, a call that returned data held a message of its own and returned its first min(count, len) bytes; a failed copy returned -14; no other call has data |
| CharReaderSafety.EveryReturnLogged | virtio_rpmsg_test/rpmsg_char.c:166-211 | the log of returns grows exactly when a call ends, by that call's return |
| CharReaderSafety.EndsExact | virtio_rpmsg_test/rpmsg_char.c:166-211 | a call ends exactly with -32 when its test finds no endpoint, -11 when it may not wait on an empty queue, -512 when signalled with the endpoint there and nothing queued at its look, -14 when a reader that was woken finds the queue empty, or with the copy |
| CharReaderSafety.NoLostReaderWakeup | virtio_rpmsg_test/rpmsg_char.c:81-197 | a sleeping reader has an empty queue and an endpoint, or a callback or destroyer is between its change and its wake-up call |
| CharReaderSafety.NeverEmptyIffSoleReader | virtio_rpmsg_test/rpmsg_char.c:187-202 | no run has a woken reader find the queue empty if and only if there is at most one reader |
| CharReads.Eptdev.RpmsgEptCb | virtio_rpmsg_test/rpmsg_char.c:101-121 | the message is queued last and the readers woken, or ENOMEM and no change |
| CharReads.Eptdev.Destroy | virtio_rpmsg_test/rpmsg_char.c:81-93 | the endpoint is gone and the readers woken; the queue stays |
| CharReads.Eptdev.Release | virtio_rpmsg_test/rpmsg_char.c:145-164 | the endpoint is gone and the queue empty |
| CharReads.Eptdev.ReadIter | virtio_rpmsg_test/rpmsg_char.c:166-211 | endpoint, queue and return value of a read, by numbers and bytes, for every way its wait can end |
| CharReads.ReadIsARun | virtio_rpmsg_test/rpmsg_char.c:166-211 | a whole read is a run of the reader protocol with the same effect and return value |
| CharDevices.MinorMkDev | virtio_rpmsg_test/rpmsg_char.c:335-373 | the minor extracted from a device number is the one put in, up to MINORMASK, and the rest is the low 12 bits of the major |
| CharDevices.IdaGetExact | virtio_rpmsg_test/rpmsg_char.c:370-378 | a number is refused exactly without memory or when all from 0 to 0xFFFFF, or to 0x7FFFFFFF, are taken; else it is the lowest free one |
| CharDevices.CreateErrorExact | virtio_rpmsg_test/rpmsg_char.c:347-405 | the error of the first stage that fails, in order: -12 or -28 for the minor, -12 or -28 for the id, then those of cdev_add and device_add |
| CharDevices.IdsExact | virtio_rpmsg_test/rpmsg_char.c:330-524 | over every interleaving of creations, failures and releases, each allocator holds exactly the numbers of the objects that have one, each by one object |
| CharDevices.SettledHoldsLive | virtio_rpmsg_test/rpmsg_char.c:330-524 | when nothing is being created or torn down, a number is held if and only if a live device has it |
| CharDevices.CreateIsARun | virtio_rpmsg_test/rpmsg_char.c:340-405 | a creation with its unwinding, or with its release after a failed device_add, is a run of those stages and leaves no trace unless it succeeds |
| CharDevices.NumbersUnsharedExactly | virtio_rpmsg_test/rpmsg_char.c:330-338 | in every run no two registered cdevs share a device number at any time if and only if no cdev is added under a number between giving the minor back and deleting the cdev of a release |
| CharDevices.NumberReused | virtio_rpmsg_test/rpmsg_char.c:330-338 | a concrete run in which a second device is registered under the first one's number |
| CharDevices.Allocators.ReleaseDevice | virtio_rpmsg_test/rpmsg_char.c:457-465 | exactly the device's minor, and its id of its kind, are given back; the other kind is untouched |
| CharDevices.Allocators.Create | virtio_rpmsg_test/rpmsg_char.c:467-524 | 0 if and only if no stage fails and a minor and an id are free, which are then the lowest free ones; else the error of the first stage that fails and unchanged allocators |
| MemMap.ChunkInsidePage | mem_map/mem_map.c:28-36 | a chunk makes progress, stays within one page, and ends at a page boundary unless it is the last |
| MemMap.ReadsCleanExact | mem_map/mem_map.c:85-118 | a read meets no fault if and only if at its first byte and at each first byte of a page the page can be mapped and probed and the user copy moves everything |
| MemMap.ReachesEnd | mem_map/mem_map.c:138-172 | a write every chunk of which can be mapped and copied reaches its end |
| MemMap.ReachExact | mem_map/mem_map.c:138-172 | otherwise, with the first faulty chunk at offset k: it reaches k if the page cannot be mapped, else k plus the bytes the user copy moved, of a chunk that ends at its page or with the transfer; the padding is the rest of that chunk |
| MemMap.WriteChunk | mem_map/mem_map.c:155-165 | flat bytes that do not wrap replace one stretch of memory |
| MemMap.UnmapsWhatWasMapped | mem_map/mem_map.c:38-57 | masking a mapped pointer gives the address the page was mapped at |
| MemMap.RepresentableExact | mem_map/mem_map.c:66-73 | which file offsets pass the check against the width of a physical address |
| MemMap.MemMapFile.XlateDevMemPtr | mem_map/mem_map.c:38-52 | the pointer sees the physical address, covers the rest of its page, and masks to the mapping's base |
| MemMap.MemMapFile.UnxlateDevMemPtr | mem_map/mem_map.c:54-57 | what is unmapped is what was mapped, and nothing stays mapped |
| MemMap.MemMapFile.Read | mem_map/mem_map.c:61-123 | all of the bytes of the flat memory at the position and the advance, or the error by number and no advance, exactly when some chunk fails |
| MemMap.MemMapFile.Write | mem_map/mem_map.c:125-176 | the value returned, the advance and the memory are those of the longest prefix before the first fault |
| MemMap.PrefixExact | mem_map/mem_map.c:155-165 | a write changes exactly the prefix it reports if and only if the zero padding of a partial copy fell on zeros |
| MemMap.PaddingLosesByte | mem_map/mem_map.c:155-165 | a concrete failing write that reports nothing written and zeroes a byte |
| MemMap.FlatRoundTrip | mem_map/mem_map.c:61-176 | flat bytes written at a position, wrapping or not, are those read there |
| MemMap.MemMapFile.Lseek | mem_map/mem_map.c:232-256 | the new position for both origins, the refusal of targets that read as error numbers, EINVAL otherwise |
| MemMap.WriteSeekRead | mem_map/mem_map.c:61-256 | on plain memory, write, seek back, read returns the bytes written, unless seeking back is refused, which is exactly when the position is from -4095 to -1 |

## Left out

- vring internals, event-index suppression, DMA addresses and scatterlists: the virtqueue is its contract from section 2.6 of VIRTIO 1.1; the notification of the remote on a tx kick is not modelled.
- The bus object runs one context at a time; concurrency is in the step protocols. The remote moves between its calls and through the account of a send's waits, and callbacks run by a drain do not change the registry or the receive buffers.
- The six send variants and the dispatch wrappers of `rpmsg_core.c`: one send with a `wait` flag stands for them.
- Liveness of the remote and of the scheduler: wake-ups are shown to be pending and effective, not to happen in a given time; a timer may end any sleep, and a signal may come at any step.
- One destroy per endpoint, and none from inside the endpoint's own callback, which would wait for a lock it holds. Endpoint identities are not reused, so that freeing can be stated.
- `rpmsg_dev_probe`, `rpmsg_dev_remove`, when announcements are sent to the remote, driver matching, sysfs and uevents; a driver's probe enters the channel histories only as binding a source address. Removal of channels other than by announcement.
- Device names of other children of a processor's device, and channels registered outside the name service: every channel starts with the wildcard source.
- The header is written in the byte order of the host, which the model takes to be little-endian.
- Wire.AcceptedPayloadInBounds: the receive check is modelled as it is, so payload bounds hold only for reported lengths of at least 16.
- A second open of one endpoint device, a repeated destroy ioctl, poll, write and ioctl argument copying of the character device.
- CharReaderSafety.NoLostReaderWakeup: a wake-up call is one step that empties the wait queue; exclusive waiters do not occur in this code.
- Release in the reader protocol is one step taken when no read is in progress, as the file layer guarantees.
- CharReads.Eptdev.ReadIter: the read sees no other reader; several readers are in the step protocol.
- The memory-map device with a physical address wider than a pointer; mmap, open and registration of that device; count limits of the file layer, which keep the sums of a transfer within a signed word.
- The added test device in `virtio_rpmsg_bus.c`, the hello-world, LED and interrupt modules, `platform/`, `libmem.c` and the test applications: nothing hard to prove.
