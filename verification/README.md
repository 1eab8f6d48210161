# A verified model of the MikanOS USB stack and four smaller cores

This project models the USB host stack of the kernel in Dafny and proves what it relies on: the rings shared with
the xHCI controller, the port configuration protocol, transfers, device enumeration and HID polling.  Four
independent cores stand beside it: the memory pool of the USB stack, the PCI bus scan, the ELF loader of the boot
loader, and the text console.  `dafny verify dfyconfig.toml` checks everything.

The driver's code is modelled as classes whose methods update fields and arrays in place, as the original does; each
method is proved equal to a function on the abstract state (`State() == F(old(State()))`), and the properties of whole
runs are proved about those functions.  The host controller is a nondeterministic partner that follows the xHCI
specification (sections 4.3 and 4.9.2 to 4.9.4).

## How it fits together

| file | models | main results |
|---|---|---|
| `Memory.dfy`, `Bits.dfy` | the bump allocator, with its bit masks | any sequence of calls hands out aligned, bounded, disjoint blocks of the pool, each exactly when a place for it is left, and the first such place |
| `Trb.dfy` | TRB layouts and constructors | what the controller reads of each TRB, field by field, and when that is not what was meant |
| `Ring.dfy`, `RingProtocol.dfy` | `Ring::Push` word by word against a controller that follows cycle bits | exactly the pushed TRBs are consumed, in order, whole; the exact condition for a safe Push |
| `EventRing.dfy` | the event ring | every event is dispatched exactly once and in order |
| `EventLoop.dfy`, `EventDelivery.dfy` | ProcessEvent over the controller object; the port protocol behind the event ring | each type of event reaches its handler with its own fields; in every run each call of a handler is the protocol step of the event at the front |
| `DeviceManager.dfy`, `PortConfig.dfy`, `Xhci.dfy` | the device table and the handlers of `xhci.cpp` | each handler is equal to its function; exactly when it refuses, and that it then changes nothing |
| `PortProtocol.dfy`, `PortTheorems.dfy` | runs of the port configuration protocol, up to 255 ports | mutual exclusion, at most nine commands outstanding, right issuer types, forward progress, the exact condition for a lost hand-off |
| `CommandRing.dfy` | the same protocol over the command ring in memory, store by store, with a controller that knows only the TRBs it fetches | no Push finds the ring full, and what the controller reads of a TRB and does with it is what the protocol expects of the command |
| `ArrayMap.dfy`, `Transfers.dfy`, `RequestMatching.dfy`, `TransferRuns.dfy` | control and interrupt transfers of a slot | the array map is a map; in every run each request is answered once, with its own data, and each poll reported once, with its own buffer and length, whatever is in flight and whatever failed before |
| `Descriptors.dfy`, `HidDriver.dfy`, `UsbDevice.dfy`, `DeviceReplies.dfy` | descriptor reader, enumeration phases, HID driver | the reader yields back what was encoded; the first supported interface is adopted; which completions a device goes on from, and how it refuses every other |
| `Enumeration.dfy`, `EnumerationProofs.dfy`, `EnumerationTheorems.dfy` | runs of one device | which requests go out and in which order, one at a time and exactly when, map and ring never fill, one poll in flight, the exact condition for safety |
| `HostStack.dfy`, `HostStackTheorems.dfy` | ports, resets, commands and all devices together | every port on its way has its own answer coming, if and only if no answer was one that the code gives up on |
| `Pci.dfy`, `PciTheorems.dfy`, `PciTopology.dfy` | the bus scan over both ways of addressing, and what it finds of any topology | exactly the functions with a route, recorded with their own header fields; in a tree once, in the order of the routes, and an error exactly when 32 places are too few |
| `ElfLoader.dfy` | segment loading | memory afterwards, byte by byte; writes stay in the allocated pages |
| `Console.dfy` | text buffer and cursor | the buffer is the last 25 lines, however the text was split |

The strongest results are compositions.

- The port protocol bounds the commands outstanding (`PortProtocol.AtMostNineOutstanding`).  Joined with the ring in
  memory, where the driver's Push is unguarded and stores word by word, this meets the exact condition
  `RingProtocol.Room` at every Push (`CommandRing.EveryPushFindsRoom`), so the controller fetches exactly what was
  issued (`CommandRing.FetchesWhatWasIssued`).  It takes type, slot and input context from the TRB that it has fetched,
  and these name the right device (`CommandRing.FetchedTrbNamesItsDevice`, `CommandRing.ExecutesTheCommand`).  The
  same bound keeps the entry that a completion event names
  (`PortProtocol.IssuerReadBack`, `CommandRing.CompletionReadsBack`), so its handler succeeds
  (`PortTheorems.CompletionsMatchCommands`).
- The event ring carries the events of the same protocol.  The controller posts them word by word; what ProcessEvent
  finds at the front is decoded from the ring's memory, and each call of a handler is the step of the protocol for the
  event that was posted (`EventDelivery.EveryFrontIsSafe`, `EventDelivery.EveryHandlerIsItsStep`).
- The handlers call into device objects and write port registers; each such call is an effect in the driver's log.
  `HostStack` lets every effect happen, with one model of enumeration per slot and one answer per port reset.  In every
  run all ports have their answers coming as long as, and only as long as, every answer was one that the code goes on
  from (`HostStackTheorems.AnswersComeExactly`).  What ports do in such a run is a run of the port protocol, and what
  each device does is a run of enumeration (`HostStackTheorems.PortsRun`, `HostStackTheorems.DevicesRun`), so the
  theorems about them hold for the whole.
- Enumeration keeps every request inside the limits of map and ring (`EnumerationTheorems.MapAndRingNeverFill`), so
  matching of events to requests never meets a full map.
- The allocator aligns ring memory (`Rings.Ring.Initialize`), so the Link TRB leads back to the ring's start
  (`Trbs.LinkPointerRoundTrip`).

## What the environment must provide

- Port ids are 1 to MaxPorts; commands complete successfully, in order, once each; slot ids are 1 to 8 and fresh;
  Address Device copies the input slot context to the output one (section 4.6.5 of the xHCI specification).  Readings
  of port registers, contents of receive buffers and addresses of new objects are parameters of the steps, so that
  the theorems hold for all of them.
- Where the command ring is looked at in memory: the ring lies below 2^64, and the contexts of a new device are
  64-byte aligned and apart from those of the other devices, as the allocator hands them out.
- A port reset is answered by at most one status change, with any register contents; other status changes may come at
  any time.
- Completion events keep their order.  Port, transfer and completion events may otherwise arrive in any relative
  order, which allows more runs than one first-in-first-out event ring does.
- Enumeration replies are well-formed descriptors that fit the 256-byte buffer; the chosen interface announces at most
  16 endpoints, that many are described, and their numbers are 1 to 15.  Any transfer may fail at any time.  Whether
  there is an interrupt-IN endpoint is left open; see below.
- Allocator arguments are zero or powers of two, and addresses do not wrap around.

## Where the code does not do what was meant

- A waiting port that has been disconnected takes no lock when the hand-off offers it, and the scan stops there:
  every waiting port is then stranded, until some other port takes the lock.  `PortTheorems.HandOffStrands` gives the
  exact condition and `PortTheorems.StrandedRunExists` a run with two ports; `PortTheorems.NoLostHandOff` is the
  guarantee that remains.
- A port whose reset is answered while it is not enabled, a device whose enumeration meets a failed transfer or a reply
  it does not accept, and an initialized device on a port of unknown speed are left where they are: nothing is
  outstanding for them any more.  `HostStackTheorems.AnswersComeExactly` shows that these, and stranding, are the only
  ways to get stuck; `HostStackTheorems.PortAnswerExactly` gives the condition for each port.
- An interface with endpoints but no interrupt-IN endpoint makes its driver poll endpoint address 0, which reads in
  front of the array of transfer rings.  `EnumerationTheorems.SafeExactly` gives the exact condition for every run from
  the adopted configuration, `EnumerationTheorems.UnservableFails` an unsafe run from the start for every such
  configuration, and `EnumerationTheorems.OutOnlyFails` one such configuration.
- `Ring::Push` has no check for a full ring.  `RingProtocol.RoomIsExact` gives the exact condition: a full ring is
  corrupted, and one entry less is too many while the controller still waits at the Link TRB.
- A failed control transfer leaves its entry in `setup_stage_map_` for good
  (`RequestMatching.FailureLeavesEntry`).  Later requests are still matched correctly, because the key determines the
  stored value, as long as a free entry is left.  With none left a new request is dropped from the map, and
  `RequestMatching.DroppedExactly` says exactly when its event is then answered with kNoCorrespondingSetupStage.
- A request longer than 131071 bytes is reported with a wrong length (`RequestMatching.LengthExact`).
- An interface that announces more endpoints than it has takes those of the next one
  (`Descriptors.CollectsOwnEndpoints`; `EnumerationTheorems.ForeignEndpointTaken` is such a device).
- A second SET_PROTOCOL completion is answered with kNotImplemented; this is harmless, and what keeps polling single.
- A comment in `kernel/usb/device.hpp` says that class driver 0 is never used.  This holds only because endpoint numbers
  of well-formed descriptors are at least 1; the code does not check it.

## Model

| member | source | states |
|---|---|---|
| Memory.MemoryPool.AllocMem | kernel/usb/memory.cpp:21-40 | the new pointer and the result in terms of the start that alignment and boundary give, in 64-bit arithmetic, failed calls included |
| Memory.CeilMasks | kernel/usb/memory.cpp:6-9 | the masked sum equals rounding up by remainder, for every power of two |
| Memory.CeilIsLeastMultiple | kernel/usb/memory.cpp:6-9 | Ceil is the least multiple of the alignment that is not below the value |
| Memory.StartMeetsConstraints | kernel/usb/memory.hpp:15-25 | a block is aligned and, when it fits the boundary, crosses no multiple of it |
| Memory.StartIsLeast | kernel/usb/memory.cpp:21-30 | no address behind the pointer and below the start meets alignment and boundary |
| Memory.GrantedExactly | kernel/usb/memory.cpp:32-39 | a request is granted if and only if the 128 KiB pool holds a place for it behind the pointer, and then at the least one |
| Memory.CallKeepsHeapOk | kernel/usb/memory.cpp:21-40 | every call, also one that fails after moving the pointer, keeps all blocks in the pool, in order and apart |
| Memory.AllBlocksMeetRequests | kernel/usb/memory.cpp:21-40 | after any sequence of calls all blocks lie in the pool, meet their own constraints and are pairwise disjoint |
| Memory.EveryCallAnswered | kernel/usb/memory.cpp:21-40 | in every sequence of calls, each hands out a block exactly when a place for it is left; one that fails has moved the pointer to the least address that meets its constraints |
| Trbs.LinkPointerRoundTrip | kernel/usb/xhci/trb.hpp:183-194 | a Link TRB keeps its pointer exactly when it is 16-byte aligned |
| Trbs.LinkFields | kernel/usb/xhci/trb.hpp:163-194 | type, toggle flag and pointer of a Link TRB, and every other flag clear |
| Trbs.SetupRoundTrip | kernel/usb/xhci/device.cpp:10-19 | the setup data packed into a Setup Stage TRB is read back unchanged, whatever the cycle bit |
| Trbs.DataRoundTrip | kernel/usb/xhci/device.cpp:21-28 | a Data Stage TRB keeps its buffer, and its length exactly when it fits in 17 bits |
| Trbs.NormalRoundTrip | kernel/usb/xhci/trb.hpp:30-64 | a Normal TRB keeps its buffer, and its length exactly when it fits in 17 bits |
| Trbs.NormalFields | kernel/usb/xhci/trb.hpp:30-64 | type, buffer, length and the two event flags of a Normal TRB, and every other flag clear |
| Trbs.CommandTypes | kernel/usb/xhci/trb.hpp:221-305 | each command TRB carries its own type, whatever its pointer and slot |
| Trbs.EnableSlotFields | kernel/usb/xhci/trb.hpp:221-241 | an Enable Slot TRB has its type and nothing else |
| Trbs.SlotCommandRoundTrip | kernel/usb/xhci/trb.hpp:243-305 | the controller reads type, slot id and, exactly when it is 16-byte aligned, input context of both commands for a slot, and no flag |
| Trbs.SameButCycleReads | kernel/usb/xhci/trb.hpp:452-458 | TRBs that differ only in the cycle bit are read alike in type, pointers, lengths and setup data |
| Rings.Ring.Initialize | kernel/usb/xhci/ring.cpp:12-28 | on success zeroed memory, index 0, cycle bit 1, a 64-byte aligned base and no 64 KiB boundary crossed |
| Rings.Ring.CopyToLast | kernel/usb/xhci/ring.cpp:30-37 | the four stores in program order, the cycle bit last, and the memory they leave |
| Rings.Ring.Push | kernel/usb/xhci/ring.cpp:39-54 | every store of the call in order, the new memory, index and cycle bit, and the index returned |
| RingProtocol.StoresAmountToPush | kernel/usb/xhci/ring.cpp:30-54 | the single stores of a Push together make the memory that Push is specified by |
| RingProtocol.InitializedRingIsFresh | kernel/usb/xhci/ring.cpp:17-25 | an initialized ring is a start state of every run |
| RingProtocol.NextKeepsInv | kernel/usb/xhci/ring.cpp:39-54 | every single store and every controller step keeps ownership bits, queued TRBs and Link TRB consistent |
| RingProtocol.ConsumesWhatWasPushed | kernel/usb/xhci/ring.cpp:30-54 | in every interleaving, over any number of laps, the controller consumes exactly the pushed TRBs, in order and whole |
| RingProtocol.NeverStuck | kernel/usb/xhci/ring.cpp:44-51 | with a TRB outstanding the controller always owns its entry, and at most two steps consume it, across the Link TRB |
| RingProtocol.NothingInvented | kernel/usb/xhci/ring.cpp:30-37 | with nothing outstanding no entry looks owned |
| RingProtocol.OwnedEntriesAreStable | kernel/usb/xhci/ring.cpp:30-54 | no store touches an entry whose TRB is still outstanding |
| RingProtocol.BoundLeavesRoom | kernel/usb/xhci/ring.cpp:39-54 | keeping at most buf_size - 2 TRBs outstanding is always enough |
| RingProtocol.FullRingCorrupts | kernel/usb/xhci/ring.cpp:39-41 | a Push on a full ring has an interleaving in which a corrupted TRB is consumed |
| RingProtocol.LaggingRingStrands | kernel/usb/xhci/ring.cpp:44-51 | one TRB less, with the controller at the Link TRB, leaves it waiting for good |
| RingProtocol.RoomIsExact | kernel/usb/xhci/ring.cpp:39-54 | a Push is safe in every interleaving if and only if there is room |
| EventRings.EventRing.Initialize | kernel/usb/xhci/ring.cpp:56-93 | the dequeue register points at entry 0 with its flag bits kept, the cycle bit is 1 |
| EventRings.EventRing.WriteDequeuePointer | kernel/usb/xhci/ring.cpp:95-99 | the pointer bits change and the flag bits stay |
| EventRings.EventRing.Front | kernel/usb/xhci/ring.hpp:92-94 | the entry the register points at |
| EventRings.EventRing.HasFront | kernel/usb/xhci/ring.hpp:88-90 | whether that entry's cycle bit is the consumer's |
| EventRings.EventRing.Pop | kernel/usb/xhci/ring.cpp:101-114 | the next entry, wrapping to the first with a flipped cycle bit; the flag bits stay |
| EventRings.DispatchThenPop | kernel/usb/xhci/xhci.cpp:502-527 | in a run, from dispatch to pop, the ring changes as one call of ProcessEvent does, whatever the controller writes meanwhile |
| EventRings.ProcessedIsStep | kernel/usb/xhci/xhci.cpp:502-505 | a call with a front is such a dispatch and pop, a call without one changes nothing |
| EventRings.RunKeepsInv | kernel/usb/xhci/ring.cpp:95-114 | in every interleaving with a controller that keeps one entry free, the waiting events lie in memory in order |
| EventRings.EveryEventOnceInOrder | kernel/usb/xhci/xhci.cpp:502-527 | the dispatched events are the posted ones, each once, in order and whole, and stay in place under their handler |
| EventRings.FrontExactlyWhenWaiting | kernel/usb/xhci/ring.hpp:88-90 | the ring has a front exactly when a published event is undispatched |
| EventRings.FrontIsOldest | kernel/usb/xhci/ring.hpp:88-94 | the front is the oldest posted event not yet dispatched |
| EventLoops.EventLoop.OnEvent | kernel/usb/xhci/xhci.cpp:204-291 | the overloads of OnEvent: the handler of the event with its own fields, or kNotImplemented |
| EventLoops.EventLoop.ProcessEvent | kernel/usb/xhci/xhci.cpp:502-527 | without a front nothing changes; otherwise the controller is as its handler of the front event leaves it, the result is that handler's, and the event is popped, also when it fails or its type is unknown |
| EventLoops.EventRoundTrip | kernel/usb/xhci/trb.hpp:358-446 | type, slot, endpoint, TRB pointer, code, residue and port of each event are read as the controller posted them, whatever the cycle bit |
| EventLoops.PortEventIsStep | kernel/usb/xhci/xhci.cpp:519-520 | an event of type 34 is handled by exactly the protocol step of a status change of the port in its bits 31:24 |
| EventLoops.TransferEventIsStep | kernel/usb/xhci/xhci.cpp:515-516 | an event of type 32 by that of a transfer event for its slot |
| EventLoops.CommandEventIsStep | kernel/usb/xhci/xhci.cpp:517-518 | an event of type 33 with the slot and the ring entry of the command due by that of its completion |
| EventLoops.OtherEventsIgnored | kernel/usb/xhci/xhci.cpp:507-512 | an event of any other type changes nothing and gives kNotImplemented |
| EventDelivery.StepKeepsInv | kernel/usb/xhci/xhci.cpp:502-527 | posting, single stores, handlers and pops keep port protocol, event ring and the events on their way consistent |
| EventDelivery.EveryFrontIsSafe | kernel/usb/xhci/xhci.cpp:237-238 | in every run, whatever is at the front can be handled: a completion event names an entry of the command ring |
| EventDelivery.EveryHandlerIsItsStep | kernel/usb/xhci/xhci.cpp:502-527 | in every run each handler call is the protocol step of the oldest event posted and not yet taken up, with its own fields |
| DeviceManagers.DeviceManager.Initialize | kernel/usb/xhci/devmgr.cpp:6-26 | both arrays have max_slots + 1 empty entries |
| DeviceManagers.DeviceManager.Find | kernel/usb/xhci/devmgr.cpp:54-59 | the device of a slot, or null for a slot out of range |
| DeviceManagers.DeviceManager.AllocDevice | kernel/usb/xhci/devmgr.cpp:70-82 | a device with this slot id, or an error that changes nothing |
| DeviceManagers.DeviceManager.LoadDCBAA | kernel/usb/xhci/devmgr.cpp:84-92 | the context entry of the slot becomes its device's context |
| Xhci.Controller.ResetPort | kernel/usb/xhci/xhci.cpp:98-120 | the new phases and lock, the reset of the port asked for, and the result, on every branch |
| Xhci.Controller.EnableSlot | kernel/usb/xhci/xhci.cpp:122-139 | the change bit cleared, the phase and the Enable Slot command, when the port is enabled after its reset |
| Xhci.Controller.AddressDevice | kernel/usb/xhci/xhci.cpp:141-174 | the new device, its context, its endpoint 0 ring asked for, the phase and the Address Device command, or the error |
| Xhci.Controller.InitializeDevice | kernel/usb/xhci/xhci.cpp:176-188 | the phase and the call of StartInitialize, or the error |
| Xhci.Controller.CompleteConfiguration | kernel/usb/xhci/xhci.cpp:190-202 | the last phase and the call of OnEndpointsConfigured, or the error |
| Xhci.Controller.ConfigurePort | kernel/usb/xhci/xhci.cpp:430-435 | a port not connected yet is reset, another is left alone |
| Xhci.Controller.ConfigureEndpoints | kernel/usb/xhci/xhci.cpp:437-500 | the phase, the transfer rings asked for and the Configure Endpoint command, or the error at an unknown speed |
| Xhci.Controller.OnPortStatusChange | kernel/usb/xhci/xhci.cpp:204-217 | reset, slot, or an error, by phase |
| Xhci.Controller.OnTransferEvent | kernel/usb/xhci/xhci.cpp:219-235 | endpoints are configured when the device has just become initialized |
| Xhci.Controller.OnCommandCompletion | kernel/usb/xhci/xhci.cpp:237-291 | dispatch on the type read back from the ring entry, with all error branches |
| Xhci.Controller.OfferLock | kernel/usb/xhci/xhci.cpp:264-273 | the lock goes to the first waiting port in number order, if that is connected |
| PortConfig.ResetRefusedExactly | kernel/usb/xhci/xhci.cpp:98-120 | a reset is refused exactly for a connected port that has been reset before, with a free lock, and then changes nothing |
| PortConfig.SweepSucceeds | kernel/usb/xhci/xhci.cpp:430-435 | the sweep over the ports resets or queues those connected and not yet seen, leaves the others alone, and never fails |
| PortConfig.SlotRefusedExactly | kernel/usb/xhci/xhci.cpp:141-202 | the handlers of a slot refuse exactly one without a device, or above 8 for a new device, and change nothing |
| PortConfig.HandOffSucceeds | kernel/usb/xhci/xhci.cpp:264-275 | the hand-off never fails: the first waiting port is reset if it is connected, otherwise only the lock is released |
| PortConfig.PortStatusRefusedExactly | kernel/usb/xhci/xhci.cpp:204-217 | a status change is refused exactly outside of kNotConnected and kResettingPort, and then changes nothing |
| PortConfig.CompletionRefusedExactly | kernel/usb/xhci/xhci.cpp:237-291 | a completion is accepted or changes nothing, with the exact condition for each of its two errors; the hand-off in it never fails |
| PortConfig.TransferRefusedExactly | kernel/usb/xhci/xhci.cpp:219-235 | the exact condition for each result of a transfer event, and for the one change of phase |
| PortProtocol.StepKeepsInv | kernel/usb/xhci/xhci.cpp:98-291 | every event, sweep step and command execution keeps lock, phases, devices, pending commands and ring consistent |
| PortProtocol.CompletionKeepsInv | kernel/usb/xhci/xhci.cpp:237-291 | so does every command completion, and its handler succeeds |
| PortProtocol.AtMostNineOutstanding | kernel/usb/xhci/xhci.cpp:98-174 | at most one Enable Slot or Address Device command and one Configure Endpoint command per slot are outstanding |
| PortProtocol.IssuerReadBack | kernel/usb/xhci/xhci.cpp:237-238 | the ring entry named by a completion event still holds the type of the command issued there |
| PortTheorems.RunKeepsInv | kernel/usb/xhci/xhci.cpp:98-291 | the invariant holds in every state of every run |
| PortTheorems.MutualExclusion | kernel/usb/xhci/xhci.cpp:98-174 | at most one port is between reset and address assignment, addressing_port is that port or 0, and port 0 never leaves kNotConnected |
| PortTheorems.CompletionsMatchCommands | kernel/usb/xhci/xhci.cpp:237-291 | in every run the type read back is that of the command issued, and the handler succeeds |
| PortTheorems.DevicesMatchPorts | kernel/usb/xhci/devmgr.cpp:70-92 | slots, contexts and root ports agree, and a port from kAddressingDevice on has exactly one device |
| PortTheorems.StepMovesForward | kernel/usb/xhci/xhci.cpp:98-291 | no step moves a port back in the declared order |
| PortTheorems.EntersPhaseOnce | kernel/usb/xhci/xhci.cpp:98-217 | a port enters each phase at most once in a run, so it is reset and addressed once |
| PortTheorems.AtMostSevenChangesPerPort | kernel/usb/xhci/xhci.cpp:22-31 | a run of any length has at most 7 * MaxPorts phase changes |
| PortTheorems.HandOffStrands | kernel/usb/xhci/xhci.cpp:264-275 | a hand-off leaves no port stranded if and only if the first waiting port is still connected |
| PortTheorems.OtherStepsStrandNone | kernel/usb/xhci/xhci.cpp:98-120 | no other step strands a port |
| PortTheorems.NoLostHandOff | kernel/usb/xhci/xhci.cpp:107-118 | if every hand-off finds its first waiting port connected, a waiting port implies a taken lock in every state |
| PortTheorems.StrandedRunExists | kernel/usb/xhci/xhci.cpp:103-105 | a run with two ports that ends with a waiting port and a free lock |
| PortTheorems.CompletionAdvancesPort | kernel/usb/xhci/xhci.cpp:237-291 | a completion moves the port that awaited it to the next phase |
| CommandRing.StepKeepsInv | kernel/usb/xhci/ring.cpp:39-54 | handlers, single stores, fetches and executions keep the driver's ring, the memory and the log of commands consistent |
| CommandRing.EveryPushFindsRoom | kernel/usb/xhci/xhci.cpp:493-497 | in every run, with no check in the driver, each Push on the 32-entry command ring meets the exact condition for a safe one |
| CommandRing.FetchesWhatWasIssued | kernel/usb/xhci/ring.cpp:30-54 | the k-th TRB that the controller fetches is the k-th command issued, whole, in every interleaving of stores |
| CommandRing.FetchedTrbNamesItsDevice | kernel/usb/xhci/xhci.cpp:168-172 | in every run the TRB fetched for a command has its type, its slot and the input context of that slot's device |
| CommandRing.ExecutesTheCommand | kernel/usb/xhci/xhci.cpp:141-174 | what the controller does with the slot and context of the TRB it fetched is the protocol's step for the command issued |
| CommandRing.FetchedIsExecutable | kernel/usb/xhci/xhci.cpp:493-497 | a controller that has fetched a command can execute it from the TRB alone |
| CommandRing.EveryCommandIsFound | kernel/usb/xhci/ring.cpp:44-51 | with no store under way the controller owns its entry whenever a command is unfetched |
| CommandRing.CompletionReadsBack | kernel/usb/xhci/xhci.cpp:237-238 | the entry in memory that a completion event names holds the type of the command it answers |
| ArrayMaps.ArrayMap.Get | kernel/usb/arraymap.hpp:16-23 | the value of the first entry with the key, or none |
| ArrayMaps.ArrayMap.Put | kernel/usb/arraymap.hpp:25-33 | the first free entry takes the pair, a full table stays as it is |
| ArrayMaps.ArrayMap.Delete | kernel/usb/arraymap.hpp:35-42 | the first entry with the key becomes free |
| ArrayMaps.PutThenGet | kernel/usb/arraymap.hpp:16-33 | after putting a new key it answers its value and every other key answers as before |
| ArrayMaps.PutStores | kernel/usb/arraymap.hpp:16-33 | the same for a key that may be present: it answers its old value or the new one |
| ArrayMaps.PutIntoFull | kernel/usb/arraymap.hpp:25-33 | a Put changes nothing exactly when the table is full |
| ArrayMaps.DeleteThenGet | kernel/usb/arraymap.hpp:35-42 | a deleted key answers nothing and every other key as before |
| ArrayMaps.UsedCounts | kernel/usb/arraymap.hpp:25-42 | entries in use go up by one with a Put that fits and down by one with a Delete that finds its key |
| ArrayMaps.KeysStayDistinct | kernel/usb/arraymap.hpp:25-42 | a Delete, or a Put of a new key, stores no key twice |
| ArrayMaps.TableIsMap | kernel/usb/arraymap.hpp:13-47 | after any sequence of Puts of new keys and of Deletes, Get answers what a map of at most n keys has |
| Transfers.Device.ControlIn | kernel/usb/xhci/device.cpp:107-152 | the TRBs pushed, the map entry and the error branches, with and without a data stage |
| Transfers.Device.ControlOut | kernel/usb/xhci/device.cpp:154-199 | the same in the other direction |
| Transfers.Device.InterruptIn | kernel/usb/xhci/device.cpp:201-223 | one Normal TRB on the endpoint's ring, or the error |
| Transfers.Device.OnTransferEventReceived | kernel/usb/xhci/device.cpp:235-286 | which handler is called with which data, the map entry deleted, and every error branch |
| Transfers.RequestShape | kernel/usb/xhci/device.cpp:107-199 | every field of the stages of a control transfer, with and without data, in both directions, and the one event request |
| Transfers.TransferAnswers | kernel/usb/xhci/device.cpp:107-223 | each result of a transfer exactly: an address above 31, an endpoint without a ring, or success; a refused one changes nothing |
| Transfers.EventAnswers | kernel/usb/xhci/device.cpp:235-286 | which handler an event reaches, or which error it gives, exactly, by completion code, TRB type and map entry |
| Transfers.AddressNamesTrb | kernel/usb/xhci/device.cpp:236 | with rings that share no memory the pointer of a transfer event names one TRB of one ring |
| RequestMatching.ControlKeepsMatch | kernel/usb/xhci/device.cpp:130-146 | a request within the capacity of map and ring joins those in flight without disturbing them |
| RequestMatching.InterruptKeepsMatch | kernel/usb/xhci/device.cpp:201-223 | an interrupt transfer disturbs no control request |
| RequestMatching.InterruptJoins | kernel/usb/xhci/device.cpp:201-223 | an interrupt transfer with room on its ring joins those that are out, with its own buffer and length |
| RequestMatching.EventFindsItsRequest | kernel/usb/xhci/device.cpp:245-284 | a good event for any request in flight yields exactly its setup data, buffer and transferred length and retires only it |
| RequestMatching.EventFindsItsPoll | kernel/usb/xhci/device.cpp:246-250 | an event for an interrupt transfer that is out leaves map and rings alone; a good one yields its buffer and, exactly when the length fits 17 bits, the length less the residue |
| RequestMatching.FailureLeavesEntry | kernel/usb/xhci/device.cpp:238-243 | a failed transfer reports nothing and leaves its entry; the others are still matched |
| RequestMatching.LengthExact | kernel/usb/xhci/device.cpp:272-280 | the reported length is that of the request less the residue exactly when it fits 17 bits |
| RequestMatching.DroppedExactly | kernel/usb/xhci/device.cpp:130-146 | a good event is answered with kNoCorrespondingSetupStage if and only if the request found every entry in use and none with its key; otherwise with its own data |
| TransferRuns.EveryEventSafe | kernel/usb/xhci/device.cpp:235-286 | in no run of requests, interrupt transfers and good or failed events on any endpoints does a handler follow a pointer outside the rings |
| TransferRuns.EveryRequestAnsweredOnce | kernel/usb/xhci/device.cpp:245-284 | in every such run each request is outstanding or was answered exactly once, by its own data or, after a failure, by an error |
| TransferRuns.EveryPollReportedOnce | kernel/usb/xhci/device.cpp:246-250 | in every such run each interrupt transfer is out or was reported exactly once, a good one with its own buffer and length less the residue |
| TransferRuns.FailuresAccumulate | kernel/usb/xhci/device.cpp:238-243 | in every such run the entries in use are one for each request outstanding and one for each that failed |
| Descriptors.FlattenAt | kernel/usb/device.cpp:12-42 | each descriptor of a blob lies at the sum of the lengths before it |
| Descriptors.ConfigurationDescriptorReader.Next | kernel/usb/device.cpp:20-26 | the reader stands on the next descriptor the blob was encoded from, or has passed the last and returns null |
| Descriptors.ConfigurationDescriptorReader.NextOfType | kernel/usb/device.cpp:28-36 | the first later descriptor of the type, or null if there is none |
| Descriptors.FirstSupported | kernel/usb/device.cpp:56-74 | the first later interface that is a HID boot keyboard or mouse, or the end if none is |
| Descriptors.KindOfExactly | kernel/usb/device.cpp:56-74 | a keyboard driver exactly for class 3, subclass 1, protocol 1, a mouse driver exactly for protocol 2, otherwise none |
| Descriptors.CollectsOwnEndpoints | kernel/usb/device.cpp:221-233 | the endpoints collected are the interface's own if and only if its block holds as many as it announces |
| Descriptors.ConfigFields | kernel/usb/device.cpp:44-54 | number, direction, transfer type, packet size and interval of an endpoint are those of its descriptor |
| HidDrivers.HidDriver.SetEndpoint | kernel/usb/classdriver/hid.cpp:18-25 | an interrupt endpoint replaces the one of its direction, others are ignored |
| HidDrivers.HidDriver.OnEndpointsConfigured | kernel/usb/classdriver/hid.cpp:27-39 | phase 1 and a SET_PROTOCOL request for the boot protocol |
| HidDrivers.HidDriver.OnControlCompleted | kernel/usb/classdriver/hid.cpp:41-51 | in phase 1 a poll and phase 2, otherwise an error |
| HidDrivers.HidDriver.OnInterruptCompleted | kernel/usb/classdriver/hid.cpp:53-61 | a report from an IN endpoint is followed by the next poll |
| HidDrivers.PollsGivenEndpoint | kernel/usb/device.cpp:248-255 | after all endpoints are set, the driver polls an interrupt-IN endpoint that it was given if there is one, and otherwise keeps its initial address |
| HidDrivers.LastEndpointCounts | kernel/usb/classdriver/hid.cpp:18-25 | of several interrupt endpoints of one direction the last one given counts |
| UsbDevices.UsbDevice.ControlIn | kernel/usb/device.cpp:107-113 | the issuer waits for the setup data, and the transfer goes out |
| UsbDevices.UsbDevice.ControlOut | kernel/usb/device.cpp:115-121 | the same in the other direction |
| UsbDevices.UsbDevice.GetDescriptor | kernel/usb/device.cpp:257-269 | the GET_DESCRIPTOR request for type and index into the 256-byte buffer |
| UsbDevices.UsbDevice.SetConfiguration | kernel/usb/device.cpp:271-283 | the SET_CONFIGURATION request with the value |
| UsbDevices.UsbDevice.StartInitialize | kernel/usb/device.cpp:131-136 | phase 1 and the request for the device descriptor |
| UsbDevices.UsbDevice.InitializePhase1 | kernel/usb/device.cpp:191-200 | phase 2 and the request for configuration descriptor 0 |
| UsbDevices.UsbDevice.FindInterface | kernel/usb/device.cpp:208-218 | the reader stops at the first supported interface, with a driver for it, or at the end |
| UsbDevices.UsbDevice.CollectEndpoints | kernel/usb/device.cpp:219-233 | the next endpoints are stored in order and the driver stands for exactly their numbers |
| UsbDevices.UsbDevice.InitializePhase2 | kernel/usb/device.cpp:202-246 | the adopted interface and SET_CONFIGURATION with the announced value, or nothing when no interface is supported |
| UsbDevices.UsbDevice.InitializePhase3 | kernel/usb/device.cpp:248-255 | every endpoint is given to the driver and the device is initialized |
| UsbDevices.BoundAt | kernel/usb/device.cpp:226-230 | binding changes the class driver of exactly the numbers of the endpoints |
| UsbDevices.UsbDevice.OnControlCompleted | kernel/usb/device.cpp:149-181 | dispatch by phase and request, with every error branch |
| UsbDevices.UsbDevice.OnInterruptCompleted | kernel/usb/device.cpp:183-189 | the class driver of the endpoint's number, or an error |
| UsbDevices.UsbDevice.OnEndpointsConfigured | kernel/usb/device.cpp:138-147 | each class driver entry is configured in turn until one fails |
| UsbDevices.UsbDevice.OnTransferEventReceived | kernel/usb/xhci/device.cpp:235-286 | the event and the handler it reaches, as one change of the whole device |
| UsbDevices.WaiterIsDriver | kernel/usb/device.cpp:153-157 | whatever a completion finds among the waiters is the device's driver |
| DeviceReplies.EnumerationRepliesExactly | kernel/usb/device.cpp:160-181 | during enumeration a completion is the one that its phase waits for, or it changes nothing, with the error of each case; no supported interface is no error |
| DeviceReplies.OtherDescriptorRefused | kernel/usb/device.cpp:202-206 | InitializePhase2 refuses exactly what is no configuration descriptor |
| DeviceReplies.WaiterRepliesExactly | kernel/usb/device.cpp:153-158 | afterwards a completion leads to the poll exactly when its setup data is waited for and it is the first, otherwise to an error and no change |
| DeviceReplies.ReportRepliesExactly | kernel/usb/device.cpp:183-189 | a report is followed by a poll exactly when it is from an IN endpoint with a class driver, with the error of each other case |
| DeviceReplies.DriverEndpoints | kernel/usb/device.cpp:248-255 | after enumeration the driver has the last interrupt endpoint of each direction, and address 0 where there is none |
| DeviceReplies.StartForgets | kernel/usb/device.cpp:131-136 | StartInitialize starts enumeration over, whatever the device was before |
| DeviceReplies.ConfigurationStops | kernel/usb/device.cpp:138-147 | without a ring for endpoint 0 the first class driver fails and no other is configured |
| EnumerationProofs.StepKeepsInv | kernel/usb/device.cpp:131-255 | a step is safe if and only if it does not make a driver without an interrupt-IN endpoint poll, and a safe step keeps the invariant of its stage |
| EnumerationTheorems.EveryStepSafe | kernel/usb/xhci/device.cpp:235-286 | in every run the next step meets valid pointers, descriptors and bound endpoints, if and only if it is not that poll |
| EnumerationTheorems.SafeExactly | kernel/usb/classdriver/hid.cpp:41-51 | every run from an adopted configuration is safe if and only if its interface has no endpoint or has an interrupt-IN one |
| EnumerationTheorems.ReachesInitialized | kernel/usb/device.cpp:131-255 | every well-formed device reply and every supported configuration lead to an initialized device with the endpoints of that configuration |
| EnumerationTheorems.UnservableFails | kernel/usb/classdriver/hid.cpp:45-47 | a configuration whose adopted interface has endpoints but no interrupt-IN one has a run from the start that ends in a poll of address 0 |
| EnumerationTheorems.OutOnlyFails | kernel/usb/classdriver/hid.cpp:18-25 | a boot keyboard with one interrupt-OUT endpoint is such a configuration |
| EnumerationTheorems.NoEndpointWorks | kernel/usb/device.cpp:202-246 | a boot keyboard that announces no endpoint is supported, and has none |
| EnumerationTheorems.ForeignEndpointTaken | kernel/usb/device.cpp:221-233 | a mouse that announces two endpoints and has one is given the endpoint of the next interface |
| EnumerationProofs.GoesOnExactlyWhenSupported | kernel/usb/device.cpp:202-246 | after a configuration descriptor enumeration goes on exactly when some interface is supported |
| EnumerationTheorems.InitializedInOrder | kernel/usb/device.cpp:149-255 | an initialized device has been asked, field by field of the setup packets, for its device descriptor, for configuration descriptor 0 and to select the announced configuration, in this order, and has the endpoints of the first supported interface |
| EnumerationTheorems.OneRequestAtATime | kernel/usb/device.cpp:131-255 | before that at most one request is outstanding, the one of the current phase, given by the fields of its setup packet |
| EnumerationTheorems.LaterRequestsSelectBoot | kernel/usb/classdriver/hid.cpp:27-39 | from then on every request is SET_PROTOCOL, boot protocol, for the number of the adopted interface |
| EnumerationTheorems.RequestPendingExactly | kernel/usb/device.cpp:131-255 | in every run, while a device is enumerated, one is outstanding if and only if no transfer has failed and every reply was accepted |
| EnumerationTheorems.GoodReplyAdvances | kernel/usb/device.cpp:149-181 | an accepted reply moves enumeration to its next phase, the third initializes the device |
| EnumerationTheorems.OtherReplyEnds | kernel/usb/device.cpp:149-181 | after any other event nothing is outstanding, and the device is not initialized |
| EnumerationTheorems.MapAndRingNeverFill | kernel/usb/xhci/device.hpp:70-73 | the map never holds more than 15 of 16 entries, failures included, and at most 30 TRBs of requests are out; there are 4 waiters and 16 class driver entries |
| EnumerationProofs.ConfiguredFromKeeps | kernel/usb/device.cpp:138-147 | SET_PROTOCOL goes out once for each bound number, with room for all of them |
| EnumerationTheorems.OnePoll | kernel/usb/classdriver/hid.cpp:41-61 | never more than one interrupt-IN TRB is out, and exactly one if and only if a SET_PROTOCOL has completed and no interrupt transfer failed |
| EnumerationTheorems.PollsAskForPackets | kernel/usb/classdriver/hid.cpp:45-60 | the TRB of a poll asks for 8 bytes of a keyboard or 3 of a mouse into the driver's buffer, on an interrupt-IN endpoint of the interface |
| EnumerationTheorems.ReportsOwnBuffer | kernel/usb/xhci/device.cpp:246-250 | a good report is answered with that buffer and the bytes that arrived |
| HostStack.StepKeepsInv | kernel/usb/xhci/xhci.cpp:98-291 | every step of ports, resets, commands and transfer events, with the calls into devices that it makes, keeps each device at the stage of its port |
| HostStackTheorems.StepKeepsAnswersExactly | kernel/usb/xhci/xhci.cpp:98-291 | from a state where every port on its way has its answer coming, a step leads to another such state if and only if its answer is one that the code goes on from |
| HostStackTheorems.AnswersComeExactly | kernel/usb/xhci/xhci.cpp:98-291 | in every run all ports on their way have their answers coming up to a state if and only if all answers before it were such |
| HostStackTheorems.PortAnswerExactly | kernel/usb/xhci/xhci.cpp:204-235 | for each port and phase the exact condition, over the history: no answer to its reset yet; no failed transfer and no refused reply of its device; a held lock |
| HostStackTheorems.GoodResetMovesOn | kernel/usb/xhci/xhci.cpp:122-139 | the answer to a reset, from an enabled port, leads to the port's slot |
| HostStackTheorems.GoodReplyMovesOn | kernel/usb/xhci/xhci.cpp:219-235 | a good reply leads to the device's next request, or to the configuration of the endpoints |
| HostStackTheorems.PortsRun | kernel/usb/xhci/xhci.cpp:98-291 | what the ports do in a run of the whole stack is a run of the port protocol |
| HostStackTheorems.DevicesRun | kernel/usb/device.cpp:131-255 | what each device does in it is a run of enumeration |
| HostStackTheorems.ConfiguredPortsInOrder | kernel/usb/device.cpp:149-255 | a port past enumeration has a device that was initialized in order |
| Pci.EcamRoundTrip | kernel/arch/aarch64-linux-gnu/pci.cpp:33-46 | the address decodes to the same function and register |
| Pci.PortRoundTrip | kernel/arch/x86_64-elf/pci.cpp:15-26 | so does the address register, for the register's aligned word |
| Pci.Scanner.ReadConfig | kernel/arch/x86_64-elf/pci.cpp:101-111 | both ways of access read the word of the register that was meant |
| Pci.Scanner.AddDevice | kernel/arch/aarch64-linux-gnu/pci.cpp:50-58 | the device is appended, or the table is full |
| Pci.Scanner.ScanFunction | kernel/arch/aarch64-linux-gnu/pci.cpp:67-83 | the function and, for a bridge, what is behind it, as far as it fits |
| Pci.Scanner.ScanDevice | kernel/arch/aarch64-linux-gnu/pci.cpp:90-107 | function 0 and, if there are several, the present others |
| Pci.Scanner.ScanBus | kernel/arch/aarch64-linux-gnu/pci.cpp:114-124 | the present devices in number order |
| Pci.Scanner.ScanAllBus | kernel/arch/aarch64-linux-gnu/pci.cpp:175-192 | ends on every configuration space, also with cyclic bridges; the first 32 entries of the pre-order traversal, and kFull exactly when there are more |
| Pci.AllStable | kernel/arch/aarch64-linux-gnu/pci.cpp:67-124 | that traversal does not depend on how deep bridges are followed beyond 32 |
| Pci.ScansAgree | kernel/arch/x86_64-elf/pci.cpp:101-111 | two scans of one configuration space give the same list and the same error, whichever way each accesses it |
| PciTheorems.ListedIsReachable | kernel/arch/aarch64-linux-gnu/pci.cpp:67-124 | everything listed is reachable from a root bus through bridges |
| PciTheorems.SuccessFindsAll | kernel/arch/aarch64-linux-gnu/pci.cpp:175-192 | a scan that succeeds has found exactly the reachable functions |
| PciTheorems.TreeFindsOnce | kernel/arch/aarch64-linux-gnu/pci.cpp:67-124 | when no bus is behind two bridges and no root bus behind one, nothing is found twice |
| PciTheorems.AllInOrder | kernel/arch/aarch64-linux-gnu/pci.cpp:67-192 | whatever the bridges, of two entries the one listed first has the earlier path |
| PciTheorems.TreeFindsFirst | kernel/arch/aarch64-linux-gnu/pci.cpp:50-58 | a full table holds what comes first in the order of the paths |
| PciTopology.HeaderRead | kernel/arch/x86_64-elf/pci.cpp:113-147 | presence, header type, several functions, class and secondary bus are read from the registers of the header as they were laid down there |
| PciTopology.FindsTopology | kernel/arch/aarch64-linux-gnu/pci.cpp:175-192 | for every topology everything found has a route and is recorded with its own header fields, and a scan that succeeds has found everything that has one |
| PciTopology.TreeFindsTopology | kernel/arch/aarch64-linux-gnu/pci.cpp:67-192 | with a tree of bridges nothing is found twice, and the scan fails exactly when the 32 places do not hold all |
| PciTopology.TreeListsInOrder | kernel/arch/aarch64-linux-gnu/pci.cpp:67-192 | of two routes, if the later one's function is found, so is the other's, in front of it |
| ElfLoader.CalcLoadAddressRange | MikanLoaderPkg/Main.c:222-231 | the smallest range around all loadable segments, or the empty one |
| ElfLoader.PagesReach | MikanLoaderPkg/Main.c:362 | the page count covers the range if and only if rounding up does not wrap around, and wastes less than a page |
| ElfLoader.CopyLoadSegments | MikanLoaderPkg/Main.c:233-244 | every segment byte is its file byte or zero, and no other byte of memory changes |
| ElfLoader.SegmentIsLoaded | MikanLoaderPkg/Main.c:233-244 | a segment of type 1 has its bytes of the file at its address, and zeros up to its size in memory |
| ElfLoader.OtherBytesStay | MikanLoaderPkg/Main.c:233-244 | what lies in no such segment is unchanged |
| ElfLoader.WritesInPages | MikanLoaderPkg/Main.c:360-362 | every byte written lies in the allocated pages |
| Consoles.Console.PutString | kernel/console.cpp:18-29 | buffer and cursor are the screen of the concatenated text, however it was split between calls |
| Consoles.Console.Newline | kernel/console.cpp:31-47 | a new line, scrolling when the cursor is on the last row |
| Consoles.LinesJoin | kernel/console.cpp:18-29 | the lines of a text are the pieces between its newlines, and joining them gives it back |
| Consoles.ScreenIsUnique | kernel/console.cpp:18-47 | a text determines buffer and cursor completely |
| Consoles.ScreenShows | kernel/console.cpp:18-47 | 25 rows of 81 characters: the first 79 of each of the last 25 lines, zeros behind them, and the cursor |
| Consoles.NewlineScreen | kernel/console.cpp:31-47 | scrolling or not, the screen after a newline shows the last 25 lines |
| Consoles.CharScreen | kernel/console.cpp:22-26 | a character is added to its line, or dropped beyond column 79 |

## Left out

- MMIO, doorbells, busy-waits, Port::Reset, RequestHCOwnership, Controller::Initialize and Run: hardware behaviour.
- Pixels, fonts, mouse cursor, frame buffer and rectangles; keyboard and mouse observers; logging and printk.
- UEFI protocol calls and the reading of the kernel file; elf.hpp is not part of this model, so the program header table is a value.
- kernel/arch/aarch64-linux-gnu/old/pci.cpp, a copy of the scan; ReadBar and the register writes of the PCI driver.
- Contexts beyond the root port number, the ring pointers and the slot id; endpoint context fields and intervals.
- Failed Enable Slot commands, running out of pool memory and malformed descriptors: the code does not handle them.
- FindByPort, FindByState and Remove of the device manager, NoOp and Stop Endpoint TRBs, InterruptOut: easy members or unused.
- Contents of the HID report buffers and the copy to previous_buf_.
- `num_configurations_` and `config_index_`, which are written and never used otherwise.
- Xhci.Controller: devices are records in the table, not objects of their own, so sharing of a device object between holders is not captured.
- Transfers.Device: pointers to TRBs are pairs of ring and index; that different rings do not overlap is what `Memory.AllBlocksMeetRequests` gives, and `Transfers.AddressNamesTrb` what follows.
- UsbDevices.UsbDevice: the derived class xhci::Device is the field `xhci` instead of an inherited part; class driver pointers are addresses, and the driver's calls of its parent are returned to the device, which performs them.
- EventRings.EventRing.Initialize: the segment, its address and the register are parameters; the allocations with their two error returns, the segment table and its registers are not modelled.
- EventLoops.EventLoop.ProcessEvent: what the device makes of a transfer event is a parameter here; `HostStack.Outcome` gives it.
- DeviceManagers.DeviceManager.Initialize: its two returns for a lack of memory are not modelled.
- Xhci.Controller.AddressDevice: of the slot and endpoint 0 contexts only the root port number is kept; the ring of endpoint 0 is a logged effect.
- Xhci.Controller.ConfigureEndpoints: endpoint contexts are not kept; the transfer rings are a logged effect, taken by `HostStack`.
- Xhci.Controller.OnTransferEvent: how the device handles the event is a parameter here; `HostStack.Outcome` gives it.
- Rings.Ring.Push: TRBs of type LINK are not pushed by callers, and the run theorems exclude them.
- Transfers.Device.ControlIn: endpoint address 0, for which the code reads in front of its ring array, is excluded.
- Transfers.Device.ControlOut: the same address is excluded.
- Transfers.Device.InterruptIn: addresses outside 1 to 31, for which the code reads outside its ring array, are excluded; no run of enumeration passes one but the poll of `EnumerationTheorems.SafeExactly`.
- HidDrivers.HidDriver.OnInterruptCompleted: what the derived driver does with the report, and the copy to previous_buf_, are not modelled.
- EnumerationTheorems.MapAndRingNeverFill: counts the TRBs of requests whose event is still to come; the status stage behind a data stage that has just completed, one TRB during enumeration, is not counted.
- PortProtocol.StepKeepsInv: enumeration of a device is one bit of each transfer event here; `HostStack` joins the two.
