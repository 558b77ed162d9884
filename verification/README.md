# AeroRP and TDMA: a verified model

This project models the protocol logic of an ns-3 module for airborne networks in Dafny and proves
what it keeps over all runs. Run `dafny verify dfyconfig.toml` to check it.

There are three state machines.

**The TDMA medium.** A helper fills a node-by-slot table (`SlotTable`) or reads it from a file
(`SlotFile`) and installs it in a controller. The controller opens one session per run of equally
owned slots; inside a session the owner drains an expiring queue (`MacQueue`) against a time budget
that is truncated to microseconds at every step. `TdmaModel` is the discrete-event system: a clock, a
list of pending events, queues, and runs in which packets arrive and Start is called at any time.
`Tdma` has the same system as objects that change in place (simulator, MACs, controller), each method
proved to do what the step functions of `TdmaModel` say. `TdmaSafety` holds the invariant,
`TdmaResults` and `TdmaFrames` the theorems on safety and timing, `TdmaDelivery` and `TdmaDrain` those on
delivery, `TdmaFaults` those on the null packet, and `Channel`, `TdmaArrivals` and `TdmaOverlap` those on propagation.

**Routing.** A neighbour table with a four-second lifetime and a best-neighbour choice
(`NeighborTable`), greedy forwarding (`Greedy`, `GreedyLoops`), the queue of packets without a route
(`RequestQueue`, `RequestLedger`), and its retry machine (`Deferred`, `DeferredRuns`).

**Messages.** The hello and its velocity signs (`Hello`), its sealed form (`SecureHello`), and the
authentication handshake (`Handshake`, `HandshakeRuns`, `HandshakeReplays`); `SecureNetwork` puts them together.

## Where the code does not do what it should

Each of these is a proved statement, with the exact condition where there is one.

- A send event hands a null packet down exactly when everything in the queue has expired by then
  (`TdmaResults.FaultsExactlyOnNullDequeue`). Some run comes to that exactly when some session is longer
  than the shortest positive transmission time and its owner's queue has room and a positive lifetime
  (`TdmaFaults.FaultIff`, `TdmaFaults.NullDequeueHappens`).
- The controller dereferences the end of its slot map in some run exactly when the map is not
  covered (`TdmaFrames.CoverageIsExact`).
- The guard derived from the channel's range covers the propagation delay exactly under
  `Channel.GuardCoversIff`; at the default range it is zero. It looks at the general range only: both
  ranges are covered exactly under `TdmaArrivals.DerivedGuardIff`. At the simulation's ranges of 27.8 km
  and 150 km neither the derived guard nor the one set there (aero-test-final.cc:718-726) keeps a ground
  station's frame from being overtaken (`TdmaOverlap.GroundOvertaken`).
- The divisibility check accepts ragged slot files, which SetSlots then reads out of bounds exactly
  when they are ragged (`SlotFile.AcceptedIff`, `SlotFile.InBoundsIffRectangular`).
- The guard before the write in SetDefaultSlots is off by one, and never reached
  (`SlotTable.TdmaHelper.SetDefaultSlots`).
- Start strands what already waits for a route (`DeferredRuns.StartIff`, `DeferredRuns.StartStrands`). The
  simulation in this repository calls Start only before it begins (aero-test-final.cc:523 and 532).
- Greedy forwarding can loop. A node ranks itself on its exact state and its neighbours on what hellos
  carried, which is truncated. It loops exactly when truncation makes a node look better than it is
  (`GreedyLoops.HelloLoopIff`, and `GreedyLoops.LoopIff` for entries of any other origin), and that happens
  at the simulation's range and speeds (`GreedyLoops.HellosLoop`). Otherwise no node repeats
  (`GreedyLoops.LoopFree`).
- Forwarding uses a default vector as its target, so even then the source can see its packet again, once
  (`GreedyLoops.SourceOnceMore`, `GreedyLoops.SourceComesBack`): exactly when the hop it chose can hear it
  as better than itself for that vector (`GreedyLoops.ComesBackIff`, `GreedyLoops.ReturnIff`).
- The retry path can pick a stale neighbour: exactly a destination whose own entry has outlived its four
  seconds (`Greedy.QueueHopFreshIff`, `Greedy.QueueHopMayBeStale`).
- The zero address does not stay in the neighbour table after the first four seconds
  (`Greedy.ZeroIsNeverKept`). A hello from that address is not shown to occur in this repository.
- A hello with a sign code above seven stores a velocity that was never assigned
  (`SecureHello.RecvAERORP`).
- The identification is eight bits and the random number is drawn from a small range, so a reply can
  fit a node it was not meant for. The devices deliver a reply to its addressee only, and then agreement
  always holds (`HandshakeRuns.AddressedAgreement`); in a network that may misdeliver it holds exactly
  without such a clash (`HandshakeRuns.AgreementIff`).

## Model

| member | source | states |
|---|---|---|
| `MacQueue.TdmaMacQueue.constructor` | tdma-mac-queue.cc:69-74 | an empty queue with the given limit and delay |
| `MacQueue.TdmaMacQueue.SetMaxSize` | tdma-mac-queue.cc:81-85 | only the limit changes |
| `MacQueue.TdmaMacQueue.SetMaxDelay` | tdma-mac-queue.cc:93-97 | only the lifetime changes |
| `MacQueue.TdmaMacQueue.Cleanup` | tdma-mac-queue.cc:134-163 | the erase-while-iterating loop keeps exactly the items still alive, in order, and passes the packets of the others to the drop callback, counted once each |
| `MacQueue.TdmaMacQueue.Enqueue` | tdma-mac-queue.cc:117-132 | cleanup, then refused at the limit, else appended with the current time |
| `MacQueue.TdmaMacQueue.Dequeue` | tdma-mac-queue.cc:165-180 | cleanup, then the oldest item leaves, or null |
| `MacQueue.TdmaMacQueue.Peek` | tdma-mac-queue.cc:182-194 | cleanup, then the oldest item stays and is returned |
| `MacQueue.TdmaMacQueue.IsEmpty` | tdma-mac-queue.cc:196-201 | cleanup, then whether nothing is left |
| `MacQueue.TdmaMacQueue.GetSize` | tdma-mac-queue.cc:203-207 | the size counter, without cleanup |
| `MacQueue.TdmaMacQueue.Flush` | tdma-mac-queue.cc:209-214 | everything is dropped silently |
| `MacQueue.TdmaMacQueue.Remove` | tdma-mac-queue.cc:234-248 | the first item carrying that packet pointer leaves, without cleanup |
| `MacQueue.CleanupCutsPrefix` | tdma-mac-queue.cc:134-163 | with non-decreasing stamps the expired items are a prefix, so cleanup cuts exactly that prefix |
| `MacQueue.QueueRefinesLedger` | tdma-mac-queue.h:46-55 | over any call sequence on a monotone clock the queue is an ideal expiring FIFO: what waits, what was dequeued and what expired, each in order of acceptance, with size equal to length |
| `MacQueue.Conservation` | tdma-mac-queue.cc:117-248 | accepted = waiting + dequeued + expired + removed + flushed, as multisets, for every call sequence; the drop callback got exactly the expired ones |
| `MacQueue.EnqueueKeepsBound` | tdma-mac-queue.cc:117-132 | the length stays within the limit, and a packet is accepted iff fewer live items than the limit wait |
| `MacQueue.DequeueTakes` | tdma-mac-queue.cc:165-180 | in arrival order the answer is the first item stamped less than the lifetime ago, null iff there is none, and the items after it are left |
| `MacQueue.EnqueueIs` | tdma-mac-queue.cc:117-132 | refused iff as many items stamped less than the lifetime ago wait as the limit says; an accepted packet comes last with the current time |
| `TdmaModel.Same` | tdma-controller.cc:251-268 | the number of consecutive slots of one owner is maximal |
| `TdmaModel.TxTimeIs` | tdma-controller.cc:286-292 | the transmission time is that of the packet's bits at the data rate, rounded down to the nanosecond |
| `Tdma.Simulator.Schedule` | tdma-controller.cc:125 | an event is added at the current time plus a delay |
| `Tdma.TdmaCentralMac.Queue` | tdma-central-mac.cc:280-290 | the packet is queued at this MAC, and nothing else changes |
| `Tdma.TdmaCentralMac.Head` | tdma-central-mac.cc:297-301 | emptiness test and peek at one instant answer the first live item |
| `Tdma.TdmaCentralMac.StartTransmission` | tdma-central-mac.cc:292-315 | one send event is scheduled after the head's transmission time iff that time is below the budget; else the chain stops |
| `Tdma.TdmaCentralMac.HandOver` | tdma-central-mac.cc:317-326 | the dequeued packet goes to the channel; a null one is dereferenced |
| `Tdma.TdmaCentralMac.SendPacketDown` | tdma-central-mac.cc:317-327 | hand-over, then StartTransmission with the remaining time truncated to microseconds |
| `Tdma.TdmaController.constructor` | tdma-controller.cc:49-109 | the default slot time, guard time and data rate, no session chain |
| `Tdma.TdmaController.Attach` | tdma-helper.cc:304-313 | a further MAC with an empty queue belongs to the controller |
| `Tdma.TdmaController.SetSlotTime` | tdma-controller.cc:152-157 | the slot time is the given time less a remainder below a microsecond |
| `Tdma.TdmaController.SetGaurdTime` | tdma-controller.cc:193-206 | with a channel attached the argument is ignored and the guard comes from the channel's range; else the given time less a remainder below a microsecond |
| `Tdma.TdmaController.SetTotalSlotsAllowed` | tdma-controller.cc:227-232 | sets the total and clears the slot map |
| `Tdma.TdmaController.AddTdmaSlot` | tdma-controller.cc:136-150 | insertion does not replace an owner |
| `Tdma.TdmaController.Start` | tdma-controller.cc:118-127 | only the first call schedules a session event, after 10 ns |
| `Tdma.TdmaController.StartTdmaSessions` | tdma-controller.cc:129-134 | the session of slot 0 |
| `Tdma.TdmaController.CountSlots` | tdma-controller.cc:249-268 | the merging loop ends and counts the maximal run of the owner |
| `Tdma.TdmaController.ScheduleTdmaSession` | tdma-controller.cc:240-284 | a session for the slot's owner and the next session event; a slot without owner is dereferenced |
| `Tdma.TdmaController.Serve` | tdma-controller.cc:249-284 | the same for an owned slot |
| `Tdma.TdmaController.Advance` | tdma-controller.cc:118-284 | the simulator takes a pending event and moves its clock to it |
| `Tdma.TdmaController.RunEvent` | tdma-controller.cc:118-284 | running a pending event on the objects is the model's step |
| `Tdma.TdmaController.RunStep` | tdma-controller.cc:118-284 | every kind of step, a Start or an arrival at a later instant included, is performed by the objects as the model says |
| `Tdma.TdmaController.Run` | tdma-controller.cc:118-284 | the objects follow every legal run to the state the model reaches and keep the run invariant, so all results about runs hold of the objects |
| `Tdma.RunsCanRun` | tdma-central-mac.cc:317-327 | in every state of a run, whichever earliest event is picked can run: a pending send finds its session and its measured head |
| `TdmaSafety.StepKeeps` | tdma-controller.cc:240-284 | every step, arrivals and repeated Start included, keeps the run invariant unless it faults |
| `TdmaResults.WindowsApart` | tdma-controller.cc:270-283 | windows of any two sessions are at least one guard time apart |
| `TdmaResults.MediumExclusive` | tdma-controller.cc:118-284 | in every reachable state each frame went out inside its own sender's window, at least its measured time after the opening (so strictly inside if that is positive), windows are a guard apart, at most one send is pending in the network, and there is one session chain however often Start was called |
| `TdmaResults.ExactInstants` | tdma-central-mac.cc:292-327 | a frame leaves exactly when the measured times of its session's frames, up to and including its own, have passed since the session opened |
| `TdmaResults.FramesOfTwoMacs` | tdma-central-mac.cc:292-327 | frames of different MACs are more than a guard time apart |
| `TdmaResults.SlotBudget` | tdma-central-mac.cc:293-327 | the measured times of a session's frames sum to less than the session; where the drain gave up on a packet, that packet and the frames before it miss the session length by at most 999 ns for each frame sent |
| `TdmaResults.SentInOrder` | tdma-central-mac.cc:297-327 | what a MAC sent is what left its queue, oldest first, and a frame is the measured packet unless that one expired on the way |
| `TdmaResults.NullDequeue` | tdma-mac-queue.cc:165-180 | a dequeue is null iff the youngest item has expired or there is none |
| `TdmaResults.FaultsExactlyOnNullDequeue` | tdma-central-mac.cc:317-326 | a run on a covered map faults at a step iff the step is a send at a time by which everything in that queue has expired |
| `TdmaResults.OutlivingHeadIsSent` | tdma-central-mac.cc:297-327 | a head that outlives its transmission time is the very packet sent, whatever was queued meanwhile |
| `TdmaFaults.SmallestIsLeast` | tdma-central-mac.cc:298-301 | the least positive transmission time of any packet is one byte's, or one nanosecond above 8 Gbit/s |
| `TdmaFaults.FaultIff` | tdma-central-mac.cc:292-327 | with packets up to any size, the asserted 1499 bytes included: some run on a covered map hands a null packet down iff some session of the frame is longer than the least positive transmission time, its owner's queue has room and a positive lifetime, and a packet that takes any time is within the size |
| `TdmaFaults.UnboundedFaultIff` | tdma-central-mac.cc:292-327 | without a bound on sizes, the last condition goes |
| `TdmaFaults.NullDequeueHappens` | tdma-central-mac.cc:317-326 | a concrete network of this kind, with packets of at most 1499 bytes |
| `TdmaFrames.FramePartition` | tdma-controller.cc:244-268 | the frame is partitioned into maximal same-owner runs, in order |
| `TdmaFrames.EachSlotOnce` | tdma-controller.cc:244-268 | every slot lies in exactly one of those runs |
| `TdmaFrames.ExactFrames` | tdma-controller.cc:240-284 | the i-th session of any run is run i mod R of frame i div R, with its exact start and length: frames repeat after total*slot + R*guard + interframe time, the first 10 ns after Start |
| `TdmaFrames.OwnerReturns` | tdma-controller.cc:240-284 | one frame time after each session its owner has the same slots again |
| `TdmaDelivery.SessionDelivers` | tdma-central-mac.cc:292-327 | the packet that is first when its owner's session opens, fits the session and outlives its own transmission goes out in that session after exactly its transmission time, whatever else happens |
| `TdmaDrain.SessionDrains` | tdma-central-mac.cc:292-327 | everything that fits goes out in the session: packets that head the owner's live queue at the opening, need less than the session with 999 ns to spare for each after the first, and outlive their own transmissions all leave in that session, each when the times up to and including its own have passed |
| `TdmaDrain.WorkConserving` | tdma-central-mac.cc:292-327 | every closed session of every run stopped at an instant, its opening or that of its last frame, at which its owner had nothing alive to send or a packet that would not have fitted what was left, up to 999 ns for each frame sent |
| `TdmaDelivery.WaitingBound` | tdma-central-mac.cc:280-327 | in any run, a packet with p packets before it, all fitting a session of their owner, is on the air within p + 1 frame times and one session, if it lives that long |
| `TdmaFrames.CoverageIsExact` | tdma-controller.cc:245-248 | no run ever misses a slot iff every slot is owned and no run of equal owners crosses the end of the frame |
| `Channel.GuardFromRange` | tdma-controller.cc:194-201 | the guard is the whole number of 300 m steps in the range |
| `Channel.SimpleWirelessChannel.Add` | simple-wireless-channel.cc:102-108 | appends an attachment |
| `Channel.SimpleWirelessChannel.GetMaxRange` | simple-wireless-channel.cc:121-125 | the range, not the ground range |
| `Channel.SimpleWirelessChannel.Send` | simple-wireless-channel.cc:69-100 | one reception per attachment on another device within reach of the sender, at its own propagation delay, and no other |
| `Channel.HearsIff` | simple-wireless-channel.cc:78-90 | airborne senders reach the general range, the ground station its own, and nobody hears its own device |
| `Channel.OneWayIff` | simple-wireless-channel.cc:78-90 | two nodes hear each other or neither does, unless one is the ground station and the distance lies between the two ranges |
| `Channel.GuardCoversIff` | tdma-controller.cc:194-201 | exactly when the derived guard covers the longest propagation, in terms of the range's whole 300 m steps |
| `Channel.GuardByRange` | tdma-controller.cc:194-201 | it does from 29.7 km on, and at the default 250 m the guard is 0 against 825 ns |
| `TdmaArrivals.ArrivalsSeparated` | simple-wireless-channel.cc:69-100 | with a guard of at least the longest propagation, at every receiver all arrivals of a session precede all arrivals of any later session, in every run |
| `TdmaArrivals.ReceptionsSeparated` | simple-wireless-channel.cc:69-100 | the same for the receptions that Send schedules, whatever the positions at the two moments and whoever receives |
| `TdmaArrivals.DerivedGuardIff` | tdma-controller.cc:193-206 | the derived guard covers every propagation within either reach iff 3.3 ns per metre of the longer one come to less than 1000 ns per whole 300 m step of the general range, plus one |
| `TdmaOverlap.TwoFrames` | tdma-central-mac.cc:292-327 | some run sends any two fitting packets in the first two sessions, each at the opening plus its own transmission time |
| `TdmaOverlap.GroundOvertaken` | simple-wireless-channel.cc:81-83 | at the simulation's ranges, with its guard of 100 us or the derived 92 us: a run in which a node receives the ground station's frame of one session after another node's frame of the next |
| `SlotTable.TdmaHelper.Default` | tdma-helper.cc:96-113 | the constructed table is the default table |
| `SlotTable.TdmaHelper.Sized` | tdma-helper.cc:118-130 | a table of the parsed size with node ids in column 0 and zeros elsewhere |
| `SlotTable.TdmaHelper.Allocate2D` | tdma-helper.cc:163-179 | row numbers in column 0 and zeros elsewhere |
| `SlotTable.TdmaHelper.SetDefaultSlots` | tdma-helper.cc:181-209 | the loops fill the default table, every write is in bounds, and the break is never reached |
| `SlotTable.TdmaHelper.SetBlock` | tdma-helper.cc:187-201 | the inner loop gives row i its block and never stops at the guard |
| `SlotTable.TdmaHelper.SetSlots` | tdma-helper.cc:211-225 | all reads are in bounds iff every used row is long enough, and then the table is an exact copy |
| `SlotTable.TdmaHelper.AssignRow` | tdma-helper.cc:259-277 | one row of a node: fails iff a cell is no bit or shared, else its unowned slots go to the MAC |
| `SlotTable.TdmaHelper.AssignTdmaSlots` | tdma-helper.cc:251-280 | the same for all rows of the node |
| `SlotTable.NodeFailsIff` | tdma-helper.cc:259-277 | a node is refused iff some slot cell of one of its rows is no bit, or is 1 like that of another row |
| `SlotTable.TdmaHelper.InstallNode` | tdma-helper.cc:302-313 | one node: a new MAC, and its slots |
| `SlotTable.TdmaHelper.Install` | tdma-helper.cc:297-317 | no assertion fails iff all installed nodes' rows are bits and exclusive; each free slot goes to the first node that claims it, whatever was installed before; the controller is ready for a run |
| `SlotTable.InstallTwice` | tdma-helper.cc:297-332 | installing nodes in two calls gives the slot map of installing them in one |
| `SlotTable.InstallIsExact` | tdma-helper.cc:251-317 | an exact cover installed on all its nodes gives a slot map with domain exactly [0, numSlots) and each slot with the MAC of its one owner |
| `SlotTable.CoveredIff` | tdma-controller.cc:244-268 | the session chain never misses a slot iff there is a slot and every column has a 1 in an installed node's row |
| `SlotTable.DefaultIsExact` | tdma-helper.cc:181-209 | every column of the default table has exactly one 1 |
| `SlotTable.DefaultCell` | tdma-helper.cc:181-209 | which cells are 1: row i has one block of slots/rows columns, in row order, and a left-over column each for the first rows |
| `SlotTable.DefaultIsFair` | tdma-helper.cc:181-209 | row i has slots/rows ones, and one more for the first slots%rows rows |
| `SlotTable.DefaultNetworkCovered` | tdma-helper.cc:163-317 | end to end: the default table on all its nodes fails no assertion and its session chain misses no slot, iff there is a slot |
| `SlotFile.TdmaSlotAssignmentFileParser.ParseLine` | tdma-slot-assignment-parser.cc:86-104 | the loop over commas yields the fields of the line or fails on one that is not 0 or 1 |
| `SlotFile.TdmaSlotAssignmentFileParser.ParseTdmaSlotInformation` | tdma-slot-assignment-parser.cc:62-112 | the loop over the file is the recursive parse, the end-of-file test included |
| `SlotFile.RoundTrip` | tdma-slot-assignment-parser.cc:62-112 | printing any non-empty rectangular 0/1 table with int node ids and parsing it returns the rows, their number and the number of columns |
| `SlotFile.FieldsIff` | tdma-slot-assignment-parser.cc:93-104 | the slots of a word are accepted iff they are bits with single commas between, and then they are those bits |
| `SlotFile.BadFieldIff` | tdma-slot-assignment-parser.cc:72-106 | the assertion on fields fails iff some word up to the first without an id has other slots |
| `SlotFile.AcceptedIff` | tdma-slot-assignment-parser.cc:109-110 | printed rows are accepted iff their number divides the number of fields, rectangular or not |
| `SlotFile.InBoundsIffRectangular` | tdma-helper.cc:211-225 | whatever the file, SetSlots stays in bounds on an accepted table iff it is rectangular |
| `SlotFile.RaggedAccepted` | tdma-slot-assignment-parser.cc:109 | a ragged file that is accepted |
| `SlotFile.Load` | tdma-helper.cc:118-130 | from the file to the table: an exact copy iff the rows are rectangular |
| `RequestQueue.RequestQueue.constructor` | aerorp-pqueue.h:96-99 | an empty queue |
| `RequestQueue.RequestQueue.Drop` | aerorp-pqueue.cc:153-160 | the error callback of the entry is called |
| `RequestQueue.RequestQueue.Report` | aerorp-pqueue.cc:139-147 | the notify pass reports exactly the matching entries, in order |
| `RequestQueue.RequestQueue.RemoveIf` | aerorp-pqueue.cc:148-149 | the in-place filter keeps exactly the others, in order |
| `RequestQueue.RequestQueue.Purge` | aerorp-pqueue.cc:136-150 | both passes agree: every expired entry is reported once and removed |
| `RequestQueue.RequestQueue.GetSize` | aerorp-pqueue.cc:36-41 | purge, then the length |
| `RequestQueue.RequestQueue.Enqueue` | aerorp-pqueue.cc:56-77 | purge; a twin is refused; at the limit the front is reported and dropped; appended with a fresh expiry |
| `RequestQueue.RequestQueue.DropPacketWithDst` | aerorp-pqueue.cc:79-94 | purge, then all entries for the destination are reported and removed |
| `RequestQueue.RequestQueue.Dequeue` | aerorp-pqueue.cc:96-112 | purge, then the first entry for the destination leaves |
| `RequestQueue.RequestQueue.Find` | aerorp-pqueue.cc:114-125 | whether any entry, expired or not, has the destination |
| `RequestQueue.EnqueueRefusesIff` | aerorp-pqueue.cc:56-77 | a packet is refused iff the same packet waits for the same destination and has not expired |
| `RequestQueue.EnqueueAppends` | aerorp-pqueue.cc:56-77 | an accepted packet comes last, expires a full timeout from now, and costs a full queue its front |
| `RequestQueue.DequeueTakes` | aerorp-pqueue.cc:96-112 | the first packet for the destination that has not expired, null iff there is none; the others keep their order |
| `RequestQueue.DropReports` | aerorp-pqueue.cc:79-94 | the live packets for other destinations stay and all others are reported |
| `RequestLedger.QueueRefinesLedger` | aerorp-pqueue.cc:56-160 | over any call sequence on a monotone clock the queue agrees with a ledger of all accepted packets: waiting in order of arrival and expiry, no twins, within the limit; handed out in order per destination; the rest reported once |
| `RequestLedger.Conservation` | aerorp-pqueue.cc:56-160 | what Enqueue answered true for = waiting + handed out + reported, for every call sequence from the empty queue |
| `RequestLedger.RefusedIff` | aerorp-pqueue.cc:56-77 | in every run a packet is refused iff the same packet waits for the same destination and lives; one that differs from all accepted ones in either is accepted |
| `RequestLedger.PurgeCutsPrefix` | aerorp-pqueue.cc:136-150 | in a queue sorted by expiry a purge cuts a prefix |
| `RequestLedger.WaitingSorted` | aerorp-pqueue.h:71-72 | waiting entries are sorted by expiry, so the evicted front has the least time left |
| `Deferred.DeferredRouting.constructor` | aerorp-routing-protocol.cc:125-146 | nothing queued, no address to retry, no timer |
| `Deferred.DeferredRouting.Start` | aerorp-routing-protocol.cc:1923 | clears the retry list and nothing else of this state |
| `Deferred.DeferredRouting.DeferredRouteOutput` | aerorp-routing-protocol.cc:1931-1956 | the retry timer is set to 500 ms iff nothing live was waiting; the packet is enqueued and its destination heads the retry list |
| `Deferred.DeferredRouting.RemoveRepeats` | aerorp-routing-protocol.cc:1949 | only adjacent repetitions go |
| `Deferred.DeferredRouting.SendPacketFromQueue` | aerorp-routing-protocol.cc:2189-2269 | with a route exactly the live packets for the destination go out in order; without one nothing changes |
| `Deferred.DeferredRouting.CheckQueue` | aerorp-routing-protocol.cc:2272-2303 | each listed address is tried once per occurrence, routed ones leave the list, and the timer is set to 60 s iff any is left |
| `Deferred.DeferredRouting.RemoveAll` | aerorp-routing-protocol.cc:2290-2295 | every occurrence of the routed addresses leaves the list, the others keep their order |
| `DeferredRuns.CheckServes` | aerorp-routing-protocol.cc:2272-2303 | per destination: routed in a retry iff all its live packets go out, once and in order, and none is left |
| `DeferredRuns.CheckSends` | aerorp-routing-protocol.cc:2272-2303 | a retry sends in the order of its list, for each address that gets a route what waits alive for it |
| `DeferredRuns.UnroutedSplits` | aerorp-routing-protocol.cc:2290-2295 | what a retry leaves of its list is the addresses without a route, in their order |
| `DeferredRuns.NothingStranded` | aerorp-routing-protocol.cc:1931-2303 | in every run after Start on an empty queue each waiting packet has its destination on the retry list and a retry pending within 60 s |
| `DeferredRuns.FreshNotStranded` | aerorp-routing-protocol.cc:1923-2303 | so nothing is stranded in any run of a node that starts once, with nothing queued |
| `DeferredRuns.DeferredConserved` | aerorp-routing-protocol.cc:1931-2303 | in every run of the retry machine the packets accepted are those waiting, those sent by retries and those reported to the error callback, each once |
| `DeferredRuns.RetrySends` | aerorp-routing-protocol.cc:2272-2303 | a packet alive at the next retry goes out then if its destination has a route |
| `DeferredRuns.DeferTimer` | aerorp-routing-protocol.cc:1938-1942 | a deferral leaves the timer alone iff some packet waits that has not expired; else the first retry comes in 500 ms |
| `DeferredRuns.CheckTimer` | aerorp-routing-protocol.cc:2272-2303 | a retry sets the next one for 60 s later iff some listed address got no route |
| `DeferredRuns.RetryOnTime` | aerorp-routing-protocol.cc:1938-1942 | in every run of deferrals a pending retry stays where it is while a packet outlasts it, whatever arrives |
| `DeferredRuns.FirstRetryOnTime` | aerorp-routing-protocol.cc:1938-1942 | the first retry comes 500 ms after the first deferral, whatever is deferred meanwhile |
| `DeferredRuns.UniqueIff` | aerorp-routing-protocol.cc:1949 | the retry list changes iff an address stands next to itself, and none does afterwards |
| `DeferredRuns.StartIff` | aerorp-routing-protocol.cc:1923 | Start keeps that property iff nothing waits |
| `DeferredRuns.StartStrands` | aerorp-routing-protocol.cc:1923-1945 | otherwise the pending retry schedules no other, and neither does a later packet while an old one lives |
| `NeighborTable.WhenNever` | aerorp-ntable.cc:123-149 | for nonzero relative speed: zero iff exactly on the edge of the range or outside and receding; below zero iff inside and approaching or more than 3000 inside |
| `NeighborTable.InterceptIs` | aerorp-ntable.cc:123-149 | the time after which the node is at the edge of the range at constant speed; negated for a node more than 3000 inside and receding, zero for one outside and receding |
| `NeighborTable.BetterIsOrder` | aerorp-ntable.cc:423-437 | smaller is better with zero as infinity is a strict weak order |
| `NeighborTable.BestUnique` | aerorp-ntable.cc:402-443 | there is one best neighbour, and it is none iff no neighbour is better than the node |
| `NeighborTable.BestIs` | aerorp-ntable.cc:402-443 | the best neighbour has a rank above the node's and every other's, zero being the worst and the least address winning a tie |
| `NeighborTable.PurgeKeeps` | aerorp-ntable.cc:280-313 | a purge keeps exactly what was stamped less than four seconds ago |
| `NeighborTable.NeighborTable.GetEntryUpdateTime` | aerorp-ntable.cc:197-227 | the stamp, except that the zero address counts as stamped at zero |
| `NeighborTable.NeighborTable.AddEntry` | aerorp-ntable.cc:232-249 | the entry is replaced and stamped |
| `NeighborTable.NeighborTable.UpdateEntry` | aerorp-ntable.cc:251-267 | an existing entry keeps its stamp |
| `NeighborTable.NeighborTable.DeleteEntry` | aerorp-ntable.cc:272-275 | the entry goes |
| `NeighborTable.NeighborTable.IsNeighbour` | aerorp-ntable.cc:450-461 | membership in the map |
| `NeighborTable.NeighborTable.Outdated` | aerorp-ntable.cc:288-299 | the first pass collects exactly the addresses whose entries have outlived four seconds |
| `NeighborTable.NeighborTable.Purge` | aerorp-ntable.cc:280-313 | the two passes are a filter of the map that leaves other entries unchanged |
| `NeighborTable.NeighborTable.BestNeighbor` | aerorp-ntable.cc:402-443 | on the purged table: the least address of best rank if that rank is better than the node's own, else the zero address; the initial id is never returned |
| `NeighborTable.NeighborTable.Scan` | aerorp-ntable.cc:415-432 | the loop in address order ends with that neighbour and its rank, or with the initial rank when no neighbour is better |
| `NeighborTable.TestsAreBetter` | aerorp-ntable.cc:423-437 | the loop test is the rank order, and the closing test holds exactly when the loop has updated |
| `Greedy.Forwarding` | aerorp-routing-protocol.cc:2100-2160 | purge, then the destination if it is a neighbour, else the best neighbour for the default vector, else deferral |
| `Greedy.RouteOutput` | aerorp-routing-protocol.cc:475-553 | the same for the looked-up position, but deferral when the best neighbour is the node itself |
| `Greedy.QueueRoute` | aerorp-routing-protocol.cc:2221-2245 | the neighbour test comes before any purge |
| `Greedy.NeighbourIsNext` | aerorp-routing-protocol.cc:2100-2160 | a destination heard less than four seconds ago is the next hop itself, whatever was heard or purged since |
| `Greedy.DefersIff` | aerorp-routing-protocol.cc:2100-2160 | a packet is deferred iff its destination is no neighbour and no neighbour has a rank above the node's |
| `Greedy.HopIsBest` | aerorp-routing-protocol.cc:2125-2139 | else it goes to the neighbour of best rank, above the node's own, the least address in a tie |
| `Greedy.HopIsFresh` | aerorp-routing-protocol.cc:480-509 | a next hop chosen by RouteOutput or Forwarding is in the table and was last added less than four seconds ago |
| `Greedy.QueueHopFreshIff` | aerorp-routing-protocol.cc:2221-2245 | the hop SendPacketFromQueue picks was last added less than four seconds ago iff the destination is not in the table or its entry has not outlived them |
| `Greedy.QueueHopMayBeStale` | aerorp-routing-protocol.cc:2221-2228 | the failing instance: a neighbour heard once is picked at any age |
| `Greedy.ZeroIsNeverKept` | aerorp-ntable.cc:197-204 | the zero address is purged at any time from four seconds on |
| `GreedyLoops.LoopFree` | aerorp-routing-protocol.cc:2125-2162 | while no table ranks a node better than it ranks itself: for one target the rank falls strictly along every chain of best neighbours, no node repeats, and the chain has at most as many nodes as the network; entries may be stale or otherwise pessimistic |
| `GreedyLoops.RouteEnds` | aerorp-routing-protocol.cc:2125-2162 | then every chain extends to a node that has the destination as a neighbour or defers |
| `GreedyLoops.LoopIff` | aerorp-ntable.cc:402-443 | for any relation between node states and the entries they can cause: some network loops iff some state can be heard as better than it ranks itself |
| `GreedyLoops.EndsIff` | aerorp-routing-protocol.cc:2125-2162 | every chain in every network gets to delivery or deferral iff no state can |
| `GreedyLoops.HelloLoopIff` | aerorp-routing-protocol.cc:1163-1243 | with tables fed by hellos from nodes in given states: some network loops iff truncation makes one of these states look better than it is |
| `GreedyLoops.HellosLoop` | aerorp-ntable.cc:402-443 | such a state at the range and speeds of the simulation: two nodes pass a packet to and fro any number of times and never deliver or defer it |
| `GreedyLoops.SourceOnceMore` | aerorp-routing-protocol.cc:2097-2139 | with the first hop chosen for the real target and the rest for the default vector, while no table flatters a node for that vector: no node after the source repeats, and the source comes up again only if the default vector ranks it above its own hop |
| `GreedyLoops.ReturnIff` | aerorp-routing-protocol.cc:475-553 | in general: for a source and the hop it prefers, some network sends the packet back iff some sequence of states leads from the hop to the source, each able to hear the next as better than itself for the default vector |
| `GreedyLoops.ComesBackIff` | aerorp-routing-protocol.cc:475-553 | when nobody can be flattered: for a source and the hop it prefers, some network sends the packet back iff the hop can hear the source as better than itself for the default vector |
| `GreedyLoops.SourceComesBack` | aerorp-routing-protocol.cc:2097-2139 | a network of two nodes 15 km apart in which it does, at the simulation's range and speeds, with states that a hello carries unchanged and times from CalculateTimeToIntercept |
| `Hello.Iterator.WriteU32` | aerorp-packet.cc:199-205 | four bytes are written, least significant first, and the rest stays |
| `Hello.Iterator.ReadU32` | aerorp-packet.cc:215-221 | reads the value of four bytes |
| `Hello.Serialize` | aerorp-packet.cc:194-207 | the 25 bytes of the header |
| `Hello.Deserialize` | aerorp-packet.cc:209-230 | the header of 25 bytes |
| `Hello.HelloRoundTrip` | aerorp-packet.cc:194-230 | headers and 25-byte strings are in bijection |
| `Hello.HelloLayout` | aerorp-packet.cc:194-207 | position, sign code and speeds lie at their offsets, least significant byte first |
| `Hello.SignIs` | aerorp-routing-protocol.cc:1592-1672 | which components are below zero under each of the eight codes |
| `Hello.SendHello` | aerorp-routing-protocol.cc:1592-1672 | the cascade of eight sign cases yields one code and the magnitudes; undefined conversions are reported |
| `Hello.HelloIsTruncation` | aerorp-routing-protocol.cc:1163-1243 | a neighbour decodes position and velocity truncated toward zero, for all sign patterns, exactly for components in the range of the conversion |
| `SecureHello.FillAad` | aerorp-routing-protocol.cc:229-237 | source then destination address |
| `SecureHello.FillIv` | aerorp-routing-protocol.cc:245-256 | the packet uid, then the constants 8 to 15 |
| `SecureHello.AadLayout` | aerorp-routing-protocol.cc:229-237 | both addresses most significant byte first, the source before the destination |
| `SecureHello.IvLayout` | aerorp-routing-protocol.cc:245-256 | the uid least significant byte first, then 8 to 15 |
| `SecureHello.WrapHello` | aerorp-routing-protocol.cc:265-309 | the type byte is replaced and the 25 bytes are sealed |
| `SecureHello.RecvAERORP` | aerorp-routing-protocol.cc:1009-1419 | type and status tests, opening, decoding, and the table update, with an unassigned velocity for a sign code above seven |
| `SecureHello.SealedRefinesPlain` | aerorp-routing-protocol.cc:1245-1419 | with equal key, uid and addresses the sealed path has exactly the outcome of the plain path, in every mode and status |
| `SecureHello.WrappedOnce` | aerorp-routing-protocol.cc:265-312 | a wrapped hello has type 6 and 42 bytes, so the second size test does not wrap it again |
| `SecureHello.PlainLearnsIff` | aerorp-routing-protocol.cc:1021-1243 | a hello teaches its receiver the truncated position and velocity iff the receiver is authenticated or not in security mode; else it is ignored |
| `SecureHello.HeaderTaken` | aerorp-routing-protocol.cc:1163-1243 | whatever header arrives, its position is taken as it is, and the velocity stays unassigned iff the sign code is above seven |
| `SecureHello.NeighbourLearns` | aerorp-routing-protocol.cc:1245-1419 | end to end: the same iff for the sealed hello of a node with the same key |
| `SecureHello.LearnedWasSealed` | aerorp-routing-protocol.cc:1297-1308 | a sealed hello that changes the table was sealed under the receiver's key for this uid and these addresses, and its plain form would have been taken the same way |
| `SecureHello.AadInjective` | aerorp-routing-protocol.cc:229-237 | the additional data determine both addresses |
| `SecureHello.IvInjective` | aerorp-routing-protocol.cc:245-256 | the initialisation vector determines the packet uid |
| `SecureHello.OtherwiseIgnored` | aerorp-routing-protocol.cc:1245-1419 | a wrapped hello is ignored under any other key, uid or pair of addresses |
| `SecureHello.UnauthenticatedIgnores` | aerorp-routing-protocol.cc:1021-1025 | an unauthenticated node in security mode learns nothing from hellos |
| `SecureHello.KindsIgnored` | aerorp-routing-protocol.cc:1021-1025 | of the other kinds an unauthenticated node in security mode ignores exactly 2 and 7 |
| `SecureNetwork.LearnsIff` | aerorp-routing-protocol.cc:1009-1419 | in every addressed run of the handshake: a node learns from a sealed hello, by truncation, iff it is authenticated and the hello was sealed with the ground station's key; else it ignores it |
| `SecureNetwork.AuthenticatedHear` | aerorp-routing-protocol.cc:1009-1419 | so any two authenticated nodes hear each other |
| `Handshake.SetANData` | aerorp-routing-protocol.cc:2492-2512 | the loops pack time, random number and identification into 13 bytes |
| `Handshake.SetGSData` | aerorp-routing-protocol.cc:2587-2620 | the loops pack time, both random numbers, identification and the 256 key bytes into 273 bytes |
| `Handshake.AnBytesInjective` | aerorp-routing-protocol.cc:2492-2512 | the 13 signed bytes determine the three fields |
| `Handshake.GsBytesInjective` | aerorp-routing-protocol.cc:2587-2620 | the 273 signed bytes determine the four fields and the encrypted key |
| `Handshake.AuthNode.SendAuthenticationRequestPacket` | aerorp-routing-protocol.cc:2436-2489 | a request with the own certificate, random number and identification 0, signed |
| `Handshake.AuthNode.SendAuthenticationReplyPacket` | aerorp-routing-protocol.cc:2515-2584 | a reply to the requester's address with the key sealed for the requester, signed |
| `Handshake.AuthNode.RecvAERORP` | aerorp-routing-protocol.cc:1027-1160 | a valid request is answered; a valid reply with the own random number authenticates and sets the key; any other reply ends an authentication |
| `Handshake.SignedFieldsMatch` | aerorp-routing-protocol.cc:2791-2812 | an accepted request has the fields its signer signed |
| `Handshake.ReplyTakenIff` | aerorp-routing-protocol.cc:1100-1158 | a reply authenticates iff identification, time, certificate, own random number and the signature by the certificate's owner over exactly its fields are right; it sets the key if sealed for the node; any other reply ends an authentication |
| `Handshake.RequestAnsweredIff` | aerorp-routing-protocol.cc:1027-1097 | a request is answered iff identification, time, certificate and signature are right, to where it came from, with the key sealed for the certificate's owner |
| `Handshake.SignedReplyMatches` | aerorp-routing-protocol.cc:2791-2812 | a reply that authenticates has the fields that its certificate's owner signed |
| `HandshakeRuns.StepKeeps` | aerorp-routing-protocol.cc:1027-1160 | every delivery, of any sent message to any node any number of times, and every message an outsider sends, keeps the invariant on the origin of messages |
| `HandshakeRuns.AddressedAgreement` | aerorp-routing-protocol.cc:1027-1160 | with distinct addresses and messages delivered where they were sent, every authenticated airborne node holds the ground station's key, and the ground station answered its request with its random number, whatever the random numbers |
| `HandshakeRuns.AddressedAuthenticatesIff` | aerorp-routing-protocol.cc:2872-2886 | then, with the ground station at the address that requests go to, a node can be authenticated in some run iff its own address identifies it |
| `HandshakeRuns.AgreementWithoutClash` | aerorp-routing-protocol.cc:1027-1160 | the same for a network that delivers any sent message to any node, if no two airborne nodes clash |
| `HandshakeRuns.ClashBreaksAgreement` | aerorp-routing-protocol.cc:1141-1160 | in such a network, with a clash, a run authenticates a node that was never answered, leaving its key buffer as it was |
| `HandshakeRuns.AgreementIff` | aerorp-routing-protocol.cc:1027-1160 | in such a network agreement holds in all runs iff no two airborne nodes clash |
| `HandshakeRuns.AuthenticatesIff` | aerorp-routing-protocol.cc:2872-2886 | in such a network a node can be authenticated in some run iff some airborne node's reply fits it; without a clash iff its own address identifies it |
| `HandshakeRuns.ConsecutiveAddresses` | aerorp-routing-protocol.cc:1081 | with consecutive addresses from 192.168.1.1 on, exactly the nodes below 256 are identified by their address, and these do not clash |
| `HandshakeReplays.ReplayAgreement` | aerorp-routing-protocol.cc:1027-1160 | with messages repeated, altered in their unsigned parts, and signatures reused, in every run: an authenticated airborne node that shares its random number with no other holds the ground station's key, and the ground station answered a request that this node signed |

## Left out

- Callbacks (drop, forward, error, receive) are recorded, and do not call back into the same object.
- Unsigned 32-bit wrap-around of counters, sizes, slot numbers and the number of columns is not modelled.
- TdmaDelivery.WaitingBound: a packet that does not fit its owner's session blocks those behind it until it expires, so nothing is promised behind one.
- Transmission times and guard times are exact quotients, truncated, where the source goes through floating-point seconds.
- TdmaModel.Same: slot counts are unbounded, where the source counts in 32 bits.
- MacQueue.EnqueueKeepsBound: lowering the limit below the current length is excluded, because the source tests equality only.
- RequestLedger.Conservation: a limit of zero is excluded, because the source then reads the front of an empty vector; the timeout and the limit do not change during a run.
- TdmaArrivals.ReceptionsSeparated: distances are arbitrary at each frame, so mobility itself is not modelled.
- NeighborTable.WhenNever: relative distance and speed are parameters over reals and zero relative speed is excluded, because the source divides by it in floating point; the trigonometry behind the relative speed is not part of this model.
- NeighborTable.NeighborTable.BestNeighbor: the time to intercept is an arbitrary function of target, position and velocity.
- GreedyLoops.LoopFree: one snapshot of positions and tables serves the whole path, and the IP time to live, which ends a loop in the end, is not modelled.
- GreedyLoops.HellosLoop: the nodes fly along one axis towards the target.
- Greedy.RouteOutput: the broadcast and ground-station branches and the encryption of data packets are not modelled.
- SecureHello.RecvAERORP: ground-station location messages have the outcome Other.
- SecureHello.OtherwiseIgnored: authenticated encryption is ideal, that is, a sealed text opens under its own key, vector and additional data only; `SecureHello.AssumptionsMet` shows that this can be met.
- GreedyLoops.SourceComesBack: the relative speed of a receding node is any negative number.
- SecureHello.WrapHello: security mode is on, and only packets of the hello's size are modelled.
- Handshake.AuthNode.RecvAERORP: the timestamp test is an arbitrary answer, because the source discards the conversion of the received time; certificates are trusted when the network's authority issued them; keys and signatures are ideal.
- HandshakeRuns.StepKeeps: nobody signs with the key of a node of the network but that node.
- HandshakeReplays.ReplayAgreement: nodes that share a random number are left to `HandshakeRuns.AgreementIff`; encrypted bytes have one content; the address a request came from is not signed, so it is not claimed.
- SlotFile.TdmaSlotAssignmentFileParser.ParseTdmaSlotInformation: node ids beyond the int range, which the C library leaves undefined, are taken modulo 2^32.
- The assertions on packet sizes in the TDMA devices and in the controller (tdma-controller.cc:290), link state callbacks and the low MAC are not modelled.
- Positions of all nodes (a second table much like the neighbour table), ground-station topology headers and the simulation scripts are not modelled.
- Address changes, interface changes, sockets and tracing are not modelled.
