# Verification model of usbvfiod

usbvfiod is a vfio-user server that presents one xHCI controller to virtual machines and can hand
that controller from one VMM to another during a live migration. This project models its hardest
parts in Dafny and proves what they are there for.

| part | files | what is proved |
|---|---|---|
| ownership hand-over | `Ownership`, `SharedBackend`, `HandoverSystem`, `HandoverSafety`, `HandoverDecisions`, `HandoverHistory` | the lock-held sections as methods on one object; an invariant of every interleaving of connections and controllers; isolation of the owner; who follows an owner that dies, and exactly when each decision is taken; epochs as fences; the history behind every commit; reclaim as the inverse of commit |
| interrupts | `Interrupter`, `OwnerSignals`, `EventDelivery` | the worker's queue and the hand-over together: whoever owns the device gets every interrupt, and the driver reads every event written |
| rings | `CycleRing`, `EventRing`, `LinkedRing`, `Trb`, `GuestMemory`, `Modular`, `Bytes` | producer and consumer rings with cycle bits refine plain queues, for every run with a driver that follows sections 4.9.2 and 4.9.4 of the xHCI specification |
| transfers | `InTransfer`, `EndpointWorker`, `EndpointRuns`, `EndpointOnRing`, `InEndpoint` | scattering a reply over a TD, short packets and failures, winding the ring back; the endpoint state machine of section 4.8.3, what it does to the ring, and the whole IN endpoint as a refinement of it |
| memory bus | `Intervals`, `Bus`, `BulkAccess`, `BusMemory`, `DynamicBus` | routing, the bulk splitter, and the replaceable bus; bulk access equals byte access, for devices of any kind, and one flat memory for memory devices |
| wire format | `Words`, `HandoverWire`, `CommandGrammar`, `StatusWire`, `ReplyWire` | the grammar of accepted lines and the reason for each refusal; round trips of commands, status and replies, with the exact condition where they fail |
| PCI configuration space | `RegisterSet`, `ConfigSpace`, `ConfigHeader`, `CapabilityChain` | the header shows the device; the capability chain is found completely, whatever a guest has written |

Objects that the program updates in place are classes. Each of their methods is proved against a
function of the old state; the properties are proved about those functions and about runs, which
are sequences of states where every enabled step may come next. The environment (clock readings,
whether a descriptor can be duplicated, whether a mapping is accepted, what a device replies, what
the guest writes) is an argument of the step, so every statement holds for all of its answers.

## What the code does differently from its documentation

- A connection that does not own the device cannot tear down a mapping while somebody else owns it, but
  it can map at the start address of the owner's memory, and the bus then replaces the owner's mapping:
  with the same size the owner's addresses reach the other connection's memory, with a smaller one part of
  them reach nothing (`StrangerCanTakeOverAMapping`; exactly when, `MapKeepsAddressesExactly`).
- A staged candidate whose connection has ended is still staged. It can be promoted when the owner
  dies without having published memory (`DeadCandidateCanBePromoted`, `DeadSuccessorExactly`), and a
  commit can reach it if coverage is deferred or nothing was published (`CommitCanReachTheDead`,
  `CommitToDeadExactly`).
- Reclaim and the automatic reclaim leave a staged candidate in place, and an unowned device
  keeps its last line. The invariant therefore does not exclude either.
- A capability may end at 0xFD, 0xFE or 0xFF; the offset of the next one then wraps to zero
  (`WalkFindsAllExactly`).
- An error reply whose detail quotes `code=` or `detail=` is misread by the client
  (`ErrorsRoundTripExactly`).
- A device failure is not reported if the reply is complete (`FailureIsReported`).

## Model

| member | source | states |
|---|---|---|
| `SharedBackends.SharedBackendState.Connect` | src/shared_backend.rs:393-403 | connection ids are handed out once each |
| `SharedBackends.SharedBackendState.NoteControllerSeen` | src/shared_backend.rs:363-376 | seeing a control client is remembered |
| `SharedBackends.SharedBackendState.NoteDeviceInventory` | src/shared_backend.rs:378-391 | the device count last reported is remembered |
| `SharedBackends.SharedBackendState.ExpireCandidate` | src/shared_backend.rs:804-817 | a candidate is dropped exactly when its deadline lies before now; everything else stays |
| `SharedBackends.SharedBackendState.InstallRegistration` | src/shared_backend.rs:555-563 | on success the line of this registration is handed over, on failure nothing changes |
| `SharedBackends.SharedBackendState.MakeUnowned` | src/shared_backend.rs:536-549 | owner, previous owner, candidate and lease go, the epoch rises by one, the line stays |
| `SharedBackends.SharedBackendState.Disconnect` | src/shared_backend.rs:449-535 | the whole new state: ranges and liveness go; an owner is followed by the previous owner, else by a checked candidate, else by nobody |
| `SharedBackends.SharedBackendState.ReclaimForPrevious` | src/shared_backend.rs:465-488 | the automatic reclaim happens exactly when enabled, the previous owner is live and its registration can be installed |
| `SharedBackends.SharedBackendState.PromoteCandidate` | src/shared_backend.rs:491-528 | a candidate is promoted exactly when it passes the hard checks against the dead owner's ranges and can be installed |
| `SharedBackends.SharedBackendState.HandoverStatus` | src/shared_backend.rs:575-606 | a status reply shows the state after expiry |
| `SharedBackends.SharedBackendState.HandoverWatchLook` | src/shared_backend.rs:608-628 | one look of a watching controller |
| `SharedBackends.SharedBackendState.HandoverReady` | src/shared_backend.rs:635-652 | readiness is recorded for the staged connection only; each refusal has its error |
| `SharedBackends.SharedBackendState.HandoverAbort` | src/shared_backend.rs:654-684 | only the staged connection is dropped; each refusal has its error |
| `SharedBackends.SharedBackendState.HandoverCommit` | src/shared_backend.rs:686-756 | the order of the checks, the error of each, and the whole state of a commit |
| `SharedBackends.SharedBackendState.HandoverReclaim` | src/shared_backend.rs:762-794 | the order of the checks, the error of each, and the whole state of a reclaim |
| `SharedBackends.SharedBackend.DmaMap` | src/shared_backend.rs:980-997 | an accepted range is recorded for its connection and replaces a mapping at the same start; a refused one changes nothing |
| `SharedBackends.SharedBackend.DmaUnmap` | src/shared_backend.rs:999-1025 | a stale teardown changes nothing; otherwise exactly the named range is forgotten |
| `SharedBackends.SharedBackend.SetIrqs` | src/shared_backend.rs:1045-1148 | claiming, re-registering, silencing, staging and parking, with the whole new state of each |
| `SharedBackends.SharedBackend.ParkedLook` | src/shared_backend.rs:1155-1205 | one look of a parked registration: owner, no longer staged, deadline passed, or still waiting |
| `HandoverSystem.StepKeepsInv` | src/shared_backend.rs:449-549 | every step of every participant keeps: owner and registration set together, likewise previous owner; each registration sent by whom it is recorded for; a candidate implies an owner; ranges only of live connections |
| `HandoverSystem.SetIrqsIsSound` | src/shared_backend.rs:1045-1148 | registrations keep roles, registrations and line in agreement |
| `HandoverSystem.ReachableOwnerHoldsLine` | src/shared_backend.rs:555-563 | in every reachable state with an owner the line is the registration that owner sent, or the silence it asked for |
| `HandoverSafety.StrangerLeavesOwnershipAlone` | src/shared_backend.rs:1045-1148 | no step of another connection changes line, owner, previous owner, registrations, epoch or lease |
| `HandoverSafety.StrangerUnmapsNothing` | src/shared_backend.rs:999-1025 | no step of another connection but a mapping request changes the DMA bus |
| `HandoverSafety.MapKeepsAddressesExactly` | src/dynamic_bus.rs:42-63 | an accepted mapping leaves a connection all the addresses it had if and only if no mapping with memory of that connection starts at the same address, its own one of at most the new size excepted |
| `HandoverSafety.OwnerKeepsAddresses` | src/shared_backend.rs:980-1025 | in every stretch of a run the owner keeps all its addresses as long as nobody else maps where its memory starts |
| `HandoverSafety.StrangerCanTakeOverAMapping` | src/shared_backend.rs:980-997 | two whole runs: another connection's mapping of the same size takes the owner's memory over, a smaller one leaves part of it with nobody |
| `HandoverSafety.CoverageIsPerRange` | src/shared_backend.rs:896-901 | the coverage check holds exactly if each needed range has all its bytes in one range that is there |
| `HandoverSafety.CoverageNeverOverflows` | src/shared_backend.rs:896-901 | the unchecked additions of the coverage check cannot overflow in reachable states |
| `HandoverSafety.PromotedCandidateCanServe` | src/shared_backend.rs:491-528 | a promoted candidate has eventfds and the owner's vector; all bytes of each range the dead owner published lie in one of its ranges; its line is installed |
| `HandoverSafety.PublishingOwnerHasLiveSuccessor` | src/shared_backend.rs:449-549 | an owner that had published memory is followed by nobody or by a different live connection |
| `HandoverSafety.DeadSuccessorExactly` | src/shared_backend.rs:491-528 | the successor is a dead connection if and only if a candidate that already left is promoted |
| `HandoverSafety.DeadCandidateCanBePromoted` | src/shared_backend.rs:449-530 | a whole run after which a connection that left becomes owner |
| `HandoverSafety.RefusedCommitChangesNothing` | src/shared_backend.rs:686-756 | a refused commit leaves owner, previous owner, epoch, registrations and line; a preflight refusal keeps the candidate |
| `HandoverSafety.MovingCommitWasChecked` | src/shared_backend.rs:833-885 | what the preflight established before a commit that moved the device |
| `HandoverSafety.MovingCommitInstallsCandidate` | src/shared_backend.rs:728-756 | a commit that moves the device makes the candidate owner, installs its line and remembers the incumbent |
| `HandoverSafety.UnmapUndoesMap` | src/shared_backend.rs:980-1025 | unmapping what was just mapped where nothing started before restores the bus and every published range |
| `HandoverSafety.MapPublishes` | src/shared_backend.rs:980-997 | an accepted mapping is published for its connection alone, exactly if the bus can take it; a refused one changes nothing |
| `HandoverDecisions.CommitMovesExactly` | src/shared_backend.rs:686-756 | a commit moves the device if and only if a candidate in time, named with its id and the present epoch, is ready if required, brings only eventfds, matches the owner's vector with a device there if required, covers what the owner published unless that is deferred, and its line can be installed; the whole state then |
| `HandoverDecisions.CommitErrorsExactly` | src/shared_backend.rs:686-727 | with a candidate in time, each error means the first check that fails, and says so exactly |
| `HandoverDecisions.CommitWithoutCandidate` | src/shared_backend.rs:686-703 | without a candidate in time a commit only repeats itself, times out or finds nobody, each exactly when |
| `HandoverDecisions.CommitToDeadExactly` | src/shared_backend.rs:833-885 | a commit hands the device to a dead connection if and only if that is still staged and passes the other checks, and its coverage is deferred or the incumbent published nothing |
| `HandoverDecisions.CommitCanReachTheDead` | src/shared_backend.rs:686-756 | a whole run that ends in such a commit |
| `HandoverDecisions.CandidateErrorsExactly` | src/shared_backend.rs:635-684 | readiness and abort are refused exactly for the reason given |
| `HandoverDecisions.ReclaimExactly` | src/shared_backend.rs:762-794 | a reclaim succeeds if and only if it comes from the live previous owner within its lease with the present epoch and its line can be installed; the whole state then, and each error exactly |
| `HandoverDecisions.SuccessorExactly` | src/shared_backend.rs:449-549 | who follows an owner that is gone, as whole states: the previous owner exactly if automatic reclaim is on, it is live and its line can be installed; else the candidate exactly if it could serve the dead owner's memory; else nobody |
| `HandoverDecisions.RegistrationExactly` | src/shared_backend.rs:1045-1148 | what a registration does by descriptors, shape and owner: silence, claim, move of the line, staging or parking |
| `HandoverDecisions.SilencingInstallsSilence` | src/shared_backend.rs:1055-1068 | the owner's request without descriptors installs its silence |
| `HandoverDecisions.ParkedLookExactly` | src/shared_backend.rs:1155-1205 | a look at a parked registration accepts exactly the owner, and rejects exactly what is neither owner nor candidate or has run out of time |
| `HandoverDecisions.WatchExactly` | src/shared_backend.rs:608-628 | a look of a watching controller is answered exactly if there is a candidate in time, the epoch moved or its time is up |
| `HandoverDecisions.UnmapDropsExactly` | src/shared_backend.rs:999-1025 | an unmapping drops exactly the mappings that start inside the range and the named range, and by a connection that may not unmap it drops nothing |
| `HandoverDecisions.ControllerDecidesDeferral` | src/shared_backend.rs:363-376 | from the first controller on, coverage is deferred exactly if registrations wait at all |
| `HandoverDecisions.NoDeviceNoTakeover` | src/shared_backend.rs:378-391 | after a report of no device nobody takes over where one is required |
| `HandoverDecisions.LiveExactly` | src/shared_backend.rs:393-463 | a connection is live from its arrival to its end |
| `HandoverHistory.StepIsFenced` | src/shared_backend.rs:106-150 | owner, previous owner and its registration change only together with one step of the epoch |
| `HandoverHistory.EpochFencesRoles` | src/shared_backend.rs:106-150 | over whole runs the epoch never falls, and two states with the same epoch have the same roles |
| `HandoverHistory.CommitActsOnObservedOwner` | src/shared_backend.rs:686-727 | a commit that moves the device replaces the owner its caller saw with the epoch it names |
| `HandoverHistory.ReclaimActsOnObservedRoles` | src/shared_backend.rs:762-794 | a reclaim gives the device to the previous owner its caller saw |
| `HandoverHistory.RepeatedCommitIsIdempotent` | src/shared_backend.rs:686-727 | repeating a successful commit with no candidate staged and the epoch unchanged is answered yes and changes nothing |
| `HandoverHistory.ReclaimUndoesCommit` | src/shared_backend.rs:728-794 | for every interleaving that leaves the epoch alone: a reclaim succeeds exactly while the previous owner is live within its lease, and then restores owner, registration and its eventfd |
| `HandoverHistory.CandidateWasRegistered` | src/shared_backend.rs:1104-1148 | a candidate sent the registration it is staged with and has been the candidate ever since, found expired by no step |
| `HandoverHistory.ReadyExactlyWhenDeclared` | src/shared_backend.rs:635-652 | in every run a candidate is ready if and only if it was declared ready within this same unbroken and unexpired candidacy |
| `HandoverHistory.MovingCommitHasHistory` | src/shared_backend.rs:686-756 | the history behind every commit that moved the device: registered, never expired since, declared ready within that same unbroken and unexpired candidacy if required, same vector, covering unless deferred |
| `HandoverHistory.AbortedNeedsNewRegistration` | src/shared_backend.rs:654-684 | after an abort no commit reaches that connection unless it registered again in between |
| `HandoverHistory.LineIsFenced` | src/shared_backend.rs:555-563 | while the epoch stands still only the owner's own registrations move the line |
| `HandoverHistory.RegisteredLineStays` | src/shared_backend.rs:1076-1101 | what an owner registered stays installed, whatever anybody does, until it registers again or the epoch moves |
| `HandoverHistory.RefusalsChangeNothing` | src/shared_backend.rs:635-794 | whatever is refused changes nothing but a candidate that expired, could not be installed by a commit, or had no time to wait in |
| `HandoverHistory.UnansweredWatchMissedNothing` | src/shared_backend.rs:608-628 | while a watch is unanswered the roles are as when it began and no commit can move the device |
| `HandoverHistory.ParkedAnswerIsTrue` | src/shared_backend.rs:1155-1205 | a parked registration is accepted only as owner, refused only when neither owner nor candidate, and answered once its deadline has passed |
| `HandoverHistory.ParkingIsForStrangers` | src/shared_backend.rs:1104-1148 | a registration parks only while somebody else owns the device, and parking changes neither owner nor line |
| `HandoverHistory.AcceptedParkedMeansMoved` | src/shared_backend.rs:1155-1205 | an accepted parked registration means that the device moved to its connection while it waited |
| `Intervals.IntersectionMembers` | src/device/interval.rs:29-31 | an address is in the intersection exactly if it is in both ranges |
| `Intervals.OverlapMeansSharedAddress` | src/device/interval.rs:37-39 | ranges overlap exactly if some address lies in both |
| `Intervals.ContainmentMeansAllAddresses` | src/device/interval.rs:33-35 | a range contains a non-empty one exactly if it has all its addresses |
| `MemoryBus.FirstMatchIsRoute` | src/device/bus.rs:605-633 | first match over disjoint ranges is routing by who contains and who touches the request |
| `MemoryBus.RoutingIgnoresInsertionOrder` | src/device/bus.rs:578-633 | routing does not depend on the order in which devices were added |
| `MemoryBus.Bus.Add` | src/device/bus.rs:578-603 | a device is added exactly if its range fits and overlaps nothing, and the error says which |
| `MemoryBus.Bus.ToDeviceRequest` | src/device/bus.rs:605-633 | the route of a request |
| `MemoryBus.BulkRequestIterator.Next` | src/device/bus.rs:493-554 | chunks follow each other without gap, each inside one device or one default byte, and end with the request |
| `BulkAccess.ReadBulk` | src/device/bus.rs:195-221 | over devices of any kind, side effects included, a bulk read is the ascending sequence of one-byte reads: same bytes, same final state |
| `BulkAccess.WriteBulk` | src/device/bus.rs:223-249 | over devices of any kind a bulk write is the ascending sequence of one-byte writes |
| `BulkAccess.MemoryReads` | src/device/bus.rs:195-221 | memory devices are devices of that kind: their reads |
| `BulkAccess.MemoryWrites` | src/device/bus.rs:223-249 | memory devices are devices of that kind: their writes |
| `MemoryBus.Bus.ReadBulk` | src/device/bus.rs:663-668 | over memory devices, a bulk read fills the buffer with what ascending one-byte reads return |
| `MemoryBus.Bus.WriteBulk` | src/device/bus.rs:670-675 | over memory devices, a bulk write leaves what ascending one-byte writes leave |
| `MemoryBus.DeviceMemory.ReadBulk` | src/device/bus.rs:195-221 | the default byte loop of a device read |
| `MemoryBus.DeviceMemory.WriteBulk` | src/device/bus.rs:223-249 | the default byte loop of a device write |
| `MemoryBus.WritesInsideOneDevice` | src/device/bus.rs:223-249 | one-byte writes inside one device add up to one splice of its bytes |
| `BusMemory.BulkReadIsFlatRead` | src/device/bus.rs:663-668 | over a bus, guest memory reads like one flat map of bytes |
| `BusMemory.BulkWriteIsFlatWrite` | src/device/bus.rs:670-675 | over a bus whose devices are all different, a bulk write is a write to that flat map |
| `DmaBus.DynamicBus.Build` | src/dynamic_bus.rs:84-91 | a bus is built exactly if all mappings fit and are disjoint, and then holds exactly them |
| `DmaBus.DynamicBus.Add` | src/dynamic_bus.rs:42-63 | adding succeeds exactly if the range fits and avoids every mapping with another start; failing changes nothing; the published bus is the one built from the list |
| `DmaBus.DynamicBus.RemoveRange` | src/dynamic_bus.rs:65-82 | removing never fails and drops exactly the mappings that start inside the range |
| `DmaBus.UpsertIsMappable` | src/dynamic_bus.rs:42-63 | when replacing a mapping can be published |
| `DmaBus.RemappingAlwaysWorks` | src/dynamic_bus.rs:42-63 | mapping the same range again can never be refused |
| `DmaBus.RemovingAlwaysWorks` | src/dynamic_bus.rs:65-82 | what is left after a removal can always be published |
| `DmaBus.AddKeepsOtherRoutes` | src/dynamic_bus.rs:42-63 | an add changes no route outside the replaced and the new range |
| `DmaBus.AddedRangeReachesDevice` | src/dynamic_bus.rs:42-63 | requests inside a new range reach its device |
| `DmaBus.WithoutUndoesUpsert` | src/dynamic_bus.rs:42-82 | removing what was just added where nothing started before restores the mappings |
| `CycleRings.Publish` | src/device/xhci/event_ring.rs:126-158 | writing the next slot with its cycle bit appends to the log |
| `CycleRings.PollReadsLog` | src/device/xhci/linked_ring.rs:93-114 | a consumer at most a turn behind reads the log in order and nothing stale |
| `Trbs.EventRoundTrip` | src/device/xhci/trb.rs:50-229 | every event is read back from its sixteen bytes, whatever the cycle bit |
| `Trbs.EventLayout` | src/device/xhci/trb.rs:50-229 | the sixteen bytes of each event, reserved ones zero |
| `Trbs.LinkRoundTrip` | src/device/xhci/trb.rs:449-474 | every aligned link TRB a driver writes is read back |
| `Trbs.TransferRoundTrip` | src/device/xhci/trb.rs:832-915 | every Normal and No Op TRB a driver writes is read back |
| `Trbs.LinkPointerIsAligned` | src/device/xhci/trb.rs:449-474 | link targets are aligned after masking |
| `Trbs.TransferKinds` | src/device/xhci/trb.rs:832-915 | a TRB on a transfer ring is told by its type number, and by no bytes but those of its fields |
| `Trbs.SetTrDequeuePointerRoundTrip` | src/device/xhci/trb.rs:748-772 | an aligned pointer and a cycle state come out of the command as they were put in |
| `Trbs.SetTrDequeuePointerIsAligned` | src/device/xhci/trb.rs:748-772 | the pointer of a Set TR Dequeue Pointer command is the given one with its low four bits dropped |
| `Trbs.NormalLengthFits` | src/device/xhci/trb.rs:883-915 | no residue overflows its field |
| `EventRings.EntryReadsBack` | src/device/xhci/event_ring.rs:90-117 | sixteen bytes with base, size and four reserved zeroes, as section 6.5 lays them out, are read as that base and size |
| `EventRings.TableSays` | src/device/xhci/event_ring.rs:199-234 | each entry of a table written that way is read as its segment |
| `EventRings.EventRing.Configure` | src/device/xhci/event_ring.rs:90-117 | the ring starts at segment 0 of the table, with the segment index left as it was |
| `EventRings.EventRing.Enqueue` | src/device/xhci/event_ring.rs:126-158 | the event is written at the enqueue pointer and the ring moves on |
| `EventRings.EventRing.CheckEventRingFull` | src/device/xhci/event_ring.rs:173-197 | fullness as a function of ring, table and dequeue pointer |
| `EventRings.EventRing.AdvanceSegmentOrWrap` | src/device/xhci/event_ring.rs:199-234 | the next segment, or the first one with the cycle bit flipped |
| `EventRings.FullExactly` | src/device/xhci/event_ring.rs:173-197 | the ring is full exactly when one more event would meet the driver's position |
| `EventRings.EnqueueAdvances` | src/device/xhci/event_ring.rs:126-234 | enqueueing refines a counter: position p is slot p mod N with the cycle bit of pass p div N |
| `EventRings.DriverReadsWhatWasSent` | src/device/xhci/event_ring.rs:90-234 | in every run over disjoint segments the driver has read exactly the first events sent, in order; its next poll finds the next one or nothing |
| `LinkedRings.LinkedRing.NextTrb` | src/device/xhci/linked_ring.rs:53-91 | the next TRB that is no link, after at most 256 links on any memory, and where the ring stands then |
| `LinkedRings.LinkedRing.Advance` | src/device/xhci/linked_ring.rs:116-119 | one TRB further, wrapping at 64 bits |
| `LinkedRings.SnapshotFindsTheSameTrb` | src/device/xhci/linked_ring.rs:53-124 | pointer and cycle state of a returned TRB find it again while its bytes are unchanged |
| `LinkedRings.ChaseReadsLog` | src/device/xhci/linked_ring.rs:53-91 | against a driver that keeps the cycle discipline, chasing stands on the first entry that is no link |
| `LinkedRings.RingYieldsPayload` | src/device/xhci/linked_ring.rs:53-124 | in every run the TRBs taken are the first of the driver's non-link TRBs, in order; coming back empty-handed loses nothing |
| `LinkedRings.PeekKeepsStep` | src/device/xhci/linked_ring.rs:53-91 | looking without taking only moves past links, and looking again finds the same |
| `LinkedRings.RewindFetchesAgain` | src/device/xhci/linked_ring.rs:121-124 | going back to a recorded pointer and cycle state fetches the same TRB, across toggling links |
| `InTransfers.TdBasedInEndpointHandle.SubmitTrb` | src/device/xhci/endpoint_handle.rs:699-751 | TRBs are collected until the chain ends; then one request over their lengths is made; refusals and unsupported TRBs |
| `InTransfers.TdBasedInEndpointHandle.NextCompletion` | src/device/xhci/endpoint_handle.rs:753-779 | what a completion returns in each state, what it writes and which events it sends |
| `InTransfers.TdBasedInEndpointHandle.Cancel` | src/device/xhci/endpoint_handle.rs:992-997 | cancelling drops what was collected |
| `InTransfers.ProcessRealTransferResponse` | src/device/xhci/endpoint_handle.rs:781-821 | memory, events and result of a reply, by prefix sums of the lengths |
| `InTransfers.TdProcessingInfo.ProcessTrb` | src/device/xhci/endpoint_handle.rs:845-869 | one TRB: either it is dealt with as the sums say, or the transfer ends with its outcome |
| `InTransfers.TdProcessingInfo.ProcessNormalTrb` | src/device/xhci/endpoint_handle.rs:871-986 | one Normal TRB: bytes written, event, state, early end |
| `InTransfers.FirstShortCrosses` | src/device/xhci/endpoint_handle.rs:893-900 | a TRB is short exactly if the reply is shorter than the TD, and it is the only one where the sum crosses |
| `InTransfers.WorkFollowsPlan` | src/device/xhci/endpoint_handle.rs:871-986 | working TRB by TRB does what the prefix sums say |
| `InTransfers.TdBecomesOneRequest` | src/device/xhci/endpoint_handle.rs:728-748 | a TD becomes exactly one request, for the sum of its lengths |
| `InTransfers.SharesMakeTheReply` | src/device/xhci/endpoint_handle.rs:887-892 | the bytes scattered, in TRB order, are the prefix of the reply that was asked for |
| `InTransfers.BuffersHoldTheirShares` | src/device/xhci/endpoint_handle.rs:887-900 | every buffer starts with its share and is otherwise unchanged |
| `InTransfers.NothingAfterTheShortage` | src/device/xhci/endpoint_handle.rs:894-960 | no byte is written for a TRB behind the first short one |
| `InTransfers.FailureIsReported` | src/device/xhci/endpoint_handle.rs:919-957 | a transfer fails exactly if the device failed and the reply was short; the last event names the first unfilled TRB, and lengths up to it less the residue are what arrived |
| `InTransfers.ShortageIsReported` | src/device/xhci/endpoint_handle.rs:897-917 | a short TRB and the Normal TRBs behind it report the same shortage if they ask for it, never success |
| `InTransfers.FilledTrbsReportExactly` | src/device/xhci/endpoint_handle.rs:952-976 | up to the shortage each No Op or Normal TRB that asks gets exactly one success event, in TRB order, and there are no others |
| `InTransfers.TransferReportsExactly` | src/device/xhci/endpoint_handle.rs:781-986 | all events of a transfer in order: successes of filled TRBs that ask, the event of the TRB where the reply ran out, and those of the TRBs behind it |
| `InEndpoint.FailureNamesFirstUnfilled` | src/device/xhci/endpoint_handle.rs:919-946 | a stall or transaction error names pointer and cycle state of the first unfilled TRB, taken before or still waited for |
| `InEndpoint.FailureStandsOnFirstUnfilled` | src/device/xhci/endpoint.rs:134-150 | the worker then stands on that TRB: its ring finds it, and submits it after a reset and a doorbell |
| `InEndpoint.InEndpointRefinesWorker` | src/device/xhci/hotplug_endpoint_handle.rs:24-34 | every run of worker, ring and IN handle, whatever the device answers, is a run of the worker on its ring |
| `InEndpoint.WindingBackFindsTheFailedTrb` | src/device/xhci/endpoint.rs:133-150 | in every run a failed TD leaves the ring exactly at the first TRB whose buffer was not filled, across links that toggled the cycle state |
| `InEndpoint.OutcomeDecidesState` | src/device/xhci/hotplug_endpoint_handle.rs:24-34 | in every run what the handle holds and what the device answers decide whether the endpoint goes on, halts, stops in error or ends |
| `EndpointWorkers.EndpointContext.SetDequeuePointerAndCycleState` | src/device/xhci/slot_manager.rs:738-748 | pointer and cycle state are written to the context |
| `EndpointWorkers.EndpointContext.GetDequeuePointerAndCycleState` | src/device/xhci/slot_manager.rs:723-732 | pointer and cycle state are read from the context |
| `EndpointWorkers.CursorIsSet` | src/device/xhci/slot_manager.rs:723-748 | what is written to the context is what is read from it |
| `EndpointWorkers.EndpointWorker.Launch` | src/device/xhci/endpoint.rs:67-89 | the worker starts running at the pointer the context holds |
| `EndpointWorkers.EndpointWorker.TakeMessage` | src/device/xhci/endpoint.rs:102-238 | the new state for every message in every listening state, and when the device fails it |
| `EndpointWorkers.EndpointWorker.TakeCompletion` | src/device/xhci/endpoint.rs:129-161 | the new state for every completion |
| `EndpointWorkers.EndpointWorker.Proceed` | src/device/xhci/endpoint.rs:119-127 | looking for a TRB, setting a pointer, terminating |
| `EndpointWorkers.EndpointWorker.ContextStateError` | src/device/xhci/endpoint.rs:263-269 | a message that does not fit is answered with a context state error if it waits for an answer |
| `EndpointRuns.StepKeepsInv` | src/device/xhci/endpoint.rs:100-249 | context and worker agree after every input |
| `EndpointRuns.RestingContextIsTrue` | src/device/xhci/endpoint.rs:100-249 | in Stopped, StoppedWithContinuableTrb, Halted and Error the context holds the matching state and the ring's pointer and cycle state |
| `EndpointRuns.PointerStaysAligned` | src/device/xhci/slot_manager.rs:738-744 | over all runs the assertion on the alignment of the pointer cannot fail |
| `EndpointRuns.EveryCommandIsAnsweredOnce` | src/device/xhci/endpoint.rs:54-64 | every Stop, Reset and Set TR Dequeue Pointer taken is answered once and in order, at most one being outstanding; only the one during which the device fails stays unanswered |
| `EndpointRuns.CommandsAreJudgedByVisibleState` | src/device/xhci/endpoint.rs:162-238 | a command is refused exactly if it does not fit the state the driver sees, and a refusal changes nothing |
| `EndpointRuns.VisibleStateFollowsDiagram` | src/device/xhci/endpoint.rs:100-249 | the state the driver sees follows the diagram of section 4.8.3, with the cause of each edge |
| `EndpointRuns.NewPointerTakesEffect` | src/device/xhci/endpoint.rs:229-238 | an accepted new pointer is where ring and context stand after the next step, in a stopped endpoint, and the command is answered with Success |
| `EndpointRuns.TerminationExactly` | src/device/xhci/endpoint.rs:110-247 | a request to terminate disables the endpoint by the next step, except while a TRB is awaited and in Error, where it is dropped |
| `EndpointRuns.FailingDeviceEndsWorker` | src/device/xhci/endpoint.rs:92-100 | a device that fails when it is called ends the worker where it stands |
| `EndpointRuns.DoorbellMakesItLook` | src/device/xhci/endpoint.rs:103-228 | a doorbell makes the worker look for a TRB exactly if the driver sees the endpoint running or stopped and no TRB is awaited |
| `EndpointRuns.WaitsOnlyAfterLookingInVain` | src/device/xhci/endpoint.rs:103-127 | a worker waits for a doorbell only since its launch or a look that found no fresh TRB |
| `EndpointOnRing.LaunchStartsRun` | src/device/xhci/endpoint.rs:67-89 | launching over a fresh ring starts a run, and the driver sees a running endpoint |
| `EndpointOnRing.LookFindsExactly` | src/device/xhci/endpoint.rs:119-127 | a look submits the next TRB of the payload exactly if one is within 256 links, and waits for a doorbell otherwise |
| `EndpointOnRing.DoorbellSubmitsNext` | src/device/xhci/endpoint.rs:103-127 | no doorbell is lost: rung while the worker waits for it or is stopped, its next step submits exactly the next TRB of the payload if one is within reach by then |
| `EndpointOnRing.LookSubmitsNext` | src/device/xhci/endpoint.rs:119-127 | the TRB submitted is the next of the driver's payload |
| `EndpointOnRing.CompletionTakesNext` | src/device/xhci/endpoint.rs:130-133 | a completed TRB is the one submitted last, and the next of the payload |
| `EndpointOnRing.FailureWindsBack` | src/device/xhci/endpoint.rs:134-150 | a failure that names a TRB taken or awaited puts worker and ring back onto it together |
| `EndpointOnRing.FailureGoesBack` | src/device/xhci/endpoint.rs:134-150 | after a failure that names any TRB taken or waited for, a reset and a doorbell, that TRB is submitted next |
| `EndpointOnRing.CompletesPayloadInOrder` | src/device/xhci/endpoint.rs:100-249 | through stops, doorbells, resets and failures, going back included, the completed TRBs are the first of the payload, each once, in order, and a submitted TRB is the next one |
| `Interrupters.EventWorker.ConfigureOnNotification` | src/device/xhci/interrupter.rs:160-171 | a table address written while waiting configures the ring, a bad one ends the worker |
| `Interrupters.EventWorker.HandleWhileWaiting` | src/device/xhci/interrupter.rs:176-192 | before configuration events are dropped, lines and resets are not |
| `Interrupters.EventWorker.HandleConfigured` | src/device/xhci/interrupter.rs:196-254 | an event is written and then signalled; a new line is signalled once; a reset goes back to waiting |
| `Interrupters.EventWorker.Drain` | src/device/xhci/interrupter.rs:196-254 | working through a queue |
| `Interrupters.PromptLosesNothing` | src/device/xhci/interrupter.rs:196-254 | at every loop head each event written since the last configuration was followed by a signal on the present line |
| `Interrupters.HandlingStaysPrompt` | src/device/xhci/interrupter.rs:196-266 | every message keeps that, and the segment index zero while waiting |
| `Interrupters.LastLineAfterHead` | src/device/xhci/interrupter.rs:123-128 | messages are taken in order, so the last line handed over decides |
| `Interrupters.ConfigurationStartsQueue` | src/device/xhci/interrupter.rs:160-171 | a configured worker starts an empty queue, because its segment index is zero |
| `Interrupters.WritingIsSending` | src/device/xhci/interrupter.rs:196-206 | a worker on such a queue can write an event exactly if the driver has acknowledged enough, and then sends it; otherwise it ends |
| `OwnerSignals.MessagesAreTakenInOrder` | src/device/xhci/interrupter.rs:115-141 | in every run what the worker has taken and what is queued are together all that device, controller and hand-over sent, in order |
| `OwnerSignals.WaitingWorkerOnlyListens` | src/device/xhci/interrupter.rs:176-192 | before configuration and after a reset events are dropped, lines taken over and registers cleared; the worker stays alive and waiting |
| `OwnerSignals.WaitsUntilWoken` | src/device/xhci/interrupter.rs:176-192 | in every run a waiting worker stays so until it is woken, and writes nothing meanwhile |
| `OwnerSignals.ResetStartsOver` | src/device/xhci/interrupter.rs:248-266 | a reset makes the worker wait again with ring and registers cleared, on the line it has |
| `OwnerSignals.NotificationExactly` | src/device/xhci/interrupter.rs:160-171 | the first write of the table's address configures the ring exactly if that address without its low five bits is a multiple of 64 and the table has an entry; otherwise the worker ends |
| `OwnerSignals.ConfiguredFromTable` | src/device/xhci/event_ring.rs:90-117 | a configured worker stands on the segment in the first entry of the table |
| `OwnerSignals.WorkerEndsExactly` | src/device/xhci/event_ring.rs:136-147 | in every run the worker ends in two ways only: woken without a proper table, or by an event without room |
| `OwnerSignals.StepInstallsAtMostOne` | src/shared_backend.rs:555-563 | a hand-over step sends at most one line to the worker |
| `OwnerSignals.OwnerMissesNoInterrupt` | src/device/xhci/interrupter.rs:196-254 | in every run of server, device, guest and worker: with no line change under way the worker signals the owner's line and every event written has been followed by a signal on it; the ring is only configured with segment index 0 |
| `OwnerSignals.DrainedWorkerSignalsOwner` | src/device/xhci/interrupter.rs:196-254 | a worker that gets through its queue ends on the owner's line with nothing unsignalled |
| `EventDelivery.DriverReadsWhatWorkerWrote` | src/device/xhci/interrupter.rs:160-254 | in every session of server, worker and driver, through hand-overs, the driver reads exactly the events written since the configuration, in order, each followed by a signal on the present line |
| `EventDelivery.WorkerDiesOfFullRingOnly` | src/device/xhci/event_ring.rs:136-147 | within a session the worker dies exactly when an event comes while the driver's acknowledgements are a full turn behind |
| `HandoverWire.ParseCommand` | src/hotplug_protocol/handover.rs:99-164 | the words of a line decide, with the error for each malformed line |
| `HandoverWire.CommandsRoundTrip` | src/hotplug_protocol/handover.rs:80-164 | parsing an encoded command gives it back, an abort reason with normalised whitespace |
| `HandoverWire.AcceptedLinesAreCanonical` | src/hotplug_protocol/handover.rs:80-164 | every accepted line stands for a command that its own encoding brings back unchanged |
| `HandoverWire.EncodedIsOneLine` | src/hotplug_protocol/handover.rs:80-98 | no encoded command contains a line break |
| `CommandGrammar.AcceptedExactly` | src/hotplug_protocol/handover.rs:99-164 | words are accepted as a command if and only if they are a line of the grammar for that command |
| `CommandGrammar.RefusedExactly` | src/hotplug_protocol/handover.rs:99-164 | each complaint is made exactly when its word is the first that is missing or wrong |
| `CommandGrammar.TrailingExactly` | src/hotplug_protocol/handover.rs:158-162 | the first word too many is complained about exactly if all words before it are in order |
| `CommandGrammar.ReadsNumeral` | src/hotplug_protocol/handover.rs:104-129 | a word is read as a number exactly if it is decimal digits, possibly after a plus sign, for a number below 2^64 |
| `Words.JoinsWithOneSpace` | src/hotplug_protocol/handover.rs:140-147 | the words of a reason are joined with single spaces |
| `Words.NormalisingIsIdempotent` | src/hotplug_protocol/handover.rs:140-147 | normalising whitespace twice is normalising it once |
| `Words.JoinedWordsAreOneLine` | src/hotplug_protocol/handover.rs:140-147 | a normalised reason never contains a line break |
| `Words.NumbersRoundTrip` | src/hotplug_protocol/handover.rs:104-129 | every 64-bit number survives being written and read |
| `StatusWire.ParseSnapshot` | src/hotplug_protocol/handover.rs:338-365 | the fields of a line are read one after the other |
| `StatusWire.SnapshotRecoversStatus` | src/shared_backend.rs:250-270 | a controller recovers every field it keeps from the rendered status, for any live connections |
| `StatusWire.ControllerSeesState` | src/shared_backend.rs:250-270 | in every reachable state a controller reads the state's owner, previous owner, candidate, readiness and epoch out of the status line |
| `StatusWire.StatusLineReads` | src/shared_backend.rs:250-270 | the words of the line: twelve fields with their keys in this order, then the list of live connections |
| `StatusWire.ListReads` | src/shared_backend.rs:250-270 | the list has its numbers between brackets, with a comma and a space between them |
| `StatusWire.StatusShowsState` | src/shared_backend.rs:575-606 | the status lists each live connection once in ascending order, the device count and the policy |
| `StatusWire.OtherFieldsAreInert` | src/hotplug_protocol/handover.rs:338-365 | a field with none of the nine keys is passed over |
| `ReplyWire.ParseReply` | src/hotplug_protocol/handover.rs:215-246 | what a client makes of a reply line |
| `ReplyWire.BodiesRoundTrip` | src/hotplug_protocol/handover.rs:207-219 | the body of a reply comes back exactly if it does not start with whitespace |
| `ReplyWire.ErrorsRoundTripExactly` | src/hotplug_protocol/handover.rs:207-246 | an error comes back exactly if its detail is normalised and no word behind the first looks like a field |
| `ReplyWire.RefusedExactly` | src/hotplug_protocol/handover.rs:215-246 | a line is refused exactly if it starts with neither ok nor err, or is an error whose last code is empty or that gives none |
| `ReplyWire.QuotedFieldIsMistaken` | src/hotplug_protocol/handover.rs:228-240 | a concrete detail that does not come back |
| `RegisterSets.RegisterSetBuilder.InitLe` | src/device/register_set.rs:60-106 | a little-endian value with little-endian masks |
| `RegisterSets.RegisterSetBuilder.RegisterSetAt` | src/device/register_set.rs:221-241 | a part keeps its values and masks where it is placed |
| `RegisterSets.RegisterSetBuilder.Build` | src/device/register_set.rs:244-261 | the built set has the values and masks of the builder |
| `RegisterSets.RegisterSet.Write` | src/device/register_set.rs:347-364 | a guest's write under the masks, byte by byte |
| `RegisterSets.RegisterSet.WriteDirect` | src/device/register_set.rs:286-298 | a device's write past the masks |
| `RegisterSets.RegisterSet.Read` | src/device/register_set.rs:316-338 | the little-endian number of the addressed bytes |
| `RegisterSets.WriteObeysMasks` | src/device/register_set.rs:347-364 | fixed bits keep their value, writable bits take the new one, W1C bits are cleared by ones |
| `RegisterSets.WritesKeepFixedBits` | src/device/register_set.rs:347-364 | over any sequence of writes masks and fixed bits stay and W1C bits only fall |
| `RegisterSets.DirectWritesReadBack` | src/device/register_set.rs:286-338 | what the device stores it reads back; masks and other bytes stay |
| `RegisterSets.GuestWritesReadBack` | src/device/register_set.rs:347-364 | writable bytes read back as a guest wrote them; masks and other bytes stay |
| `Bytes.LowestByteFirst` | src/device/register_set.rs:60-106 | byte i of a little-endian number has the weight of the i-th power of 256 |
| `ConfigSpaces.ConfigSpaceBuilder.constructor` | src/device/pci/config_space.rs:79-125 | the standard fields, and where the first capability will go |
| `ConfigSpaces.ConfigSpaceBuilder.AddCapability` | src/device/pci/config_space.rs:238-269 | header, registers and pointer of a capability, and the next offset in eight bits |
| `ConfigSpaces.ConfigSpaceBuilder.Build` | src/device/pci/config_space.rs:349-390 | the last fields and the end of the chain |
| `ConfigSpaces.CapabilityIterator.Next` | src/device/pci/config_space.rs:412-433 | one step along the chain |
| `CapabilityChain.PlacementsAscend` | src/device/pci/config_space.rs:250-256 | capabilities lie behind each other without overlap |
| `CapabilityChain.TakesOneMoreExactly` | src/device/pci/config_space.rs:238-256 | the builder takes one more capability exactly if it ends by offset 0xFF |
| `CapabilityChain.PlacementsAreTight` | src/device/pci/config_space.rs:250-256 | the first capability starts at 0x40, each further one at the first aligned offset behind the one before |
| `CapabilityChain.FinishedHoldsAll` | src/device/pci/config_space.rs:238-390 | in the finished space every capability has its pointer, ID and registers |
| `CapabilityChain.WalkFindsAll` | src/device/pci/config_space.rs:412-433 | the walk yields exactly the placements, in order, and ends |
| `CapabilityChain.WalkFindsAllExactly` | src/device/pci/config_space.rs:250-256 | among accepted lists it does so if and only if no capability but the last reaches past 0xFC |
| `CapabilityChain.SecondCapabilityMayLandAtZero` | src/device/pci/config_space.rs:250-256 | a concrete accepted list whose second capability is placed over the vendor ID |
| `CapabilityChain.ChainSurvivesWrites` | src/device/register_set.rs:347-364 | after any sequence of guest writes the walk and the capability IDs are the same |
| `CapabilityChain.StatusAnnouncesChain` | src/device/pci/config_space.rs:366-374 | the status register reads as the given status with bit 4 set exactly if it was set or there is a capability |
| `CapabilityChain.FinishedIsDisjoint` | src/device/register_set.rs:244-261 | the builder's own check of the masks passes |
| `ConfigHeader.HeaderShowsDevice` | src/device/pci/config_space.rs:79-125 | every byte of the header but the status, with the bits a guest may write, is what the builder was told |
| `ConfigHeader.IdentityReads` | src/device/pci/config_space.rs:79-92 | vendor and device ID read as given |
| `ConfigHeader.HeaderSurvivesWrites` | src/device/register_set.rs:347-364 | every fixed byte of the header stays, whatever a guest writes |

## Left out

- Sockets, descriptors, `mmap`, USB transfers, the asynchronous runtime, logging and packet capture: foreign calls. Whether a descriptor is an eventfd is a property of the descriptor.
- Test hooks (the `USBVFIOD_*` variables and the disabled owner guard): the guarded build is modelled.
- Integer width of epochs, connection ids and deadlines: they are unbounded, and a run ends before 2^64 - 1 connections; a commit that names the reserved id `u64::MAX` while nobody owns the device is outside the runs.
- One clock reading stands for all readings inside one lock-held section.
- Atomic memory orderings and torn accesses: guest memory is a sequentially consistent map of bytes, and a bulk access is one step.
- Accesses that wrap around or touch the last byte of the address space.
- Configuring the hand-over while it runs: policies are fixed at the start.
- Recovery from a full event ring and Event Data TRBs, which the program does not implement: the ring is kept from filling and TDs hold none.
- Event ring tables that change while in use: the queue property needs a table with fixed contents.
- Flag bits of the dequeue pointer register: it holds the plain address.
- OUT endpoints, control endpoints and the command ring: OUT keeps no collected state that a cancel could preserve, and the command worker sends one event per command.
- Slots, ports, operational registers and the MSI-X table: single-branch facts.
- `DeviceReset`: the backend always refuses it.
- BARs, custom registers and the MSI-X capability's contents in the configuration space: they do not take part in the chain, which is proved for any registers before it.
- InTransfers.TdBasedInEndpointHandle.Cancel: says nothing about resuming in the middle of a TD, because a cancel forgets the TRBs collected so far.
- EndpointRuns.EveryCommandIsAnsweredOnce: says nothing about Terminate, which the worker does not answer while it waits for a TRB or stands in Error.
- Waiting senders that went away: an answer is taken to be received.
- EndpointOnRing.CompletesPayloadInOrder: covers runs in which the driver sets no new dequeue pointer; one that it sets starts a new order.
- InEndpoint.WindingBackFindsTheFailedTrb: needs a driver that does not reuse the slots of a TD before it was finished.
- The length limit of a control line and reading it from the socket.
