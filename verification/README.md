# NodePort NAT: a verified model

The system translates Kubernetes NodePort traffic in a TC eBPF program and keeps the program's maps in step with the
cluster from a Go control plane. It is traditional NAPT in the sense of sections 2.2 and 4.1 of RFC 3022. This project
models the per-packet program, the conntrack reaper, the reconciler with its watch loop, the counter pipeline and the
dataset split, and proves what holds over whole runs, most of it across the two languages that share the maps.

`dafny verify dfyconfig.toml` checks everything.

## How the model is built

* `Tables` defines one packet as a pure step on the seven maps. `Datapath` is the program itself: a class with the maps
  and the per-CPU counters as fields, whose methods update maps and packet bytes in place; `HandlePacket` is proved equal
  to the step. `Packet`, `Checksum`, `Rewrite` and `PartialRewrite` work on the frame's bytes; `Frames` carries the
  table-level results over to bytes.
* `PacketMeaning`, `BackendMeaning` and `EntryMeaning` say the same as the step functions and the derivation of the
  entries in the fields of packets, map rows and cluster objects alone, in both directions; `Fairness` counts the flows
  that each backend gets.
* `Reaper`, `Controllers`, `Telemetry`, `Target`, `Backends`, `Desired`, `Dataset` and `Split` hold the loops of the Go
  and Python sources as methods, each proved against a specification function; the other modules prove what the system
  promises about those functions.
* `Runs` puts packets, single control-plane operations, uninterrupted reaps and single reaper deletes into one event
  type and lets them interleave. `Conntrack`, `History`, `Expiry`, `Placement`, `Interleaving`, `RoundRobin` and
  `TelemetryRuns` are theorems over all such runs; `Witnesses` holds runs from empty tables that reach the exceptions.
  `Watch` is the state machine of informers, handlers, trigger channel and worker, `WatchCursors` follows the
  round-robin cursors through it, and `ClusterWatch` instantiates it with the listed cluster contents.
* Every failure the code checks for is a choice of the environment: conntrack, forward and cursor updates, each of the
  ten helper calls of a rewrite, map operations of a reconcile, deletes of a reap, steps of a telemetry window.

## Assumptions

* One packet step is atomic. Two CPUs racing on a cursor, and a reap racing with packets, are outside the bijection
  theorems; `History` covers packets between the reaper's single deletes.
* The conntrack tables stay inverse only while no allocated key is taken. `Conntrack.PacketKeepsInverseIff` says exactly
  when a packet breaks this and `Conntrack.PortReuseBreaksInverse` shows it happen; the run theorems assume fewer than 21000
  allocations between a key's creation and its reaping (`Runs.Timely`), and uninterrupted reaps.
* The syncer starts with no applied entries. Service and backend rows that an earlier process left in the pinned maps
  are part of the watch theorems: they stay until an entry claims them (`Reconciler.IsImageOver`). So are old cursors:
  a cursor is followed from the moment it fits and its row belongs to an applied entry (`WatchCursors.Settled`).
* The address-level theorems of `Placement` and `Frames` are for runs that follow an address plan: control-plane writes
  keep to it, and no packet goes from a frontend address to a frontend address.
* Services have unique names and NodePorts, as the Kubernetes API server guarantees.
* Two cluster objects with the same resource version have the same content.

## Where code and expectation differ

* "last_seen is the time of the latest packet" fails when a refresh fails, because the code ignores the result. A flow's
  age counts from the latest packet whose refresh went through (`Expiry.ReapRemovesIff`);
  `Witnesses.FailedRefreshLosesFlow` is a run that loses a flow this way.
* An active flow can lose its forward entry in a reap when an expired entry names the same flow
  (`Reaper.SharedFlowLosesItsForwardEntry`, exact condition in `Reaper.ActiveFlowSurvivesIff`, reached by the run of
  `Witnesses.ReapDropsBusyFlow`).
* A port handed out again while its key is tracked breaks the bijection (exact condition in
  `Conntrack.PacketKeepsInverseIff`, reached by the run of `Witnesses.WrappedPortsBreakInverse`).
* A failing helper call leaves a half-rewritten frame, which is passed on. `PartialRewrite.PartialRewriteIpIff` and
  `PartialRewrite.PartialRewriteTcpIff` say exactly when its checksums are still valid, and
  `PartialRewrite.FailingHelperSpoilsFrame` names a frame for which they are not.
* A refused cursor update makes the next selection repeat the slot (`RoundRobin.CursorMovesIff`,
  `Witnesses.RefusedUpdateRepeatsSlot`).
* "Stored cursors stay below the backend count" and "the maps hold exactly the desired rows" fail after a restart over
  pinned maps, because installing an entry deletes nothing and leaves the cursor map alone. Old rows outlive the first
  reconcile unless the new entries cover them (`Rebuild.FirstReconcileIff`, `Witnesses.OldSlotStays`), and an old cursor
  of a desired frontend stays even at or above the new backend count (`RoundRobin.FirstCursorsIff`,
  `Witnesses.OldCursorStays`). Selection succeeds all the same (`WatchCursors.AppliedAlwaysSelect`).
* The backend list depends on the order of the listing when one address and port is reported on two nodes
  (`Canonical.OrderIrrelevantIff`), and the guessed node name when several nodes may be this host
  (`Desired.OwnNameOrderlessIff`, `Desired.GuessDependsOnOrder`).
* A counter difference is wrong when the counter wraps between two readings (`TelemetryRuns.DeltaIsGrowthIff`), and the
  differences of a window are lost when counting the tables or labelling fails (`Telemetry.Collector.CollectWindow`).
* The dataset split overwrites a column of the input: without a split column in windows_all.csv it ends in an error, and
  has by then cut that file down to its header (`Split.SplitDataset`).

## Model

| member | source | states |
|---|---|---|
| `Packet.ParseIff` | nodeport_tc.c:222-266 | Parsing finds a TCP header exactly in the frames that carry one: Ethernet type, IP version, protocol, both header lengths and all bounds, in both directions |
| `Packet.TupleBytes` | nodeport_tc.c:345-365 | Addresses are the numbers in bytes 26 to 29 and 30 to 33 of the frame, ports the first two words of the TCP header |
| `Packet.StoreTuple` | nodeport_tc.c:366-377 | The four conditional stores in place: the frame holds the calls made so far, success means none failed |
| `Packet.UpdateIpChecksum` | nodeport_tc.c:379-384 | The two IP checksum replacements in place, or the calls made before one failed |
| `Packet.UpdateTcpChecksumAddrs` | nodeport_tc.c:386-393 | The pseudo-header replacements of the TCP checksum in place, or the calls made before one failed |
| `Packet.UpdateTcpChecksumPorts` | nodeport_tc.c:394-399 | The port replacements of the TCP checksum in place, or the calls made before one failed |
| `Packet.RewriteTuple` | nodeport_tc.c:345-402 | Fails exactly when a helper call that it makes fails; the frame then holds exactly the earlier calls, on success all of them |
| `Checksum.OnesSumIsResidue` | nodeport_tc.c:379-399 | The one's complement sum of section 3.1 of RFC 791 is the plain word sum modulo 0xFFFF, and is zero only for all-zero data |
| `Checksum.ReplaceIsResidue16` | nodeport_tc.c:394-399 | The 16-bit incremental update of section 3 of RFC 1624 changes the checksum word by old minus new, modulo 0xFFFF |
| `Checksum.ReplaceIsResidue32` | nodeport_tc.c:379-393 | The same for the two halves of a 32-bit address |
| `Rewrite.RewriteFrame` | nodeport_tc.c:345-402 | After any number of helper calls only address, port and checksum bytes differ, and the tuple is old or new field by field |
| `Rewrite.RewriteTouches` | nodeport_tc.c:345-402 | By byte number: only the IP checksum, the addresses, the ports and the TCP checksum can change, after any number of calls |
| `Rewrite.RewriteReparses` | nodeport_tc.c:345-402 | For every accepted frame, header length and payload, a completed rewrite leaves a frame of the same layout that parses to exactly the new tuple |
| `Rewrite.RewriteKeepsIpChecksum` | nodeport_tc.c:379-384 | The IP header is valid after a completed rewrite exactly when it was valid before |
| `Rewrite.RewriteKeepsTcpChecksum` | nodeport_tc.c:386-399 | The TCP checksum, pseudo header included, is valid after a completed rewrite exactly when it was valid before |
| `PartialRewrite.RewriteFailsIff` | nodeport_tc.c:366-399 | Which of the ten calls fails a rewrite: only one for a field that changes, call by call |
| `PartialRewrite.PartialRewriteIpIff` | nodeport_tc.c:366-399 | When a helper call fails part-way, a valid IP header stays valid exactly when the addresses stored but not yet in its checksum cancel out modulo 0xFFFF |
| `PartialRewrite.PartialRewriteTcpIff` | nodeport_tc.c:366-399 | The same for the TCP checksum with its pseudo header: exactly when the addresses and ports stored but not yet in it cancel out |
| `PartialRewrite.FailingHelperSpoilsFrame` | nodeport_tc.c:366-399 | A concrete frame, valid in both checksums, with one failing call after which both are wrong and one after which only the TCP checksum is |
| `Datapath.NodePortMaps.constructor` | nodeport_tc.c:119-173 | Freshly loaded maps: empty hash maps, a zeroed SNAT cursor cell, zeroed counters on every CPU |
| `Datapath.NodePortMaps.BumpStat` | nodeport_tc.c:175-182 | One 64-bit per-CPU cell grows by one and wraps; the counters are the start of the packet plus the bumps so far |
| `Datapath.NodePortMaps.UpdateConntrackEntry` | nodeport_tc.c:191-207 | An unconditional update stamped with the current time, refused only by a fault or by a new key meeting 16384 entries |
| `Datapath.NodePortMaps.RedirectOrFallback` | nodeport_tc.c:209-220 | Redirects for a positive interface index, otherwise falls back, with the counters of either case |
| `Datapath.NodePortMaps.SelectBackend` | nodeport_tc.c:287-316 | Picks the backend under the cursor, stale cursors counting as slot 0, and steps the cursor only when a backend was found |
| `Datapath.NodePortMaps.AllocateSnatPort` | nodeport_tc.c:318-343 | Hands out the port at the cursor, SNAT_MIN for an absent or out-of-range cursor, and moves the cursor cyclically |
| `Datapath.NodePortMaps.InstallEntries` | nodeport_tc.c:490-508 | Installs both conntrack entries or neither: a refused forward insert takes the conntrack key out again |
| `Datapath.NodePortMaps.TranslateReply` | nodeport_tc.c:547-563 | The reply path equals its step function on tables, verdict, frame and counters |
| `Datapath.NodePortMaps.TranslateForward` | nodeport_tc.c:443-466 | The path of a known flow equals its step function on tables, verdict, frame and counters |
| `Datapath.NodePortMaps.InstallFlow` | nodeport_tc.c:475-517 | The path of a new flow with a backend equals its step function on tables, verdict, frame and counters |
| `Datapath.NodePortMaps.TranslateRequest` | nodeport_tc.c:428-517 | The request path for an installed frontend equals its step function |
| `Datapath.NodePortMaps.HandlePacket` | nodeport_tc.c:566-589 | One packet, in place on maps, counters and frame, equals the step function PacketStep that all run theorems are about; a frame that does not parse changes nothing |
| `PacketMeaning.PathIff` | nodeport_tc.c:404-589 | Which path a packet takes, exactly, by the rows under the keys made of its own fields: reply, known flow, no backend, new flow, or none |
| `PacketMeaning.OthersPass` | nodeport_tc.c:424-475 | Packets that match nothing, or meet no backend, pass and change nothing |
| `PacketMeaning.SelectionReadsCursorSlot` | nodeport_tc.c:287-343 | A selection reads the row in the cursor's slot, or slot 0 for an absent or too large cursor; the new key has that row's address and port, the service's SNAT address and the port at the cursor, and both cursors move on cyclically |
| `PacketMeaning.NewFlowMeans` | nodeport_tc.c:476-517 | Field by field: both rows installed, the first refused, or the second refused and the first taken back; where the packet goes and by which interface |
| `PacketMeaning.ForwardMeans` | nodeport_tc.c:442-466 | Field by field: a packet of a known flow goes where its forward row says, by that row's interface, and writes its conntrack row with the current time |
| `PacketMeaning.ReplyMeans` | nodeport_tc.c:538-563 | Field by field: a reply goes from the frontend to the client of its conntrack row, by the external interface, and refreshes the row |
| `PacketMeaning.CountersMean` | nodeport_tc.c:404-589 | Every single counter of every packet, exactly: by its path, whether the rewrite went through, the verdict, and whether an untracked packet hit ports 40000 to 60999 |
| `Cycle.AllocationWalksTheRange` | nodeport_tc.c:318-343 | From any cursor, out-of-range values included, allocation k hands out SNAT_MIN + (start + k) mod 21000 |
| `Cycle.PortsRepeatIff` | nodeport_tc.c:318-343 | Two allocations hand out the same port exactly when their distance is a multiple of 21000 |
| `Cycle.NearbyPortsDiffer` | nodeport_tc.c:318-343 | Allocations fewer than 21000 apart hand out different ports |
| `Cycle.EveryPortOncePerRound` | nodeport_tc.c:318-343 | Any 21000 consecutive allocations hand out every port exactly once |
| `Cycle.HitsExactly` | nodeport_tc.c:303-313 | How often m cursor steps hit a slot, exactly, from any start |
| `Cycle.RoundRobinIsFair` | nodeport_tc.c:303-313 | Every slot is hit floor(m/n) or ceil(m/n) times |
| `Conntrack.PacketShape` | nodeport_tc.c:404-564 | What one packet can do to the conntrack tables and the SNAT cursor, per kind of act, and that it never touches control-plane rows |
| `Conntrack.OverwritesIff` | nodeport_tc.c:490-508 | A packet installs or rolls back over a taken conntrack key exactly when a table lookup before the packet says so |
| `Conntrack.PacketKeepsInverseIff` | nodeport_tc.c:442-508 | A packet keeps the two conntrack tables mutually inverse if and only if it does not overwrite a taken key |
| `Conntrack.PortReuseBreaksInverse` | nodeport_tc.c:318-343 | A concrete state in which a wrapped port cursor makes a new flow take over an older flow's entry |
| `Conntrack.StaleFlowsMatch` | cmd/nodeport-syncer/conntrack_gc.go:161-185 | With inverse tables the stale forward keys are exactly the flows of the expired entries |
| `Conntrack.ReapKeepsInverse` | cmd/nodeport-syncer/conntrack_gc.go:129-140 | An uninterrupted reap keeps the tables inverse |
| `Conntrack.SameSize` | nodeport_tc.c:140-152 | Inverse tables have the same number of entries |
| `Conntrack.ReapDeletesInPairs` | cmd/nodeport-syncer/conntrack_gc.go:141-145 | With inverse tables DeletedCT equals DeletedFwd, and the reported deletions are what leaves the forward table |
| `Conntrack.ForwardInsertNeverMeetsFullMap` | nodeport_tc.c:490-508 | With inverse tables a forward insert after a new conntrack key never fails for capacity |
| `Reaper.Expired` | cmd/nodeport-syncer/conntrack_gc.go:189-194 | Expired exactly when the timeout is positive and last_seen + timeout lies before now; the unsigned subtraction never underflows |
| `Reaper.ExpiryIsMonotone` | cmd/nodeport-syncer/conntrack_gc.go:189-194 | What is expired stays expired as time passes |
| `Reaper.ScanConntrack` | cmd/nodeport-syncer/conntrack_gc.go:161-173 | The first loop of the plan finds the expired keys, their flows and the active flows in whatever order the map iterates |
| `Reaper.BuildConntrackGCPlan` | cmd/nodeport-syncer/conntrack_gc.go:148-187 | Both deletion lists enumerate sets that do not depend on iteration order, without duplicates; active plus deleted entries are all entries, and the active forward entries are counted |
| `Reaper.CountInOrderless` | cmd/nodeport-syncer/conntrack_gc.go:175-185 | The active forward count is the same for every iteration order |
| `Reaper.CountInListing` | cmd/nodeport-syncer/conntrack_gc.go:175-185 | It is the number of forward keys that belong to an active flow |
| `Reaper.DeleteConntrackKeys` | cmd/nodeport-syncer/conntrack_gc.go:130-134 | Deletes the planned keys in order; an error leaves exactly a prefix of the list deleted |
| `Reaper.DeleteForwardKeys` | cmd/nodeport-syncer/conntrack_gc.go:135-139 | The same for the forward table |
| `Reaper.ReapConntrack` | cmd/nodeport-syncer/conntrack_gc.go:101-146 | On success the maps are exactly the reaped tables and all four counts are those of the tables before; on error part of the plan was carried out, forward deletions only after all conntrack ones; dry runs and non-positive timeouts do nothing |
| `Reaper.SurvivorsAreTracked` | cmd/nodeport-syncer/conntrack_gc.go:175-185 | From any tables, every surviving forward key is named by a surviving conntrack entry |
| `Reaper.ReapIsIdempotent` | cmd/nodeport-syncer/conntrack_gc.go:148-187 | From any tables, a second reap at the same time deletes nothing |
| `Reaper.ActiveFlowSurvivesIff` | cmd/nodeport-syncer/conntrack_gc.go:165-185 | An active flow keeps its forward entry exactly when no expired entry names the same flow |
| `Reaper.ReapedIff` | cmd/nodeport-syncer/conntrack_gc.go:148-194 | What a reap keeps, field by field: the entries refreshed within the timeout, and the forward entries of flows that such an entry names and no older one does |
| `Reaper.ResultCounts` | cmd/nodeport-syncer/conntrack_gc.go:141-187 | What each of the four counts counts |
| `Reaper.SharedFlowLosesItsForwardEntry` | cmd/nodeport-syncer/conntrack_gc.go:165-185 | A concrete pair of entries for which a reap removes an active flow's forward entry |
| `CounterLaws.PacketKeepsLaws` | nodeport_tc.c:209-220 | The bumps of every packet, from any tables and with any failures, satisfy all counter laws; NEW_CONN counts the installed flows |
| `CounterLaws.LawsAddUp` | cmd/nodeport-syncer/telemetry_schema.go:81-93 | The laws are closed under adding counts |
| `Runs.TimelyMeansFresh` | nodeport_tc.c:318-343 | Fewer than 21000 allocations between a key's creation and its reaping keep the next key free |
| `Runs.StepKeepsInverse` | nodeport_tc.c:566-589 | Packets, control-plane writes and uninterrupted reaps keep the tables inverse under timely reaping |
| `Runs.TimelyRunsStayInverse` | nodeport_tc.c:442-508 | From empty tables every timely run ends with mutually inverse tables of equal size, NEW_CONN equals current forward entries plus all reported DeletedFwd, and DeletedCT equals DeletedFwd in total |
| `History.RepliesReachOnlyGrantedClients` | nodeport_tc.c:538-556 | In every interleaving with single deletes and wrapping ports, a reply is translated only for a client that sent a request assigned exactly that SNAT tuple earlier |
| `History.ReplyTarget` | nodeport_tc.c:547-556 | A reply is rewritten towards the client of its flow and nowhere else |
| `History.ForwardEntryIsStable` | nodeport_tc.c:442-466 | No event changes a forward entry while it is present |
| `History.FlowKeepsItsBackend` | nodeport_tc.c:442-466 | Over any run in which it stays present, a flow keeps its backend and SNAT tuple across backend and cursor changes |
| `History.RoundTrip` | nodeport_tc.c:404-564 | Translate a request, let any events pass that keep the flow, process the reverse of the translated packet: the result is the exact reverse of the request |
| `History.RoundTripOnEveryRun` | nodeport_tc.c:404-564 | The round trip from every state a timely run from empty tables reaches |
| `History.NewFlowInterface` | nodeport_tc.c:477-512 | A new flow is stored with, and leaves by, the local interface when its backend runs on the frontend's node, else the remote one, and none without a configuration |
| `History.OtherInterfaces` | nodeport_tc.c:443-563 | Later packets leave by the stored interface, replies by the external one; a failed rewrite and everything else passes to the stack |
| `History.FlowKeepsItsInterface` | nodeport_tc.c:443-512 | Over any run in which the flow stays present its requests leave by the interface chosen when it was opened |
| `Expiry.ReapRemovesIff` | cmd/nodeport-syncer/conntrack_gc.go:101-194 | Over every timely run, whatever fails, a reap removes a flow from both tables exactly when more than the timeout has passed since its latest packet of either direction whose refresh went through |
| `Expiry.ReapRemovesExactlyIdleFlows` | cmd/nodeport-syncer/conntrack_gc.go:101-194 | Where the latest refresh went through, exactly when neither direction had a packet for more than the timeout |
| `Expiry.RefreshedIsSeen` | nodeport_tc.c:191-207 | Over any run without failing refreshes those times are the times of the latest packets |
| `Witnesses.FailedRefreshLosesFlow` | nodeport_tc.c:191-207 | A run from empty tables after which a reap removes a flow that has just sent a packet whose refresh failed |
| `Witnesses.ReapDropsBusyFlow` | cmd/nodeport-syncer/conntrack_gc.go:130-185 | A run from empty tables with an interrupted reap after which a later reap removes a busy flow's forward entry |
| `Witnesses.WrappedPortsBreakInverse` | nodeport_tc.c:318-343 | A run from empty tables in which 21000 allocations wrap the cursor and a new flow takes over an older flow's entry |
| `Witnesses.RefusedUpdateRepeatsSlot` | nodeport_tc.c:303-313 | A run from empty tables in which the first of two backends is selected twice in a row because a cursor update is refused |
| `Witnesses.OldSlotStays` | cmd/nodeport-syncer/main.go:610-659 | A concrete old slot that outlives the first reconcile |
| `Witnesses.OldCursorStays` | cmd/nodeport-syncer/main.go:610-659 | A concrete old cursor that lies beyond the backend count after the first reconcile |
| `Placement.PortsOverRun` | nodeport_tc.c:318-343 | On every run, every tracked key and every key a forward entry leads to keep a port in the SNAT range |
| `Placement.OtherPortsNeverReverse` | nodeport_tc.c:184-189 | On every run from empty tables, any addresses and interleavings, traffic to ports outside the SNAT range never takes the reverse path |
| `Placement.PlacementOverRun` | nodeport_tc.c:484-501 | Over every run whose control-plane writes follow an address plan and in which no packet goes from frontend to frontend, tracked keys have backend and SNAT addresses and their flows lead from clients to frontends |
| `Placement.TranslatedPacketIsFixedPoint` | nodeport_tc.c:566-589 | With disjoint frontends, backends and SNAT addresses a translated packet passes every later hook, after any events in between, with packet and all tables unchanged, and passing it is itself an event of such runs |
| `Placement.FixedPointOnEveryRun` | nodeport_tc.c:566-589 | The same from empty tables, before and after any events that follow the plan |
| `Frames.TranslatedFrame` | nodeport_tc.c:566-589 | Byte level: no target, no change; a rewrite that goes through leaves the same layout, the target tuple, and checksums valid where they were |
| `Frames.CutShortFrame` | nodeport_tc.c:345-402 | Byte level: a step whose rewrite is cut short passes the frame on, with old and new fields mixed, valid exactly under those conditions |
| `Frames.SecondHookLeavesFrame` | nodeport_tc.c:566-589 | Byte level: a translated frame passes every later hook byte for byte, after any events in between |
| `Frames.ReplyFrameReachesClient` | nodeport_tc.c:404-564 | Byte level: the backend's answer to a translated frame reaches the client with exactly the reverse tuple and the checksum validity it was sent with |
| `Order.AscendingIsUnique` | cmd/nodeport-syncer/main.go:970-980 | A strictly sorted list is determined by its elements |
| `Order.TextLessIff` | cmd/nodeport-syncer/main.go:1230-1239 | Texts are compared at the first place where they differ |
| `Order.Sort` | cmd/nodeport-syncer/main.go:970-980 | Sorting a list without duplicates: strictly ascending, same elements |
| `Reconciler.ImageIsUnique` | cmd/nodeport-syncer/main.go:610-704 | The entries determine the service and the backend map row by row |
| `Reconciler.ImageRows` | cmd/nodeport-syncer/main.go:707-759 | What the maps hold for their entries, field by field: count, flags and SNAT address of every service row, address, port and node of every backend row, under the node address and NodePort of the entry, and no other rows but leftovers |
| `Reconciler.InstallableIff` | cmd/nodeport-syncer/main.go:707-780 | An entry marshals exactly when its NodePort and all backend ports are between 1 and 65535 |
| `Reconciler.DeletionOrder` | cmd/nodeport-syncer/main.go:661-704 | DeleteEntry operation by operation: the slots in order, the service row, the cursor |
| `Reconciler.InstallationOrder` | cmd/nodeport-syncer/main.go:610-659 | UpsertEntry operation by operation: the service row, then each backend into its slot |
| `Rebuild.DeleteFromImage` | cmd/nodeport-syncer/main.go:661-704 | Deleting an entry leads from the image of the entries to the image of the remaining ones: no stale slot stays |
| `Rebuild.UpsertIntoImage` | cmd/nodeport-syncer/main.go:610-659 | Installing an entry leads to the image with that entry |
| `Rebuild.PlanReachesDesired` | cmd/nodeport-syncer/main.go:898-913 | From the image of the applied entries over any rows of an earlier process, the incremental diff, in any order of its worklists, leads to the image of the desired entries over what is left of those rows, shrinking lists and moved NodePorts included |
| `Rebuild.IncrementalEqualsRebuild` | cmd/nodeport-syncer/main.go:863-935 | The incremental diff leaves the service and backend maps equal to a full rebuild from the desired entries |
| `Rebuild.FirstReconcileIff` | cmd/nodeport-syncer/main.go:863-935 | After the first reconcile over arbitrary maps the rows are exactly the desired ones if and only if every old service row belongs to a desired frontend and every old slot lies below its backend count |
| `Rebuild.PlanResetsCursors` | cmd/nodeport-syncer/main.go:661-704 | A reconcile resets the round-robin cursors of exactly the changed and removed applied entries |
| `Controllers.EntriesEqual` | cmd/nodeport-syncer/main.go:1322-1335 | The field-by-field comparison decides equality of entries |
| `Controllers.SortedRemovedIDs` | cmd/nodeport-syncer/main.go:937-946 | Exactly the removed ids, in ascending order, whatever order the map iterates in |
| `Controllers.SortedChangedIDs` | cmd/nodeport-syncer/main.go:948-958 | Exactly the new and changed ids, in ascending order |
| `Controllers.IdsInOrder` | cmd/nodeport-syncer/main.go:960-980 | The order: by namespace, then name, then NodePort |
| `Controllers.DeleteEntry` | cmd/nodeport-syncer/main.go:661-704 | Carries out the entry's deletions in order on the maps; an error leaves a prefix of them |
| `Controllers.UpsertEntry` | cmd/nodeport-syncer/main.go:610-659 | Writes the service row and the slots in order; an error, marshalling included, leaves what was written so far |
| `Controllers.Controller.RemoveEntries` | cmd/nodeport-syncer/main.go:898-902 | The first loop: all operations of the removed entries, or on error exactly a prefix of them |
| `Controllers.Controller.ReplaceEntries` | cmd/nodeport-syncer/main.go:904-913 | The second loop: old version out, new version in, entry by entry; on error the entries before some entry in full, and that entry begun |
| `Controllers.Controller.SyncConfig` | cmd/nodeport-syncer/main.go:873-882 | The configuration is written and remembered when it differs from the applied one; a refused write changes nothing |
| `Controllers.Controller.ApplyDiff` | cmd/nodeport-syncer/main.go:889-913 | Both loops: exactly the plan, or on error exactly a begun part of it in the order of the plan |
| `Controllers.Controller.Reconcile` | cmd/nodeport-syncer/main.go:863-935 | On success the operations performed are the configuration write if needed and then exactly the plan, the applied entries are the desired ones, and the maps are their image if they were an image before; applied entries always marshal; on error the applied entries stay and the operations are exactly the configuration write, if it was needed, and a begun part of the plan |
| `Interleaving.OpKeepsMixed` | cmd/nodeport-syncer/main.go:630-702 | Every single operation of a reconcile keeps unchanged entries intact and every backend row old, new or in a slot of an earlier process |
| `Interleaving.NewFlowsUseOldOrNewBackends` | cmd/nodeport-syncer/main.go:898-913 | With packets between the single operations, a newly opened flow goes to a backend of that frontend's old or new list, or of a slot that an earlier process left |
| `Interleaving.UnchangedEntriesStayIntact` | cmd/nodeport-syncer/main.go:898-913 | The rows of unchanged services are complete in every intermediate state, over rows of an earlier process too |
| `Interleaving.IntactFrontendAlwaysSelects` | nodeport_tc.c:287-316 | Backend selection never fails for an intact frontend with a backend, whatever the cursor holds |
| `Fairness.FlowsAreFair` | nodeport_tc.c:287-316 | Over any stretch of a run in which a frontend keeps n backends with different addresses or ports, writes to other services included, each backend's address and port is assigned to floor(m/n) or ceil(m/n) of m flows, provided the updates of the frontend's own cursor go through |
| `RoundRobin.SelectionsAreFair` | nodeport_tc.c:303-313 | The same of the slots at which the cursor stands, whatever their rows hold |
| `RoundRobin.CursorMovesIff` | nodeport_tc.c:303-313 | With several backends the next selection takes the next slot exactly when the cursor update, whose result the code ignores, goes through; otherwise the slot repeats |
| `RoundRobin.RoomForCursor` | nodeport_tc.c:133-138 | While the cursors fit, only a fault can refuse a cursor update of an installed frontend, not the capacity |
| `RoundRobin.ElsewhereIsSteady` | nodeport_tc.c:287-316 | Control-plane operations that do not install, remove or reset a frontend leave it its backend count |
| `RoundRobin.PlanKeepsCursorsInOrder` | cmd/nodeport-syncer/main.go:661-704 | The plan of a reconcile resets the cursor of a frontend before its backend list can shrink under it, unless the frontend's row is of an earlier process |
| `RoundRobin.CursorsFitAfterReconcile` | cmd/nodeport-syncer/main.go:863-935 | With packets between the single operations and with or without a configuration write, the cursor of such a frontend is below its backend count again once a reconcile is complete |
| `RoundRobin.FirstCursorsIff` | cmd/nodeport-syncer/main.go:610-659 | After the first reconcile over arbitrary maps the cursors of the desired frontends fit exactly when every old cursor of a desired frontend is below its new backend count |
| `Telemetry.ReadStatsSnapshot` | cmd/nodeport-syncer/telemetry.go:447-473 | Each counter summed over the CPUs in 64-bit arithmetic; a failing lookup is an error, a dry run reads zeros |
| `Telemetry.BumpedColumn` | nodeport_tc.c:175-182 | Counting on one CPU changes that CPU's cells by what was counted and no other cell |
| `Telemetry.TotalAfterBumps` | cmd/nodeport-syncer/telemetry.go:466-470 | Whichever CPU counts, the snapshot moves by what was counted, modulo 2^64 |
| `Telemetry.Diff` | cmd/nodeport-syncer/telemetry_schema.go:81-93 | Per counter the growth, or the new value after a reset |
| `Telemetry.DeltasTelescopeIff` | cmd/nodeport-syncer/telemetry_schema.go:81-93 | Consecutive differences add up to last minus first exactly when no reading fell, and to more otherwise |
| `Telemetry.DeltasAddUp` | cmd/nodeport-syncer/telemetry_schema.go:81-93 | What consecutive differences add up to, exactly: last minus first, and once more the reading before each fall |
| `Telemetry.WindowAccumulator.NoteServiceEvent` | cmd/nodeport-syncer/telemetry.go:61-65 | Adds the weight of a service event to the pending summary |
| `Telemetry.WindowAccumulator.NoteSliceEvent` | cmd/nodeport-syncer/telemetry.go:67-71 | Adds the weight of a slice event |
| `Telemetry.WindowAccumulator.NoteNodeEvent` | cmd/nodeport-syncer/telemetry.go:73-77 | Adds the weight of a node event |
| `Telemetry.WindowAccumulator.NoteReconcile` | cmd/nodeport-syncer/telemetry.go:79-85 | Adds one reconcile with its upserts and removals |
| `Telemetry.WindowAccumulator.NoteGc` | cmd/nodeport-syncer/telemetry.go:87-93 | Adds one reap with its deletions |
| `Telemetry.WindowAccumulator.Consume` | cmd/nodeport-syncer/telemetry.go:95-101 | Returns everything pending and leaves nothing |
| `Telemetry.Collector.CaptureBaseline` | cmd/nodeport-syncer/telemetry.go:225-233 | The baseline is the snapshot, or nothing changes |
| `Target.ChoiceIsUnique` | cmd/nodeport-syncer/telemetry.go:341-362 | The entry of a telemetry row is determined by the applied entries, whatever order the map iterates in |
| `Target.ChooseEntry` | cmd/nodeport-syncer/telemetry.go:341-362 | The matching entry on the service's port, else the matching entry with the least NodePort, or none |
| `Target.CurrentTarget` | cmd/nodeport-syncer/telemetry.go:324-387 | Address, port and backend counts of the chosen entry, each backend local or remote; else the service's port and the node's address |
| `Target.StateCounts` | cmd/nodeport-syncer/telemetry.go:362-371 | Local counts the backends on the entry's own node, remote the others, total all |
| `Telemetry.Collector.CollectWindow` | cmd/nodeport-syncer/telemetry.go:235-322 | Which of reading, counting and labelling failed decides whether the window's differences and events are kept, carried over or lost; address, port and backend counts of the row are those of the chosen entry |
| `TelemetryRuns.LawsHoldOnEveryRun` | nodeport_tc.c:209-220 | From zeroed counters, on every run, interrupted reaps and failures included, the summed counters are the bumps and these satisfy the counter laws |
| `TelemetryRuns.SelectionsKeepLaws` | cmd/nodeport-syncer/telemetry_schema.go:81-93 | The sum of any selection of lawful windows satisfies the laws |
| `TelemetryRuns.WindowsReportTheRun` | cmd/nodeport-syncer/telemetry.go:235-322 | Below 2^64, every window's differences and any sum of windows satisfy the laws, all windows together report exactly the growth since the baseline, and no event, reap count or backend change is reported twice or forgotten |
| `TelemetryRuns.DeltaIsGrowthIff` | cmd/nodeport-syncer/telemetry_schema.go:81-93 | A difference is the true growth exactly when the counter passed no multiple of 2^64 in between |
| `Watch.ActKeepsValid` | cmd/nodeport-syncer/main.go:781-832 | Every action of informers, handlers, worker and packets keeps the invariant: a cache the worker will not look at again is the one it last read |
| `Watch.RunsStayValid` | cmd/nodeport-syncer/main.go:804-832 | The invariant over every run |
| `Watch.QuiescentMeansSynced` | cmd/nodeport-syncer/main.go:781-832 | No lost wakeup: with no handler outstanding, no trigger queued and the worker idle, the maps are the image of what the current caches derive over what is left of the rows found at the start, although triggers are dropped and caches are read at different instants |
| `Watch.NameStays` | cmd/nodeport-syncer/main.go:1059-1070 | Over every run a node name, once known, is kept |
| `Watch.InternalActionsDescend` | cmd/nodeport-syncer/main.go:804-832 | Handlers and worker alone cannot run forever |
| `Watch.RestMeansQuiescent` | cmd/nodeport-syncer/main.go:804-832 | They rest only in a quiescent or stopped state |
| `Watch.StandstillConverges` | cmd/nodeport-syncer/main.go:804-832 | From every reachable state of a cluster that stands still there is a run of handlers and worker to maps that match the caches, or to a stop on an error |
| `WatchCursors.ActKeepsCursors` | cmd/nodeport-syncer/main.go:804-832 | Every action of the watch loop keeps the cursor of a frontend that is no leftover below its backend count outside a reconcile, and in order for the remaining operations inside one |
| `WatchCursors.AppliedAlwaysSelect` | nodeport_tc.c:287-316 | From any start, in every state between reconciles of every run, backend selection succeeds for the frontend of every applied entry |
| `WatchCursors.SettledStaysSettled` | cmd/nodeport-syncer/main.go:863-935 | From any start: a frontend that is not installed or an applied entry's, with a fitting cursor, is so in every later state between reconciles |
| `WatchCursors.CursorsFitOutsideReconciles` | nodeport_tc.c:300-316 | From any start, in every state between reconciles, the cursor of every frontend that had neither row nor cursor at the start is below its backend count |
| `WatchCursors.AllCursorsFit` | nodeport_tc.c:300-316 | After a start with empty service and cursor maps that holds for all stored cursors |
| `Backends.MatchingSlicePorts` | cmd/nodeport-syncer/main.go:1242-1295 | The ports by name, else by target number, else the only one, else by service port |
| `Backends.MatchingPermuted` | cmd/nodeport-syncer/main.go:1242-1295 | Permuted slice ports give permuted matches |
| `BackendMeaning.MatchingIff` | cmd/nodeport-syncer/main.go:1242-1295 | Which slice ports serve a service port, exactly: the TCP ports of its name, else of its nonzero target number, else the only one, else those of its own number |
| `Backends.FirstIPv4Address` | cmd/nodeport-syncer/main.go:1313-1320 | The first address that is IPv4, or none |
| `Backends.CollectBackends` | cmd/nodeport-syncer/main.go:1190-1240 | The loops over slices, endpoints and ports compute the first offer per address and port, in strictly ascending order |
| `BackendMeaning.BackendsIff` | cmd/nodeport-syncer/main.go:1190-1320 | Which backends are returned, exactly: for each address and port the first endpoint, in the first slice, that is ready, serving, not terminating, backed by a pod, on a node with an address, and serves there with its first IPv4 address |
| `BackendMeaning.BackendsInOrder` | cmd/nodeport-syncer/main.go:1230-1239 | They ascend by address, then by port |
| `Canonical.ReorderedBackendsSame` | cmd/nodeport-syncer/main.go:1190-1240 | With consistent node addresses, permuting slices, endpoints or ports gives the identical list |
| `Canonical.AnyOfferCanWin` | cmd/nodeport-syncer/main.go:1219-1229 | For every offer some reordering makes it the first of its address and port |
| `Canonical.OrderIrrelevantIff` | cmd/nodeport-syncer/main.go:1190-1240 | The list is independent of the order of the listing if and only if every address and port is reported on one node |
| `Desired.BuildNodeInternalIPs` | cmd/nodeport-syncer/main.go:1164-1175 | Each node's first internal IPv4 address, by node name |
| `EntryMeaning.NodeIpsIff` | cmd/nodeport-syncer/main.go:1164-1175 | A node name has the first address of kind InternalIP that is IPv4, of the last node of that name that has one |
| `Desired.BuildSliceIndex` | cmd/nodeport-syncer/main.go:1177-1188 | For every service exactly its slices, in order |
| `Desired.ResolveNodeName` | cmd/nodeport-syncer/main.go:1141-1162 | The configured name if such a node is listed, else the first node that may be this host |
| `EntryMeaning.OwnNameIff` | cmd/nodeport-syncer/main.go:1141-1162 | The name is that of the first listed node with the wanted name, or, without one, whose name and the host name are prefixes of one another |
| `Desired.OwnNameOrderlessIff` | cmd/nodeport-syncer/main.go:1141-1162 | The name does not depend on the order of the node listing if and only if all nodes that may be this host have one name |
| `Desired.GuessDependsOnOrder` | cmd/nodeport-syncer/main.go:1141-1162 | Two concrete nodes for which the order of the listing decides the guessed name |
| `Desired.FoundNameStays` | cmd/nodeport-syncer/main.go:1141-1162 | A name once found is the name of every later listing that still has the node, in any order |
| `Desired.DesiredEntries` | cmd/nodeport-syncer/main.go:1045-1134 | The loops over services and ports compute the desired entries of the resolved node, or the error for an unresolved or unaddressed node; a resolved name is remembered |
| `EntryMeaning.DesiredErrIff` | cmd/nodeport-syncer/main.go:1059-1075 | The derivation fails exactly when no listed node can be this one or it has no internal IPv4 address |
| `EntryMeaning.EntriesIff` | cmd/nodeport-syncer/main.go:1086-1130 | Which ids get an entry, exactly: those of a selected service of type NodePort with policy empty or Cluster, for a TCP port with a NodePort and at least one backend from the service's slices |
| `EntryMeaning.EntryMeans` | cmd/nodeport-syncer/main.go:1115-1130 | What an entry holds: its id, this node's address, the SNAT address, and the backends of the last port that asks for it |
| `Desired.DesiredAreFiled` | cmd/nodeport-syncer/main.go:1115-1130 | Every desired entry is filed under its own id with a nonempty, strictly sorted backend list |
| `Desired.DesiredOrderless` | cmd/nodeport-syncer/main.go:1045-1134 | Two listings of one consistent cluster ask for the same entries |
| `Desired.RelistingWritesNothing` | cmd/nodeport-syncer/main.go:863-935 | Reconciling another listing of an unchanged, consistent cluster performs no service, backend or cursor operation |
| `ClusterWatch.ClusterIsSound` | cmd/nodeport-syncer/main.go:1045-1134 | Unique service names and NodePorts make the derived entries well formed even when the three caches are from different instants, whatever node name is known |
| `ClusterWatch.QuiescentMapsMatchCluster` | cmd/nodeport-syncer/main.go:804-832 | End to end: in every quiescent state the maps are the image of what desiredEntries makes of the cached services, nodes and slices and the node name it keeps, over what is left of rows found at the start; exactly the image after a start with empty maps |
| `ClusterWatch.QuiescentRows` | cmd/nodeport-syncer/main.go:804-832 | The same row by row: in every quiescent state every entry that the cached cluster asks for has its service row and its backends' addresses, ports and nodes in the maps |
| `ClusterWatch.DerivedAgain` | cmd/nodeport-syncer/main.go:1059-1070 | A reconcile with the name just found derives the same entries from the same caches |
| `ClusterWatch.InstalledFrontendsAlwaysSelect` | nodeport_tc.c:287-316 | End to end: since only services with backends become entries, selection succeeds in every state between reconciles for every applied entry, and for every installed frontend that had no row at the start |
| `Dataset.PrimaryLabelForExperiment` | scripts/phase3_split_dataset.py:23-27 | The first anomaly label in sorted order, or normal |
| `Dataset.PrimaryIsLeast` | scripts/phase3_split_dataset.py:23-27 | That label is the least anomaly, and normal exactly when there is none |
| `Dataset.LabelIff` | scripts/phase3_split_dataset.py:23-27 | An experiment's label, exactly, by the label column of its own rows |
| `Dataset.SplitGroup` | scripts/phase3_split_dataset.py:30-48 | The assignment of each experiment by its rank in its group |
| `Dataset.GroupReaches` | scripts/phase3_split_dataset.py:30-48 | A group reaches train with one, test exactly from two and val exactly from three experiments |
| `Dataset.SplitsByRank` | scripts/phase3_split_dataset.py:30-48 | By place in ascending order: train; of two, train and test; of more, train, val, test, and train for all others |
| `Dataset.ThreeOrMore` | scripts/phase3_split_dataset.py:41-47 | In a group of at least three exactly one experiment is in val, exactly one in test, and all others in train |
| `Dataset.AssignedByRank` | scripts/phase3_split_dataset.py:58-73 | Every experiment is assigned by its place among the experiments with its label |
| `Dataset.SplitConservesRows` | scripts/phase3_split_dataset.py:76-84 | The output rows are the input rows as a multiset, up to the split field |
| `Dataset.NoExperimentLeaks` | scripts/phase3_split_dataset.py:71-80 | Every output row carries its experiment's split, so no experiment is in two splits |
| `Dataset.LabelReachesIff` | scripts/phase3_split_dataset.py:64-73 | A label reaches train, test and val exactly from one, two and three experiments |
| `Dataset.ReachedSplitsHoldRows` | scripts/phase3_split_dataset.py:76-80 | A split that a label reaches holds a row of one of its experiments |
| `Dataset.SplitIsIdempotent` | scripts/phase3_split_dataset.py:58-84 | Splitting the output again gives the same rows in the same order |
| `Split.GroupRows` | scripts/phase3_split_dataset.py:58-60 | The rows of each experiment, in order |
| `Split.BinExperiments` | scripts/phase3_split_dataset.py:62-68 | The experiments of each primary label, each once |
| `Split.AssignSplits` | scripts/phase3_split_dataset.py:70-72 | The assignments of all groups together |
| `Split.RouteRows` | scripts/phase3_split_dataset.py:75-80 | The rows of each split, in order and marked |
| `Split.SplitDataset` | scripts/phase3_split_dataset.py:51-95 | The whole script with its error cases: no rows and no experiment column leave windows_all.csv alone, a missing split column leaves only its header |
| `Split.SecondRunChangesNothing` | scripts/phase3_split_dataset.py:51-95 | A second run on the first run's output is accepted and reproduces it row by row |

## Left out

- Cross-CPU races inside one packet step: the code does not protect the cursors against them.
- Checksum offload, bpf_redirect_neigh and other kernel internals: helpers are modelled by their documented effect on bytes and maps. The effect of the pseudo-header flag on partially offloaded checksums is not modelled.
- A rollback delete after a refused forward insert is taken to succeed, as the code ignores its result; so is the update of the SNAT cursor cell, which cannot fail for an array map.
- Controllers.EntriesEqual: compares addresses as numbers where the source compares their text, so two spellings of one address count as equal there; `Desired` keeps the text. Trimming of blanks around options is not modelled.
- Desired.DesiredEntries: takes the host name, the SNAT address and the answers of the listers as given; reading an interface address needs the environment.
- Watch.QuiescentMeansSynced: says nothing about a worker that stopped on an error; the process ends then. Marshalling errors are part of the failing derivation, so a partly written entry before such a stop is not described there (`Controllers.Controller.Reconcile` describes it).
- Watch.StandstillConverges: shows a terminating run; together with InternalActionsDescend every run of handlers and worker ends, but fairness of the Go scheduler is not modelled.
- Telemetry.Collector.CollectWindow: leaves out the label fields and the fields copied from the options; labelling can only fail or succeed. Conversion of differences to signed 64-bit numbers is not modelled.
- Writing a telemetry row: a failed write drops a collected sample; the theorems are about collected windows, and any selection of them.
- The poll mode, the initial clearTargetState (it deletes only slots of the desired entries and promises nothing about other rows), dry runs of the reconciler, and runConntrackGC's ticker.
- Informer internals, the Kubernetes client, flag parsing, opening pinned maps, logging.
- CSV reading and writing, the manifest's scenario field, rows with more or fewer cells than the header.
- Training, ablation and plotting scripts, shell experiments, manifests and datasets.
