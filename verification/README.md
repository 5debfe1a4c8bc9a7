# MacSim components, modelled and verified

MacSim is a cycle-level simulator of heterogeneous CPU/GPU systems. This project models six of its
parts in Dafny and proves what must hold of them in every run.

| component | files | what it models |
|---|---|---|
| Network on chip | `noc_topology`, `noc_state`, `noc_invariant`, `noc_moves`, `noc_stages`, `noc_link`, `noc_switch`, `noc_heads`, `noc_pipeline`, `noc_routing`, `noc_theorems`, `noc_delivery`, `noc_network` | wormhole routers with virtual channels and credit flow control, linked to a ring or a mesh |
| Memory management unit | `lru_table`, `mmu_memory`, `mmu_queues`, `mmu_machine`, `mmu_effects`, `mmu_history`, `mmu_faults`, `mmu_unit` | page table, frame allocator, TLB, replacement unit, walk queue and batched page faults |
| DRAM controller | `dram_bank`, `dram_policy`, `dram_control`, `dram_theorems`, `dram_effects`, `dram_service`, `dram_unit` | request buffers, row-buffer commands, oldest-first arbitration, shared data bus, FCFS and FR-FCFS |
| Clock domains | `clock` | least common multiple of the frequencies and the interleaving of domains |
| Dependence map | `dependence` | the per-quadword index of in-flight stores |
| Cache | `cache_address`, `cache_set`, `cache`, `cache_history` | tiled address split, lookup, replacement, static CPU/GPU partition |

`arithmetic`, `lists` and `option` hold what several components share.

Each component has two layers. A value layer gives the state as a datatype and each step as a
function; the invariants and the theorems over all runs are about it. Above it a class has the
fields of the original object and methods with the original loops; each method is proved to change
the state as the value layer says and to keep the invariant. So what is proved of all runs of the
value layer holds of the loops. State that exists only to state a property (the log of packets, the
place of each flit or uop, the commands issued for a request, the accepted and finished requests,
the ticks of a domain) is called history where it is declared. No step depends on it, except that a
new packet of the network takes its number from the log.

`dafny verify dfyconfig.toml` checks the whole project.

## Main results

- Network: credit conservation on every link and VC; bounded buffers; exclusive ownership of output
  VCs; no interleaving of packets; no flit lost, doubled or delivered twice; requests handed over in
  order of delivery; the packet counter is exact. Every stage of a router has a law that says which
  flits it moves and that it moves them (`RouterCycleLaw`): no ready link, switch port, VC or request
  is left waiting; and a flit in a local output buffer leaves within a bounded number of turns.
  Routing is minimal and the escape channels never wait for each other in a circle. This holds for
  every ring and every square mesh with the original routing (`ShapesSetUp`).
- MMU: all tables agree in every reachable state, so none of the assertions in the file can fail and
  the frame search always succeeds; every waiting uop is in exactly one place and leaves only
  translated; translation is injective and agrees with the TLB; the page that is evicted is, by the
  uses in the run, the least recently used one; walks end when they are due; and every page of a
  fault batch is mapped within a bounded number of cycles. The pointer-based lists refine sequences.
- DRAM: a bank gets its command in turn, within as many unlocked cycles as its channel has banks;
  each request sees exactly the commands that the row at its selection calls for, and leaves its bank
  exactly when its data have been sent; no bank stalls that could go on; bandwidth bound;
  conservation of slots and requests; FR-FCFS picks a true minimum of a strict weak order.
- Clocks: the period is the least common multiple; a domain runs f times in each period, evenly
  spaced, n * f times in n periods, and never drifts by a whole tick.
- Dependence map: the index agrees with the in-flight stores in every run with in-order retirement,
  and gives the true youngest overlapping store exactly under a condition stated for all stores and
  loads.
- Cache: tags are unique, counters exact, the partition kept; an access hits exactly if the
  address's own line is resident; the line that is replaced is, by the events of the run, the least
  recently used one.

## Where the code does not do what one would expect

For each of these there is a lemma with a failing case and one with the exact condition.

- `src/dram_ctrl.cc:828` keeps the 64-bit row register in an `int`. The FR-FCFS row test is right
  exactly if the register fits (`RowTestWrong`, `RowTestExact`), and so is the pick (`MissPicked`,
  `PickExact`).
- `src/map.cc:429` keeps a 64-bit uop number in 32 bits and starts from 0. A load finds the youngest
  overlapping store of its quadword's slots for all numbers from lo below hi exactly if the range is
  empty, or 0 is not in it and it lies below 2^32 or holds one number (`ScanWraps`,
  `FirstStoreMissed`, `NumbersExact`). Number 0 is real: the first uop of a thread has it
  (`src/process_manager.cc:842`, `src/trace_read_cpu.cc:1219`).
- `src/map.cc:413` takes a single store at the load's byte without an overlap test, which agrees
  with the scan exactly if both sizes are positive and the store is not number 0 (`ShortcutWrong`,
  `ShortcutAgrees`).
- The store index misses stores that start in another quadword or are hidden by a younger store at
  the same byte (`IndexMisses`, `IndexExact`), and loses a store when retirement is out of order
  (`OutOfOrderLoses`, `DeleteAgrees`).
- `memory_c::set_cache_id` finds a cache tile with a bit mask (`src/memory.cc:1976-1985`, macro `BANK`
  in `src/utils.h:77`), while the cache divides by the number of tiles (`src/cache.cc:171-173`).
  Unless that number is a power of two, lines of one tile share tag and set. The override in
  `l2_decoupled_network_c` (`src/memory.cc:2412-2436`) takes the remainder and does not have this
  fault (`MaskCollision`, `FalseHit`, `LosslessExact`, `HitsRightExact`).
- The LRU search starts at `MAX_INT`, so with all access times at or above it way 0 is taken
  (`LruWrong`, `LruExact`).
- The partitioned search fails exactly for a kind without a share (`NoShareFails`,
  `KindVictimExact`).

Besides, `src/network_mesh.cc:192` admits one virtual channel, but the choice of the routing row
divides by the number of VCs less one (`src/network_mesh.cc:254`); the model requires two.

## Model

| member | source | states |
|---|---|---|
| `NocTopology.RingConfig` | src/network_ring.cc:130-136 | The ring wiring is a valid configuration for every number of routers: each LEFT and RIGHT port is wired, and the neighbour's opposite port leads back. |
| `NocTopology.MeshConfig` | src/network_mesh.cc:157-171 | The mesh wiring is a valid configuration for every width: every inner port is wired and every link is symmetric. |
| `NocStages.ShapesSetUp` | src/network_mesh.cc:79-174 | Every ring and every square mesh meets what the theorems about the network assume. |
| `NocTopology.PeerSymmetric` | src/network.cc:599-682 | The channel behind a linked channel is linked back to it, and neither is the local port. |
| `NocTopology.RouteIsSound` | src/network_mesh.cc:199-250 | Route calculation, ring or mesh, offers the local port only at the destination and otherwise only ports that are wired, for every pair of routers and every sticky direction. |
| `NocTopology.EscapeRow` | src/network_mesh.cc:252-309 | With at least two VCs the last VC, and no other, uses the escape row of the routing table. |
| `NocRouting.RingMinimal` | src/network_ring.cc:164-213 | Away from its destination a packet is offered one way round the ring: the one with no more hops than the other if it has not chosen yet, else the one it chose; the next router is one hop nearer. |
| `NocRouting.RingArrives` | src/network_ring.cc:164-213 | The hop count is the number of hops after which a packet first stands at its destination. |
| `NocRouting.MeshMinimal` | src/network_mesh.cc:199-250 | The adaptive row offers a port if and only if the router behind it is one hop nearer; the escape row is never empty, is a part of it, and goes along the column exactly if the packet is in the column of its destination. |
| `NocRouting.RingEscape` | src/network_ring.cc:231-240 | At every router a packet is offered one of the two last VCs, and from one such channel to the next a rank grows, so packets on them cannot wait for each other in a circle. |
| `NocRouting.MeshEscape` | src/network_mesh.cc:252-309 | From one escape channel of a packet to the next a rank grows, so packets on them cannot wait for each other in a circle. |
| `NocMoves.ReturnKeeps` | src/network.cc:706-719 | Counting a returned credit keeps all invariants: credits, streams, ownership, phases, places, deliveries. |
| `NocMoves.AllocateSwitchKeeps` | src/network.cc:491-513 | Winning switch allocation keeps all invariants. |
| `NocMoves.CalculateRouteKeeps` | src/network_ring.cc:164-213 | Recording a route keeps all invariants, the soundness of recorded routes among them. |
| `NocMoves.AllocateVcKeeps` | src/network.cc:393-468 | Giving an output VC to an input VC keeps all invariants: the owner is unique and its route leads to that port. |
| `NocMoves.SwitchKeeps` | src/network.cc:543-597 | Crossing the switch and sending a credit upstream keeps all invariants; the credit that is sent makes up for the buffer place that is freed. |
| `NocMoves.TraverseKeeps` | src/network.cc:599-682 | Link traversal keeps all invariants across the two routers: the flit continues the packet that the neighbour was receiving, and the spent credit is the place it takes. |
| `NocMoves.EjectKeeps` | src/network.cc:599-682 | Leaving through a local port keeps all invariants; the tail hands the request over and completes the packet. |
| `NocMoves.InjectKeeps` | src/network.cc:290-391 | Injection of a request as a packet of flits keeps all invariants. |
| `NocStages.ReturnReady` | src/network.cc:706-719 | After the stage no pending credit of the router is ready any more, and all invariants hold. |
| `NocStages.PickLinkExact` | src/network.cc:599-682 | The rotating search finds a VC with a flit and a credit if and only if the port has one. |
| `NocStages.Oldest` | src/network.cc:515-540 | The nested search returns a candidate that is no younger than any other, and none only if there is none. |
| `NocStages.InitKeeps` | src/network.cc:146-216 | The state that the constructors build satisfies all invariants. |
| `NocStages.RouterCycle` | src/network.cc:252-277 | A whole router cycle keeps all invariants. |
| `NocStages.NetworkCycle` | src/network_ring.cc:63-70 | A cycle of all routers, from any starting router round, keeps all invariants. |
| `NocStages.EveryRouterOnce` | src/network_ring.cc:63-70 | In a network cycle every router runs exactly once: each cycle counter goes up by one. |
| `NocStages.Run` | src/network.cc:252-277 | Every run of sends, receives and cycles from the initial state satisfies all invariants. |
| `NocTheorems.CreditConservation` | src/network.cc:202-206 | In every reachable state, on every link and VC: upstream credit + downstream buffer length + pending credits = 10; so credits stay within 0..10 and the buffer within its size. |
| `NocTheorems.BuffersBounded` | src/network.cc:687-696 | No input buffer of any port ever holds more than 10 flits. |
| `NocTheorems.ExclusiveOwner` | src/network.cc:442-467 | In every reachable state an output VC is granted to at most one input VC and is then not on offer. |
| `NocTheorems.NoInterleaving` | src/network.cc:543-597 | In everything that ever entered an input or output VC each flit but a tail is followed by the next flit of its packet and each tail by a head; the buffers hold the latest part of it in order. |
| `NocTheorems.OnePlace` | src/network.cc:543-597 | No flit is in two buffer positions, be they in input buffers, in output buffers or one in each. |
| `NocTheorems.NothingLost` | src/network.cc:290-391 | Every flit of every injected packet is in the buffer position recorded for it or was ejected. |
| `NocTheorems.DeliveredWhole` | src/network.cc:599-682 | A delivered packet left completely, flit after flit, through one local channel of the router it was bound for. |
| `NocTheorems.DeliveredOnce` | src/network.cc:643-674 | No packet is delivered twice, the packet counter equals the number of injected packets whose tail has not left, and a packet counts as delivered exactly if its tail left. |
| `NocTheorems.HandedOver` | src/network.cc:653-660 | What a router was handed, taken or still in its mailbox, are exactly the requests of the delivered packets bound for it, in order of delivery. |
| `NocLink.SomeSends` | src/network.cc:599-621 | A port serves a VC if and only if its link is free and one of its VCs has a flit and a credit. |
| `NocLink.SendsOne` | src/network.cc:604-621 | A port serves at most one VC: the first in the order that starts at VC cycle mod VCs and has a flit and a credit. |
| `NocLink.OutputsAfter` | src/network.cc:599-682 | After link traversal exactly the served output VCs have lost exactly their front flit and, but for the local port, one credit; a tail frees the VC; every other output VC is unchanged. |
| `NocLink.InputsAfter` | src/network.cc:631-632 | Exactly the input VC behind a served VC has one flit more: the one that was at the front, last in its buffer, ready after the link latency and one cycle. |
| `NocLink.NodesAfter` | src/network.cc:643-674 | If and only if a tail leaves through the local port its request is appended to the mailbox, its packet to the delivered ones, and the packet counter goes down by one. |
| `NocLink.LinksAfter` | src/network.cc:599-634 | A link is taken for the link latency if and only if a flit went over it. |
| `NocDelivery.LocalSends` | src/network.cc:599-621 | A local output VC with a flit is served whenever the rotation starts at it. |
| `NocDelivery.TurnsServed` | src/network.cc:599-682 | In any continuation of any run at least as many flits leave a local output VC as it has turns, until those it holds now have left. |
| `NocDelivery.LocalFlitLeaves` | src/network.cc:599-682 | A flit in position k of a local output buffer has left the network as soon as its VC had k + 1 turns in unlocked cycles; with a tail the packet is delivered and its request handed to the node. |
| `NocDelivery.LocalFlitLeavesSoon` | src/network.cc:599-682 | While no cycle is locked it leaves within k + 1 times as many cycles as there are VCs. |
| `NocDelivery.RouterServes` | src/network.cc:599-621 | In an unlocked cycle of its router a local output VC loses a flit if and only if it has one and no VC that the rotation reaches before it has one. |
| `NocDelivery.PortNeverIdle` | src/network.cc:599-682 | While a flit stays at the front of a local output buffer, in every unlocked cycle some flit leaves through the same port. |
| `NocDelivery.LockedRests` | src/network.cc:252-277 | A locked cycle of the network only counts. |
| `NocSwitch.OldestPrecedes` | src/network.cc:515-540 | The search returns the oldest candidate, and of equally old ones the first in port and VC order. |
| `NocSwitch.SomeCrosses` | src/network.cc:491-597 | An output port gets a flit if and only if an input VC has a flit and a grant for it. |
| `NocSwitch.SwitchAfter` | src/network.cc:491-597 | Switch allocation and traversal together: for each output port exactly the oldest waiting flit leaves its input VC and enters the output VC granted to it; a tail gives the grant back; credits due in the next cycle go upstream; all else is unchanged. |
| `NocPipeline.AlwaysCalm` | src/network.cc:491-597 | In every reachable state no flit has won the switch without crossing it, and every port is free for the next cycle. |
| `NocPipeline.CalmInEveryCycle` | src/network.cc:491-597 | The same at every point of every network cycle, so the law of a router cycle always applies. |
| `NocPipeline.ReturnAfter` | src/network.cc:706-719 | Exactly the ready credits leave the list, in order, and each is added to the counter it is for. |
| `NocHeads.RouteAfter` | src/network_ring.cc:164-213 | Every head flit that has arrived at the front of an input VC gets the routes to its destination, and nothing else changes; the extra test of the ring never fails. |
| `NocHeads.VcAfter` | src/network.cc:393-468 | Every free output VC that a packet can use is given to one, in favour of the oldest; none is left free that a packet can use; nothing else changes. |
| `NocHeads.InjectAfter` | src/network.cc:290-391 | Requests enter in order, each as one packet, until the next finds no room in any local VC; the rest still waits and nothing else changes. |
| `NocHeads.FlitsCarry` | src/network.cc:303-312 | A packet without data is one flit; with data all its flits but one could not carry more than the data, and all of them could. |
| `NocPipeline.RouterCycleLaw` | src/network.cc:252-277 | An unlocked router cycle satisfies all these laws one after the other, in this order, and then counts. |
| `NocNetwork.RouterNetwork.constructor` | src/network.cc:146-216 | A new network is in the initial state and valid. |
| `NocNetwork.RouterNetwork.ProcessPendingCredit` | src/network.cc:706-719 | The list-erasing loop returns exactly the credits that are ready. |
| `NocNetwork.RouterNetwork.StageLt` | src/network.cc:599-682 | The loop over output ports does the link traversal stage, whose effect the laws of `NocLink` state, keeping the invariants. |
| `NocNetwork.RouterNetwork.StageSa` | src/network.cc:491-513 | The loop over output ports does switch allocation, keeping the invariants. |
| `NocNetwork.RouterNetwork.PickSwitchWinner` | src/network.cc:515-540 | The nested loops find the oldest flit that wants the port. |
| `NocNetwork.RouterNetwork.StageSt` | src/network.cc:543-597 | The loops do switch traversal, keeping the invariants. |
| `NocNetwork.RouterNetwork.StageRc` | src/network_ring.cc:164-213 | The nested loops do route calculation, keeping the invariants. |
| `NocNetwork.RouterNetwork.StageVca` | src/network.cc:393-468 | The nested loops do VC allocation, keeping the invariants. |
| `NocNetwork.RouterNetwork.PickVcWinner` | src/network_ring.cc:215-281 | The nested loops find the oldest head flit that may take the output VC. |
| `NocNetwork.RouterNetwork.LocalPacketInjection` | src/network.cc:290-391 | The loop injects waiting requests while a local VC has room, keeping the invariants. |
| `NocNetwork.RouterNetwork.RunRouter` | src/network.cc:252-277 | The stages run in the order LT, SA, ST, RC, VCA, injection; a locked cycle only counts. |
| `NocNetwork.RouterNetwork.RunACycle` | src/network_mesh.cc:63-70 | The rotated loop is the model's network cycle, and each router's cycle counter goes up by one. |
| `NocNetwork.RouterNetwork.SendRequest` | src/network.cc:280-287 | A request is refused exactly if the injection buffer is full, and else is the last one in it; the network stays valid. |
| `NocNetwork.RouterNetwork.ReceiveRequest` | src/network.cc:721-738 | The oldest delivered request is handed out and leaves the mailbox. |
| `LruHistory.OrderedByUse` | src/mmu.cc:75-115 | After every legal run of insertions, updates and evictions the list is sorted by the time of last use, most recent first. |
| `LruHistory.VictimIsLeastRecent` | src/mmu.cc:107-115 | The page that is evicted has not been used more recently than any other page in the list. |
| `LruTable.EntriesPartition` | src/mmu.h:113-117 | List nodes and free entries partition the entries: none is lost and none is in both. |
| `LruTable.Table.constructor` | src/mmu.h:69-82 | The pointer structure of a new table is sound and represents the empty list. |
| `LruTable.Table.Detach` | src/mmu.h:101-104 | Rewriting two pointers removes exactly one node from the represented chain. |
| `LruTable.Table.Attach` | src/mmu.h:106-111 | Rewriting four pointers puts the node at the front of the represented chain. |
| `LruTable.Table.Update` | src/mmu.cc:75-82 | The page moves to the front of the represented sequence, all else keeps its order. |
| `LruTable.Table.Insert` | src/mmu.cc:84-105 | The page is prepended; a full table drops its last page, otherwise a free entry is used. |
| `LruTable.Table.GetVictim` | src/mmu.cc:107-115 | The last page of the sequence is removed and returned and its entry becomes free. |
| `LruTable.Table.Invalidate` | src/tlb.cc:129-144 | The page, if present, leaves the sequence and its entry becomes free. |
| `LruTable.Table.Lookup` | src/tlb.cc:70-74 | The hash table answers whether the sequence has the page. |
| `LruTable.Table.Translate` | src/tlb.cc:85-95 | The frame stored with the page is returned and the page moves to the front. |
| `MmuMemory.FreeFrame` | src/mmu.cc:440-449 | The circular search ends on a free frame unless no frame is free at all. |
| `MmuMemory.SearchSucceeds` | src/mmu.cc:437-451 | With the counter positive the search always ends on a free frame that belongs to no page. |
| `MmuMemory.WalkHitKeeps` | src/mmu.cc:303-329 | A walk that finds the page keeps the agreement of all tables and leaves the page table's frame in the TLB. |
| `MmuMemory.VictimMapped` | src/mmu.cc:409-412 | When no frame is free there is a victim, it is mapped, and its frame is in use. |
| `MmuMemory.EvictKeeps` | src/mmu.cc:408-423 | An eviction keeps the agreement of all tables and frees exactly one frame. |
| `MmuMemory.AllocateKeeps` | src/mmu.cc:451-468 | An allocation keeps the agreement: the frame found is free, and the replacement unit does not know the page and has a free entry, so the overwriting branch is never taken. |
| `MmuMemory.HitAgreesWithWalk` | src/mmu.cc:153-176 | A TLB hit and a walk of the page table give the same frame. |
| `MmuMemory.PhysicalParts` | src/mmu.h:142-147 | Translation preserves the page offset, and the frame can be read off the physical address. |
| `MmuMemory.TranslationInjective` | src/mmu.cc:303-321 | Under one page table different virtual addresses get different physical ones. |
| `MmuQueues.EnqueueKeeps` | src/mmu.cc:186-197 | Joining the walk queue keeps every uop in one place and every page under walk once in the calendar. |
| `MmuQueues.ToRetryKeeps` | src/mmu.cc:331-332 | Moving to the retry queue keeps the queues tidy. |
| `MmuQueues.ToFaultRetryKeeps` | src/mmu.cc:344-350 | Being postponed keeps the queues tidy. |
| `MmuQueues.ToFaultKeeps` | src/mmu.cc:354-357 | Recording a fault keeps the queues tidy: the fault buffer stays the set of pages with faulted uops. |
| `MmuQueues.LeaveRetryKeeps` | src/mmu.cc:221-265 | A uop that leaves the retry queue is nowhere else. |
| `MmuQueues.TakePageKeeps` | src/mmu.cc:286-298 | The uops of a page whose walk is due leave the walk queue together; the rest stays tidy. |
| `MmuQueues.TakeFaultRetryKeeps` | src/mmu.cc:274-283 | The postponed uops leave their queue together; the rest stays tidy. |
| `MmuQueues.StartBatchKeeps` | src/mmu.cc:560-566 | Starting a batch moves all faulted uops to the batch and keeps the queues tidy. |
| `MmuQueues.ResolveKeeps` | src/mmu.cc:470-506 | Resolving a page moves the uops of the batch and of newer faults on that page to the retry queue and keeps the queues tidy. |
| `MmuMachine.Translate` | src/mmu.cc:153-202 | `translate` answers true exactly for a uop that has an address or whose page the TLB holds. A hit moves the page's entry to the front of the TLB and translates the uop, and changes nothing else; a miss puts the uop last in the walk list of its page, whose walk, unless under way, ends after exactly the walk latency. |
| `MmuMachine.Walk` | src/mmu.cc:303-379 | A walk keeps the invariant, and changes the place of no other uop. |
| `MmuMachine.WalkDue` | src/mmu.cc:285-298 | Doing all due walks, earliest first, keeps the invariant and leaves no walk due. |
| `MmuMachine.RetryFrom` | src/mmu.cc:210-270 | Going once through the retry queue keeps the invariant; a uop leaves only translated and with a result. |
| `MmuMachine.Cycle` | src/mmu.cc:204-301 | A cycle keeps the invariant; a uop leaves only in an unlocked cycle, translated, with a non-zero latency. |
| `MmuMachine.PrepareKeeps` | src/mmu.cc:400-430 | Preparing a transfer keeps the invariant and makes a frame available. |
| `MmuMachine.TransferKeeps` | src/mmu.cc:434-506 | Completing a transfer maps the page and wakes its uops; the tables agree again. |
| `MmuMachine.AllocationOk` | src/mmu.cc:437-451 | The assertions before an allocation hold in every state of a started batch. |
| `MmuMachine.NextTransferKeeps` | src/mmu.cc:508-555 | After a transfer the next one is prepared, or the batch ends; either way the invariant is whole again. |
| `MmuMachine.DoBatch` | src/mmu.cc:396-555 | `do_batch_processing` keeps the invariant and reports the end exactly if no batch is left. |
| `MmuMachine.AscendingOrder` | src/mmu.cc:557-578 | The batch lists exactly the faulted pages, each once, in ascending order. |
| `MmuMachine.BeginBatch` | src/mmu.cc:557-578 | `begin_batch_processing` keeps the invariant and loses no uop. |
| `MmuMachine.HandleFaults` | src/mmu.cc:381-394 | `handle_page_faults` keeps the invariant, loses no uop and translates none. |
| `MmuMachine.AlwaysInv` | src/mmu.cc:117-578 | In every state of every run the tables agree and every waiting uop is in one place. |
| `MmuMachine.NoUopLost` | src/mmu.cc:204-301 | Over every run a waiting uop stays in the MMU until an unlocked cycle in which it is translated and its access has a result. |
| `MmuMachine.TablesAgree` | src/mmu.cc:303-468 | In every reachable state the page table is injective, frames in use are exactly the mapped ones, the free counter is right, the replacement unit ranks exactly the mapped pages and the TLB is a sub-map of the page table. |
| `MmuMachine.ExactlyOnePlace` | src/mmu.cc:186-377 | In every reachable state a uop waits in exactly one of the five places, or in none if it is not waiting. |
| `MmuMachine.QueuesAgree` | src/mmu.cc:354-357 | In every reachable state the fault buffer is the set of pages with faulted uops, the pages in process are distinct, unmapped and those with uops in process, and a page is under walk exactly if it is listed under one ready cycle, once. |
| `MmuEffects.WalkLaw` | src/mmu.cc:303-379 | A walk of a mapped page puts it first in TLB and replacement order and the uop last in the retry queue; of an unmapped one it records the fault, or postpones it if the parent is new, the page has no fault on record and the fault buffer is full. |
| `MmuEffects.CycleSpot` | src/mmu.cc:204-301 | What an unlocked cycle makes of each waiting uop: a walk that is due ends, a postponed walk is redone if the fault buffer is empty, an access is retried once, and otherwise the uop waits where it was. |
| `MmuEffects.WalkDueSpot` | src/mmu.cc:285-298 | Exactly the uops whose walk is due are through with it; all others stay, with the ready cycle they had. |
| `MmuEffects.RetryFromSpot` | src/mmu.cc:210-270 | Each retrying uop has its access once: with an address or a TLB hit it leaves with a result and stays without; otherwise it waits for a walk. |
| `MmuEffects.CycleTable` | src/mmu.cc:204-301 | A cycle maps no page and takes none away. |
| `MmuHistory.OrdersByUse` | src/mmu.cc:321 | In every reachable state the replacement unit lists the mapped pages, and the TLB its entries, in the order of last use; the uses are read off the events and states of the run: walks that find the page mapped, pages being mapped, TLB hits. |
| `MmuHistory.VictimLeastUsed` | src/mmu.cc:107-115 | A page that leaves the page table in any step of any run was used longer ago than every other mapped page. |
| `MmuFaults.FaultsLaw` | src/mmu.cc:381-578 | Fault handling, case by case: a batch of exactly the faulted pages begins if there is none; its first transfer is made ready after the overhead; a transfer that is complete maps its page, wakes its uops and makes the next ready, after the fault latency and, if no frame was free, the eviction latency; otherwise nothing changes. |
| `MmuFaults.TransferLaw` | src/mmu.cc:434-506 | The first page in process gets a frame that was free, and all uops that wait for it, in the batch or faulted since, may retry. |
| `MmuFaults.RoundNearer` | src/mmu.cc:381-555 | Handling faults resolves a page of the batch, or once the cycle is over a bound on its wait is lower. |
| `MmuFaults.FaultResolved` | src/mmu.cc:381-555 | In every run the i-th page of a batch is mapped, and its uops may retry, after at most the rest of the overhead and i + 1 longest transfers, in rounds of fault handling and a cycle, whatever else happens. |
| `MmuFaults.BatchBound` | src/mmu.cc:557-578 | A faulted page is in the batch that begins, and its bound is the overhead and i + 1 longest transfers. |
| `MmuUnit.Unit.constructor` | src/mmu.cc:117-147 | A new MMU, with any initial cycle count, is valid. |
| `MmuUnit.Unit.TranslateUop` | src/mmu.cc:153-202 | The method does what the machine's `Translate` does, on the linked lists and hash tables. |
| `MmuUnit.Unit.WalkUop` | src/mmu.cc:303-379 | The method does the machine's walk for one uop. |
| `MmuUnit.Unit.DoDueWalks` | src/mmu.cc:285-298 | The loop over the walk calendar does all due walks and terminates. |
| `MmuUnit.Unit.RetryAccesses` | src/mmu.cc:210-270 | The erasing loop goes through the retry queue as the machine does and terminates. |
| `MmuUnit.Unit.RunACycle` | src/mmu.cc:204-301 | The method does the machine's cycle, keeping validity. |
| `MmuUnit.Unit.DoBatchProcessing` | src/mmu.cc:396-555 | The method does the machine's batch step, keeping validity. |
| `MmuUnit.Unit.FindFreeFrame` | src/mmu.cc:440-449 | The do-while loop ends on the frame that `FreeFrame` names. |
| `MmuUnit.Unit.EvictPage` | src/mmu.cc:520-535 | Page table, TLB, free frames and replacement list change as the memory model's eviction says. |
| `MmuUnit.Unit.BeginBatchProcessing` | src/mmu.cc:557-578 | The method starts the batch as the machine does. |
| `MmuUnit.Unit.HandlePageFaults` | src/mmu.cc:381-394 | The method does the machine's fault handling, keeping validity. |
| `DramBank.FlushKeeps` | src/dram_ctrl.cc:321-335 | A flush removes exactly the prefetches: pending = remaining + flushed, the slots stay partitioned and the current request is untouched. |
| `DramBank.InsertKeeps` | src/dram_ctrl.cc:338-351 | An accepted request adds itself and nothing else to the pending ones; the slots stay partitioned. |
| `DramBank.CompleteKeeps` | src/dram_ctrl.cc:453-532 | Completion removes the current request and the merged ones and nothing else; all their slots become free. |
| `DramBank.SelectKeeps` | src/dram_ctrl.cc:627-644 | Selection of the scheduled entry loses nothing and starts the row-buffer protocol anew. |
| `DramBank.ResumeKeeps` | src/dram_ctrl.cc:646-653 | A bank may get its next command only after the previous latency. |
| `DramBank.IssueProtocol` | src/dram_ctrl.cc:691-723 | The command that the row register calls for is the next one of the plan fixed at selection. |
| `DramBank.IssueKeeps` | src/dram_ctrl.cc:691-723 | Issuing a command keeps the bank's invariant. |
| `DramBank.GrantKeeps` | src/dram_ctrl.cc:761-769 | Getting the data bus keeps the bank's invariant. |
| `DramBank.AcquireKeeps` | src/dram_ctrl.cc:784-804 | Every transfer keeps 0 < free bytes <= width and granted bytes <= width * ready + width - free bytes. |
| `DramPolicy.RowTestExact` | src/dram_ctrl.cc:827-838 | The comparator's row test, on a row register cut to 32 bits, is right for all entries if and only if the register is below 2^31 or at least 2^64 - 2^31. |
| `DramPolicy.RowTestWrong` | src/dram_ctrl.cc:827-838 | With row 2^32 open, a request for row 0 counts as a hit and one for the open row does not. |
| `DramPolicy.StrictWeakOrder` | src/dram_ctrl.cc:825-841 | The comparator is a strict weak order for every row register: irreflexive, asymmetric, transitive, with transitive incomparability. |
| `DramPolicy.SortBag` | src/dram_ctrl.cc:850-854 | Sorting only permutes the buffer. |
| `DramPolicy.SortSorted` | src/dram_ctrl.cc:850-854 | After sorting no entry comes before an earlier one. |
| `DramPolicy.SortStable` | src/dram_ctrl.cc:850-854 | Entries that the comparator cannot tell apart keep their order. |
| `DramPolicy.PicksBest` | src/dram_ctrl.cc:825-854 | FR-FCFS never picks a prefetch while a demand waits, nor a miss while a hit of its class waits, and among equals the oldest. |
| `DramPolicy.PicksTrueHit` | src/dram_ctrl.cc:825-854 | With a row register that fits 32 bits the hit in question is a hit of the open row. |
| `DramPolicy.PickExact` | src/dram_ctrl.cc:825-854 | For all buffers a request for the open row is preferred to one of its class for another row, if and only if the register is below 2^31 or at least 2^64 - 2^31. |
| `DramPolicy.MissPicked` | src/dram_ctrl.cc:825-854 | For every other register an older miss is picked over a request for the open row. |
| `DramControl.Oldest` | src/dram_ctrl.cc:679-689 | The loop finds the bank that comes before all others that want the same, by time and then number, and none only if none wants it. |
| `DramControl.CmdStageKeeps` | src/dram_ctrl.cc:677-725 | Issuing commands in all channels keeps the banks' invariants and the pending requests. |
| `DramControl.GrantAllKeeps` | src/dram_ctrl.cc:748-772 | Granting the bus while it is available terminates and keeps banks, pending requests and the bandwidth bound. |
| `DramControl.CompleteOneKeeps` | src/dram_ctrl.cc:448-534 | The assertion at the start of a completion holds, and no request is lost between banks, lists and finished. |
| `DramControl.NewStageKeeps` | src/dram_ctrl.cc:622-655 | Selection in all banks keeps their invariants and the pending requests. |
| `DramControl.AcceptKeeps` | src/dram_ctrl.cc:262-318 | Acceptance, with a flush if the buffer is full and refusal if it stays full, keeps the invariant. |
| `DramControl.SentOnce` | src/dram_ctrl.cc:555-605 | With one pass or two, no request is sent twice and only waiting requests that the network takes are sent. |
| `DramControl.SendKeeps` | src/dram_ctrl.cc:555-605 | Sending keeps the invariant. |
| `DramControl.ReleaseKeeps` | src/dram_ctrl.cc:536-553 | The delay list loses every request that is ready, though the loop stops at the first that is not. |
| `DramTheorems.CycleKeeps` | src/dram_ctrl.cc:354-379 | A whole cycle keeps the invariant. |
| `DramTheorems.AlwaysInv` | src/dram_ctrl.cc:155-240 | Every state of every run satisfies the invariant. |
| `DramTheorems.RequestConservation` | src/dram_ctrl.cc:262-318 | In every reachable state an accepted request counts exactly once in banks, delay list, output list and finished together, and the pending counter equals the requests in the banks. |
| `DramTheorems.SlotConservation` | src/dram_ctrl.cc:171-175 | In every reachable state free list, buffer and current entry partition the slots of each bank. |
| `DramTheorems.CommandsFollowPlan` | src/dram_ctrl.cc:622-774 | At every moment the commands issued for the current request are the first ones of the plan fixed at its selection, spaced by their latencies; the ready time of data is finite exactly in the data-wait phase. |
| `DramTheorems.RowBufferProtocol` | src/dram_ctrl.cc:677-725 | In every reachable state a request whose data is under way saw exactly column, activate-column or precharge-activate-column, as the row at its selection decides, each command after the latency of the one before; data is ready only in the data-wait phase. |
| `DramTheorems.BandwidthBound` | src/dram_ctrl.cc:784-804 | In every reachable state the bytes granted on a channel are within what the bus carries until it is ready again. |
| `DramTheorems.CycleCalm` | src/dram_ctrl.cc:354-379 | After its commands a cycle ends no bank's wait, and every bank that starts to wait is younger. |
| `DramTheorems.CmdShrinks` | src/dram_ctrl.cc:677-725 | A waiting bank that is not served has exactly one bank fewer ahead of it. |
| `DramTheorems.WaitStep` | src/dram_ctrl.cc:354-379 | In a cycle a waiting bank is served, or waits on for the same request with one bank fewer ahead, or as many if the cycle was locked. |
| `DramTheorems.ServedInTurn` | src/dram_ctrl.cc:677-725 | A waiting bank is served as soon as more unlocked cycles have passed than there are banks ahead of it. |
| `DramTheorems.BoundedWait` | src/dram_ctrl.cc:677-725 | In every run a bank waits for its command for at most as many unlocked cycles as its channel has banks. |
| `DramEffects.AcquireExact` | src/dram_ctrl.cc:784-804 | The bytes of a transfer are exactly what the bus carries from now until it is ready, with what was left of this cycle and without what is left of that one. |
| `DramEffects.GrantAllLaw` | src/dram_ctrl.cc:748-772 | Afterwards the bus of the channel is taken or no bank has data at hand; a bank is unchanged or had data at hand and got the bus for its own bytes. |
| `DramEffects.GrantOrder` | src/dram_ctrl.cc:748-772 | No bank gets the bus before an older one that wants it. |
| `DramEffects.CompleteEach` | src/dram_ctrl.cc:448-534 | Exactly the banks whose data has been sent complete: they are idle afterwards and lose exactly the current and the merged requests. |
| `DramEffects.NewRenews` | src/dram_ctrl.cc:622-655 | An idle bank selects the entry that the policy puts first; one whose command has taken effect may get the next; any other is unchanged. |
| `DramEffects.CycleEach` | src/dram_ctrl.cc:354-379 | What a bank goes through in an unlocked cycle, stage by stage. |
| `DramService.CompletionOnTime` | src/dram_ctrl.cc:448-534 | In every step of every run a request that leaves its bank, unless it is a prefetch that made room, leaves in an unlocked cycle, after the whole plan of the current request, and not before the ready time of a grant for the current request's own bytes. |
| `DramService.LeavesWhenSent` | src/dram_ctrl.cc:448-534 | And then it does leave: when the data has been sent the current request, and what is merged with it, is gone after the cycle. |
| `DramService.ReadyFromGrant` | src/dram_ctrl.cc:728-774 | The ready time of data under way was given by a grant, in this step or before, for the bytes of that request. |
| `DramService.ReadyKept` | src/dram_ctrl.cc:448-534 | Until then the request keeps its bank and its ready time. |
| `DramService.CompletedGoes` | src/dram_ctrl.cc:486-529 | A completed write-back is freed in the same cycle; any other request is in the output list, or in the delay list with exactly the additional latency. |
| `DramService.NothingStalls` | src/dram_ctrl.cc:354-379 | After an unlocked cycle no idle bank has anything buffered but what was just accepted, no bank waits for a command that has taken effect, none with data at hand finds its bus free, and no data that has been sent is held. |
| `DramService.IssueLaw` | src/dram_ctrl.cc:691-723 | Which command a bank gets, what it does to the row register, and that it takes exactly its own latency. |
| `DramService.ServiceTime` | src/dram_ctrl.cc:622-774 | From its first command a request takes at least the column latency, with the activation latency more if no row was open, and with precharge and activation latency if another row was. |
| `DramService.AcceptExact` | src/dram_ctrl.cc:262-318 | A request is taken in if and only if its bank has a free entry or a prefetch to flush, and is then the last of the buffer. |
| `DramService.SendsExact` | src/dram_ctrl.cc:555-605 | A pass sends the requests of the allowed classes in order, up to the first that the network refuses, and offers exactly the classes of those. |
| `DramService.SentExact` | src/dram_ctrl.cc:555-605 | Exactly the requests that the passes send leave the output list. |
| `DramUnit.Controller.constructor` | src/dram_ctrl.cc:155-240 | A new controller is in the initial state and valid. |
| `DramUnit.Controller.PickOldest` | src/dram_ctrl.cc:679-689 | The scanning loop finds the oldest bank. |
| `DramUnit.Controller.ChannelScheduleCmd` | src/dram_ctrl.cc:677-725 | The loop over channels, in place, does for every channel what the stage says of the state before the loop. |
| `DramUnit.Controller.ChannelScheduleData` | src/dram_ctrl.cc:728-774 | The nested loops do the data stage; the inner loop terminates because each pass takes a bank out of the data phase. |
| `DramUnit.Controller.FlushPrefetch` | src/dram_ctrl.cc:321-335 | Collecting and then removing one by one flushes exactly the prefetches. |
| `DramUnit.Controller.CompleteBank` | src/dram_ctrl.cc:453-532 | The merge loops and the completion do what the model's completion does. |
| `DramUnit.Controller.BankScheduleComplete` | src/dram_ctrl.cc:448-534 | The loop completes every bank whose data has arrived. |
| `DramUnit.Controller.BankScheduleNew` | src/dram_ctrl.cc:622-655 | The loop selects or resumes in every bank. |
| `DramUnit.Controller.InsertNewReq` | src/dram_ctrl.cc:262-318 | Acceptance as the model says, with the answer returned. |
| `DramUnit.Controller.SendOut` | src/dram_ctrl.cc:555-605 | The passes over the output list and the removal send what the model says. |
| `DramUnit.Controller.DelayPacket` | src/dram_ctrl.cc:536-553 | The loop releases the requests that are due. |
| `DramUnit.Controller.RunACycle` | src/dram_ctrl.cc:354-379 | The stages in their order do the model's cycle and keep validity. |
| `ClockMath.GcdDivides` | src/macsim.cc:689-693 | The recursive function gives a common divisor. |
| `ClockMath.GcdGreatest` | src/macsim.cc:689-693 | Every common divisor divides it. |
| `ClockMath.Gcd` | src/macsim.h:360-368 | The do-while loop gives what the recursive function gives. |
| `ClockMath.LcmForms` | src/macsim.cc:695-697 | Multiplying first or dividing first gives the same. |
| `ClockMath.LcmMultiple` | src/macsim.h:371-376 | It is a multiple of both numbers. |
| `ClockMath.LcmLeast` | src/macsim.h:371-376 | It divides every common multiple. |
| `ClockMath.LcmAllMultiple` | src/macsim.cc:837-840 | The period is a multiple of every domain's frequency. |
| `ClockMath.LcmAllLeast` | src/macsim.cc:837-840 | The period divides every number that all frequencies divide. |
| `ClockDomains.AdvanceKeeps` | src/macsim.cc:850-853 | Within a period a domain is never skipped: its next time is the first multiple of its spacing not yet passed. |
| `ClockDomains.PeriodComplete` | src/macsim.cc:1018-1024 | At the end of a period a domain of frequency f has run exactly f times in it. |
| `ClockDomains.StepKeeps` | src/macsim.cc:907-948 | One internal cycle keeps the invariant, across the end of a period too. |
| `ClockDomains.ExactTicks` | src/macsim.cc:1018-1024 | After n periods a domain of frequency f has run exactly n * f times. |
| `ClockDomains.NoDrift` | src/macsim.cc:850-853 | After any n internal cycles a domain has run n * f / period times, rounded up. |
| `ClockDomains.EvenlySpaced` | src/macsim.cc:907-948 | A domain runs in a cycle exactly if the internal clock is at a multiple of period / f. |
| `Arithmetic.TurnOnce` | src/macsim.cc:934-936 | The rotated loop visits nothing twice. |
| `Arithmetic.TurnAll` | src/macsim.cc:934-936 | The rotated loop visits everything. |
| `ClockDomains.Clocks.constructor` | src/macsim.cc:813-840 | The loop computes the period and all domains start at zero. |
| `ClockDomains.Clocks.RunACycle` | src/macsim.cc:907-948 | Running the domains one after the other, cores in rotated order, is one step of all domains at once. |
| `ClockDomains.Clocks.RestartAll` | src/macsim.cc:1018-1024 | The loop restarts all domains. |
| `DependenceMask.SetTests` | src/map.cc:65-68 | After setting a bit exactly that bit has changed, to set. |
| `DependenceMask.ClearTests` | src/map.cc:65-68 | After clearing a bit exactly that bit has changed, to clear. |
| `DependenceMask.MaskSingle` | src/map.cc:413 | The mask equals 1 << b exactly if bit b is set and no other. |
| `DependenceIndex.KeyInjective` | src/map.cc:62 | Key and byte determine address and path. |
| `DependenceIndex.UpdateAgrees` | src/map.cc:334-391 | A new store makes the index agree with the list extended by it. |
| `DependenceIndex.DeleteAgrees` | src/map.cc:480-511 | Deleting any in-flight store keeps the agreement if and only if it was not the youngest at its byte or was the only one there. |
| `DependenceIndex.RetireAgrees` | src/map.cc:480-511 | Deleting the oldest store always keeps it. |
| `DependenceIndex.OutOfOrderLoses` | src/map.cc:480-511 | Of two stores to one address, deleting the younger first loses the older. |
| `DependenceIndex.AlwaysAgrees` | src/map.cc:334-511 | In every run with in-order retirement every slot holds the youngest in-flight store at its byte. |
| `DependenceIndex.EntriesExact` | src/map.cc:498-510 | An entry exists exactly for quadwords with an in-flight store, and a mask bit is set exactly where one starts. |
| `DependenceIndex.ScannedExact` | src/map.cc:427-456 | The scan finds the youngest overlapping store of the slots if and only if that store is not number 0 and no overlapping store at a higher byte has a number above its lower 32 bits. |
| `DependenceIndex.ScanWraps` | src/map.cc:429-455 | With a younger store whose number cut to 32 bits is below that of an older one at a higher byte, the load finds the older one. |
| `DependenceIndex.FirstStoreMissed` | src/map.cc:429-455 | A store with number 0, the number of a thread's first uop, is not found next to another store of the quadword. |
| `DependenceIndex.NumbersExact` | src/map.cc:429-455 | For all stores with positive sizes and numbers from lo below hi a load finds the youngest overlapping store of the slots, if and only if the range is empty, or lo is at least 1 and hi is at most 2^32 or lo + 1. |
| `DependenceIndex.ShortcutAgrees` | src/map.cc:413-425 | The single-store shortcut gives what the scan gives if and only if both sizes are positive and the store is not number 0. |
| `DependenceIndex.ShortcutWrong` | src/map.cc:413-425 | A load of no bytes takes the only store at its byte, which the scan would not. |
| `DependenceIndex.IndexMisses` | src/map.cc:403-409 | A store that reaches into the load's quadword from the one before is not found. |
| `DependenceIndex.FoundExact` | src/map.cc:394-477 | For all stores and loads: what is found is the youngest overlapping store among the slots of the quadword if and only if, by the shortcut, both sizes are positive, or, by the scan, that store is found and kept. |
| `DependenceIndex.IndexExact` | src/map.cc:394-477 | For all stores and loads: the index gives what a scan of all in-flight stores would give if and only if there is no overlapping store and the shortcut is not taken, or the youngest one starts in the load's quadword on its path, no younger store starts at its byte, and the shortcut takes it or the scan reaches it. |
| `DependenceIndex.OrdinaryExact` | src/map.cc:394-477 | With numbers from 1 below 2^32 and positive sizes only the place of the youngest overlapping store decides. |
| `DependenceIndex.StoreIndex.UpdateStoreHash` | src/map.cc:334-391 | The hash table follows the list of in-flight stores. |
| `DependenceIndex.StoreIndex.DeleteStoreHashEntry` | src/map.cc:480-511 | When any in-flight store leaves, the hash table goes on agreeing with the list exactly if the store was not the youngest at its byte or the only one there; always if it is the oldest. |
| `DependenceIndex.StoreIndex.AddStoreDeps` | src/map.cc:394-477 | The method finds what the index holds, and the exact condition ties it to the list of in-flight stores, for all stores and loads. |
| `CacheAddress.ShiftIsDivision` | src/cache.cc:162-174 | For a power-of-two number of tiles the shift form equals the division form, for every address. |
| `CacheAddress.SplitLossless` | src/cache.cc:156-184 | With the tile as a remainder, tile, tag and set determine the line for every number of tiles, if a unit holds whole lines. |
| `CacheAddress.LosslessExact` | src/memory.cc:2412-2436 | For both ways in which the memory system finds the tile, tile, tag and set determine the line for all addresses if and only if there is one tile, or a unit holds whole lines and the tile is a remainder or the number of tiles is a power of two. |
| `CacheAddress.MaskCollision` | src/memory.cc:1976-1985 | With the tile found by a mask and a number of tiles that is no power of two, two lines of one tile share tag and set. |
| `CacheAddress.SplitByLine` | src/cache.cc:156-184 | All addresses of a line have the same tile, tag and set. |
| `CacheSets.AnyOrder` | src/cache.cc:201-221 | In whatever order the ways are searched, the same one is found. |
| `CacheSets.LruExact` | src/cache.cc:255-275 | The search returns an unused way or one with the least access time if and only if there is an unused way, or a time below MAX_INT, or way 0 happens to be one. |
| `CacheSets.LruWrong` | src/cache.cc:255-275 | Of two lines last used at or after MAX_INT, the search replaces the more recent one in way 0. |
| `CacheSets.FindLru` | src/cache.cc:255-275 | The loop finds the way that the search function names. |
| `CacheSets.FindPseudo` | src/cache.cc:241-254 | The endless loop ends, in its second round at the latest, at the first stale way or at way 0 with all times reset. |
| `CacheSets.KindVictimExact` | src/cache.cc:278-319 | Within the partition the search takes an unused way if the kind has room, else its least recently used line; it fails if and only if the kind has no share. |
| `CacheSets.NoShareFails` | src/cache.cc:309-317 | With no share for CPU lines even an empty set has no way for one. |
| `CacheSets.FindSameKind` | src/cache.cc:293-307 | The loop finds the way that the search function names. |
| `CacheSets.ReplaceCounted` | src/cache.cc:322-343 | The counters stay equal to the real line counts, whichever way is replaced. |
| `CacheSets.ReplaceUnique` | src/cache.cc:351-392 | Only the victim way changes, its tag leaves the set and the new one enters, and no tag is held twice. |
| `CacheSets.KindInsertDivided` | src/cache.cc:362-403 | An insertion under the partition keeps both kinds within their shares. |
| `CacheState.AccessKeeps` | src/cache.cc:187-226 | An access keeps the invariant. |
| `CacheState.VictimFound` | src/cache.cc:362-368 | A way is found for every line under every policy; the assertion of the partitioned search cannot fail. |
| `CacheState.InsertKeeps` | src/cache.cc:351-392 | An insertion after an access that found nothing keeps the invariant. |
| `CacheState.HitExact` | src/cache.cc:187-226 | An access hits exactly if the address's own line is resident, and finds that line. |
| `CacheState.FalseHit` | src/cache.cc:187-226 | Where two lines of a tile share tag and set, an access finds the wrong one. |
| `CacheState.AlwaysInv` | src/cache.cc:187-403 | In every run tags are unique, set and cache counters are exact, lines are where their addresses belong and the partition is kept. |
| `CacheState.PartitionKept` | src/cache.cc:278-343 | In every reachable state each kind is within its share and the counters are the real counts. |
| `CacheState.AlwaysHitExact` | src/cache.cc:187-226 | In every reachable state, for both tile selections, an access hits exactly if the address's own line is resident. |
| `CacheState.HitsRightExact` | src/cache.cc:187-226 | In every run of the caches of all tiles accesses hit exactly the resident lines, if and only if tile, tag and set determine the line. |
| `CacheHistory.TimesAreUses` | src/cache.cc:216-233 | Without pseudo-LRU the access time of every valid line, in every state of every run, is the time of the last event that inserted it or hit and updated it. |
| `CacheHistory.ReplacedLeastUsed` | src/cache.cc:240-319 | A line that is replaced was last used, by the events of the run, no later than any other line of the set, or of its kind if the cache is partitioned; under the condition of `LruExact` if it is not. |
| `CacheHistory.InsertPuts` | src/cache.cc:351-392 | An insertion changes one way of one set, to the new line, and returns the address of the line that was there, 0 if none. |
| `CacheHistory.InsertResident` | src/cache.cc:351-392 | After an insertion the new line is in the cache, and of the others exactly those that were there, but for the one whose address is returned. |
| `CacheHistory.PseudoLaw` | src/cache.cc:241-254 | Pseudo-LRU takes the first way that is unused or not used since the last reset; only if there is none it resets all times, and takes way 0. |
| `CacheState.CacheUnit.constructor` | src/cache.cc:70-141 | A new cache is empty and valid. |
| `CacheState.CacheUnit.AccessCache` | src/cache.cc:187-226 | The walk through the set finds the way of the model and keeps validity. |
| `CacheState.CacheUnit.FindReplacementLine` | src/cache.cc:240-319 | The loops of all three policies find the model's victim. |
| `CacheState.CacheUnit.InsertCache` | src/cache.cc:351-403 | The method does the model's insertion and keeps validity. |

## Left out

- Knobs, statistics, power events, debug output, factories, file output and build scripts: no state that a property depends on.
- SST component, DRAMSim2, Ramulator, VaultSim and IRIS bindings: wrappers over code outside the repository.
- `KNOB_IDEAL_NOC`, the `GPU_VALIDATION` variant of injection and round-robin arbitration; freedom from deadlock of the whole network (of the escape channels it is shown that packets on them never wait in a circle).
- Integer width: cycle counters, uop numbers and sums are unbounded except where the table says 32 or 64 bits; counters set to their maximum are `None`.
- Network objects: the routers are records of one network object rather than linked objects, and the flags that say which VC holds which route or grant are optional fields of the channel.
- Simple-network routing (`src/network_simple.cc`), the mapping from units to routers and the order of packets between a pair of routers.
- MmuMemory.PhysicalParts: shift and or are written as multiplication and addition, which is the same for page sizes that are powers of two, the only ones for which `src/mmu.h:142-147` is meant.
- CacheState.CacheUnit.constructor: the line counters of a set start at zero, though `src/cache.cc:58-61` does not set them.
- MMU parent uops: whether a fault may be postponed because of its parent is an arbitrary function of the uop in each cycle, and so is the latency that the cache returns; `m_num_page_table_walks` and the core-side fault lists are not modelled.
- MMU cache invalidation on eviction and any claim that the physical address of a translated uop stays valid after its page is evicted.
- `TLB` and `MMU::ReplacementUnit` are one class, since their pointer structures are the same; the replacement unit stores no frame.
- MMU walk calendar: pages leave it one by one instead of cycle by cycle, which no other step can see.
- DRAM address parsing: bank and row come with the request, the row below the mark of a closed row; the starvation check and the progress counter are not modelled.
- DRAM entries: the arrays of a bank are one array of records; sorting is a function, since it is the list library's.
- NocDelivery.LocalFlitLeaves: the bound counts the unlocked cycles in which the rotation starts at the VC. In the others the port may serve its other VCs first (`RouterServes`), one flit in each (`PortNeverIdle`), so no bound in unlocked cycles alone is claimed.
- MmuFaults.FaultResolved: bounds the wait of a page in a batch, not the wait of a fault for its batch to begin, which depends on how many pages fault meanwhile.
- DramTheorems.BoundedWait: bounds the wait for commands, not for the data bus, whose wait depends on the sizes of other transfers.
- Clock frequencies: positive integers, after the scaling of fractions; the quotient of doubles is exact division; `apply_new_frequency` changes frequencies without a new period and is not modelled.
- Dependence map: one thread, `KNOB_USE_NEW_ORACLE` off; a new entry has empty slots; the source lists of uops, the register map and the last-store map are not modelled.
- Cache bypass, prefetch and dirty bits, banks, invalidation (which leaves the counters unchanged, `src/cache.cc:406-416`) and page-wide invalidation.
- `dcu_c` queues, MSHRs, frontend, ROB, scheduler, execution and retirement stages.
