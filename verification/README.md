# NammaTcpIp: a verified model of the receive path and the socket layer

NammaTcpIp is a thin AUTOSAR TcpIp layer over lwIP. This project models the parts of it
that carry state and proves what they keep over whole runs:

- the pool of list nodes and the receive queue that is threaded through it
  (`MemPool`, `RxQueue`, `RxCtrlBlk`, `RxRuns`, `SlotRenaming`), also with push and pop
  interleaved step by step (`MicroSteps`, `Alone`, `Trails`,
  `Interleavings`, `Races`);
- the receive callback and `TcpIp_recv`: who owns a packet, which bytes arrive, where the
  receive window goes (`RxPath`, `RxLaws`, `RxStreams`, `TcpIpRx`);
- the loop that hands one packet to every interface (`FanOut`);
- the life of lwIP's protocol control blocks around one global pointer (`Pcb`) and the
  socket table above it (`SocketTable`, `SocketRuns`, `SocketLayer`).

## How to read it

Each component has a value-level description (functions from state to state), a class
whose methods do the same in place and are proved equal to those functions, and lemmas
about all runs of the functions. Pool size, table size, number of interfaces, packets and
every answer of lwIP are arbitrary.

The code as it stands does not keep several properties it is evidently meant to keep. Each
such place is one switch. With the switch off the model is the code as written; with it on
the one place is repaired and all else is the same. The laws, each over all runs: where the
repaired code is proved to keep it, a concrete run on which the code as written does not,
and the condition on the calls under which a run keeps it, proved in both directions.

| law | kept by the repaired code | broken as written | kept exactly when |
|---|---|---|---|
| the queue is a bounded FIFO | `RepairedIsFifo` | `AsWrittenLosesSecondPacket` | `AsWrittenIsFifoExactlyWhen` |
| push and pop may interleave | `EverySchedule` | `UntiedCountBreaks`, `StaleHeadBreaks`, `LateLinkBreaks`, `LatePopBreaks` | `LawExactlyWhenHarmless` (one schedule), `SafeExactlyWhenRepaired` (all) |
| no packet is read once released | `PacketOwnership` | `AsWrittenBreaksTheLaws` | `NoReleasedReadExactlyWhen` |
| each packet is queued, consumed or dropped | `PacketOwnership` | `AsWrittenLosesSecondPacket` | `InPlaceExactlyWhen` |
| accepted bytes arrive, once and in order | `ByteStreamPreserved` | `AsWrittenBreaksTheLaws`, `FirstSegmentOnly` | `ByteLawExactlyWhen` |
| the window accounts for every byte | `FlowControl` | `AsWrittenBreaksTheLaws` | `WindowLawExactlyWhen` |
| references balance over the interfaces | `BalancedExactlyWhen` | `SecondInterfaceTooLate` | `BalancedExactlyWhen` |
| no pcb is lost or used after its close | `TidyAlwaysConserves`, `HandlesStandForPcbs` | `AsWrittenLosesPcbs`, `AsWrittenBindsTwice` | `AsWrittenConservesExactlyWhen`, `ConservesExactlyWhen` |
| listen succeeds on a bound pcb only | `TidyListensExactlyWhenBound` | `AsWrittenListensUnbound` | `AsWrittenListenSoundExactlyWhen` |
| no call writes outside the table | `RepairedAlwaysSyncs` | `AsWrittenLeavesTheTable` | `StaysInsideExactlyWhen` |
| calls go through in the order init, bind, listen | `ReachesOnlyInOrder`, `AcceptsOnlyInOrder`, `BindsAndListensInOrder` | `AsWrittenStaysClosed` | `AsWrittenReachesExactlyWhen`, `AsWrittenBindsExactlyWhen` |
| the main loop updates the initialised handles | `RepairedAlwaysSyncs` | `AsWrittenLosesSync` | `AsWrittenSyncsExactlyWhen` |

The switches:

| switch | code as written | repair |
|---|---|---|
| `link` | the tail walk assigns the new node to a local (src/TcpIp.c:84-87), `next` is never written | the last node leads to the new one, whose `next` is cleared; `Push` reports whether the packet was queued |
| `freshHead` | the walk starts at the head read on entry (src/TcpIp.c:59) | it starts at the head as it is when it starts |
| `atomicLink` | a pop may come between the steps of the walk and the link (src/TcpIp.c:84-87) | walk and link are one step |
| `atomicPop` | a link may come between loading the head's successor and moving the head (src/TcpIp.c:102-108) | they are one step |
| `tiedCount` | the counter is decremented also when no node was found (src/TcpIp.c:102-114) | decremented only after a removal |
| `hold` | the packet is freed right after queueing (src/TcpIp.c:206-207) | a queued packet is freed when consumed |
| `credit` | window credit is given on receipt (src/TcpIp.c:205) | on consumption, for what the packet then says its length is, or when it is dropped, as the comments at src/TcpIp.c:114 and 368 intend |
| `gather` | only the first segment is copied (src/TcpIp.c:163-166) | all segments are |
| `refEach` | one reference for all interfaces (src/lwip_int.c:108-112) | one per hand-off, the driver's own given up after the loop |
| `tidy` | the pcb pointer is overwritten while it owns a pcb, and kept after a close (src/TcpIp.c:225, 266-301) | a new pcb is bound only when it owns nothing; a connection is accepted only over a listener, which is kept in a second field until the connection ends; both are cleared on close; a pcb whose bind or connect fails is closed |
| `bounds` | a handle may equal the table size (src/tcpip_extensions.c:32) | it must be below |
| `store` | a successful bind is recorded in a local (src/tcpip_extensions.c:63) | in the table |
| `ordered` | every init is counted, and handles without init are served (src/tcpip_extensions.c:38) | inits in order, repeated ones not counted, other handles refused |

The inclusive bound of `free_tcpip_mpool` (src/tcpip_mpool.c:67) is modelled as it is, with
no switch: `AllocatorRefinesSets` says exactly when it matters. src/tcpip_extensions.c uses
undeclared names and is not among the built objects (makefile:53-58); it is modelled as a
design, with the undeclared loop variable read as `con` and `TcpIp_TcpState` as a function
the stack provides.

The micro-steps read the code with its tail link repaired, since without it a second packet
is lost whatever the order of the steps. They show what the code's comments do not say.
Counting before linking is safe only when a pop that found no node does not decrement, or
does so no more often than the counter runs ahead of the list. Reading the head before
acquiring the node is unsafe: the node read may be popped and then acquired by the same
push, which links it to itself. And a pop may take the last node away between the walk and
the link, a link may slip in between loading a successor and moving the head.
`LawExactlyWhenHarmless` says for every interleaving of the code's own steps, and of every
partial repair, exactly when none of this does harm.

A packet that has been released is read as whatever its memory holds by then: an argument
of the read (`found`), over which `ByteLawExactlyWhen` quantifies.

## Model

| member | source | states |
|---|---|---|
| MemPool.Pool.Get | src/tcpip_mpool.c:31-44 | the scan returns the lowest free slot or NULL, and only marks that slot acquired |
| MemPool.Pool.FreeSlot | src/tcpip_mpool.c:64-75 | succeeds for the slots of the pool and for the address one past them, and frees the named slot or writes behind the pool |
| MemPool.LowestFree | src/tcpip_mpool.c:35-41 | the answer is free, nothing below it is, and NULL means no slot is free |
| MemPool.AllocatorRefinesSets | src/tcpip_mpool.c:31-75 | any run of gets and frees with any pointers behaves as a set of free slots, and leaves the memory behind the pool alone, exactly when no free names the address one past the end |
| RxCtrlBlk.RxCtrlBlk.WalkToTail | src/TcpIp.c:84-86 | the tail walk ends, at the last node of the list |
| RxCtrlBlk.RxCtrlBlk.Append | src/TcpIp.c:59-88 | count, store and link or become the head, as a function of the old memory |
| RxCtrlBlk.RxCtrlBlk.Push | src/TcpIp.c:57-89 | the in-place push keeps the representation invariant and does to the packets what the abstract push does; a refused push changes nothing |
| RxCtrlBlk.RxCtrlBlk.Pop | src/TcpIp.c:94-118 | the in-place pop keeps the invariant and returns what the abstract pop returns |
| RxCtrlBlk.RxCtrlBlk.constructor | src/TcpIp.c:50-53 | the static initial state is a valid empty queue |
| RxQueue.ChainIsLinked | src/TcpIp.c:84-86 | following `next` yields exactly the list, for any acyclic list |
| RxQueue.PushRefines | src/TcpIp.c:57-89 | for either version and any choice of free slot, a push keeps the list acyclic, distinct, acquired and counted, and appends, strands or refuses as the abstract queue says |
| RxQueue.PopRefines | src/TcpIp.c:94-118 | a pop keeps the same invariant and returns the head packet, or NULL with or without an idle decrement |
| RxRuns.RunRefines | src/TcpIp.c:57-118 | the invariant survives every run through any recycling of slots, with the answers of the abstract queue |
| RxRuns.RepairedIsFifo | src/TcpIp.c:57-118 | FIFO refinement: a push is accepted iff fewer than N packets are queued, pops return accepted packets in order then NULL; counter, length and acquired slots agree, so the counter never wraps |
| RxRuns.Drain | src/TcpIp.c:94-118 | k pops return the k packets, the next returns NULL, and then head, counter and all slots are as at the start |
| RxRuns.AsWrittenLedger | src/TcpIp.c:70-115 | the code as written: at most one listed node, stranded slots only grow, one per push that meets a non-empty list; acquired = counter + idle pops; every packet returned, listed or stranded; with all slots stranded nothing is accepted or returned again |
| RxRuns.AsWrittenIsFifoExactlyWhen | src/TcpIp.c:57-118 | a run followed by a full drain answers like the FIFO exactly when every push meets an empty or a full queue |
| RxRuns.AsWrittenLosesSecondPacket | src/TcpIp.c:82-88 | two pushes back to back: the second packet is accepted and never returned |
| SlotRenaming.SamePacketsSameMemory | src/TcpIp.c:57-118 | two valid queues with the same packets differ only by a renaming of slots |
| SlotRenaming.PolicyIndependence | src/tcpip_mpool.c:35-41 | first fit (`FirstFitIsAPolicy`) or any other choice: the same answers, and memories related by a slot bijection, after every run |
| SlotRenaming.PushPopCommute | src/TcpIp.c:57-118 | on a queue neither empty nor full push and pop commute up to a slot bijection |
| MicroSteps.EverySchedule | src/TcpIp.c:57-118 | every interleaving of the repaired push and pop: the counter covers the list and agrees with it when both are idle; each linked packet is returned once, in order, and never orphaned |
| Alone.GivesUpExactlyWhenFull | src/TcpIp.c:62-66 | in every variant of the steps a push gives up exactly when no slot is free, changing nothing, and takes the lowest free slot otherwise |
| Alone.PushAlone | src/TcpIp.c:57-89 | in every variant, from every moment at which the law holds and no push is under way, a push that runs alone is exactly the queue's push, whatever a pop is in the middle of |
| Alone.PopAlone | src/TcpIp.c:94-118 | in every variant, from every moment at which no pop is under way, a pop that runs alone is exactly the queue's pop and returns its packet, whatever a push is in the middle of |
| Interleavings.LawExactlyWhenHarmless | src/TcpIp.c:57-118 | for every interleaving of the code's own steps (and of every partial repair), every pool: the law holds at every moment exactly when the decrements without a removal never outnumber the packets the counter runs ahead by, each link finds the list not run empty and its own slot not popped during the push (or nothing popped), and no pop skips a packet linked meanwhile |
| Interleavings.BadLinkBreaks | src/TcpIp.c:84-87 | any other link leaves its packet off the list |
| Interleavings.BadPopBreaks | src/TcpIp.c:102-108 | moving the head past a packet linked meanwhile loses it |
| Races.UntiedCountBreaks | src/TcpIp.c:98-114 | a pop between count and link uncounts the packet being pushed |
| Races.StaleHeadBreaks | src/TcpIp.c:59-88 | a push whose head was popped and re-acquired links the node to itself and loses the packet |
| Races.LateLinkBreaks | src/TcpIp.c:84-87 | a pop between the walk and the link takes the packet with it |
| Races.LatePopBreaks | src/TcpIp.c:102-108 | a link between loading the successor and moving the head is skipped |
| Races.SafeExactlyWhenRepaired | src/TcpIp.c:57-118 | safe under all interleavings over all pools exactly when all four decisions are repaired |
| TcpIpRx.TcpIpRx.RawRecv | src/TcpIp.c:203-218 | the callback's effect on queue, references, window and closes, on all of its paths, pbuf_free on a NULL packet included |
| TcpIpRx.TcpIpRx.TakePacket | src/TcpIp.c:204-208 | the accepting branch: credit, queueing and release in the code's order |
| TcpIpRx.TcpIpRx.Recv | src/TcpIp.c:152-173 | what is copied where, how many bytes go behind the caller's buffer, the rest of the buffer untouched, and the effect on the state; NULL buffer and empty queue return 0 |
| TcpIpRx.CopyOut | src/TcpIp.c:163-166 | the copy loop puts the first segment, or with `gather` the whole chain, at the front of the buffer |
| TcpIpRx.Beyond | src/TcpIp.c:163-166 | the bytes copied are those the buffer has room for plus those written behind it, and none go behind exactly when it has room |
| RxLaws.RunKeepsOwnership | src/TcpIp.c:152-218 | reference counts, releases and places of packets stay consistent over every run, for every combination of repairs |
| RxLaws.PacketOwnership | src/TcpIp.c:62-66 | each packet is in exactly one of queued, consumed, dropped; exactly those not queued are released, each once; no released packet is read |
| RxLaws.ReleasedExactly | src/TcpIp.c:206-211 | for every combination of repairs: as written the packets released are those handed over, in that order; with `hold` those consumed and those dropped, each once |
| RxLaws.NoReleasedReadExactlyWhen | src/TcpIp.c:206-207 | no packet is released twice; a run reads released memory exactly when, without `hold`, some read meets a non-empty list |
| RxLaws.InPlaceExactlyWhen | src/TcpIp.c:82-88 | each packet is queued, consumed or dropped exactly when no delivery takes a slot while the list is not empty and the tail link is missing |
| RxLaws.ClosedOncePerEnding | src/TcpIp.c:209-215 | the connection is closed once per delivery with an error or a NULL packet, and at no other time; each NULL packet is passed to pbuf_free |
| RxStreams.ByteLawExactlyWhen | src/TcpIp.c:152-208 | whatever the memory of released packets holds, copied bytes then queued bytes are the accepted bytes, exactly when no push strands a non-empty packet and every read that meets a packet finds it held and copies it to its end |
| RxStreams.ByteStreamPreserved | src/TcpIp.c:152-173 | with link, hold and gather no run loses, reorders or repeats a byte, for arbitrary chains |
| RxStreams.FirstSegmentOnly | src/TcpIp.c:163-166 | without `gather` alone a two-segment packet loses its second segment |
| RxStreams.WindowLawExactlyWhen | src/TcpIp.c:205-205 | window plus unconsumed plus failed bytes is the initial window at every moment, exactly when each accepted delivery has its credit wait or carries no bytes, and no credit is taken from a released packet whose memory tells another length |
| RxStreams.FlowControl | src/TcpIp.c:360-371 | with link, hold and credit unread bytes never exceed the window offered, credit never exceeds the bytes received, a drained queue restores the window; as written the window never shrinks |
| RxStreams.AsWrittenBreaksTheLaws | src/TcpIp.c:152-218 | one two-segment packet breaks the window law, is read after release, and what its memory holds is delivered instead |
| FanOut.Driver.LwipIntMain | src/lwip_int.c:95-113 | the loop's effect on the packet's references, for any answers; nothing happens without a packet |
| FanOut.BalancedExactlyWhen | src/lwip_int.c:108-112 | references are balanced for every pattern of answers exactly with one interface or one reference per hand-off |
| FanOut.TouchedTooLateExactlyWhen | src/lwip_int.c:108-112 | the packet is touched after its last reference is gone exactly when, without a reference each, an interface before the last does not keep it |
| FanOut.SecondInterfaceTooLate | src/lwip_int.c:108-112 | with two interfaces the second is handed released memory |
| Pcb.PcbLayer.TcpIpBind | src/TcpIp.c:283-301 | bind, with all answers of lwIP and a NULL port |
| Pcb.PcbLayer.TcpListen | src/TcpIp.c:307-323 | listen, with the swap of the pcb or no listener from lwIP |
| Pcb.PcbLayer.RawAccept | src/TcpIp.c:222-246 | the accept callback, valid or not, over a listener or not |
| Pcb.PcbLayer.TcpConnect | src/TcpIp.c:329-355 | connect, failing or pending |
| Pcb.PcbLayer.TcpIpClose | src/TcpIp.c:266-277 | close |
| Pcb.PcbLayer.PeerClosed | src/TcpIp.c:213-215 | the close on a peer's end or an error, after which the tidy code falls back to the listener |
| Pcb.PcbLayer.RawError | src/TcpIp.c:183-186 | the error callback: lwIP has released the pcb, the code as written goes on naming it |
| Pcb.BindAnswers | src/TcpIp.c:287-300 | for both versions: bind succeeds exactly when the current pcb is then bound, as written also when lwIP had no pcb to give |
| Pcb.ListenAnswers | src/TcpIp.c:310-322 | for both versions: a listen hands the old pcb to lwIP and makes the listener current, or nothing changes; as written it also succeeds without a listener |
| Pcb.AcceptAnswers | src/TcpIp.c:222-246 | for both versions: the callback accepts exactly when the new pcb is an open connection of ours afterwards |
| Pcb.ConnectAnswers | src/TcpIp.c:334-354 | for both versions: connect succeeds exactly when a pcb was made and belongs to lwIP afterwards; the current pcb and all others stay as they were |
| Pcb.CloseAnswers | src/TcpIp.c:266-277 | for both versions: close succeeds exactly when a pcb is current, and closes it |
| Pcb.EndAnswers | src/TcpIp.c:183-215 | for both versions: a callback that ends a connection leaves its pcb closed and every other as it was |
| Pcb.AsWrittenStaleUseExactlyWhen | src/TcpIp.c:266-322 | as written a closed pcb is used exactly by a listen or close while the current pcb is closed |
| Pcb.TidyAlwaysConserves | src/TcpIp.c:190-355 | at every moment of every run each pcb obtained is current, kept as the listener, handed to lwIP or closed, and none is used after its close |
| Pcb.AsWrittenConservesExactlyWhen | src/TcpIp.c:190-355 | the code as written does so throughout a run exactly when every call is clean: in particular no bind or accept overwrites the pointer, and nothing ends the current pcb |
| Pcb.AsWrittenLosesPcbs | src/TcpIp.c:222-355 | second bind, accept over a listener, second close and failed connect each break it |
| Pcb.TidyListensExactlyWhenBound | src/TcpIp.c:307-323 | listen succeeds exactly after a successful bind that no listen, accept or close has followed, when lwIP has a listener to give |
| Pcb.AsWrittenListensUnbound | src/TcpIp.c:283-323 | as written listen succeeds after a failed bind, after a close, and without a listener |
| Pcb.AsWrittenListenSoundExactlyWhen | src/TcpIp.c:266-323 | after every run of the code as written, which listens report success, and that the success is sound (open, bound pcb and a real listener) exactly when the last call that made or closed a pcb was a bind that succeeded and lwIP had a listener |
| Pcb.AsWrittenAgreesExactlyWhen | src/TcpIp.c:190-355 | the code as written and the tidy code agree in every state and result of a run exactly when each call finds the state it needs |
| SocketLayer.SocketLayer.SocketInit | src/tcpip_extensions.c:27-42 | init of one entry, with its bound and its counter |
| SocketLayer.SocketLayer.SocketBind | src/tcpip_extensions.c:45-69 | bind through the table to the pcb layer |
| SocketLayer.SocketLayer.SocketListen | src/tcpip_extensions.c:72-99 | listen through the table to the pcb layer |
| SocketLayer.SocketLayer.SocketAccept | src/tcpip_extensions.c:116-145 | accept succeeds exactly in state ACCEPT |
| SocketLayer.SocketLayer.MayTransfer | src/tcpip_extensions.c:148-198 | when receive and send reach the layer below |
| SocketLayer.SocketLayer.SocketMainLoop | src/tcpip_extensions.c:201-218 | the loop over the counted entries, as a function of the table |
| SocketTable.InitAnswers | src/tcpip_extensions.c:27-42 | what an init leaves, for every combination of repairs; as written it succeeds for every handle up to the table size inclusive, repaired exactly when all smaller handles are initialised |
| SocketTable.BindLeaves | src/tcpip_extensions.c:59-66 | a bind that gets through leaves BIND on success when it is recorded, and otherwise, as written always, leaves the table as it was |
| SocketTable.ListenLeaves | src/tcpip_extensions.c:86-95 | a listen at BIND or LISTEN leaves ACCEPT on success and LISTEN on failure, at any other state nothing |
| SocketTable.SyncsExactlyWhenPrefix | src/tcpip_extensions.c:207-215 | a pass updates and wakes exactly the initialised handles, whatever is reported, exactly when they are the counted prefix of the table |
| SocketTable.AsWrittenSyncsExactlyWhen | src/tcpip_extensions.c:27-41 | after any run of the code as written: exactly when the k inits name the k first entries, each once |
| SocketTable.AsWrittenLosesSync | src/tcpip_extensions.c:27-41 | two inits of the same handle make a pass inexact, for every table size |
| SocketTable.StaysInsideExactlyWhen | src/tcpip_extensions.c:32-98 | for every combination of repairs nothing is written outside the table during a run exactly when no carried-out init, stored bind or listen names the table size and the main loop counts no more entries than there are |
| SocketTable.AsWrittenLeavesTheTable | src/tcpip_extensions.c:32-38 | one init of the handle equal to the table size overwrites what follows; repeated inits make the main loop do so even with the bound repaired |
| SocketTable.RepairedAlwaysSyncs | src/tcpip_extensions.c:201-218 | with the repairs the pass is exact after any run, with inits repeated or out of order; every handle carries its own number; nothing is written outside the table |
| SocketRuns.ReachesOnlyInOrder | src/tcpip_extensions.c:148-198 | after every run a receive goes through exactly after init (or a report of CLOSED), bind and listen in that order, or a report from which that follows; a send exactly then, with bytes to send |
| SocketRuns.AcceptsOnlyInOrder | src/tcpip_extensions.c:116-145 | after every run accept succeeds exactly when the handle was listened on in that order, or reported at ACCEPT |
| SocketRuns.BindsAndListensInOrder | src/tcpip_extensions.c:45-99 | after every run bind and listen succeed exactly when their turn in that order has come and the layer below agrees |
| SocketRuns.OutsideIsRefused | src/tcpip_extensions.c:30-33 | with the repairs every call on a handle outside the table is refused and changes nothing |
| SocketRuns.AsWrittenReachesExactlyWhen | src/tcpip_extensions.c:116-198 | after every run of the code as written, for every handle up to the table size inclusive: receive, send and accept go through exactly on a report of the state they need, or of BIND or LISTEN with a listen successful since; init and bind never help |
| SocketRuns.AsWrittenBindsExactlyWhen | src/tcpip_extensions.c:45-99 | likewise bind goes through exactly while nothing but CLOSED was reported since the last init, however often it was bound, and listen exactly on a report of BIND or LISTEN; each if the layer below agrees |
| SocketRuns.AsWrittenStaysClosed | src/tcpip_extensions.c:60-66 | as written, until the main loop runs, no handle leaves CLOSED and no listen, accept, receive or send goes through |
| SocketRuns.HandlesStandForPcbs | src/tcpip_extensions.c:27-99 | over every run pcbs are conserved; unless a close has by-passed the table since the last pass, a handle at BIND or later stands for an open pcb of ours that is bound, listening or connected, one at ACCEPT or later for one that listens or is connected |
| SocketRuns.CloseKeepsMappedExactlyWhen | src/TcpIp.c:266-277 | a close that by-passes the table leaves a handle without its pcb exactly when some handle is at BIND or later |
| SocketRuns.ConservesExactlyWhen | src/tcpip_extensions.c:45-99 | over the pcb layer as written, with any repairs of the table, pcbs are conserved throughout a run exactly when every call that gets past the table is clean where it meets the pcb layer |
| SocketRuns.AsWrittenBindsTwice | src/tcpip_extensions.c:59-65 | as written the same handle binds twice and the first pcb is lost |

## Left out

- lwIP itself, the MAC driver, logging, timers and interrupt masking: lwIP's answers are arguments of the calls; a pcb it returns is assumed new, a callback that ends a connection is assumed to name an open one, and a packet handed over carries one reference.
- Numeric agreement of the pcb states with `TCPIP_LISTEN`: lwIP's header is not part of the repository, so `state < TCPIP_LISTEN` is read as "neither listening nor connected yet".
- MemPool.Pool.FreeSlot: pointers are slot addresses, so an address inside a slot, which the bound check also accepts, does not occur.
- MicroSteps: the tail link is repaired in every variant, and one producer and one consumer are interleaved, the two contexts the code has.
- Interleavings.LawExactlyWhenHarmless: pools of up to 65534 slots, since the counter may run one ahead of the pool size while a freed slot is not yet uncounted.
- RxQueue.PushRefines: pools of up to 65535 slots, the range of the uint16_t counter and scan index.
- RxStreams.WindowLawExactlyWhen: the 16-bit width of `tot_len` and of lwIP's window is not modelled.
- RxPath: the laws sit above the queue's abstract answers; which packet occupies which slot is the matter of `RxRuns`.
- Wait events: a wake-up is a count per entry; the busy-wait of `TcpIp_Socket_Accept_Condition` is not modelled, and the stubbed wait returns at once.
- `TcpIp_send`, `src/socket.c`, `src/sys_arch.c`, the services that only return OK, `get_tcpip_mpool_w_data`, interface initialisation and configuration data: no state of their own to prove anything about.
