# RPL in Dafny

A model, in Dafny 4.11, of an event-driven RPL router (RFC 6550) with the reactive extensions P2P-RPL (RFC 6997) and
AODV-RPL (RFC 9854), and proofs about it. `dafny verify dfyconfig.toml` checks the whole project.

Each component is written in the shape of the code it models: objects whose methods update fields, loops over
neighbours, options and vectors. Every such method is proved against a function or relation on values, and the
properties of whole runs and networks are lemmas about those. Timers are explicit deadlines or armed flags, random
draws a free choice in their interval, and the set iteration orders of the code are left open.

| files | subject |
|---|---|
| `Lollipop`, `RplTypes`, `Octets`, `Paths` | sequence counters, common types, octet strings, facts about sequences |
| `LinkEtx`, `ParentSelection`, `ParentChoice`, `ParentStability` | link metric filter, choice of preferred parent |
| `Router`, `RankRuns`, `NeighbourRuns`, `RankGraph` | DIO handling, the rank ceiling and the neighbours over runs, acyclicity of the DODAG |
| `DaoTable`, `DaoReordering`, `StoringMirror`, `SourceRoute` | downward routes, reordered DAOs, chains of storing routers, the root's source routes |
| `SourceRoutingHeader`, `SourceRouteDelivery`, `RootRoutes` | the RFC 6554 header in octets, delivery end to end, the routes the root finds |
| `OptionWalk`, `DioCodec`, `DioHeader`, `DaoCodec`, `WireLayout` | option framing, the DIO and the DAO in octets, where each field stands |
| `LoopDetection`, `Trickle` | the RPL Option's loop check, the Trickle timer in real time |
| `AodvRreq`, `AodvLifeCycle`, `AodvCopies`, `AodvRoutes`, `AodvFlood`, `AodvIds`, `FloodPaths` | route discovery in AODV-RPL |
| `P2pDro`, `P2pReply`, `P2pReplyRuns`, `P2pCandidates`, `P2pFlood` | route discovery in P2P-RPL |

## Hypotheses

- Addresses are opaque naturals with `::` as 0 outside the codecs, and sixteen octets inside them. A router has one
  global address; its neighbours know it by a link-local one where that matters (`StoringMirror`, `SourceRouteDelivery`).
- `IsLinkLocal` is ns-3's and is taken to mean fe80::/64, as the class documentation in `model/rpl-header.h:1325-1343`
  presumes.
- Acyclicity speaks of a consistent snapshot: each router's entry for its preferred parent carries the rank that parent has.
- `StoringMirror` takes a chain of routers with loss-free first-in first-out links, no expiry, and no report of an
  ancestor's own address. DAOs that reach the chain from below may name a target more than once as long as none is
  `Outdated`, and a Forwarding-Error bounce may take a route as long as it is `Harmless`; both conditions are exact.
- `DaoReordering` takes reports of one counter within its window of 16, of which none installed expires meanwhile.
- `RankRuns` takes one DAGMaxRankIncrease for all DIOs of the DODAG; which neighbours were heard over an interface that
  goes down is part of the event.
- `AodvFlood` takes a discovery with H=0; what parent selection makes of a DIO is part of the event.
- `AodvLifeCycle` takes a router that has an address. Its record of targets is followed through runs in which no copy
  with H=0 meets a record kept from copies with H=1 alone; `ReturnsExactly` says what such a copy does.
- `P2pDro.NextHopsLeadToTarget` takes a reply whose hop-by-hop entries have not expired and no other reply for the Target.

## What does not hold

- A second parent selection at the same instant can change the choice: the exact conditions are
  `ParentStability.SecondCallIsQuiet` under OF0 and `SecondCallUnderMrhof` under MRHOF, the inputs `FreshNeighbourReturns`
  and `CheaperNeighbourReturns`. With MinHopRankIncrease 0 a router leaves its DODAG outright (`ZeroHopIncreaseLeaves`).
- A router can become a member of a Version strictly older than one it has left and remembers: not from outside the
  DODAG, but by migrating from another Version (`RankRuns.EntersOlderExactly`, with the run `MigrationPassesRecords`).
- A batch of DAOs whose highest message is a No-Path ends differently in different orders (`DaoReordering.OrderMatters`):
  a table forgets a Path Sequence when the route is withdrawn.
- A DAO that names a target twice can leave parent and child with different tables (`StoringMirror.RepeatedTargetBreaksMirror`).
  It does so exactly when the last change it makes to a target is one a holder of the entry before it takes for stale
  (`RelayTellsExactly`, `RelayKeepsMirrorExactly`).
- A Forwarding-Error bounce erases a route and tells nobody. Tables still come to agree exactly when there was no route,
  or the route was the root's and a DAO naming its target is on the way to the root, or nothing below the root mirrors it
  (`StoringMirror.BounceKeepsMirrorExactly`); otherwise a withdrawal can stop half way up, and the root keeps a route
  nobody below it holds (`BounceBreaksMirror`).
- A source route that comes back to a router is not dropped there: the address a packet arrives under stands in the
  destination field and not in the list. With Hop Limit enough a packet is delivered if no router stands at three stops;
  it is lost if one stands at three with others in between (`SourceRouteDelivery.ReturningRoute`); `DeliveredExactly` has the exact condition.
- An AODV-RPL router can rejoin a discovery within REJOIN_REENABLE exactly when the target on record as it left was `::`
  (`AodvLifeCycle.EarliestReturn`, with the run `AnyTargetIsNotBarred`).
- A target deleted from an AODV-RPL record returns, and a second RREP can follow, exactly when a copy with H=0 reaches a
  record kept from copies with H=1 alone (`AodvLifeCycle.ReturnsExactly`, with the input `ChangingHReseeds`). The other
  change of H reseeds nothing.
- A P2P-DRO-ACK of a cycle a multiple of four before is taken for the present one's (`P2pReply.AckEndsRetransmission`).
- One lap round a loop need not be enough to confirm it (`LoopDetection.SecondLapCanBeNeeded`).

## Model

| member | source | states |
|---|---|---|
| Lollipop.WireClosedForm | model/rpl-conf.h:249-253 | any number of increments from any byte, in closed form: once up the linear region, then round the circle of 128 |
| Lollipop.WindowIsExact | model/rpl-conf.h:139-207 | within 16 increments the comparison is the order of the unbounded counts, from every starting byte and through both wraps |
| Lollipop.CircularWindowIsTight | model/rpl-conf.h:139-207 | in the circular region a counter is seen as newer if and only if it is 1 to 16 increments ahead modulo 128 |
| Lollipop.CompareFlips | model/rpl-conf.h:139-190 | the comparison is antisymmetric on every pair of bytes, equality and incomparability included |
| LinkEtx.LinkRecord.Heard | model/rpl-routing-protocol.cc:3961-4003 | one frame moves the freshness count and the smoothed ETX of a neighbour's record as the filter says, within 128 to 512 |
| LinkEtx.ConvergesInEighths | model/rpl-routing-protocol.cc:3961-4003 | under a constant sample the ETX, counted in eighths, reaches the sample's and stays |
| LinkEtx.ProgressAfter | model/rpl-routing-protocol.cc:3961-4003 | the distance in eighths left after n frames, never growing and never overshooting |
| LinkEtx.SampleExactly | model/rpl-routing-protocol.cc:3968-4003 | a tag is inverted against 255 and rounded down; 512 caps it and stands for a tag of zero |
| ParentSelection.Pass | model/rpl-routing-protocol.cc:4171-4232 | one loop over the neighbours, in any order, ends with the least candidate of its filters or none exactly when there is none |
| ParentSelection.Choose | model/rpl-routing-protocol.cc:4115-4276 | both passes and the MRHOF hysteresis yield the specified choice |
| ParentSelection.ChoiceIsUnique | model/rpl-routing-protocol.cc:4115-4276 | the specification determines the preferred parent, whatever the iteration order |
| ParentSelection.VerdictIsUnique | model/rpl-routing-protocol.cc:4053-4448 | the whole call, withdrawals and new state included, is determined by the state it starts from |
| ParentSelection.ChoiceIsOptimal | model/rpl-routing-protocol.cc:4120-4298 | the winner is below the entry bound, least by rank and address under OF0, and within PARENT_SWITCH_THRESHOLD of the least path cost under MRHOF |
| ParentSelection.SelectRestoresRankEquation | model/rpl-routing-protocol.cc:4278-4384 | from any state, a router that stays leaves with no parent and INFINITE_RANK, or a held parent and the rank its entry gives under the ceiling, L the least adopted |
| ParentChoice.HasParentExactly | model/rpl-routing-protocol.cc:4120-4298 | a router has a parent after the call if and only if some neighbour serves: heard within the window, nearer the root (or within a hop of it while the parent held is in doubt), not excluded by link or path cost; it leaves exactly if none does and it had one or a rank |
| ParentChoice.NearestIsChosen | model/rpl-routing-protocol.cc:4171-4232 | under OF0 the parent is the neighbour in contention nearest the root, the lowest address among equals |
| ParentChoice.CheapestIsChosen | model/rpl-routing-protocol.cc:4227-4276 | under MRHOF the parent held stays unless another in contention is cheaper by PARENT_SWITCH_THRESHOLD; otherwise the cheapest is taken |
| ParentChoice.RankFollowsParent | model/rpl-routing-protocol.cc:4278-4370 | the rank is the parent's entry plus a hop, or under MRHOF the path cost if more, and INFINITE_RANK exactly above L + DAGMaxRankIncrease; L falls to it exactly when adopted below L |
| ParentChoice.SwitchIsTold | model/rpl-routing-protocol.cc:4053-4448 | a parent still known is sent a withdrawal exactly when it went unheard, was lost or gave way to another; withdrawal and new report take consecutive Path Sequences, each newer than the one before |
| ParentStability.SecondCallIsQuiet | model/rpl-routing-protocol.cc:4053-4448 | a second call at the same instant changes nothing if and only if no fresh neighbour is let back in by the relaxed bound and the parent is still admitted |
| ParentStability.UniformFreshnessIsQuiet | model/rpl-routing-protocol.cc:4120-4298 | with uniform freshness and a positive MinHopRankIncrease a second call under OF0 returns false |
| ParentStability.FreshNeighbourReturns | model/rpl-routing-protocol.cc:4146-4154 | an input on which the relaxed bound lets a fresh neighbour back in and the second call under OF0 switches |
| ParentStability.SecondCallUnderMrhof | model/rpl-routing-protocol.cc:4053-4448 | under MRHOF a second call changes nothing if and only if the parent is still admitted, no fresh neighbour is let back in and none admitted undercuts it by PARENT_SWITCH_THRESHOLD |
| ParentStability.CheaperNeighbourReturns | model/rpl-routing-protocol.cc:4227-4276 | an input on which the parent chosen raises the rank enough to let in a neighbour that undercuts it |
| ParentStability.ZeroHopIncreaseLeaves | model/rpl-routing-protocol.cc:3927-3952 | with MinHopRankIncrease 0, which nothing refuses, the router rejects its own parent on the second call and leaves |
| Router.RplRouter.SendNoPathDao | model/rpl-routing-protocol.cc:2753-2833 | a withdrawal advances the Path Sequence, and is sent only with an address and outside temporary DAGs |
| Router.RplRouter.SweepStale | model/rpl-routing-protocol.cc:4053-4113 | the staleness sweep keeps exactly the live neighbours and withdraws through a stale preferred parent |
| Router.RplRouter.LeaveDodag | model/rpl-routing-protocol.cc:2393-2487 | leaving retains L and the Path Sequence of the Version left, newest of at most four |
| Router.RplRouter.JoinDodag | model/rpl-routing-protocol.cc:2207-2382 | joining restores the L still retained for the Version joined |
| Router.RplRouter.SelectPreferredParent | model/rpl-routing-protocol.cc:4053-4448 | the method, loops and all, meets the specification of the call, says whether anything changed, and sends the withdrawals it demands |
| Router.RplRouter.HandleDio | model/rpl-routing-protocol.cc:1670-2200 | a DIO is refused, poisons, joins, migrates Version or updates its sender as specified, then reselects; and the withdrawals it sends |
| Router.RplRouter.DioTrickleFire | model/rpl-routing-protocol.cc:1585-1628 | a Trickle firing re-evaluates the parent before a DIO goes out; and the withdrawals this sends |
| Router.RplRouter.StopInterface | model/rpl-routing-protocol.cc:904-955 | an interface going down takes its neighbours along without a withdrawal and reselects |
| RankRuns.RunsStaySound | model/rpl-routing-protocol.cc:4360-4370 | over every run with a fixed DAGMaxRankIncrease, at every moment: L is the least finite rank advertised in the Version and every one is at most L + DAGMaxRankIncrease, through leaving and rejoining while the record lasts |
| RankRuns.RejoinKeepsCeiling | model/rpl-routing-protocol.cc:2248-2258 | the first rank adopted after rejoining a remembered Version is held to the old ceiling |
| RankRuns.LeftVersionIsRemembered | model/rpl-routing-protocol.cc:2472-2486 | over every run a Version left is still remembered with its L until two maximum DIO intervals have passed, it is left again, or four other leaves evict it |
| RankRuns.EntersOlderExactly | model/rpl-routing-protocol.cc:1880-1990 | over every run a router enters a Version strictly older than one it remembers if and only if it migrates there as a member; from outside it is refused |
| RankRuns.MigrationPassesRecords | model/rpl-routing-protocol.cc:1980-1990 | a run that ends in Version 0 with the record of Version 10 in force |
| RankRuns.NeverExcludedByLinkMetric | model/rpl-routing-protocol.cc:4165-4215 | over every run no neighbour put to parent selection has an ETX above MAX_LINK_METRIC, so the exclusion never fires |
| NeighbourRuns.NeighboursLostExactly | model/rpl-routing-protocol.cc:1845-1866 | over every run a neighbour that poisons its routes, or was heard over an interface gone down, is a neighbour and a parent no more; every other stays as it was exactly while heard within the window |
| NeighbourRuns.SenderIsRecorded | model/rpl-routing-protocol.cc:1880-2110 | over every run a finite DIO of a Version that may be entered leaves its sender a neighbour as described, heard now, its link ETX moved on, the configuration in force that of the Version; any other changes nothing |
| NeighbourRuns.PathSequenceOnlyAdvances | model/rpl-routing-protocol.cc:2207-2382 | over every run an event advances the Path Sequence by at most two, through leaving, rejoining and migrating, so no report is ever taken for older than the one before |
| NeighbourRuns.PoisonedParentIsTold | model/rpl-routing-protocol.cc:1845-1866 | a preferred parent that poisons its routes is told once, and its successor reported to under the Path Sequence after |
| NeighbourRuns.LeavingIsRecorded | model/rpl-routing-protocol.cc:2456-2487 | over every run a Version left, for another or for none, is the last on record, with its L and for two maximum DIO intervals |
| RankGraph.HopUp | model/rpl-routing-protocol.cc:3927-3952 | in a consistent snapshot one hop up costs at least MinHopRankIncrease and ends at the root or a member with a parent |
| RankGraph.ReachesRoot | model/rpl-routing-protocol.cc:4340-4370 | every member with a parent reaches the root, within its rank over MinHopRankIncrease less one hops |
| RankGraph.Acyclic | model/rpl-routing-protocol.cc:4340-4370 | no member is its own ancestor |
| RankGraph.DepthIsBoundedByRank | model/rpl-routing-protocol.cc:3927-3952 | the depth of a member of finite rank is at most rank / MinHopRankIncrease - 1 |
| DaoTable.Dedupe | model/rpl-routing-protocol.cc:3283-3325 | the aggregated relay names each target once, where it first stood, with its last content |
| DaoTable.DedupedKeepsLast | model/rpl-routing-protocol.cc:3283-3325 | per target the relay carries the last change; without repeats it is the changes themselves |
| DaoTable.DaoReceiver.HandleOneTarget | model/rpl-routing-protocol.cc:3061-3265 | one Target updates the storing or the non-storing table and says whether it is news for the parent |
| DaoTable.OneReportExactly | model/rpl-routing-protocol.cc:3093-3252 | a report changes nothing unless it is newer than or equal to what is held, or the root holds only an expired entry; then a No-Path removes the route, and any other installs its own sequence and lifetime through its sender |
| DaoTable.RouteLastsExactly | model/rpl-routing-protocol.cc:3168-3171 | the route installed is alive exactly until the lifetime in lifetime units is over, for good at 0xFF |
| DaoTable.ChangesExactly | model/rpl-routing-protocol.cc:3254-3268 | a storing router other than the root relays a report exactly when it loses, gains or renews a route by it |
| DaoTable.DaoReceiver.HandleDao | model/rpl-routing-protocol.cc:2990-3347 | a whole DAO updates the table target by target and relays what changed |
| DaoTable.ChangesAreDistinct | model/rpl-routing-protocol.cc:3254-3347 | a message without repeated targets is relayed without repeated targets |
| DaoTable.EachTargetAlone | model/rpl-routing-protocol.cc:3061-3265 | in such a message each pair acts on its own target alone |
| DaoReordering.HighestAdvertisementWins | model/rpl-routing-protocol.cc:3093-3252 | any order of delivery, duplicates included, of a batch whose unique highest message is an advertisement leaves exactly that advertisement, alive exactly until some delivery of it plus its lifetime |
| DaoReordering.OrderFreeExactly | model/rpl-routing-protocol.cc:3093-3252 | the table is the same for every order if and only if the highest message is an advertisement or the batch holds none |
| DaoReordering.OrderMatters | model/rpl-routing-protocol.cc:3152-3166 | with a highest No-Path and an advertisement below it two orders end differently, since the table forgets a Path Sequence on a No-Path |
| DaoReordering.ParentSwitchSurvivesReordering | model/rpl-routing-protocol.cc:4403-4414 | the withdraw and re-advertise pair of a parent switch ends at the new parent in every order |
| SourceRoute.ComputeSourceRoute | model/rpl-routing-protocol.cc:3753-3796 | found exactly when the live parent chain reaches the root, and then that chain reversed; ends on every topology |
| SourceRoute.RouteIsRepeatFree | model/rpl-routing-protocol.cc:3753-3796 | a chain that reaches the root repeats no node, so the step bound cuts off no real route |
| SourceRoute.RouteIsUnique | model/rpl-routing-protocol.cc:3753-3796 | there is at most one such chain |
| StoringMirror.StepIsGood | model/rpl-routing-protocol.cc:3061-3347 | every step of a chain of storing routers keeps: once what is in flight arrives, a parent holds of each target what its child holds, and nothing in flight will be taken for stale |
| StoringMirror.RunIsGood | model/rpl-routing-protocol.cc:3061-3347 | so does every run from empty tables |
| StoringMirror.TablesMirror | model/rpl-routing-protocol.cc:3061-3347 | with nothing in flight each parent's (target, Path Sequence) table, less the child's own address, is the child's |
| StoringMirror.EveryTargetIsReached | model/rpl-routing-protocol.cc:2704-2744 | next-hop lookups from the root walk down the chain and reach every advertised target |
| StoringMirror.WalksDown | model/rpl-routing-protocol.cc:3443-3452 | each lookup goes to the router directly below |
| StoringMirror.RelayTellsExactly | model/rpl-routing-protocol.cc:3254-3347 | whatever a DAO repeats, a parent that absorbs the relay ends with the child's sequence if and only if the last change to the target is not outdated |
| StoringMirror.RelayKeepsMirrorExactly | model/rpl-routing-protocol.cc:3283-3347 | so a router's mirror in its parent survives a DAO under exactly that condition |
| StoringMirror.RepeatedTargetBreaksMirror | model/rpl-routing-protocol.cc:3283-3347 | an input: a DAO that names one target twice and leaves parent and child disagreeing for good |
| StoringMirror.BounceKeepsMirrorExactly | model/rpl-routing-protocol.cc:5439-5447 | at any moment of any run a Forwarding-Error bounce keeps the mirror if and only if there was no route, or it is the root's and the target is the next router's own or named by a DAO in flight to it, or there is no router below |
| StoringMirror.ToldAgainExactly | model/rpl-routing-protocol.cc:3061-3252 | a route forgotten is told again exactly by a DAO in flight that names it, since none in flight is ever taken for stale |
| StoringMirror.BounceBreaksMirror | model/rpl-routing-protocol.cc:5439-5447 | three routers where a bounce stops a withdrawal and the root is left with a route no router below holds |
| SourceRoutingHeader.Serialize | model/rpl-header.cc:2193-2225 | writes the header's octets, compression chosen from the addresses |
| SourceRoutingHeader.Deserialize | model/rpl-header.cc:2227-2296 | reads any octets holding the fixed part, never past the span they declare |
| SourceRoutingHeader.RoundTrip | model/rpl-header.cc:2154-2296 | every header that fits comes back from its octets under CmprI/CmprE, whatever follows it |
| SourceRoutingHeader.CountIsLength | model/rpl-header.cc:2227-2296 | the number of addresses is recovered from Hdr Ext Len, CmprI, CmprE and Pad |
| SourceRoutingHeader.SizeIsWhole | model/rpl-header.cc:2178-2190 | the size is a multiple of eight octets, no padding needed |
| SourceRoutingHeader.SourceRoutedPacket.Process | model/rpl-source-routing-extension.cc:112-241 | one router delivers, drops for the stated reason, or swaps the next address with the destination and counts both fields down; it counts the addresses in eight bits |
| SourceRouteDelivery.StopIsProcessed | model/rpl-source-routing-extension.cc:112-241 | stop k drops the packet as a loop exactly if its router is listed on both sides of another among the stops that are neither k nor k + 1, for its Hop Limit, or passes it on with the stops advanced by one |
| SourceRouteDelivery.JudgedExactly | model/rpl-source-routing-extension.cc:112-227 | of any header of fewer than 256 addresses: what is delivered, malformed, a loop, out of Hop Limit or passed on, in that order |
| SourceRouteDelivery.AnyPacketAdvances | model/rpl-source-routing-extension.cc:112-241 | whatever octets a packet sets out with and whatever routers it passes: each relay takes one from Segments Left and Hop Limit, keeps payload and addresses, and neither comes from nor goes to a multicast address |
| SourceRouteDelivery.HeadersFit | model/rpl-header.cc:2178-2225 | the header recomputed at every stop stays within Hdr Ext Len |
| SourceRouteDelivery.DeliveredExactly | model/rpl-routing-protocol.cc:4868-4911 | a packet sent down n hops, whichever routers they belong to, is relayed n - 1 times and delivered intact, under its real destination, if and only if its Hop Limit is at least n and no router finds such a loop, over octets decoded and encoded anew at every hop |
| SourceRouteDelivery.ReturningRoute | model/rpl-source-routing-extension.cc:158-213 | over whole journeys a route that visits no router three times is delivered, one that visits a router three times with others in between is lost |
| RootRoutes.EachAtOneStop | model/rpl-routing-protocol.cc:2549-2565 | link-local hops with distinct interface identifiers make a chain a route for the root, with each router at one stop |
| RootRoutes.FoundRouteDelivers | model/rpl-routing-protocol.cc:3753-3796 | whenever the reported parents lead to the root and the route fits one header, a packet sent down the chain found arrives if and only if its Hop Limit is at least the length of the chain |
| OptionWalk.SplitUndoesWriting | model/rpl-header.cc:573-800 | the options written are the options split off |
| OptionWalk.InsertAtBoundary | model/rpl-header.cc:573-602 | an option inserted at a boundary appears in its place and disturbs no other |
| DioCodec.RouteRoundTrip | model/rpl-header.cc:459-505 | RREQ and RREP options come back, the straddling L field and prefix elision included |
| DioCodec.RdoRoundTrip | model/rpl-header.cc:94-217 | a P2P-RDO comes back with Compr as recomputed |
| DioCodec.RoundTrip | model/rpl-header.cc:371-803 | every DIO within the setters' ranges, with any ARTs, Targets and vectors that fit, comes back but for Compr |
| DioCodec.SizeIsExact | model/rpl-header.cc:348-368 | the octets written are as many as GetSerializedSize says |
| DioCodec.IgnoredOptionIsSkipped | model/rpl-header.cc:573-800 | on any octets, an option of unrecognised type, or of fixed length and the wrong one, changes no decoded field wherever it is put |
| DioHeader.RplDioHeader.ReadOption | model/rpl-header.cc:603-800 | each option read consumes exactly its length and sets exactly its fields |
| DioHeader.RplDioHeader.TakeTurn | model/rpl-header.cc:573-602 | one turn of the loop consumes one octet for Pad1, else 2 + length, all present, and the loop stops exactly where that is not so |
| DioHeader.RplDioHeader.Deserialize | model/rpl-header.cc:540-803 | the loop decodes any octets holding the base object, never past their end |
| DioHeader.RplDioHeader.Serialize | model/rpl-header.cc:370-538 | writes the specified octets |
| DioHeader.RplDioHeader.ReadRouteOption | model/rpl-header.cc:682-758 | an RREQ or RREP option is read whole or skipped whole |
| DioHeader.RplDioHeader.ReadRdoOption | model/rpl-header.cc:166-217 | a P2P-RDO is read whole or skipped whole |
| DioHeader.ReadVector | model/rpl-header.cc:207-215 | a vector's entries are rebuilt from their tails and the DODAGID |
| DaoCodec.RunIsGrouped | model/rpl-header.cc:1778-1885 | taking options one at a time comes to the grouping of the whole list: in-order pairs with a possible Target left over, or a cleared header |
| DaoCodec.RplDaoHeader.Deserialize | model/rpl-header.cc:1716-1885 | on any octets holding the base, the loop yields exactly those pairs, or clears, and reads no further than the end |
| DaoCodec.RplDaoHeader.TakeTurn | model/rpl-header.cc:1778-1814 | the same of the DAO's loop, which also stops at an option that breaks the grouping |
| DaoCodec.RplDaoHeader.Serialize | model/rpl-header.cc:1651-1713 | writes the specified octets |
| DaoCodec.RplDaoHeader.TakeOption | model/rpl-header.cc:1815-1872 | one Target or Transit option pairs, waits or breaks the grouping |
| DaoCodec.DaoRoundTrip | model/rpl-header.cc:1651-1885 | every DAO comes back from its octets whatever the header held before |
| DaoCodec.DaoSizeIsExact | model/rpl-header.cc:1636-1649 | the octets written are as many as GetSerializedSize says |
| DaoCodec.ForeignOptionIsSkipped | model/rpl-header.cc:1815-1872 | an option of another type or length, wherever an option may begin, changes nothing |
| WireLayout.RoutingHeaderOctets | model/rpl-header.cc:2193-2225 | each field of the routing header in its octet and bits, Hdr Ext Len included |
| WireLayout.RoutingHeaderAddress | model/rpl-header.cc:2193-2225 | each address after those before it, less the eight octets it leaves out |
| WireLayout.AddressEntry | model/rpl-header.cc:2227-2296 | for any CmprI and CmprE an address read is its own octets after the link-local prefix, cut short or filled up with zeros |
| WireLayout.DioBaseOctets | model/rpl-header.cc:370-395 | each field of the DIO base in its octets and bits |
| WireLayout.DioOptions | model/rpl-header.cc:396-538 | each option a DIO has is written under its own type |
| WireLayout.DagConfOctets | model/rpl-header.cc:370-538 | each field of the DODAG Configuration in its octets |
| WireLayout.PrefixOctets | model/rpl-header.cc:370-538 | each field of the Prefix Information in its octets and bits |
| WireLayout.RouteOctets | model/rpl-header.cc:459-505 | each field of an RREQ or RREP option in its octet and bits |
| WireLayout.RouteAddress | model/rpl-header.cc:459-505 | each entry of its vector after those before it, less what all share with the DODAGID |
| WireLayout.RdoOctets | model/rpl-header.cc:133-165 | each field of a P2P-RDO in its octets and bits |
| WireLayout.RdoAddress | model/rpl-header.cc:133-165 | each entry of its vector after TargetAddr and those before it |
| WireLayout.LongestVectors | model/rpl-conf.h:410-418 | a vector may be exactly as long as an option of 255 octets carries and, in a P2P-RDO, NH can count |
| WireLayout.VectorEntry | model/rpl-header.cc:207-215 | for any Compr an entry read is its own octets after the first Compr of the DODAGID |
| WireLayout.DaoOctets | model/rpl-header.cc:1651-1713 | each field of the DAO base in its octets and bits |
| WireLayout.DaoTargetOctets | model/rpl-header.cc:1651-1713 | each target in a Target and a Transit Information option of its own, 42 octets in all, every field in its place |
| LoopDetection.RplIpv6OptionRpl.Process | model/rpl-packet-info-option.cc:60-270 | malformed, repeated, hop-by-hop and bounced packets apart, the option flags or confirms a wrong-way hop and records this router's rank |
| LoopDetection.RplIpv6OptionRpl.ReceiveTwice | model/rpl-packet-info-option.cc:100-123 | a packet walked twice in one event is judged once, and judged again when it comes back later |
| LoopDetection.CountsWrongHops | model/rpl-packet-info-option.cc:204-270 | over any path the first wrong-way hop sets the bit and every later one is confirmed |
| LoopDetection.BounceIsTakenOnce | model/rpl-packet-info-option.cc:172-202 | a packet with the Forwarding-Error bit is taken as bounced by the first router that does not route it hop by hop, and then goes on as one that never was |
| LoopDetection.UnflaggedExactly | model/rpl-packet-info-option.cc:204-264 | a packet stays unflagged exactly on strictly rank-monotone paths |
| LoopDetection.LoopIsConfirmed | model/rpl-packet-info-option.cc:204-264 | however a packet came to a loop, the loop is confirmed by the end of the second lap |
| LoopDetection.SecondLapCanBeNeeded | model/rpl-packet-info-option.cc:204-264 | a lap that goes wrong only where it closes is confirmed on the second and not on the first |
| Trickle.RplTrickleTimer.SetParameters | model/rpl-trickle-timer.cc:41-47 | Imax is Imin doubled the given number of times |
| Trickle.RplTrickleTimer.Start | model/rpl-trickle-timer.cc:56-62 | runs with I = Imin and both events due inside it |
| Trickle.RplTrickleTimer.Stop | model/rpl-trickle-timer.cc:64-71 | no event stays due |
| Trickle.RplTrickleTimer.Reset | model/rpl-trickle-timer.cc:79-89 | no effect unless running above Imin, else a fresh interval of Imin |
| Trickle.RplTrickleTimer.TransmitEvent | model/rpl-trickle-timer.cc:125-142 | transmits exactly when k = 0 or the counter is below k |
| Trickle.RplTrickleTimer.IntervalEvent | model/rpl-trickle-timer.cc:144-151 | doubles the interval up to Imax |
| Trickle.IntervalLaw | model/rpl-trickle-timer.cc:79-151 | j expirations after the last start or reset asked for, a running timer has I = min(Imin * 2^j, Imax): a reset brings any longer interval back to Imin |
| Trickle.NeverFasterThanHalfImin | model/rpl-trickle-timer.cc:103-142 | any two transmissions are at least Imin/2 apart whatever starts, stops and resets arrive |
| Trickle.NoLongSilence | model/rpl-trickle-timer.cc:79-151 | with k = 0 and no Stop the first transmission comes within Imin and each next within 3/2 Imax + Imin |
| Trickle.TransmitsExactly | model/rpl-trickle-timer.cc:91-142 | an interval transmits if and only if k = 0 or fewer than k hits, in 16 bits, came before its point |
| AodvRreq.AodvRouter.HandleAodvRreq | model/rpl-aodv.cc:636-1111 | what a copy makes of the membership: target record, L deadline, Address Vector, reply, or leaving with a full vector |
| AodvRreq.AodvRouter.HandleRreqDio | model/rpl-routing-protocol.cc:1670-2200 | refusal, joining, parent selection and processing in their order |
| AodvRreq.AodvRouter.Record | model/rpl-aodv.cc:732-866 | the record is seeded by the first copy, intersected with later ones, and loses this router's own address |
| AodvRreq.AodvRouter.Intersect | model/rpl-aodv.cc:803-812 | the stored targets that were heard again, in stored order |
| AodvRreq.AodvRouter.DeleteOwn | model/rpl-aodv.cc:828-842 | this router's own address deleted from the record, wherever it stands |
| AodvRreq.AodvRouter.LeaveInstance | model/rpl-routing-protocol.cc:2456-2471 | leaving arms the rejoin bar if a target was recorded |
| AodvLifeCycle.AnswersAtMostOnce | model/rpl-aodv.cc:1097-1100 | over any run without a foreign record a membership gives rise to at most one RREP |
| AodvLifeCycle.TargetsOnlyShrink | model/rpl-aodv.cc:777-846 | during such a stay the target record only shrinks, so a deleted target never returns |
| AodvLifeCycle.ReturnsExactly | model/rpl-aodv.cc:722-846 | a step brings back a target, or gives rise to a further RREP, if and only if a copy with H=0 that names it reaches a record kept from copies with H=1 alone |
| AodvLifeCycle.EmptyRecordSilences | model/rpl-routing-protocol.cc:1319-1325 | once the record is empty no RREQ-DIO goes out for the rest of the stay |
| AodvLifeCycle.StayLastsAtMostL | model/rpl-aodv.cc:321-365 | a stay ends at most L after the copy that first carried a nonzero one, and no later copy moves the deadline |
| AodvLifeCycle.StaysAreApart | model/rpl-aodv.cc:391-424 | a stay that ends with a proper target on record is followed by none within REJOIN_REENABLE |
| AodvLifeCycle.EarliestReturn | model/rpl-routing-protocol.cc:2456-2471 | a router that left can be a member again from the moment REJOIN_REENABLE has passed and no sooner, or at once if and only if the target on record as it left was :: |
| AodvLifeCycle.AnyTargetIsNotBarred | model/rpl-routing-protocol.cc:2456-2471 | a run that leaves and rejoins at one instant |
| AodvLifeCycle.ChangingHReseeds | model/rpl-aodv.cc:778-813 | an input: a copy with H=0 that brings back a target deleted from a record kept under H=1 |
| AodvCopies.FirstCopyExactly | model/rpl-aodv.cc:636-1111 | from outside a router joins exactly on a copy within the RankLimit, fresh, not through itself, of finite rank, from a parent and with room in the vector; what it then has on record; and that it answers exactly if named |
| AodvCopies.LaterCopyExactly | model/rpl-aodv.cc:636-1111 | what a further copy makes of a member: taken from its parent alone once one was processed, the targets cut down, the vector renewed, no further answer |
| AodvCopies.OtherCopyExactly | model/rpl-routing-protocol.cc:1670-2200 | every other copy changes nothing, only sets the parent, or ends the stay, with a bar if a target was on record |
| AodvCopies.RelaysExactly | model/rpl-routing-protocol.cc:1319-1357 | a router sends the RREQ on exactly while a target is left that it has not deleted and the first is not :: |
| AodvCopies.AnswersExactlyOnce | model/rpl-aodv.cc:1097-1111 | through the whole of a stay a router has answered exactly once if the copy it joined on named it, and not at all otherwise |
| FloodPaths.Extends | model/rpl-aodv.cc:1063-1076 | appending the hearer to a simple path gives a simple path one link longer |
| FloodPaths.VectorsAreSimplePaths | model/rpl-aodv.cc:1056-1076 | in any run of a flood, routes kept and sent on included, every vector in flight or kept is a simple path from the root to its sender over links that delivered |
| AodvRoutes.RreqTakes | model/rpl-aodv.cc:485-492 | an RREQ-DIO with H=0 does to a router's vector what a flood may, within 15 entries |
| AodvFlood.StepIsFlooding | model/rpl-aodv.cc:636-1111 | each step of routers that take RREQ-DIOs with H=0, send their vectors, lose parents or expire is a step of a flood |
| AodvFlood.RreqVectorsAreSimplePaths | model/rpl-aodv.cc:1056-1076 | in any run of such a discovery every vector in flight is a simple path from the OrigNode to its sender over links that delivered, and every member holds one to itself of at most 15 entries |
| AodvRoutes.RrepInstance.HandleAodvRrepInstance | model/rpl-aodv.cc:1824-2071 | the same for an RREP-Instance's flood, and the route its OrigNode takes from a copy |
| AodvRoutes.RrepInstance.Outward | model/rpl-aodv.cc:2041-2053 | the loop turns the vector round and ends it at the TargNode |
| AodvRoutes.ReversalIsAPath | model/rpl-aodv.cc:2041-2053 | the reversed vector is a simple path from OrigNode to TargNode over the flood's links the other way |
| AodvRoutes.AsymmetricRouteIsAPath | model/rpl-aodv.cc:2012-2058 | so is every route an OrigNode can take from an RREP-Instance |
| AodvRoutes.AodvRelay.HandleAodvRrep | model/rpl-aodv.cc:1609-1822 | one router stores, relays to the entry before its own, or drops, once per TargNode |
| AodvRoutes.RrepRetracesToOrigin | model/rpl-aodv.cc:1597-1602 | the symmetric RREP retraces the vector through each intermediate router once and leaves it with the OrigNode |
| AodvIds.Choose | model/rpl-aodv.cc:1366-1431 | the allocator's loop settles on the first free RPLInstanceID, or the barred one that comes free first, or none |
| AodvIds.ChoiceIsUnique | model/rpl-aodv.cc:158-226 | that rule settles on one |
| AodvIds.DiscoveryExactly | model/rpl-aodv.cc:158-226 | a discovery takes the first unused of the IDs 128 to 191, else one some bar holds, and none exactly if all are joined |
| AodvIds.PairingIsRecovered | model/rpl-aodv.cc:1631-1633 | Delta fits six bits and recovers the RREQ-InstanceID from the RREP's; the ID chosen is not in use and has D clear |
| P2pDro.P2pRouter.HandleP2pDro | model/rpl-p2p.cc:1406-1724 | the Origin accepts or refuses, the router whose turn it is relays with NH one less, everyone else only heeds Stop |
| P2pDro.P2pRouter.HandleAtOrigin | model/rpl-p2p.cc:1448-1578 | the Origin's part: next hop or source route, acknowledgement, Stop |
| P2pDro.P2pRouter.StoreHopByHopRoute | model/rpl-routing-protocol.cc:3648-3721 | a live entry of the same DAG with another next hop is not replaced, anything else is |
| P2pDro.ActsExactly | model/rpl-p2p.cc:1580-1710 | a listed router acts if and only if it is its turn, it is a member, no live route conflicts and the vector fits; what it relays, and with H=1 the next hop it stores |
| P2pDro.OriginActsExactly | model/rpl-p2p.cc:1448-1578 | the Origin acts if and only if it is a member, asked for that Target and, with H=1, holds no live route elsewhere; it relays nothing and acknowledges what it acts on and is asked to |
| P2pDro.NamedTwiceNeverActs | model/rpl-p2p.cc:1607-1640 | a router the vector names twice neither acts nor relays |
| P2pDro.RelayedOnlyInOrder | model/rpl-p2p.cc:1580-1711 | in any run only Address[n], ..., Address[1] relay, each with its own NH and after the one before, and nothing but NH changes |
| P2pDro.NextHopsLeadToTarget | model/rpl-p2p.cc:1465-1724 | with H=1, once all have acted, next hops lead from the Origin through the vector in order to the Target |
| P2pDro.SourceRouteLeadsToTarget | model/rpl-p2p.cc:1500-1545 | with H=0, in any run, once the Origin has acted its source route is the vector in order and then the Target |
| P2pDro.ShortestIsKept | model/rpl-p2p.cc:1500-1545 | of however many replies, in whatever order, the Origin is left with the shortest route, the last among equals |
| P2pDro.StopBindsEveryHearer | model/rpl-p2p.cc:1580-1605 | Stop binds every member that hears it, listed or not |
| P2pReply.P2pTarget.HandleP2pRdo | model/rpl-p2p.cc:569-912 | a P2P mode DIO records an alternate, is ignored, or is adopted and may begin a reply cycle |
| P2pReply.P2pTarget.StartReplyCycle | model/rpl-p2p.cc:806-895 | a cycle takes the next Seq and a full retry budget, and replies at once or opens a window |
| P2pReply.P2pTarget.RecordP2pAlternateRoute | model/rpl-p2p.cc:1204-1284 | a new route within the cap is kept, or displaces the first of the longest if shorter |
| P2pReply.P2pTarget.P2pDroRetry | model/rpl-p2p.cc:1033-1068 | a retry resends under the same Seq or gives up |
| P2pReply.P2pTarget.P2pDroCollectExpire | model/rpl-p2p.cc:1286-1404 | the window's end sends the main route and up to N others |
| P2pReply.P2pTarget.HandleP2pDroAck | model/rpl-p2p.cc:1726-1763 | only an acknowledgement of the current Seq ends the wait |
| P2pReply.CyclesAreBounded | model/rpl-p2p.cc:806-912 | over any interleaving Seq counts cycles modulo 4 and a cycle makes at most 1 + P2pDroMaxRetransmissions tracked sends |
| P2pReply.AckEndsRetransmission | model/rpl-p2p.cc:1726-1763 | an acknowledgement of the present cycle, or of one a multiple of four before, lets nothing more of the cycle be sent but what an open window still owes; any other is as if it had not come |
| P2pReply.BatchIsDistinct | model/rpl-p2p.cc:1287-1404 | a batch is the main route and at most N others, pairwise distinct, under one Seq |
| P2pReplyRuns.DioExactly | model/rpl-p2p.cc:569-912 | which DIOs are heeded, what they set, when a vector too long ends the stay, and exactly which begin a cycle |
| P2pReplyRuns.BegunExactly | model/rpl-p2p.cc:806-895 | a cycle sends exactly one P2P-DRO under the next Seq, or none and opens a window, exactly if other source routes are asked for |
| P2pReplyRuns.AlternatesExactly | model/rpl-p2p.cc:1204-1284 | which alternates a DIO adds, displaces and leaves: the rest stay but for one of the longest, displaced exactly by a strictly shorter route when N are held |
| P2pReplyRuns.WindowExactly | model/rpl-p2p.cc:1286-1404 | the end of a window sends the main route and every alternate that differs from it, or exactly N of them, and forgets them |
| P2pReplyRuns.UnacknowledgedIsRepeated | model/rpl-p2p.cc:1033-1068 | over any interleaving a member whose reply is out and not acknowledged has the retry timer armed for the next copy, under the present Seq, or has sent the first and every retransmission allowed |
| P2pReply.RdoTakes | model/rpl-p2p.cc:522-529 | a P2P mode DIO does to a router's own vector, and to a Target's alternates, what a flood may |
| P2pCandidates.CandidateSet.Prune | model/rpl-p2p.cc:1070-1115 | keeps the candidates through live neighbours that tie the best rank |
| P2pCandidates.CandidateSet.RecordP2pCandidateRoute | model/rpl-p2p.cc:1117-1202 | weighs one more copy, its vector completed with this router's address, against the live set |
| P2pCandidates.SetIsBestSeen | model/rpl-p2p.cc:1070-1202 | the set then holds exactly the routes, old and new, that tie the best live rank, distinct and at most 14 |
| P2pCandidates.KeptWereHeard | model/rpl-p2p.cc:1117-1202 | every route in the set is a vector heard with this router's address appended |
| P2pCandidates.AdvertisedExactly | model/rpl-routing-protocol.cc:1540-1551 | a DIO carries a route through a live neighbour of the best rank, each reached by some draw, and the router's own vector exactly if no candidate's neighbour is live |
| P2pCandidates.CandidateSet.AddressVectorToSend | model/rpl-routing-protocol.cc:1540-1551 | a DIO carries the candidate drawn from what pruning leaves, or the router's own vector if it leaves none |
| P2pFlood.RecordingIsKeeping | model/rpl-p2p.cc:522-529 | the candidates of every DIO not refused are routes a flood may keep |
| P2pFlood.StepIsFlooding | model/rpl-p2p.cc:510-912 | each step of routers that take copies, keep candidates, send either and react to timers is a step of a flood or several |
| P2pFlood.P2pVectorsAreSimplePaths | model/rpl-p2p.cc:716-717 | in any run of a P2P-RPL discovery, whichever candidates are drawn, every vector in flight, every router's own and every candidate is a simple path from the Origin over links that delivered |

## Left out

- AodvRreq.AodvRouter.HandleAodvRreq: does not keep the Dest SeqNo of each target, gratuitous RREPs or the relay chain of section 7 of RFC 9854 (both off by default); whether a route towards the OrigNode can be stored is an input.
- AodvRreq.AodvRouter.HandleRreqDio: what parent selection makes of the DIO is an input.
- AodvRoutes.AodvRelay.HandleAodvRrep: H=0 only; the sequence number and the expiry of the route kept are not modelled.
- DaoTable.DaoReceiver.HandleDao: finding the DODAG, the source address check and the DAO-ACK are not modelled.
- AodvRoutes.RrepInstance.HandleAodvRrepInstance: H=0 only, one membership, no RankLimit and no rejoin bar; rejoining it and its L deadline are not modelled.
- P2pReply.P2pTarget.HandleP2pRdo: the base-object and MaxRank refusals are not modelled (a DIO refused there is no event), nor is the length of the collection window.
- P2pReply.P2pTarget.StartReplyCycle: the length of the collection window is not modelled.
- P2pDro.P2pRouter.HandleP2pDro: at which Compr a vector fits is the input `capacity`; that the DAG is a P2P-RPL one is presumed.
- P2pDro.P2pRouter.StoreHopByHopRoute: the branches that compare sequence numbers, which only AODV-RPL routes carry, are not modelled.
- P2pDro.P2pRouter.HandleAtOrigin: when the source route it stores expires is not modelled.
- SourceRoute.ComputeSourceRoute: yields the routers' own addresses; `RootRoutes.RouteAlong` turns them into link-local hops.
- LoopDetection.RplIpv6OptionRpl.Process: sub-TLVs of the option and the offset it reports are not modelled; whether the option is malformed and whether a hop-by-hop route exists are inputs.
- Router.RplRouter.SendNoPathDao: the message's other fields, its DAOSequence and the interface it leaves by are not modelled.
- Router.RplRouter.LeaveDodag: the poisoning DIO that precedes it and the timers it cancels are not modelled.
- Router.RplRouter.JoinDodag: the prefix it configures, the Trickle timer it starts and the base DODAG it picks are not modelled.
- Router.RplRouter.SelectPreferredParent: the DAOs and DISs it schedules are not modelled.
- Router.RplRouter.DioTrickleFire: the DIO sent after the re-evaluation is not modelled.
- Router.RplRouter.HandleDio: refusals before the rank is looked at, DTSN refresh, DAO scheduling, Trickle resets and prefix information are not part of its state; MOP 4 discoveries have modules of their own.
- DAO timers, DAO-ACK retransmission, global repair, and the choice of base DODAG on leaving.
- `RouteOutput` and `RouteInput`, sockets, checksums and interfaces: they rest on ns-3 code that is not part of this model.
- ICMPv6 errors, of which only the drop reason is kept.
- The LQL metric beyond its octets: it enters no decision.
- DIS, DAO-ACK, P2P-DRO-ACK and RPI codecs: fixed layouts.
- The distributions of the pick among candidate routes and of Trickle's point in its interval: every draw is allowed.
- Prefix lifetimes and SLAAC.
- Tables, traces, helpers and example programs.
