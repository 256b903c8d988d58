# Link-state router core: models and proofs

A Dafny model of the core of a link-state router written in C, and proofs about it. Five parts of the
program are modelled, each by the modules named here.

- **Link-state distribution** (`lsd/`): hello liveness, stop-and-wait flooding, database exchange and the rule
  that decides what to do with a received advertisement. `LinkStates`, `FloodLink` and `ExchangeLink` hold the
  state machines as values; `AreaNetwork` makes a transition system of a whole area over a network that loses,
  duplicates and reorders; `LinkInvariant` and `AreaConvergence` prove that a quiet, connected area agrees;
  `AreaSafety` proves sequence safety along every run; `AreaReactions` says what each step does to which entry and
  queue, and follows news across a link; `ReliableFlood` and `ExchangeSession` look at one link, and `FloodProgress`
  and `ExchangeProgress` show that it gets there, and when.
  `BackboneEths` and `Zones` are the handlers of an interface and of a router, updated in place and proved
  against those machines; `ZoneSteps` shows that every step of the area is, for database, flooding, exchange and
  packets sent, the handler at the router concerned, and touches no other router. `ZoneInvariant` and `ZoneRuns` turn
  this round: any sequence of handler calls at the routers of an area is a run of it, so that convergence and sequence
  safety hold of the routers themselves.
- **Shortest paths and failure impact** (`ddc/`): `ShortestPaths` defines cheapest walks independently of any
  algorithm, `DijkstraRounds` is the argument for one round, `UnboundedRounds` a whole run with next-hop
  lists of any length and when these fit the arrays, `Ddc` the array program, `PathWalks` the walk along
  chosen next hops, `Areas` the path records, the link index and the failure accounting, and `PathCompute` the
  whole computation from the list of links.
- **Prefix trie** (`lib/table.c`, `lib/prefix.c`): `Prefixes` relates bytes and masks to bits, `TrieStores` is the
  tree and its three surgeries, `RouteTables` the table with locks, glue nodes, cascading deletion and the
  lock-handing iterator, `TrieSize` and `TrieIteration` the counting and the order of visits.
- **Event scheduler** (`lib/thread.c`): `Timevals` is the timer arithmetic, `ThreadLists` the intrusive lists with
  their links, proved against the sequences they hold, and `SixLists` six of them side by side; `ThreadPool` and
  `ThreadBatches` state the scheduler's invariant over those sequences, `Threads` is the scheduler itself, and
  `SchedulerLaws` says who is where, and in which order, after each of its operations.
- **Link-state database** (`lsdb/`): `LsdbTables` states when the two indexes agree, `Lsdb` is the database, and
  `Acceptance` runs the acceptance rule, the originations and the link notifications of `lsd/` on it, which ties it
  to the plain map that the protocol proofs use.

`Sequences` holds what the lists share. Objects that C code links together are either Dafny objects or cells of
a map from addresses; allocation always succeeds and gives a new address. Clock readings, the answers of `select`,
the list that `cr_lsdb_get_links_state` builds for an exchange, and the interface ids asked for in `min_cost` are
parameters.

`dafny verify dfyconfig.toml` checks everything.

Where the code surprises:

- The freshness test (`lsd/lsd_utils.c:34-45`) reads a time difference as unsigned, so a clock that goes back makes
  every entry stale; `OutOfDate` does the same.
- `nexthop_copy` tests the limit only after writing past it, and `equal_path_copy` not at all
  (`ddc/ddc.c:324-371`). The methods return `ok`, which is true exactly when every write fell inside its array. For a
  whole run that is so exactly when no list of `UnboundedRounds.Unbounded`, the same run with lists of any length, is
  longer than an array (`Fits`). A condition on the graph alone, `Room`, is enough whatever the interface ids, and holds
  with at most `MAX_ECMP_LIMIT` neighbours and in a star of any size; a router with more first hops than that rules
  `Fits` out, as in `DiamondOverflows`.
- The path walk of `record_short_path` looks up the matrix one step behind (`ddc/ddc.c:405-448`), so every second
  turn registers no link; the recorded walk is still a cheapest one.
- `thread_timer_wait` handles a negative number of seconds, which `timeval_adjust` never returns
  (`lib/thread.c:33-58`, `lib/thread.c:482-502`); the branch is kept and is dead.
- `cr_lsdb_link_state_update` writes to an uninitialised address when the key is missing
  (`lsdb/lsdb_interface.c:126-203`), so `LinkStateUpdate` requires the key.

## Model

| member | source | states |
|---|---|---|
| `AreaConvergence.Convergence` | lsd/lsd_utils.c:125-179 | In any state of any run from initial databases, with no link going down and no learnt entry ageing out, in a connected area: if every interface is up with nothing queued or unacknowledged and its exchange ended at one end, every router holds the originator's sequence number for every key anyone knows |
| `AreaConvergence.RunKeeps` | lsd/lsd_flood.c:98-245 | The area invariant holds in every state of every such run: nobody is ahead of an originator, and across each direction of each link everything is held by the peer or still carried |
| `AreaConvergence.StepKeeps` | lsd/lsd_flood.c:98-245 | Each single step, whether a delivery, duplicate, timer, origination or link start, keeps that invariant |
| `AreaConvergence.ReceiveAllKeeps` | lsd/lsd_exchange.c:175-183 | After a whole packet the receiver holds all of it, no database has lost anything, and the invariant stands |
| `AreaConvergence.ReceiveKeeps` | lsd/lsd_utils.c:96-179 | One advertisement taken in, with all its forwarding and flooding back, keeps the invariant |
| `AreaConvergence.LinkUpKeeps` | lsd/lsd_handler.c:23-144 | A link coming up, with its two database writes, its snapshot and its own advertisement, keeps the invariant |
| `AreaConvergence.AcceptGrows` | lsd/lsd_utils.c:125-179 | Into fresh entries, the acceptance rule only adds knowledge, and forwards or floods back exactly what its router then holds |
| `LinkInvariant.GoodAfterSend` | lsd/lsd_flood.c:61-95 | Packing the head of the queue under a new number keeps the link invariant |
| `LinkInvariant.GoodAfterFloodAck` | lsd/lsd_flood.c:98-119 | An acknowledgement, however late or often repeated, discards only what the peer has taken in |
| `LinkInvariant.GoodAfterExAck` | lsd/lsd_exchange.c:186-210 | The same for an exchange acknowledgement, which sends the next packet or ends the sending |
| `LinkInvariant.GoodAfterLinkUp` | lsd/lsd_exchange.c:37-51 | A link that starts with a snapshot of its database carries all that its router holds |
| `LinkInvariant.QuietCovers` | lsd/lsd_flood.c:53-126 | With nothing queued or unacknowledged and the exchange ended, the peer holds everything |
| `AreaSafety.SequenceSafety` | lsd/lsd_utils.c:34-61 | Along every run a stored sequence number is lower later than earlier only if at one step in between a delivered packet carried the key under a lower number and replaced an entry of another router that was past its freshness limit |
| `AreaSafety.HeldOrCarried` | lsd/lsd_utils.c:125-179 | What a router holds after a packet it held before, or the packet carried it |
| `AreaSafety.OwnEntriesUntouched` | lsd/lsd_utils.c:96-122 | No packet, at any point of any run, changes an entry whose key carries the router's own id |
| `AreaSafety.ReceiveAllSafe` | lsd/lsd_utils.c:96-179 | Both hold for a whole packet at one router, and no other router's database is touched |
| `AreaReactions.NewsIsTaken` | lsd/lsd_utils.c:125-165 | An advertisement of another router that is new, newer, or in place of a stale entry is stored as it is, stamped with the clock, and put at the end of the queue of every other running interface of the router; nothing else changes |
| `AreaReactions.OlderIsAnswered` | lsd/lsd_utils.c:166-172 | An older number for another router's link changes no database; what is held goes to the end of the queue of the interface it came in on, and nothing else changes |
| `AreaReactions.OwnIsAnswered` | lsd/lsd_utils.c:96-122 | Another number than the router's own for a link of its own is answered in the same way; the same number, or an unknown link, changes nothing |
| `AreaReactions.SameIsIgnored` | lsd/lsd_utils.c:125-179 | The number already held changes nothing |
| `AreaReactions.GivenIfNews` | lsd/lsd_utils.c:125-179 | Another running interface is given the advertisement exactly if it was news |
| `LinkStates.OutOfDateIs` | lsd/lsd_utils.c:34-45 | An entry is stale exactly when the clock is not within fifteen seconds after its last write |
| `AreaReactions.OriginationIs` | lsd/lsd_flood.c:284-314 | An origination stores the new state under the number after the old one, or 1, and puts it at the end of the queue of every running interface of the router; nothing else changes |
| `AreaReactions.OriginationCrosses` | lsd/lsd_flood.c:61-126 | From a quiet interface an origination reaches the neighbour in four steps: it holds the new state under the new number in place of any older one, and the interface is quiet again |
| `AreaReactions.OlderIsPutRight` | lsd/lsd_utils.c:96-179 | A neighbour that sends an older number holds the newer state four steps later |
| `AreaReactions.NewsCrosses` | lsd/lsd_flood.c:61-126 | News in the queue is sent, taken in and acknowledged in three steps, after which the peer has exactly it and the interface nothing left to send |
| `AreaReactions.SendTimerIs` | lsd/lsd_flood.c:61-95 | The send timer takes the first five of the queue, or all if there are fewer, sends them under the next number and keeps them as unacknowledged |
| `AreaReactions.ResendIs` | lsd/lsd_flood.c:53-59 | Both retransmission timers send what is unacknowledged again and change nothing else |
| `AreaReactions.FloodDataIsAcknowledged` | lsd/lsd_flood.c:98-126 | Every flood data packet that arrives is acknowledged under its number, and nothing else is sent |
| `AreaReactions.ExDataIs` | lsd/lsd_exchange.c:68-105 | An exchange packet is taken in and acknowledged exactly if it carries something and the receiver has not ended; the last one ends it |
| `AreaReactions.ExAckIs` | lsd/lsd_exchange.c:186-210 | The acknowledgement of the outstanding packet sends the next link state, one a packet, or ends the sending; any other changes nothing |
| `AreaReactions.LinkUpIs` | lsd/lsd_handler.c:23-144 | A link coming up: entry under the next number, first packet of the snapshot sent, flooding started, and the entry in the queue of every running interface, this one included |
| `AreaReactions.LinkDownIs` | lsd/lsd_handler.c:23-144 | A link going down: entry under the next number, exchange and flooding ended, and the entry in the queue of every other running interface |
| `ReliableFlood.Reliable` | lsd/lsd_flood.c:53-126 | After any events, starts and terminations included, each advertisement taken since the last start is queued, in the unacknowledged buffer or processed by the peer |
| `ReliableFlood.FirstProcessingInOrder` | lsd/lsd_flood.c:182-205 | A packet of the session is first processed after every earlier one, and packets carry the queue in order |
| `ReliableFlood.NoStaleAck` | lsd/lsd_flood.c:98-126 | An acknowledgement advances the sender only if it is for the packet in the buffer, and that packet was processed |
| `FloodProgress.RoundIs` | lsd/lsd_flood.c:61-119 | A packet sent, processed and acknowledged takes the first five of the queue across, and leaves the interface ready exactly if that was all |
| `FloodProgress.QueueDrains` | lsd/lsd_flood.c:53-126 | Without new advertisements, a queue of n is across after (n + 4) / 5 such rounds: its contents, in order, in packets that the peer has processed |
| `FloodProgress.AllCanCross` | lsd/lsd_flood.c:53-126 | From any state of a running session, whatever was lost before, everything taken since the start can still be processed by the peer, in order |
| `ExchangeSession.Complete` | lsd/lsd_exchange.c:68-158 | Within one session with no leftover packets, a sender at SEND_END has had every link state of its snapshot processed by the peer, despite loss and duplication |
| `ExchangeProgress.SnapshotCrosses` | lsd/lsd_exchange.c:68-210 | As many rounds as the snapshot has link states end both sides, with the link states processed one a packet and in order |
| `ExchangeProgress.EndsExactlyIf` | lsd/lsd_exchange.c:68-210 | A session can reach SEND_END exactly if its snapshot is not empty and its receiver has not ended before |
| `ExchangeProgress.NeverEnds` | lsd/lsd_exchange.c:68-158 | Otherwise its first packet is never acknowledged, whatever happens |
| `BackboneEths.BackboneEth.HighHello` | lsd/lsd_hello.c:100-131 | A high priority hello arms the dead timer, and notifies up exactly on a change, so that notifications alternate |
| `BackboneEths.BackboneEth.HighDead` | lsd/lsd_hello.c:160-177 | The dead timer fires only while connected, which is the code's assertion, and notifies down |
| `BackboneEths.BackboneEth.LowHello` | lsd/lsd_hello.c:134-157 | A low priority hello arms its dead timer exactly when it leaves the status connected |
| `BackboneEths.BackboneEth.LowDead` | lsd/lsd_hello.c:180-191 | The low priority dead timer leaves no timer pending and the status down |
| `BackboneEths.BackboneEth.FloodAdd` | lsd/lsd_flood.c:182-205 | The queueing step of the flooding machine; the state still fixes which timer is pending |
| `BackboneEths.BackboneEth.FloodSend` | lsd/lsd_flood.c:61-95 | The send step of the flooding machine, whose progress RoundIs states, with the packet that goes out |
| `BackboneEths.BackboneEth.FloodAckTimeout` | lsd/lsd_flood.c:53-59 | Retransmits the same packet under the same number and changes nothing else |
| `BackboneEths.BackboneEth.FloodAckReceived` | lsd/lsd_flood.c:98-119 | The acknowledgement step; BUSY still implies a non-empty queue |
| `BackboneEths.BackboneEth.FloodTerminate` | lsd/lsd_flood.c:208-220 | Ends flooding with no timer pending |
| `BackboneEths.BackboneEth.FloodStart` | lsd/lsd_flood.c:384-390 | Starts flooding with the counter where it was |
| `BackboneEths.BackboneEth.ExchangeStart` | lsd/lsd_exchange.c:37-51 | Starts an exchange from a terminated state, which is the code's assertion, and sends its first packet |
| `BackboneEths.BackboneEth.ExchangeSend` | lsd/lsd_exchange.c:109-142 | Packs the next part of the snapshot and sends it |
| `BackboneEths.BackboneEth.ExchangeTerminate` | lsd/lsd_exchange.c:53-66 | Ends an exchange, with no timer pending and the counter reset |
| `BackboneEths.BackboneEth.ExchangeAckTimeout` | lsd/lsd_exchange.c:146-158 | Retransmits; the timer is pending only while waiting, which is the code's assertion |
| `BackboneEths.BackboneEth.ExchangeAckReceived` | lsd/lsd_exchange.c:186-210 | An acknowledgement counts only in the waiting state and for the current packet |
| `Zones.Zone.constructor` | lsd/lsd_if.c:113-173 | A router whose interfaces are all down satisfies the protocol invariant |
| `Zones.Zone.AcceptLsa` | lsd/lsd_utils.c:125-179 | One advertisement at one interface: news is stored and given to every other running interface, a number of its own that differs or an older one is answered back with what is held, anything else changes nothing |
| `Zones.HelloStateIs` | lsd/lsd_handler.c:47-110 | The link notification changes bit 1 of the state octet and no other: it says afterwards whether the link is up |
| `Zones.Zone.AcceptAll` | lsd/lsd_exchange.c:175-183 | The same for every advertisement of a packet, in order |
| `Zones.Zone.FloodDataReceived` | lsd/lsd_flood.c:98-126 | A flood data packet is taken in and acknowledged; the whole new state of the router, other interfaces included |
| `Zones.Zone.ExchangeDataReceived` | lsd/lsd_exchange.c:68-105 | An exchange data packet is taken in and acknowledged only while the receiver listens; the whole new state of the router |
| `Zones.Zone.Spread` | lsd/lsd_flood.c:223-245 | Queues an advertisement on every interface but the excepted one |
| `Zones.Zone.SpreadOwn` | lsd/lsd_flood.c:284-314 | Writes the router's own entry under the number after the old one, or 1, and puts it at the end of the queue of every running interface |
| `Zones.Zone.LinkUp` | lsd/lsd_handler.c:23-144 | The connect branch as one step on the whole router: entry, exchange with a listing of the database, flooding, advertisement, and the packet sent |
| `Zones.Zone.LinkDown` | lsd/lsd_handler.c:23-144 | The disconnect branch on the whole router: entry, end of exchange, advertisement, end of flooding, and no packet |
| `Zones.Zone.HelloHighReceived` | lsd/lsd_hello.c:100-131 | A hello brings the link up exactly when it was down, and otherwise changes nothing; the whole new state, and the protocol invariant of the router stands |
| `Zones.Zone.DeadTimerHigh` | lsd/lsd_hello.c:160-177 | A dead timer takes the link down; the whole new state, and the invariant stands |
| `Zones.Zone.HelloLowReceived` | lsd/lsd_hello.c:134-157 | A low priority hello arms its timer and names the neighbour on a change, and leaves the rest of the router |
| `Zones.Zone.DeadTimerLow` | lsd/lsd_hello.c:180-191 | Its dead timer takes the low priority status down and leaves the rest of the router |
| `Zones.Zone.FloodTimer` | lsd/lsd_flood.c:61-95 | The send timer of one interface sends its packet, the step that SendTimerIs describes, changes no other interface and keeps the invariant |
| `Zones.Zone.FloodAckTimer` | lsd/lsd_flood.c:53-59 | The retransmission timer sends the same packet again and changes nothing else of the router |
| `Zones.Zone.FloodAckReceived` | lsd/lsd_flood.c:98-119 | An acknowledgement changes the flooding of its interface only and keeps the invariant |
| `Zones.Zone.ExchangeTimer` | lsd/lsd_exchange.c:146-158 | The exchange timer sends the same packet again and changes nothing else of the router |
| `Zones.Zone.ExchangeAckReceived` | lsd/lsd_exchange.c:186-210 | An exchange acknowledgement advances its interface only and keeps the invariant |
| `ZoneSteps.StepFollows` | lsd/lsd_flood.c:53-245 | Every step of the area, at the interface it happens at, is what the router's handler does: the area mirrors the new database, flooding and exchange, the network gains exactly the packets sent, and no other router changes |
| `ZoneSteps.HelloHighFollows` | lsd/lsd_hello.c:100-131 | A hello from the peer that finds the link down is the area's link-up step |
| `ZoneSteps.DeadHighFollows` | lsd/lsd_hello.c:160-177 | A dead timer is the area's link-down step |
| `ZoneRuns.SoundAfter` | lsd/lsd_hello.c:100-191 | Every handler call, at any router of an area, keeps timers and protocols of all interfaces in step with the link status and the neighbour right |
| `ZoneRuns.ActTakes` | lsd/lsd_flood.c:53-245 | Every handler call at one router of an area is one enabled step of the area, or, for a hello that changes no high priority status, none |
| `ZoneRuns.RunFollows` | lsd/lsd_flood.c:53-245 | Handler calls at routers that receive what their peers have sent, in any order and number, make up a run of the area, and a calm one if no dead timer fires and no entry ages out |
| `ZoneRuns.ZonesConverge` | lsd/lsd_utils.c:125-179 | Convergence, for the routers themselves: in any state of such a calm run of a connected area in which every interface is quiet, the databases agree with every originator |
| `ZoneRuns.ZonesKeepNumbers` | lsd/lsd_utils.c:34-61 | Sequence safety, for the routers themselves: a number falls only at a call that takes in a packet with the lower number, in place of a stale entry learnt from another router |
| `ShortestPaths.FirstHopStartsCheapestWalk` | ddc/ddc.c:288-303 | The first hops of a pair, metric(s,h) + dist(h,j) = dist(s,j), are exactly the second routers of cheapest walks |
| `ShortestPaths.FirstHopViaPredecessor` | ddc/ddc.c:324-355 | First hops of a predecessor on a cheapest walk are first hops, which is what makes merging sound |
| `ShortestPaths.FirstHopFrom` | ddc/ddc.c:324-355 | Every first hop is the direct link or comes from a predecessor, which is what makes merging complete |
| `DijkstraRounds.ChosenIsFinal` | ddc/ddc.c:205-246 | Whatever the tie-break, the router chosen already has its true distance |
| `DijkstraRounds.RoundKeepsCost` | ddc/ddc.c:247-322 | A round keeps distances sound and relaxed, also a round that finds nothing and takes index 0 |
| `DijkstraRounds.RoundKeepsHops` | ddc/ddc.c:288-303 | A round keeps the next hops of visited routers exact and those of the others exactly the ones offered |
| `Ddc.EqualPathCopy` | ddc/ddc.c:324-355 | Appends the next hops that are not there yet, in their order, after those that are; `ok` exactly when no write left the array |
| `Ddc.NexthopCopy` | ddc/ddc.c:357-371 | Copies a list; `ok` exactly when it fits |
| `Ddc.MinCost` | ddc/ddc.c:205-246 | Gives the nearest unvisited router in reach, ties by the smaller interface id towards the first next hop and then the smaller index, or 0 when there is none |
| `Ddc.Relax` | ddc/ddc.c:279-304 | Relaxes every router from the one chosen, distances always and next hops while the writes fit; from lists that fit, they fit exactly if the relaxed lists do |
| `Ddc.StillStanding` | ddc/ddc.c:259-304 | A whole round keeps distances sound; as long as the unbounded lists fit, and no longer, every write fits and the row is that of the unbounded run |
| `Ddc.RunRounds` | ddc/ddc.c:247-322 | All writes fit exactly if no list of the unbounded run is longer than its array; then next hops are exact, and each distance is min(MAX_METRIC, cost of a cheapest walk) |
| `Ddc.Dijkstra` | ddc/ddc.c:247-322 | The same for the whole of dijkstra, which then leaves in row s true costs and, for each reachable router, exactly the first hops without repeats, one of them chosen; other rows stay |
| `Ddc.AsUnbounded` | ddc/ddc.c:279-304 | From lists that fit, a round writes inside the arrays exactly if the lists of the unbounded round fit, and then leaves these |
| `UnboundedRounds.PickedOnce` | ddc/ddc.c:205-246 | The choice of a round is unique, so that the run is a function of the graph, the router and the interface ids |
| `UnboundedRounds.UnboundedExact` | ddc/ddc.c:247-322 | The unbounded run ends with true costs and exactly the first hops |
| `UnboundedRounds.RoundKeepsOffers` | ddc/ddc.c:279-304 | At every stage next hops are first hops of a router next to the target, at the tentative distance |
| `UnboundedRounds.RoomFits` | ddc/ddc.c:324-371 | With no more than MAX_ECMP_LIMIT such offers for any router and cost, all writes of a run fit, however ties are broken |
| `UnboundedRounds.FewNeighboursRoom` | ddc/ddc.c:324-371 | A router with at most MAX_ECMP_LIMIT neighbours is in that case |
| `UnboundedRounds.StarHasRoom` | ddc/ddc.c:324-371 | So is the middle of a star with any number of neighbours |
| `UnboundedRounds.FirstHopsFit` | ddc/ddc.c:357-371 | A router with more than MAX_ECMP_LIMIT first hops rules out that all writes fit |
| `UnboundedRounds.DiamondOverflows` | ddc/ddc.c:357-371 | Such an input, for every way to break ties: a router joined through five others at equal cost |
| `PathWalks.GreedyIsCheapest` | ddc/ddc.c:405-448 | Following the chosen next hops reaches the target at the pair's cost, nearer at every step |
| `PathWalks.NearingNoRepeat` | ddc/ddc.c:405-448 | Such a walk meets no router twice |
| `PathWalks.LinkIsNew` | ddc/ddc.c:385-404 | Each next link of such a walk is registered for the first time |
| `PathWalks.BrokenWeightMonotone` | ddc/ddc.c:548-569 | Broken weight lies between nothing and total weight and never decreases with more failures |
| `Areas.AddPathOfLink` | ddc/ddc.c:385-404 | Puts a path at the head of a link's list and leaves the other lists; a number out of range is refused, but the first one past the array is let through, to a write outside it |
| `Areas.RecordWalk` | ddc/ddc.c:405-448 | The lagging loop ends and registers the path once with each link of its walk and with no other |
| `Areas.Area.RecordPair` | ddc/ddc.c:405-448 | A pair within reach gets one record, whose walk has the pair's cost; a pair out of reach gets none |
| `Areas.Area.RecordShortPath` | ddc/ddc.c:405-448 | All pairs are recorded, the index lists for each link exactly the paths whose walk uses it, and all are up |
| `Areas.Area.RecordBrokenPathDown` | ddc/ddc.c:508-529 | A path is down exactly when two consecutive routers of its recorded walk are the ends of a link that was reported down; the report takes down the paths that cross it and no others; broken weight has not decreased |
| `Areas.LinkIsCrossed` | ddc/ddc.c:405-448 | A link is on the list of a path exactly when the walk of the path goes from its one end to the other |
| `Areas.FailedIsCrossed` | ddc/ddc.c:508-529 | Over the whole set of reports: a path uses a failed link exactly when its walk crosses a reported one |
| `Areas.Area.DestroyDegree` | ddc/ddc.c:548-569 | The sum of the weights of the paths that are down and the sum of all; the two are equal exactly if no connected path has weight, and the first is 0 exactly if no lost one has |
| `Areas.Area.PathWeight` | ddc/ddc.c:405-448 | A path weighs the product of the sums of the access metrics of its two ends |
| `PathWalks.WeightsAreSums` | ddc/ddc.c:548-569 | In terms of failed links: the weight lost is that of the paths that use one |
| `Areas.ReportCounts` | ddc/ddc.c:508-529 | A report about the two ends of a listed link counts exactly if it names both interfaces too, and then against the walks that go from the one router to the other |
| `Areas.RouterImportance` | ddc/ddc.c:532-545 | The sum, over the links, of the metric of each access link of the router |
| `PathCompute.BuildMatrix` | ddc/ddc.c:45-123 | The matrix holds each link once, at its pair, and nothing elsewhere |
| `PathCompute.ComputePaths` | ddc/ddc.c:477-504 | From any valid list of links: the graph solved is that of the links, every backbone link at its pair under its own number and no other; all pairs are recorded and indexed exactly if all unbounded runs fit, as they do where every router has room or few neighbours |
| `PathCompute.MatrixDescribes` | ddc/ddc.c:45-123 | The metrics, link numbers and ends of the matrix are those of the links |
| `PathCompute.IndexOf` | ddc/ddc.c:181-193 | The position of a router id, or -1 |
| `Prefixes.PrefixMatch` | lib/prefix.c:68-93 | The byte-and-mask test is agreement on the first prefixlen bits |
| `Prefixes.PrefixCmp` | lib/prefix.c:141-166 | 0 exactly when family, length and counting bits are the same, and 1 otherwise |
| `Prefixes.RouteCommon` | lib/table.c:134-166 | The longest common prefix, capped at p's length |
| `Prefixes.CheckBit` | lib/table.c:172-185 | The bit of the address, and just past a whole address the first bit of the byte that follows in memory |
| `Prefixes.GreaterHasTheOne` | lib/table.c:172-185 | Bits count from the most significant one: where two bytes first differ, the greater one has the one |
| `Prefixes.ApplyMask` | lib/prefix.c:299-319 | Clears every bit from prefixlen on, in place, and no other |
| `Prefixes.MaskingKeepsMeaning` | lib/prefix.c:299-319 | Masking is idempotent and changes no match in either direction |
| `Prefixes.CoveringIsPreorder` | lib/prefix.c:68-93 | Covering is reflexive, transitive, and antisymmetric on counting bits |
| `TrieStores.HangKeeps` | lib/table.c:191-202 | A new leaf keeps links, branch bits, strict extension and the reachability of every node |
| `TrieStores.InsertKeeps` | lib/table.c:344-363 | A node put between a node and its parent keeps them too |
| `TrieStores.SpliceKeeps` | lib/table.c:370-407 | Removing a node with at most one child keeps them too |
| `RouteTables.RouteTable.Get` | lib/table.c:315-367 | Gives the node of exactly p, locked once more or new; the map from prefixes to info and all other nodes' contents stay |
| `RouteTables.RouteTable.InsertCommon` | lib/table.c:344-363 | The common prefix is strictly shorter than the displaced node's, and its node takes that place |
| `RouteTables.RouteTable.Match` | lib/table.c:240-264 | The longest stored prefix with info that covers the query, or NULL exactly when none does |
| `RouteTables.RouteTable.Lookup` | lib/table.c:295-312 | The node stored with info under exactly p, or NULL exactly when there is none |
| `RouteTables.RouteTable.SetInfo` | lib/table.h:33-53 | Setting or clearing the info of a held node is an update of the map at its prefix |
| `RouteTables.RouteTable.Lock` | lib/table.c:205-210 | One more lock and nothing else |
| `RouteTables.RouteTable.Unlock` | lib/table.c:213-220 | The map stays, only nodes without lock and info disappear, and unlocked nodes still have two children |
| `RouteTables.RouteTable.Delete` | lib/table.c:370-407 | The cascade leaves a valid table and removes only nodes nobody holds |
| `RouteTables.RoutesIsMap` | lib/table.c:240-312 | The table stands for a map: a prefix has at most one info |
| `RouteTables.RouteTable.Top` | lib/table.c:411-421 | Locks the first node of the preorder once more, which is the top one, and nothing else |
| `RouteTables.RouteTable.Next` | lib/table.c:424-462 | The next node of the preorder is locked once more, the one left once less, and no other changes; at the end the lock is given up |
| `RouteTables.RouteTable.Dump` | lib/table.c:223-237 | The loop ends, has visited the preorder, and leaves tree and locks as they were |
| `TrieSize.SizeBound` | lib/table.c:370-407 | L > 0 locked nodes give at most 2L - 1 nodes, and none give an empty table |
| `TrieIteration.PreorderIsAll` | lib/table.c:424-462 | The preorder of the table holds every node exactly once |
| `TrieIteration.PreorderSorted` | lib/table.c:424-462 | The preorder visits the prefixes in lexicographic order, a covering prefix before those it covers |
| `TrieIteration.NextIsChild` | lib/table.c:424-462 | After a node with children comes its first child |
| `TrieIteration.NextIsAbove` | lib/table.c:424-462 | After the last node of a subtree comes the right sibling of the nearest ancestor that has one |
| `Timevals.Adjust` | lib/thread.c:33-58 | Keeps the time where it is in range, makes a negative time ten microseconds, cuts whole seconds above the cap |
| `Timevals.Subtract` | lib/thread.c:60-69 | The difference in time, under the same limits, never more than the true one unless that is negative |
| `Timevals.CmpOrdersTime` | lib/thread.c:71-76 | The comparison by parts orders clock readings by time |
| `Timevals.Deadline` | lib/thread.c:340-344 | The instant exactly the delay after the reading, with a normal microsecond part |
| `ThreadLists.ThreadList.Add` | lib/thread.c:120-132 | The link code appends to the sequence the list holds |
| `ThreadLists.ThreadList.AddBefore` | lib/thread.c:134-148 | The link code inserts just before a given thread |
| `ThreadLists.ThreadList.Delete` | lib/thread.c:150-165 | The link code removes a thread from anywhere and leaves its links null, as thread_add_unuse asserts |
| `ThreadLists.ThreadList.TrimHead` | lib/thread.c:208-215 | Takes the first thread off, or gives NULL |
| `SixLists.ListHeads.Add` | lib/thread.c:120-132 | On six lists that share no thread, appending to one leaves the other five alone |
| `SixLists.ListHeads.AddBefore` | lib/thread.c:134-148 | So does inserting before a thread |
| `SixLists.ListHeads.Delete` | lib/thread.c:150-165 | So does removing a thread, which is then on none of the six |
| `SixLists.ListHeads.TrimHead` | lib/thread.c:208-215 | So does taking the first thread off a list, or finding none |
| `SixLists.ConservedIsApart` | lib/thread.c:120-176 | The invariant of the scheduler supplies that its six lists share no thread |
| `SixLists.SpliceRepresents` | lib/thread.c:134-148 | Inserting a thread is inserting its address, as the scheduler does on its sequences |
| `SixLists.WithoutRepresents` | lib/thread.c:150-165 | Removing a thread is removing its address |
| `SixLists.AddRepresents` | lib/thread.c:120-132 | Appending a thread is appending its address |
| `ThreadPool.OnOneList` | lib/thread.c:120-176 | Under the invariant a thread is on a list exactly if its type names that list |
| `ThreadPool.DrawGood` | lib/thread.c:259-279 | A recycled or new thread is on no list, and counts still add up to alloc |
| `ThreadPool.EnlistGood` | lib/thread.c:281-361 | Putting it on its list restores the invariant: conservation, exact descriptor sets, sorted timers |
| `ThreadPool.MoveGood` | lib/thread.c:386-416 | Moving a thread to the ready or unused list, with its descriptor cleared, keeps the invariant |
| `ThreadBatches.NextReached` | lib/thread.c:515-538 | One turn of a loop that moves threads off a list it walks keeps the invariant and reaches the next partial result |
| `Threads.AdmitGood` | lib/thread.c:281-384 | Any admission keeps the invariant |
| `Threads.RunsEarliest` | lib/thread.c:562-579 | A fetched timer is due, has the earliest deadline of all, and is taken only with no event pending |
| `Threads.DueComesFirst` | lib/thread.c:562-579 | With a timer due, a fetch runs an event or a timer, never a ready thread or a descriptor |
| `Threads.FirstIs` | lib/thread.c:562-579 | The four cases of a turn, which exclude each other: nothing is run before select exactly if no event, no due timer and no ready thread is there |
| `SchedulerLaws.AdmitIs` | lib/thread.c:259-361 | An admission takes the longest unused thread, or allocates one, puts it at its place of its list, and moves no other thread |
| `SchedulerLaws.MoveIs` | lib/thread.c:386-416 | A thread taken off its list leaves the order of the others and goes to the end of the list it joins |
| `SchedulerLaws.SlotIs` | lib/thread.c:350-352 | A new timer stands after those due strictly earlier and before all others, those due at the same time included |
| `SchedulerLaws.PollIs` | lib/thread.c:515-538 | Reported descriptors: exactly the threads that wait for them join the end of the ready list, in their order, and the others keep theirs |
| `SchedulerLaws.CancelIs` | lib/thread.c:418-439 | Exactly the events with the argument become unused, in their order, and the others keep theirs |
| `SchedulerLaws.SelectedRuns` | lib/thread.c:580-610 | After select the longest waiting reader that was reported runs, only without one the longest waiting writer, and without either nothing |
| `Threads.AllUnused` | lib/thread.c:555-557 | The five working lists are empty exactly when every thread is unused |
| `Threads.ThreadMaster.ThreadGet` | lib/thread.c:259-279 | The first unused thread is recycled; only without one is a new one allocated |
| `Threads.ThreadMaster.AddRead` | lib/thread.c:281-302 | Refused exactly when the descriptor is already watched; otherwise one thread joins the read list and its descriptor the set |
| `Threads.ThreadMaster.AddWrite` | lib/thread.c:304-325 | The same for writing |
| `Threads.ThreadMaster.FindSlot` | lib/thread.c:350-352 | The place past every timer that is due strictly earlier |
| `Threads.ThreadMaster.AddTimer` | lib/thread.c:326-361 | The deadline is the clock reading plus the delay, to the microsecond, at its place among the sorted timers |
| `Threads.ThreadMaster.AddEvent` | lib/thread.c:370-384 | One thread joins the end of the event list |
| `Threads.ThreadMaster.ClearFd` | lib/thread.c:390-401 | The assertions that a watching thread's descriptor is set hold |
| `Threads.ThreadMaster.Cancel` | lib/thread.c:386-416 | The thread moves to the unused list and its descriptor is cleared; an unused thread is left alone |
| `Threads.ThreadMaster.CancelEvent` | lib/thread.c:418-439 | Exactly the events with the argument become unused, in list order |
| `Threads.ThreadMaster.ProcessFd` | lib/thread.c:515-538 | Exactly the threads whose descriptor is reported become ready, in list order, their descriptors are cleared, and the assertion holds |
| `Threads.ThreadMaster.TimerWait` | lib/thread.c:482-502 | No wait without timers; otherwise at most max(time to any deadline, 10 microseconds), and exact within the cap |
| `Threads.ThreadMaster.FindDue` | lib/thread.c:571-575 | The scan stops at the head or finds nothing, because the list is sorted |
| `Threads.ThreadMaster.Dispatch` | lib/thread.c:505-513 | A thread is handed out as it was and becomes unused |
| `Threads.ThreadMaster.FetchPass` | lib/thread.c:562-610 | One turn of the fetch loop for any answer of select: an event if there is one, else the earliest timer if it is due, else the first ready thread, whatever select would say; nothing is run only without any of them; then descriptors |
| `Threads.ThreadMaster.NothingToDo` | lib/thread.c:555-557 | A fetch gives up at once exactly when every thread is unused |
| `LsdbTables.RouterKeeps` | lsdb/lsdb_impl.c:25-40 | A new router keeps ids unique, lists, counters and both indexes in agreement, and adds no other id |
| `LsdbTables.LinkKeeps` | lsdb/lsdb_impl.c:42-72 | A new link keeps keys unique, every link on exactly its own router's list, and every endpoint known |
| `LsdbTables.EntryKeeps` | lsdb/lsdb_interface.c:126-203 | Overwriting an entry keeps all of that |
| `LsdbTables.AbsStored` | lsdb/lsdb_interface.c:40-58 | Storing a new link, or overwriting one, is an update of the map from keys to entries |
| `LsdbTables.ScanIs` | lsdb/lsdb_impl.c:89-110 | A scan of the global list finds the link that has a key, wherever it stands |
| `Lsdb.Database.RouterFind` | lsdb/lsdb_impl.c:73-88 | Finds the router with an id, or there is none |
| `Lsdb.Database.RouterAdd` | lsdb/lsdb_impl.c:25-40 | A router without links at the head of the list |
| `Lsdb.Database.LinkFind` | lsdb/lsdb_impl.c:89-110 | The two-level search gives what a scan of the global list gives |
| `Lsdb.Database.LinkAdd` | lsdb/lsdb_impl.c:42-72 | The link is stored at the head of the global list and of its router's, the routers it names and no others are new, and the invariant stands |
| `Lsdb.Database.LinkStateAdd` | lsdb/lsdb_interface.c:40-58 | The same, with the code's assertion that the key is not there yet |
| `Lsdb.Database.LinkStateFind` | lsdb/lsdb_interface.c:60-74 | Found exactly when the map has the key, with its entry; a zero router id is never found |
| `Lsdb.Database.LinkStateUpdate` | lsdb/lsdb_interface.c:126-203 | The map is updated at the key; lists, routers and counters stay |
| `Lsdb.Database.GetLinksState` | lsdb/lsdb_traverse.c:22-51 | Every link of the database, or every one to another router, or every one to an access network, once, with its entry, and nothing else |
| `Lsdb.Database.GetLinksStateByRouter` | lsdb/lsdb_traverse.c:53-129 | The same for one router's links, or an error exactly when the router is unknown |
| `Lsdb.Database.Gather` | lsdb/lsdb_traverse.c:149-185 | The list built names the visited links from the last to the first |
| `Acceptance.AcceptLsa` | lsd/lsd_utils.c:96-179 | On the doubly indexed database: news is stored and forwarded, a differing own number or an older one is answered back with what is held, anything else is ignored; which is the acceptance rule on the plain map |
| `Acceptance.SpreadOwn` | lsd/lsd_flood.c:284-314 | On the doubly indexed database: the own entry advances by one with address and metric kept, or starts at 1, and is what is advertised |
| `Acceptance.WriteHello` | lsd/lsd_handler.c:23-144 | On that database: the first write for a link that went up or down keeps the number and sets the state bit |
| `Acceptance.BringUp` | lsd/lsd_handler.c:23-144 | On that database: a link that came up makes both writes, the exchange gets a snapshot of what stands between them |
| `Acceptance.TakeDown` | lsd/lsd_handler.c:23-144 | On that database: both writes for a link that went down |
| `Acceptance.SameAsHandlers` | lsd/lsd_handler.c:23-144 | The databases that these leave are those of the handlers on a plain map |
| `Acceptance.ListingIsSnapshot` | lsd/lsd_exchange.c:37-51 | What the traversal of the database lists is the snapshot from which an exchange starts: every entry once and nothing else |

## Left out

- Agreement of the contents of advertisements: the hello path changes a state while keeping the sequence number, so only sequence numbers are claimed to converge.
- The low priority branch of `hello_changed_handler`, which floods an incremented number and then writes the old one back, and `ace_up_handler`, which sets an access link's number to 0; initial databases cover the latter.
- Convergence while links go down or entries age out: entries last 15 seconds against a periodic flood of 30, so agreement need not last.
- Liveness of the exchange: a receiver that has ended does not acknowledge a repeated last packet, and a NO_DATA packet is never acknowledged. Nothing is claimed across sessions either, because the packet counter is reset.
- BackboneEths.BackboneEth.ExchangeTerminate: says nothing about packets of the ended session that are still on their way.
- Sequence and packet numbers, weights and times are unbounded; 32-bit wrap-around is not modelled. The router id and the device id are taken as equal, two routers share at most one link, and the clock is read once per packet.
- PathCompute.ComputePaths: says nothing about the matrix after a next-hop write outside its array, since what that write hits is not modelled.
- Ddc.RunRounds: promises the distances also when `ok` is false; these are the distances of the model, in which such a write hits nothing. In the program the fifth entry lies on `nexthop_count` and the sixth on `metric`.
- Areas.AddPathOfLink: says of a write past the array that it happens, and not what it hits; its caller passes smaller numbers, so it never does.
- Areas.Area.DestroyDegree: gives the two sums and not the floating-point quotient.
- Address families other than by their size, `prefix_same`, `route_next_until` and the `aggregate` field of the table.
- Threads.ThreadMaster.AddTimer: takes a delay that is not negative; a negative number of seconds becomes a huge unsigned delay in the code.
- Threads.ThreadMaster.FetchPass: one turn of the loop; that the loop ends depends on the clock and on `select`.
- `thread_master_free`, `thread_execute`, `thread_call` and the usage accounting of the scheduler; descriptors above `FD_SETSIZE`.
- The methods of the scheduler work on sequences of thread addresses; that the link code does the same to six lists under the scheduler's invariant is proved in `SixLists`, operation by operation, and not once more inside each method.
- `cr_lsdb_get_routers`, `cr_lsdb_neighbour_info_find` and `cr_lsd_is_connected`, which no other part of the program calls, and `cr_lsdb_find_adjacent_router`, which stores the router's own id in place of the neighbour's; the visitors' early stop when memory runs out; messages to the display process.
- The destroy-degree block inside `flood_pkt_received`, which only prints.
- Sockets, XML, SNMP, netlink, SQLite, configuration, logging, the control and policy tables, the simple containers of `lib/` and the memory manager.
