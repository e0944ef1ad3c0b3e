# FB-AODV, modelled and proved in Dafny

FB-AODV is a Linux kernel module for wireless meshes, a flow-based variant of AODV (RFC 3561). A node that has a packet
without a route holds it and floods a route request; every node that takes the request up remembers the way back; the
destination replies along that way. This project models the decisions of that protocol and proves properties of them,
from single linked lists up to runs of a whole network.

## The parts

- **The network** (`Network`, `LoopFreedom`, `TimedRemovals`, `FloodTermination`, `ShortestPath`). A transition system
  over tables, sequence numbers and messages in flight, with arbitrary and changing neighbourhoods, loss, replies and
  removals. Its next hops never form a loop, every flood dies out whatever else goes on, and with hop counts and fixed
  links floods leave shortest routes.
- **Discovery on one node** (`Discovery`, `Liveness`, `Verdicts`). Tasks, timers, held packets and routing tables together: no held
  packet is forgotten, every discovery ends after three requests, held packets leave within four rounds, and what is
  accepted and what is dropped is fixed by the routes.
- **The node's data structures**, in the form the kernel module keeps them: `TaskQueues` (two queues threaded through
  the same nodes), `TimerQueues`, `PacketQueues` (a circular list), `RouteTables`, `SourceLists`, `EttEstimator` (an
  array sorted in place). Each class carries ghost sequences that say what the links mean, and each method is specified
  by a function on those.
- **The operations on the routing state** (`Routing` as functions and properties, `Routers` on the lists, `Reports` for
  route errors).
- **The handlers across all structures** (`DiscoveryNodes`), each proved to do what its function in `Discovery` or
  `Requests` says.
- **The mesh as a whole** (`Refinement`, `Requests`, `Handlers`, `Answers`, `Meshes`, `MeshReplies`, `MeshHops`). Each
  handler on one node's tables is a step of the network model, and a run of discovery steps; so a mesh of complete nodes
  runs as the network does, and what is proved of the network and of discovery holds of the tables and queues that the
  nodes keep. Answered requests are replied to, and routes remember where their replies went.
- **Arithmetic and parsing**: `Metrics`, `Clock`, `Address`; `Types` and `Arithmetic` are shared.

The network model abstracts a route to id, metric, hops and next hop. Of self routes, those of a node to itself and to
its neighbours, it only remembers what was learned on them. `Refinement.Represents` says when a node's table stands for
a state of the network; it holds at the start, and the refinement lemmas show that the functions the heap methods are
proved against keep it. `Meshes.RunRefines` puts them together for all nodes at once.

## What was found

- **A stray reply strands packets.** `recv_rrep` deletes the retry timer before it has looked for the route
  (rrep.c:86-87). When the reply does not lead to the route of its own flow, nothing of the flow is released, and its
  packets stay without any task or timer. That happens when the node already knows a newer, invalidated route, and when
  a route to the destination with the same id stands before the flow's own: a neighbour that is discovered gets such a
  route, whose id is the node's own number (aodv_neigh.c:275). `Discovery.ReplyKeepsExactly` gives the exact condition
  for this order of the two actions and `Discovery.AnswerKeepsExactly` for the other, in which late replies do no harm;
  `Discovery.StrayReplyStrands` and `Discovery.NeighbourShadows` give the families of cases.
- **Removing a route too early makes loops.** The code removes a route when its time is over, whatever is still in
  flight. `LoopFreedom.RemovalExactly` gives the exact condition under which the invariant survives,
  `LoopFreedom.RemovalLoopsExactly` when a request taken up afterwards makes a loop, `LoopFreedom.EarlyRemovalLoops` a
  run in which one arises; `TimedRemovals.NoLoops` and `Meshes.NoLoops` show that time is enough where no message
  outlives the delete period.
- **Reference counts break in one case**: a route whose source gets no kernel table stays in the table, unfilled and
  uncounted (aodv_route.c:363-379). `Routing.LearnConservesExactly`, `Refinement.StrandedRouteBlocks`; and
  `Routing.FullListStrands` is a run that gets there.
- **A route error can end at the previous hop.** `recv_rerr` looks for the route by destination and id alone. It changes
  nothing if the previous hop has found the destination to be a neighbour under the same number, or has missed the last
  reply. `Routing.ReportInvalidates` gives the exact condition, `Routing.ReportMeetsNeighbour` and
  `Routing.ReportMeetsOlder` the two cases.
- **The retry waits do not double.** `2 ^ x` is an exclusive or (timer_queue.c:237-239): 1600, 2400 and 0 ms, where
  section 6.3 of RFC 3561 asks for exponential backoff. `TimerQueues.ResendWaits`.
- **An overloaded neighbourhood admits flows** under WCIM, when the load passes for a percentage in eight bits or the
  negative remainder for a large bandwidth in 16 bits. `Metrics.AdmissionExactly` says exactly when,
  `Metrics.OverloadAdmits` shows both.
- **Very slow links are rated too high, or divide by zero**: `EttEstimator.RateExactly` says exactly which.

## Conventions

Every handler is one atomic step and takes the current time as an argument. Allocation and netlink calls succeed; the
exhaustion of routing tables is modelled. Addresses are numbers. `unsigned long` has 32 bits where the code truncates
clocks to it. A node's own sequence number is kept beside its table instead of in its own route. Messages a node sends
are results or history fields (`floods`, `sent`), and reinjected packets are logged with their verdicts. A step that
loses a message also stands for a receiver that does not know the sender. Rows about replies and about the dispatch of
tasks cite the declarations, or the functions that those handlers call.

## Model

| member | source | states |
|---|---|---|
| LoopFreedom.NoLoops | rreq.c:71-100 | in every state the protocol reaches from the start (any neighbourhoods, losses, replies and safe removals), following next hops for a key never visits a node twice |
| LoopFreedom.NextHopIsAhead | aodv_route.c:391-405 | in every reachable state the next hop of a route is its destination, or holds a strictly better route, or holds none while nothing as old is in flight |
| LoopFreedom.RunInv | rreq.c:24-145 | the network invariant holds in every state of every run |
| LoopFreedom.StepInv | rreq.c:24-145 | each single step keeps the network invariant: a flood, a request received under any metric, a reply sent or received, a loss, a safe removal, a message learned on a self route and a reply made on one |
| LoopFreedom.RecvRreqInv | rreq.c:33-145 | receiving any request copy keeps the invariant, whether it is dropped, refused, accepted or broadcast again |
| LoopFreedom.RecvRrepInv | aodv_route.c:337-453 | receiving any reply keeps the invariant, at the source of the flow and at relays, for any answer of the search by id: a route, the route to a neighbour, or nothing |
| LoopFreedom.RelayGrows | aodv.h:304-334 | at a relay the subtraction of metrics does not wrap, and the metric to the destination strictly grows hop by hop on the way back |
| LoopFreedom.FoundIsReverse | aodv_route.c:531-558 | when the search by destination and id ends on a route of the network, that is the reverse route of the flow and no other |
| LoopFreedom.NearInv | aodv_neigh.c:271-303 | when the search ends on the route to a neighbour instead, the route that the relay computes from it keeps the invariant all the same |
| LoopFreedom.OriginateInv | rreq.c:286-311 | a new flood keeps the invariant: its id is newer than everything in the network |
| LoopFreedom.ReplyInv | rrep.h:18 | a reply sent by the destination keeps the invariant |
| LoopFreedom.OwnReplyInv | rrep.h:18 | so does a reply that is made on a route to a neighbour, with what was learned there, however long ago |
| LoopFreedom.OwnedInv | aodv_route.c:391-405 | what is learned on a self route has a next hop that is ahead, as a route of the table has |
| LoopFreedom.DropInv | rreq.c:36-49 | losing a message keeps the invariant |
| LoopFreedom.PathGrows | rreq.c:71-94 | under hops, ETT and WCIM every hop that takes a request up strictly lengthens its path, by a bounded amount |
| LoopFreedom.RequestsBounded | rreq.c:138 | in every reachable state TTL plus hop count of a request is the network diameter, and its metric cannot wrap 32 bits |
| LoopFreedom.RemovalExactly | aodv_route.c:192-225 | removing a route keeps the invariant if and only if no message in flight was sent by that node for the key and nothing in flight is as old as a route or reply that leads there |
| LoopFreedom.OldestIsSafe | aodv_route.c:192-225 | it is enough for that that nothing in flight for the key is as old as the removed route |
| LoopFreedom.RemovalLoopsExactly | aodv_route.c:223-224 | when a route has been removed and a request that was in flight is taken up in its place, the result has a loop if and only if a path of next hops led from the sender of the request to the node |
| LoopFreedom.InstallLoopsExactly | aodv_route.c:391-405 | whatever route a node of a sound network is given, it makes a loop if and only if a path led from its next hop to the node |
| TimedRemovals.NoLoops | aodv_route.c:175-231 | removal by time alone makes no loops: in every run in which no message carries an id issued a delete period ago, and routes are removed no earlier than a delete period after the node had them, no path visits a node twice |
| TimedRemovals.RemovalIsSafe | aodv_route.c:192-225 | in such a run every removal is safe |
| LoopFreedom.EarlyRemovalLoops | aodv_route.c:223-224 | a concrete run of five steps in which a removal without that condition makes two nodes each other's next hop |
| LoopFreedom.PathImproves | aodv_route.c:391-405 | along a path the pair of id and metric strictly improves |
| FloodTermination.DeliveryBurns | rreq.c:138 | for one flood or reply, or for all: every delivery or loss of its messages strictly lowers a measure weighted by TTL for requests and by metric left for replies, and every other delivery leaves it alone |
| FloodTermination.CopiesOf | rreq.c:134-138 | a reception emits at most one broadcast, and its copies belong to the same flood and have a TTL one smaller |
| FloodTermination.DiesOut | rreq.c:36-42 | whatever else goes on, the number of deliveries of one flood or reply is bounded by its measure at the start; so is that of all messages together when nothing new begins |
| FloodTermination.FloodCosts | rreq.c:271-308 | a flood starts with a measure of at most d(d+1)^10, where no broadcast reaches more than d nodes |
| ShortestPath.Converges | rreq.c:71-138 | in a network of fixed links without lost requests, once a flood started in any reachable state has died out, a node has its route if and only if a walk of at most 9 hops (10 to the destination) reaches it; then the metric is the distance and the next hop is one hop nearer |
| ShortestPath.ShortestRoutes | rreq.c:71-138 | the same from the invariant of the flood: a route exactly within reach, its metric the distance, its next hop at distance minus one |
| ShortestPath.NoLongerThanWalk | rreq.c:134-138 | when the flood is over every node has a route no longer than any walk to it that the flood can follow |
| ShortestPath.FixedStepKeeps | rreq.c:24-145 | every step keeps the invariant of every flood in progress: routes are sound, and every hearer of a relay holds a good enough route or is still owed a copy |
| ShortestPath.StartInv | rreq.c:271-308 | starting a flood establishes the invariant |
| ShortestPath.CopyKeeps | rreq.c:33-145 | receiving a copy of the flood keeps its soundness and completeness |
| ShortestPath.CopyDropped | rreq.c:36-59 | a copy is dropped only if it would have brought nothing |
| Refinement.BootRepresents | aodv_dev.c:43-65 | the table of a node at the start stands for an empty network |
| Refinement.LearnRefinesInstall | aodv_route.c:337-453 | on the table as kept, with its self routes, rreq_aodv_route accepts exactly what the network model accepts and installs the same route, whenever the source can be listed; what is learned on a self route the network remembers apart |
| Refinement.StrandedRouteBlocks | aodv_route.c:363-379 | when the source cannot be listed the call fails, but an unfilled route stays and blocks every later route with the same id |
| Refinement.SweepRefinesRemoval | aodv_route.c:175-231 | a sweep is exactly the removal of the dead routes from the network model |
| Refinement.OthersRefineNothing | aodv_route.c:106-112 | expiry, confirmation, use, route errors and newly found neighbours change nothing the network model keeps |
| Refinement.FindByIdRefines | aodv_route.c:531-558 | the search by id answers as the network model allows: a route of the network, a self route, or nothing |
| Refinement.SweepIsUnhurried | aodv_route.c:175-231 | whatever a sweep of a node's history removes, the network had for that node with the same id more than a delete period before |
| Refinement.SweepsAreUnhurried | aodv_route.c:175-231 | so a run of the network whose removals are parts of sweeps is unhurried, as timed runs without loops require |
| Requests.RecvRreqRefines | rreq.c:24-145 | for traffic inside the mesh the request handler on one node's tables is a step of the network model, the reception with the same routes and the same broadcast and nothing else exactly if the request comes to be learned and meets no self route |
| Requests.FloodRefines | rreq.c:271-308 | a request sent by discovery is the flood of the network model, with the same id |
| Requests.RecvRrepRefines | rrep.h:17 | a reply received, at the source of its flow and at relays, is a step of the network model, the reception with the same message sent on exactly if the sender is known and the route meets no self route |
| Requests.RelayRefines | aodv_route.c:531-558 | at a relay both searches by id, the subtracted metric, the installed route and the forwarded reply are those of the network model, whatever the searches find |
| Requests.GenRrepRefines | rrep.h:18 | a reply made is a reply of the network model with the next number of the node, on a route of the network or on what was learned on a self route; one with nowhere to go uses a number up |
| Requests.OnlyNeighboursMislead | aodv_neigh.c:271-303 | in every reachable state of the network, when a reply leads to another route than its flow's own, that is the node's own route to the destination as a neighbour |
| Handlers.RecvRreqSteps | rreq.c:24-145 | the request handler is a run of discovery steps, none of them a reply |
| Handlers.RecvRrepSteps | rrep.h:17 | so is the reply handler; its last step answers a discovery exactly if the reply is for this node |
| Handlers.GenRrepSteps | rrep.h:18 | and so is the making of a reply |
| Handlers.ServeSteps | task_queue.c:240-315 | and so is the service of a task |
| Answers.AnsweredIsDue | rreq.c:101-113 | if a request is answered there is a timer for the reply to its flow, one if there was at most one, due after 100 ms if there was none, and a route for the reply; otherwise, and for other flows, the pending replies are as before |
| Answers.ServePending | task_queue.c:240-315 | serving a task makes the pending replies to a flow one less exactly if it makes that reply |
| Answers.HeardIsWaitedFor | rreq.c:52-57 | a neighbour that is heard has one timer, due 4100 ms later, if it had at most one |
| Answers.SendersAreWaitedFor | rreq.c:36-57 | so it is with the sender of every request and reply that is handled; from an unknown neighbour, or out of time, a message changes nothing |
| Answers.GatewaysAnswer | rreq.c:33-70 | a request to the outside is answered by the gateway it names, left alone by other gateways, and sent on by everybody else |
| Answers.GatewaysAreAnswered | rrep.h:17 | a reply for traffic from the outside ends at the gateway it names, where it ends the retries of its flow, and nobody else touches those |
| Answers.RelayPasses | rrep.h:17 | what a relay sends on, one hop longer along the way back, and what a relay that had no route learns: hops, next hop and the metric less that of the way back |
| Answers.RelayRemembers | rrep.h:17 | when a relay sends a reply on, the route found by its id remembers the node the reply goes to as its previous hop, and the way back remembers the next hop of that route |
| Answers.SourceRemembers | rrep.h:17 | at its source the route that a reply leads to remembers the node itself |
| Answers.ReplyRemembers | rrep.h:18 | a reply is made exactly if there is a route to the source, and that route remembers the replying node |
| Verdicts.DecidesExactly | packet_out.c:79-96 | with unique keys a packet that crosses the mesh passes if and only if the table has a valid route for it, or a gateway lets out what is not its own; it is held if and only if there is none and the node speaks for its source |
| Verdicts.RelaysNeedRoutes | packet_out.c:91-96 | traffic of others never passes an inside node without a valid route, nor is it held |
| Verdicts.NeighboursPass | aodv_neigh.c:271-303 | as soon as a neighbour is discovered packets to it pass |
| Verdicts.HeldIsAskedFor | packet_out.c:81-90 | a held packet is the newest in the queue, if there is room, and the next task served floods a request for its flow |
| Verdicts.PassRenews | packet_out.c:97-118 | a packet that passes renews the valid route of its flow, if there is one, and touches nothing else |
| Verdicts.OthersPass | packet_out.c:44-63 | signalling and what does not cross the mesh pass without a trace |
| Verdicts.OthersLeaveNoTrace | packet_out.c:91-118 | a packet that passes or is discarded leaves no trace but the use of its route |
| Verdicts.StepJustifies | packet_queue.c:300-344 | at every step a held packet leaves accepted only when a route with its flow as key has just been confirmed, and dropped only when its discovery gives up or one of its devices goes; the log is never rewritten |
| Verdicts.WhyLogged | packet_queue.c:300-344 | over every run each entry of the log comes of such a step |
| Verdicts.DevicesGo | packet_queue.c:262-297 | when a device goes exactly the packets bound to it on either side are dropped |
| Verdicts.StepAccounts | packet_queue.c:300-344 | without new packets of a flow and confirmations of its routes, what the log says of the flow and what is held for it add up to the same, in order unless a device goes |
| Verdicts.UnansweredAreDropped | rreq.c:151-161 | once a discovery that nothing answers has been served, every packet that was held for it has been dropped, in the order of arrival if no device went, and nothing else has become of any |
| Reports.BreakExactly | rerr.c:29-228 | which routes a broken link invalidates, for how long, and which previous hops are told, in terms of the fields of the routes |
| Reports.ReactsExactly | rerr.c:276-396 | a report invalidates the route it finds if that is valid and leads through the node it came from, and nothing else |
| Reports.ForwardsExactly | rerr.c:276-301 | a report goes on if and only if it finds such a route and that carries the traffic of others, and then to the previous hop of the route |
| Reports.ReportTravels | rerr.c:29-396 | along any chain of nodes whose routes for a flow name each other as next and previous hops, the report of a broken link travels back hop by hop to the source, invalidates every route, and ends there |
| Handlers.HandlersKeepPackets | rreq.c:24-145 | requests, relayed replies and replies made leave no held packet unaccounted for |
| Meshes.RunRefines | aodv_route.c:175-453 | every run of a mesh of complete nodes, with sweeps by time alone, in which messages do not outlive the delete period, is a run of the network model with safe removals; each state stands for one of the network |
| Meshes.NoLoops | aodv_route.c:175-453 | in no state of such a run does a path along the next hops of the tables that the nodes keep, self routes to neighbours included, visit a node twice |
| Meshes.SweepIsSafe | aodv_route.c:184-229 | in such a run whatever a sweep removes is older than everything in flight for its key |
| Meshes.StepStands | rreq.c:24-145 | every step of a mesh is a step of the network model, or none, or a number of removals |
| Meshes.StepAges | aodv_route.c:106-112 | whatever step is taken, a route that is invalid afterwards was invalid before with the same lifetime, or valid and is given the delete period from now |
| Meshes.LocalFollows | rreq.c:225-316 | a node's own step is one flood of the network model or nothing |
| Meshes.StepDue | rreq.c:101-113 | over every step of the mesh the replies due at a node change exactly when a request is answered for which none was waiting, and when a reply is made |
| Meshes.RunDue | rreq.c:30-34 | in every state replies are due only at the destinations of their flows |
| Meshes.NoneForgotten | packet_out.c:72-90 | over every run of the mesh whose replies are timely, each held packet of a node's own flows has a pending task or timer |
| Meshes.OnlyNeighboursMislead | aodv_neigh.c:271-303 | in every state of such a run a reply that leads its source astray leads it to the route to a neighbour |
| MeshReplies.AnsweredUntilReplied | rreq.c:101-113 | over every run of the mesh: from the step that answers a request until the reply is made there is a timer or task for it |
| MeshReplies.RepliesAnswer | rrep.h:18 | every reply that is made answers an earlier request |
| MeshReplies.AnsweredLives | aodv_route.c:433-446 | a route back to where an answered request came from stays for the delete period, whatever happens |
| MeshReplies.AnsweredIsSent | rrep.h:18 | so if the task of the reply is served within the delete period, a reply is sent |
| MeshReplies.EventLives | aodv_route.c:175-231 | no event ends the life of a route, or gives it less than the delete period |
| MeshHops.StepHops | rrep.h:17 | every step of the mesh leaves the previous hop of a route that a reply has confirmed, unless it brings a reply that concerns the route |
| MeshHops.RelayIsRemembered | rrep.h:17 | over every such run: once a relay has sent a reply on, its route of the flow with that id remembers the node the reply went to, until a reply concerns the route again |
| MeshHops.ReportsGoBack | rerr.c:29-396 | so that node is told when the route breaks at the relay, and a report that finds the route goes on to it |
| Discovery.NoneForgotten | packet_out.c:72-90 | over every run from the start whose replies are harmless: each held packet of the node's own flows inside the mesh has a pending task or timer, and when none is left for a flow no packet of it is held |
| Discovery.StepKeepsPackets | rreq.c:147-217 | every step keeps that, replies under the conditions below, which are exact |
| Discovery.StepCares | packet_out.c:72-90 | every step but a reply keeps that, with no condition |
| Discovery.ReplyKeepsExactly | aodv_route.c:390-405 | a reply keeps that if and only if it leads to a route of its own flow, or nothing is held for the flow, or something besides the one deleted timer is pending for it |
| Discovery.StrayReplyStrands | aodv_route.c:391-397 | on every idle node with an invalidated route: hold a packet, send the request, then receive a reply that does not lead to that route, late or shadowed, and the packet stays with nothing pending for it |
| Discovery.AnswerKeepsExactly | aodv_route.c:455-497 | if the retry timer is deleted only after rrep_aodv_route has succeeded, a reply keeps that if and only if it does not lead to a listed route of another flow, or the condition above holds; merely late replies do no harm |
| Discovery.ReplyReleases | aodv_route.c:483-487 | in either order a reply sends on exactly the held packets of the flow it leads to, in arrival order; its own flow exactly if it leads there |
| Discovery.ReplyFinds | aodv_route.c:531-558 | where the search by id ends after the reply is learned, from the tables before: at a route of the flow, or exactly where it would have ended |
| Discovery.FindsOwnExactly | aodv_route.c:531-558 | with unique keys a reply leads to its own flow if and only if no newer route is known and no route to the destination with the reply's id stands before the flow's own |
| Discovery.NeighbourShadows | aodv_neigh.c:271-303 | discovering a neighbour shadows every older route to it from replies that carry the node's own number |
| Discovery.QuietStep | timer_queue.c:78-96 | with no new packet and no reply for a flow, requests sent plus requests to come, and drops made plus drops to come, stay constant; work drops by one exactly when a task of that discovery is served |
| Discovery.DiscoveryEnds | rreq.c:147-217 | one request task leads to exactly three requests and then exactly one drop: both counts as functions of the number of tasks served |
| Discovery.ServedFlowsAreDone | rreq.c:151-161 | however the steps of a run interleave, once as many tasks of a flow's discovery were served as it had work left, no packet of the flow is held |
| Discovery.ServeAccount | rreq.c:309 | serving a task accounts for one request or one drop of its flow |
| Discovery.SignalAccount | timer_queue.c:78-96 | moving timers to the task queue changes nothing that is to come |
| Liveness.HeldPacketsLeave | rreq.c:151-161 | from every state reached with harmless replies, four rounds of due timers and served tasks leave no packet of the node's own flows in the queue |
| Liveness.HeldPacketsCanLeave | timer_queue.c:235-242 | from every state reached with harmless replies whose pending timers lie within 2^31 ms, four rounds 2401 ms apart do it |
| Liveness.TimesArePatient | timer_queue.c:235-242 | rounds 2401 ms apart come when all timers of the round before have expired |
| Liveness.RoundsRelease | timer_queue.c:78-96 | as many rounds as the longest pending discovery has steps empty the queue of the node's own flows |
| Liveness.RunBounded | rreq.c:309-310 | in every reachable state no pending retry has more retries left than a discovery starts with |
| Liveness.ServeAllBelow | rreq.c:209-210 | serving all tasks brings every pending discovery one step nearer its end |
| DiscoveryNodes.DiscoveryNode.constructor | aodv_dev.c:43-65 | a node starts with its route to itself and itself as a source, where the runs of discovery start |
| DiscoveryNodes.DiscoveryNode.Output | packet_out.c:21-118 | on the heap structures: the decision pass, hold or discard, the request task at the front, the held packet, and the renewed route, and nothing else |
| DiscoveryNodes.DiscoveryNode.GenRreq | rreq.c:225-316 | the new id, the request and the timer with two retries |
| DiscoveryNodes.DiscoveryNode.ResendRreq | rreq.c:147-217 | with no retries left the held packets of the flow are dropped, otherwise one more request and a timer with one retry less |
| DiscoveryNodes.DiscoveryNode.Serve | task_queue.c:240-315 | the daemon takes the task the priority order gives, and runs it if it belongs to a discovery or is a reply to send |
| DiscoveryNodes.DiscoveryNode.Signal | timer_queue.c:78-96 | the due timers move to the end of the task queue, across both heap lists |
| DiscoveryNodes.DiscoveryNode.Confirm | aodv_route.c:455-497 | the route is confirmed and exactly its held packets are sent on, if its source is listed |
| DiscoveryNodes.DiscoveryNode.RecvRrep | rrep.h:17 | every branch of the reply handler on the heap tables, timers and packets: an unknown sender, the renewed timer of the neighbour, the source and the relay, with the message sent on as its result |
| DiscoveryNodes.DiscoveryNode.AcceptReply | aodv_route.c:455-497 | at the source the reply is learned, the retry timer deleted, the route searched by id, confirmed and its last hop noted, in that order |
| DiscoveryNodes.DiscoveryNode.Relay | aodv_route.c:531-558 | at a relay the way back is searched by id, the route ahead learned and searched, and the node of the way back is still the one found before |
| DiscoveryNodes.DiscoveryNode.Join | aodv_route.c:455-497 | both routes are confirmed, their packets sent on, and each learns the next hop of the other |
| DiscoveryNodes.DiscoveryNode.GenRrep | rrep.h:18 | a reply made: the new number, the route confirmed, its last hop noted, the message |
| DiscoveryNodes.DiscoveryNode.Hear | rreq.c:52-57 | the timer of the neighbour is deleted and set anew |
| DiscoveryNodes.DiscoveryNode.RecvRreq | rreq.c:24-145 | every branch of the request handler, the gateway's included, on the heap tables and timers, with the neighbour's timer renewed and the broadcast as its result |
| DiscoveryNodes.DiscoveryNode.ComputeMetric | rreq.c:73-94 | the metric of the request under the routing metric in use |
| DiscoveryNodes.DiscoveryNode.AwaitReply | rreq.c:107-111 | a reply is scheduled unless one is already waiting |
| TaskQueues.TaskQueue.QueueAodvTask | task_queue.c:158-197 | appends the task in service order; both linked queues stay well formed and the second is exactly the control tasks in the same order |
| TaskQueues.TaskQueue.QueueControlTaskAtFront | task_queue.c:199-238 | puts the task first in service order, same invariant |
| TaskQueues.TaskQueue.GetTask | task_queue.c:240-315 | returns the first control task if there is one, else the first task, removes only that one and keeps the order of the rest |
| TaskQueues.TaskQueue.GetControlTask | task_queue.c:249-294 | the branches that serve a control task, including removal from the middle with both neighbours non-null |
| TaskQueues.TaskQueue.ControlServed | task_queue.c:272-287 | the control queue advances by one |
| TaskQueues.TaskQueue.UnlinkOnlyControl | task_queue.c:253-274 | taking the only control task out of the list of all tasks, wherever it is |
| TaskQueues.TaskQueue.UnlinkEnd | task_queue.c:258-260 | taking the task at the serving end out; its successor's link is left as it was |
| TaskQueues.TaskQueue.UnlinkStart | task_queue.c:262-265 | taking the newest task out |
| TaskQueues.TaskQueue.UnlinkMiddle | task_queue.c:281-285 | taking a task out of the middle |
| TaskQueues.DrainIsStablePartition | task_queue.c:240-315 | repeated service is a stable partition: all control tasks in arrival order, then all others in arrival order |
| TaskQueues.OnlyProbesWait | task_queue.c:89-155 | of all kinds of tasks only those that measure links are not control tasks |
| TaskQueues.ControlNodesServe | task_queue.c:249-294 | serving takes exactly the first element off the subsequence of control tasks |
| TaskQueues.ControlNodesAppend | task_queue.c:179-192 | appending extends the subsequence of control tasks exactly if the task is one |
| TaskQueues.ControlNodesPrepend | task_queue.c:219-232 | prepending does so at the other end |
| TimerQueues.TimerQueue.QueueTimer | timer_queue.c:152-186 | links the timer in before the first one that is not earlier by the truncated comparison |
| TimerQueues.TimerQueue.FirstTimerDue | timer_queue.c:55-76 | takes the head off exactly if it has expired |
| TimerQueues.TimerQueue.FindTimer | timer_queue.c:284-303 | true exactly if some pending timer has the flow and kind |
| TimerQueues.TimerQueue.DeleteTimer | timer_queue.c:311-346 | removes the first timer of the flow and kind and no other |
| TimerQueues.TimerQueue.Signal | timer_queue.c:78-96 | moves exactly the expired head of the list to the end of the task queue, losing and duplicating none |
| TimerQueues.InsertKeepsSorted | timer_queue.c:152-186 | on times less than 2^31 ms apart insertion keeps the list sorted by the full clock and adds exactly the timer |
| TimerQueues.DueIsAllDue | timer_queue.c:78-96 | on a sorted list exactly the timers earlier than the sampled time move, in order of time |
| TimerQueues.ResendWaits | timer_queue.c:235-242 | the waits of the retry timer are 1600, 2400 and 0 ms |
| Clock.TimeBeforeIsOrder | timer_queue.c:62-63 | on instants less than 2^31 ms apart the truncated comparison is the order of the full clock |
| Clock.TimeBeforeExactly | timer_queue.c:62-63 | for any two instants, when exactly the two comparisons agree |
| PacketQueues.PacketQueue.Enqueue | packet_queue.c:132-182 | the packet is taken in as the newest exactly if there is room and the queue is neither flushing nor terminated; never more than the maximum |
| PacketQueues.PacketQueue.Dequeue | packet_queue.c:69-86 | removes and returns the oldest packet that the comparison hits, or nothing |
| PacketQueues.PacketQueue.SendIp | packet_queue.c:300-330 | reinjects exactly the packets of the flow as accepted, in arrival order, and leaves the others in order |
| PacketQueues.PacketQueue.DropIp | packet_queue.c:334-344 | the same with the verdict drop |
| PacketQueues.PacketQueue.DevDrop | packet_queue.c:288-297 | drops exactly the packets bound to the device |
| PacketQueues.PacketQueue.Flush | packet_queue.c:90-105 | drops everything in order; the queue accepts again afterwards |
| PacketQueues.PacketQueue.ReinjectAll | packet_queue.c:300-344 | the loop shared by them: every packet taken in is held or has been reinjected once |
| PacketQueues.PickedSplits | packet_queue.c:276-285 | every packet is picked or left, never both and never twice |
| PacketQueues.PickOne | packet_queue.c:69-86 | taking the oldest hit advances the picked subsequence by one |
| RouteTables.RouteTable.InsertRoute | aodv_route.c:241-286 | the route goes before the first one whose destination is not smaller; the doubly linked list stays well formed and sorted |
| RouteTables.RouteTable.Link | aodv_route.c:257-285 | the four relinking cases |
| RouteTables.RouteTable.RemoveRoute | aodv_route.c:114-131 | takes exactly that node out of the list |
| RouteTables.RouteTable.FindRoute | aodv_route.c:499-529 | the search that stops early finds the first route with the key anywhere in the table, or none exactly if there is none |
| RouteTables.RouteTable.FindRouteById | aodv_route.c:531-558 | the same for destination and id |
| RouteTables.InsertKeepsOrder | aodv_route.c:241-286 | insertion keeps the table sorted and adds exactly the route |
| RouteTables.InsertKeepsUnique | aodv_route.c:355-363 | keys stay unique if and only if the search before the insertion failed |
| Routers.Router.Learn | aodv_route.c:337-453 | rreq_aodv_route on both lists: accept or reject, create, count the source, fill in |
| Routers.Router.RouteNeighbour | aodv_neigh.c:271-303 | the route to a neighbour is inserted without a search for its key |
| Routers.Router.LearnNew | aodv_route.c:357-382 | the branch that creates the route before its source is listed |
| Routers.Router.AddRoute | aodv_route.c:372-382 | the source is found or inserted and counts one route more, or nothing changes |
| Routers.Router.Confirm | aodv_route.c:455-486 | the route becomes replied with a new lifetime exactly if its source is listed |
| Routers.Router.Use | packet_out.c:98-104 | a used route is active with a new lifetime |
| Routers.Router.Expire | aodv_route.c:106-112 | the route is invalid and lives for the delete period |
| Routers.Router.Flush | aodv_route.c:175-231 | terminates, and leaves both lists as the two-phase sweep says |
| Routers.Router.FlushRoute | aodv_route.c:184-229 | the sweep of one route and where it goes on |
| Routers.Router.ReleaseSource | aodv_route.c:192-221 | one route less of a source, which goes with its last route unless it is the node itself |
| Routers.Router.GenRerr | rerr.c:29-228 | every valid route through the lost neighbour is invalidated, no other is touched, and the reports sent are exactly those due, in order |
| Routers.Router.BreakRoute | rerr.c:42-94 | what a broken link does to one route, and the report for it |
| Routers.Router.RecvRerr | rerr.c:276-396 | the reaction to a report: which route is invalidated and what is sent on |
| Routing.EventKeepsKeys | aodv_route.c:355-363 | whatever happens the table stays sorted, and keys stay unique exactly as long as no route to a neighbour is inserted for a key that is there |
| Routing.RunKeepsKeys | aodv_route.c:355-363 | over whole runs the table stays sorted, and keys stay unique if no route to a neighbour is ever inserted for a key that is there; not only if, since a later sweep may remove the other route |
| Routing.LearnConservesExactly | aodv_route.c:357-382 | learning a route keeps every source's count equal to its routes if and only if its source can be listed |
| Routing.SweepConserves | aodv_route.c:192-225 | a sweep keeps the counts, and a source is listed exactly while it has a route |
| Routing.EventConservesExactly | aodv_route.c:192-225 | of all events only a learned route whose source cannot be listed breaks the counts |
| Routing.RunConserves | aodv_route.c:357-382 | from the start on, until such an event, the counts are right and every source has a kernel table of its own |
| Routing.FullListStrands | src_list.c:177-185 | a run from the start that learns routes of 251 other sources, in which nothing fails, and the next source then breaks the counts |
| Routing.EventKeepsTables | src_list.c:107-136 | whatever happens listed sources keep distinct tables from 1 to 252 |
| Routing.EventKeepsMe | aodv_route.c:214-217 | whatever happens the node itself stays listed |
| Routing.SelfRoutesStay | aodv_route.c:184-185 | a sweep never touches a self route |
| Routing.SweepRemoves | aodv_route.c:184-229 | a sweep removes exactly the stale invalid routes that are not self routes |
| Routing.InvalidSince | aodv_route.c:106-112 | over whole runs: a route invalid now has been so, with the same id and lifetime, ever since one earlier event |
| Routing.RemovedLate | aodv_route.c:175-231 | over whole runs: a removed route had been invalid with the same id ever since an earlier event, and unless that was its failed creation, it was valid longer than the delete period ago |
| Routing.UsedRouteStays | packet_out.c:98-104 | a route that carries a packet survives every sweep of the next 4800 ms, active |
| Routing.NewRouteStays | aodv_route.c:433-446 | an accepted route is in the table with what was said of it, active, a new one with its own source as previous hop, and survives every sweep of the next 3000 ms |
| Routing.ConfirmedRouteStays | aodv_route.c:483-486 | a confirmed route survives every sweep of the next 3000 ms, replied |
| Routing.ReportsExactly | rerr.c:45-94 | a report is sent exactly for every valid route through the lost neighbour that carries the traffic of others |
| Routing.ReportInvalidates | rerr.c:276-396 | how far a link break reaches upstream: a report goes to the previous hop of each reported route, and of the valid routes there through this node it invalidates one if and only if that has the destination and the id and is not hidden behind another route with both |
| Routing.ReportMeetsNeighbour | rerr.c:276-396 | a previous hop at which a neighbour's route hides the flow's own, and the report changes nothing |
| Routing.ReportMeetsOlder | rerr.c:276-396 | a previous hop that missed the last reply and keeps its older route through this node valid |
| SourceLists.SourceList.InsertSource | src_list.c:89-152 | a new source gets the smallest free table, the null address the main table; it fails exactly if the allocator is exhausted |
| SourceLists.SourceList.DeleteSource | src_list.c:57-87 | removes the first entry of the address |
| SourceLists.SourceList.FindSource | src_list.c:154-165 | finds the first entry of the address, or none exactly if there is none |
| SourceLists.SourceList.IsFree | src_list.c:167-175 | true exactly if no entry uses the table |
| SourceLists.SourceList.FindFirstTable | src_list.c:177-185 | the smallest free table, or 253 |
| SourceLists.FreeFrom | src_list.c:177-185 | everything below the result is in use and the result, in range, is not |
| SourceLists.InsertKeepsTables | src_list.c:107-136 | tables stay pairwise distinct and in range |
| SourceLists.DeleteKeepsTables | src_list.c:57-87 | so they do after a deletion, and the address is gone |
| SourceLists.ExhaustedExactly | src_list.c:177-185 | the allocator runs out if and only if 252 sources other than the null address are listed |
| EttEstimator.Neighbour.DelayVectorInit | probe_ett.c:13-18 | every delay is the default |
| EttEstimator.Neighbour.DelayVectorAdd | probe_ett.c:136-152 | in place, the sorted insertion of the delay capped at the default |
| EttEstimator.Neighbour.FindDelayRange | probe_ett.c:78-93 | the length of the run of measurements in range, all accesses in bounds |
| EttEstimator.Neighbour.ComputeDelay | probe_ett.c:96-133 | the average of the densest cluster, zero under three members, and when the vector is reset |
| EttEstimator.Neighbour.SumRange | probe_ett.c:117-118 | the 32-bit sum does not overflow |
| EttEstimator.Neighbour.ComputeEstimation | probe_ett.c:154-216 | every branch of the adaptive window on the fields of the neighbour |
| EttEstimator.Neighbour.ResetEtt | probe_ett.c:20-49 | the fields return to their start |
| EttEstimator.Neighbour.RecvMeasuredDelay | probe_ett.c:136-216 | adding and estimating keep the invariant and do one step of the estimator |
| EttEstimator.ClusterIsDensest | probe_ett.c:78-133 | no interval of the width of the range holds more measurements of the window than the chosen cluster |
| EttEstimator.ClusterIsTight | probe_ett.c:78-93 | the members of the cluster are sorted and within range of each other |
| EttEstimator.ClusterOfThree | probe_ett.c:112-115 | a cluster of three is found if and only if three measurements agree |
| EttEstimator.DelayIsInCluster | probe_ett.c:96-133 | the estimate lies between the least and the greatest member of the cluster, and when exactly it is zero |
| EttEstimator.DelayIsAverage | probe_ett.c:117-120 | the estimate is the average of the densest cluster, rounded down |
| EttEstimator.BestIsFirst | probe_ett.c:103-110 | of several densest clusters the one of the smallest delays is taken |
| EttEstimator.OutcomeStored | probe_ett.c:162-214 | an estimate is stored as the rate that is meant, with the exact exception; a reset forgets the rate, and nothing else touches it |
| EttEstimator.WindowMoves | probe_ett.c:162-214 | the window widens by two up to ten and starts over at three, or at four after a reset; only a failed round leaves a mark |
| EttEstimator.MeasurementsGo | probe_ett.c:112-198 | the measurements are forgotten when a round is over, and when three of them agree on nothing; otherwise they stay |
| EttEstimator.RateIsOfLast | probe_ett.c:154-216 | over every sequence of measurements the rate is that of the last concluded round since the last reset |
| EttEstimator.ResetExactly | probe_ett.c:162-205 | a reset comes if and only if two rounds in a row have failed or all measurements are missing |
| EttEstimator.RateFallsWithDelay | probe_ett.c:51-76 | the rate that is meant never rises with the delay |
| EttEstimator.RateExactly | probe_ett.c:54 | for every delay the code computes the rate that is meant if and only if the delay is below 65536, or its remainder there is at least 1625; otherwise it rates the link too high or divides by zero |
| EttEstimator.RateBreaksAt65536 | probe_ett.c:54 | two such delays: one divides by zero, the next is rated at the top |
| EttEstimator.AddDelayFills | probe_ett.c:136-152 | the vector is the sorted insertion of the capped delay into the measurements so far |
| EttEstimator.StepKeepsInv | probe_ett.c:154-216 | count below window, window from 3 to 10, sorted measurements up to the default and defaults behind, after any measurement |
| EttEstimator.RoundEnds | probe_ett.c:154-216 | over every sequence of measurements a round ends within ten |
| EttEstimator.ConclusionExactly | probe_ett.c:162-214 | what a full window concludes, as a condition on its measurements alone |
| Metrics.EttGrows | route_alg.c:11-18 | on a measured link of at most 540 every hop adds between 218 and 11776000 microseconds and does not wrap |
| Metrics.WcimGrows | route_alg.c:38-103 | under WCIM every accepted hop adds between 20 and 11776000 microseconds and does not wrap |
| Metrics.EttExactly | route_alg.c:11-18 | a hop under ETT costs the time of a probe packet at the received rate over the delivery ratio, rounded down; the link is refused exactly if one of the three is not measured |
| Metrics.WcimExactly | route_alg.c:98-103 | a hop under WCIM costs the time of an average packet over the bandwidth that is left, rounded down |
| Metrics.CoefExactly | route_alg.c:20-36 | the coefficient is the share of the air time that the payload takes, in percent rounded down |
| Metrics.NeighboursAdd | route_alg.c:55-96 | what each neighbour adds to the load: a one-hop neighbour twice if the transmitter does not hear it, a two-hop neighbour in full if it does and by half otherwise |
| Metrics.ComputeWcim | route_alg.c:38-105 | the loops over the two neighbour lists with the load in eight bits compute the closed form |
| Metrics.CoefBound | route_alg.c:20-36 | the coefficient is at most 99 percent, so eight bits do not cut it |
| Metrics.AdmissionExactly | route_alg.c:55-100 | for every measured link, known flow type and neighbourhood, a flow is judged as it is meant to be if and only if the true load is not an overload that passes for a percentage in eight bits or leaves a negative bandwidth that passes for a large one in 16 bits |
| Metrics.ResidualExactly | route_alg.c:98 | what a load in eight bits leaves of the bandwidth, below and above 100 |
| Metrics.NearLoad | route_alg.c:55-78 | the loop over the one-hop neighbours, with the load in eight bits |
| Metrics.FarLoad | route_alg.c:80-96 | the loop over the two-hop neighbours |
| Metrics.OverloadAdmits | route_alg.c:98-100 | overloads of both kinds: a load of 101 percent, and a hidden neighbour that brings the load to 256 |
| Metrics.WcimNeedsFlowType | route_alg.c:52-53 | on a measured link, and only there, a flow without a type makes the code use a missing entry |
| Address.InetAton | utils.c:51-130 | the loop with its buffer of parts parses exactly the language of the specification |
| Address.ParseNumber | utils.c:64-93 | one number with its C prefix, as a 32-bit word |
| Address.RoundTrip | utils.c:43-130 | for every address, parsing what is printed succeeds and gives it back |
| Address.NumberReadsDecimal | utils.c:64-93 | every printed octet is read back, zero through the octal path |
| Address.NumbersRead | utils.c:64-93 | every 32-bit number written in decimal, octal or hexadecimal with its C prefix and digits of either case is read back whole |
| Address.ConcoctExactly | utils.c:100-126 | the last part fills what the octets before it leave of the 32 bits, and an address is refused if and only if it does not fit |
| Address.TrailingText | utils.c:95-98 | an address may be followed by nothing or by white space and anything, and by nothing else |
| Address.NtoaInjective | utils.c:43-49 | different addresses are printed differently |
| Address.PrintingDoesNotUndoParsing | utils.c:64-79 | a concrete string that parses and is not printed back |

## Left out

- Sockets, netlink messages, netfilter registration, module start and stop, `/proc` files and shell scripts: input and output.
- Hello messages, the neighbour lists, the choice of gateways and the lists of two-hop neighbours: simple lists; what they decide (who hears whom) is arbitrary in the network model.
- Routes that the DTN extension creates (rrep.c:173, rrep.c:325): they enter the table without a search for their key.
- Traffic with an outside source or destination in the results on held packets: such packets keep their raw addresses while their discovery uses the null address, so nothing releases them by flow.
- Wrap-around of sequence numbers: a step that would wrap is not taken.
- Broken-link records, path recovery and notifications of the DTN layer inside the route error handlers: only the effect on routes and the reports are modelled.
- The load fields of routes and devices, and the timer that updates the load after a route becomes active: they feed the WCIM load, which is an arbitrary input here.
- The timers, the jitter and the route errors inside `reset_ett`, and the sending of estimates: input and output of the estimator.
- The rollover of the probe clock in `recv_lprobe` (probe_ett.c:371-372), rates above 540 and fixed rates: the estimator is modelled from the measured delay on.
- `cleanup_task_queue` and `cleanup_aodv_route_table`: shutdown paths.
- Allocation failure: a handler that gets no memory gives up silently, also in `resend_rreq`, where that would strand held packets.
- Races between the kernel's hooks and the daemon: handlers are atomic, and so is holding a packet together with queueing its request task.
- LoopFreedom.NoLoops: removals in a run have to be safe in the sense of `LoopFreedom.SafeToRemove`; the code removes by time alone, which is the case of `TimedRemovals.NoLoops`.
- LoopFreedom.RemovalExactly: exact for the invariant; when an unsafe removal makes a loop is the matter of `LoopFreedom.RemovalLoopsExactly`, for requests.
- TimedRemovals.NoLoops: that messages do not outlive the delete period is a hypothesis; the code does not bound how long a message waits in a queue.
- Meshes.NoLoops: the same; and it speaks of traffic inside the mesh, as long as sources can be listed and numbers do not wrap (`Meshes.Ordinary`).
- Route errors as messages of the mesh: a node may react to any report at any time; how reports travel is said by `Reports.ReportTravels` for given tables, and `MeshHops.ReportsGoBack` gives the previous hops over runs.
- Tasks of other kinds, such as sweeps and the expiry of neighbours, are served without effect on a node; their effects are steps of their own.
- Meshes.NoneForgotten: replies have to be timely, the exact condition of `Discovery.ReplyKeepsExactly`.
- Refinement.LearnRefinesInstall: the source of the route has to be listable; `Refinement.StrandedRouteBlocks` says what happens otherwise.
- ShortestPath.Converges: a destination that has its own route to the source as a neighbour, for type of service 0, is not part of it; and it speaks of networks that count hops: under ETT and WCIM the increments vary with load and no distance is fixed.
- Routing.RemovedLate: the delete period is compared by the truncated clock; the plain order of times is claimed when the two instants are less than 2^31 ms apart.
- Discovery.NoneForgotten: replies have to be harmless in the sense of `Discovery.Harmless`; the two lemmas on replies show that this is exactly what is needed in either order.
- Liveness.HeldPacketsLeave: rounds have to come when the timers have expired, which `Liveness.HeldPacketsCanLeave` shows to be possible; that the kernel schedules them is outside the model.
