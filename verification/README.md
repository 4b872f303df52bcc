# Tower: verified models

Dafny models of the core of the Tower game server, with proofs:

- **Path search** - A* and jump point search over the obstacle grid (`Grid.dfy`, `Walks.dfy`, `Pathfinder.dfy`,
  `Astar.dfy`, `Jps.dfy`, `JumpPoints.dfy`, `JpsFirstJump.dfy`, `JpsChains.dfy`, `JpsDivergence.dfy`).
- **The server/zone protocol** - one server strand and one strand per zone, each working off a FIFO queue of handlers,
  arbitrarily interleaved (`Zones.dfy`, `ZoneInvariants.dfy`, `Protocol.dfy`, `Histories.dfy`, `Deliveries.dfy`,
  `Servers.dfy`).
- **The world simulation** - movement, the collision index and the contact signals of a subworld, the shape tests, node
  transforms, and the monster that walks a computed path (`Vectors.dfy`, `Options.dfy`, `Shapes.dfy`, `Nodes.dfy`,
  `Subworlds.dfy`, `CollisionTrees.dfy`, `SubworldRuns.dfy`, `Movements.dfy`, `Monsters.dfy`, `PathFollowing.dfy`,
  `Approaches.dfy`, `NearWalks.dfy`, `StuckMonsters.dfy`, `Chases.dfy`, `Arrivals.dfy`, `Hunts.dfy`).
- **The dead-client detector** (`HeartBeats.dfy`).

`dafny verify dfyconfig.toml` checks everything.

Objects that the program updates in place are classes whose methods are tied to functions on values (`Zones.Zone` to
`Added`, `Removed`, ...; `Servers.Server` to the server steps of `Protocol`; `Jps.JpsSearch` to `Probed` and `Jumped`;
`Subworlds.Subworld` to `EntityAdded`, `Ticked`, ...; `Monsters.SimpleMonster` to `Looked`, `Chased` and `Attacked`).
The properties of whole runs are then lemmas about those functions. They are stated without them wherever a run can be
told by what goes in and what is observed: the events of a server run (`Histories`), the messages in a client's log
(`Deliveries`), paths down a node tree (`CollisionTrees`), rays over a grid (`JumpPoints`), places ahead of an entity
(`Movements`).

Conventions. Floats are `real`. `distance(a, b) <= r` is stated with squares. Where a length itself is needed it is a
parameter `len` constrained by `IsLength`. A rotation is a (cosine, sine) pair. A priority queue is a multiset from
which any minimal entry may be popped. Iteration over a hash map is in any order. Times are numbers supplied by the
caller. Collision shapes are placed by the frames of their nodes up to the entity they belong to; `stray` tells the
frame of an entity that is not in the subworld.

## Findings

1. Jump point search may never return although a path exists: `probe` overwrites the parents of cells that already have
   one (tower/world/path_finder.hpp:108), and `reconstruct_path` then walks in a circle.
   - It happens on a 2 x 4 grid, where two cells become each other's parents (`JpsDivergence.SmallGridDefeatsSearch`),
     and on a 3 x 5 grid, where a probe sweeps over the start (`JpsDivergence.SweptGridSweepsStart`,
     `JpsDivergence.SweptGridDefeatsSearch`).
   - One visit leaves every parent chain ending if and only if the cell visited is not an ancestor of the cell it is
     visited from (`JpsChains.VisitKeepsChains`); so all chains have ended at all times of a run if and only if no visit
     was of that kind, for which it is enough that a search visits only cells that have no parent yet and are not the
     start (`JpsChains.ChainsOfSearch`).
   - Before the call: on a grid without blocked cells the search always returns, with an optimal path if and only if the
     two ends are different cells of the grid (`JpsFirstJump.OpenGridIsSolved`). On any grid a free goal next to the
     start is found (`JpsFirstJump.AdjacentGoalIsFound`), and a goal that the first jump reaches is reached optimally
     (`JpsFirstJump.FirstJumpReturns`). A search for the start itself never returns a path, where A* returns one cell
     (`JpsFirstJump.StartAsGoal`).
2. A client may be a member of two zones at once (`Protocol.ClientInTwoZones`): exactly when in each of the two its
   first queued change is a remove, or it has none and is recorded there (`Protocol.TwoHomesByQueue`). Exactly one kind
   of step leads there: a zone runs the client's queued add while the client still stays in another
   (`Protocol.EntersSecondZone`). Membership after draining is unique all the same.
3. A zone may have two tick chains pending (`Protocol.TwoTicksPending`): a second one begins exactly when the zone runs
   an add while it has no members and the tick of its stopped chain is still queued (`Protocol.SecondTickChain`).
   Simulation steps keep their distance all the same.
4. A monster whose own cell is blocked never moves once it has set out, however often it gives up, looks again,
   repaths, strikes or ends a strike; A* does not test its start (`StuckMonsters.NeverLeavesBlockedCell`). Which of the
   two happens is decided by that cell alone (`StuckMonsters.SettingOutDecides`).
5. A monster that sets out from its own free cell need not reach that cell's centre before it is sent on
   (`Approaches.CentreIsMissed`: from 0.200005 away it is sent on after one step). It reaches it exactly when it is not
   mistaken to have arrived before its last step: when it is there already, or, with one step to go, at least 1e-5 away,
   or, with more, when the rest that the full steps will leave is not below 1e-5 in every coordinate. It then completes
   its path exactly (`Approaches.ApproachIsExact`). If it misses the centre it still walks the whole path unrefused, and
   ends within 1e-5 per coordinate of the last centre: the offsets do not add up (`NearWalks.ChaseEndsNear`).
6. A collision object that is removed while in contact stays in the contact set, and no exit is signalled
   (`SubworldRuns.RemovedInContact`): its contact and its signals stay as they are for as long as neither its entity is
   added again nor the area is replaced or removed (`SubworldRuns.RemovalKeepsContact`).

## Model

| member | source | states |
|---|---|---|
| Grids.CellAt | tower/system/container/grid.hpp:29-30 | the cell of a world coordinate contains it, also for negative coordinates |
| Grids.Grid.Adjacents | tower/system/container/grid.hpp:107-126 | the neighbours of a cell are exactly the 8-adjacent cells inside the grid; none for a cell outside |
| Grids.Grid.Get8WayAdjacents | tower/system/container/grid.hpp:107-122 | the eight guarded appends list those neighbours, in the searches' order |
| Grids.Cells | tower/system/container/grid.hpp:81-85 | a grid has rows times cols inside cells |
| Walks.DistanceBelowCost | tower/system/container/grid.hpp:40-42 | no stretch of a walk costs less than the Manhattan distance it spans, so the heuristic never overestimates |
| Walks.DistinctWalkFits | tower/world/path_finder.hpp:65-77 | a walk over distinct cells has at most as many cells as are free plus its start, and costs at most 2 per step |
| Pathfinder.ReconstructPath | tower/world/path_finder.hpp:177-187 | when the parent chain of the goal ends, the loop stops and returns that chain from its root to the goal |
| Pathfinder.FirstPop | tower/world/path_finder.hpp:59-61 | a cell popped for the first time carries its current value, which bounds every closed cell from above and every open entry from below |
| Pathfinder.StartPop | tower/world/path_finder.hpp:57-61 | the start establishes the same although it is queued under 0 |
| Pathfinder.StalePop | tower/world/path_finder.hpp:57-61 | popping a stale entry of a closed cell keeps the invariant, with the popped f as the new bound |
| Pathfinder.SkipNeighbour | tower/world/path_finder.hpp:66-70 | passing over a closed, blocked or already better neighbour is sound: its value is settled |
| Pathfinder.RelaxNeighbour | tower/world/path_finder.hpp:72-76 | relaxing a neighbour keeps the tree, the queue discipline and the bounds |
| Pathfinder.ChainIsWalk | tower/world/path_finder.hpp:65-76 | the parent chain of every reached cell ends at the start and is a legal walk over distinct cells that costs exactly its g |
| Pathfinder.GBound | tower/world/path_finder.hpp:69-74 | every stored g is at most twice the number of other free cells |
| Pathfinder.NoCheaperWalk | tower/world/path_finder.hpp:63 | when the goal is popped its g is at most the cost of any legal walk |
| Pathfinder.ReachesOnlyClosed | tower/world/path_finder.hpp:58-80 | when the queue runs empty every cell of every legal walk is closed |
| Astar.PopStep | tower/world/path_finder.hpp:58-61 | every popped f is at least the bound that all earlier ones were below, and the invariant for expanding the popped cell holds |
| Astar.RelaxInLoop | tower/world/path_finder.hpp:69-76 | only the first expansion of a cell can improve a neighbour, and the relaxation keeps the loop invariant |
| Astar.RunWithinLimits | tower/world/path_finder.hpp:52-77 | in every state of every run, whatever the order of its pops and relaxations, every stored g is at most 2(rows*cols-1) and every queued f at most that plus (rows-1)+(cols-1) |
| Astar.TryNeighbour | tower/world/path_finder.hpp:65-76 | a neighbour that is open, free and reached more cheaply is relaxed, any other leaves the search as it is; the invariant holds with that neighbour done |
| Astar.Expand | tower/world/path_finder.hpp:65-77 | trying all neighbours restores the loop invariant; a repeated expansion changes nothing |
| Astar.Find | tower/world/path_finder.hpp:41-81 | terminates; returns the empty path exactly when an end is outside or no legal walk exists, otherwise a legal walk over distinct cells of minimal cost; what it did is a run whose popped f values never fall and whose states all stay within the integer limits, and the result is read off its last state; a successful search has expanded only cells whose cheapest found cost plus Manhattan distance to the goal is at most the cost of the path |
| Jps.StandKeepsGood | tower/world/path_finder.hpp:107-152 | one cell of a probe keeps every parent entry free, adjacent and rooted |
| Jps.ProbeKeepsGood | tower/world/path_finder.hpp:104-155 | a probe keeps all parent entries sound; unsuccessful it queues nothing, successful it reached the goal or queued something |
| Jps.JumpKeepsGood | tower/world/path_finder.hpp:157-163 | so does a jump from any popped cell |
| Jps.JpsSearch.Probe | tower/world/path_finder.hpp:104-155 | the loop with its recursive probes terminates and leaves the containers and the result of the recursive definition |
| Jps.JpsSearch.Jump | tower/world/path_finder.hpp:157-163 | probes exactly the open free neighbours, in order |
| JumpPoints.ProbeSees | tower/world/path_finder.hpp:104-155 | a probe succeeds exactly when some cell on the clear way ahead is a jump point - the goal, a cell with a forced neighbour, or on a diagonal one from which a straight way leads to such a cell - whatever the search found before |
| JumpPoints.ProbeLeaves | tower/world/path_finder.hpp:104-155 | exactly what it does to any cell: one that it crosses, on its way or on a straight way branching off, gets a parent; if it is no jump point it is closed, if it is one other than the goal it is queued under its distance; no other cell changes |
| JumpPoints.JumpReaches | tower/world/path_finder.hpp:157-163 | after a jump every free neighbour has a parent or is closed |
| JumpPoints.JumpsNowhere | tower/world/path_finder.hpp:157-163 | no probe is sent to a closed neighbour: where all are closed a jump only closes its own cell |
| Jps.EndingChainIsWalk | tower/world/path_finder.hpp:108 | a parent chain that ends is a legal walk from the start |
| Jps.StartMustStayRoot | tower/world/path_finder.hpp:108 | once the start has a parent, no parent chain ends |
| Jps.ReturnedWalk | tower/world/path_finder.hpp:171 | a reconstructed path is a legal walk, A* then succeeds too, and no optimal path is longer |
| Jps.Find | tower/world/path_finder.hpp:84-175 | the outcome is that of the search loop, cut off after `fuel` steps; any path it returns is a legal walk that A* does not exceed |
| JpsFirstJump.FirstJumpIsOptimal | tower/world/path_finder.hpp:104-163 | in the jump from the start every parent lies on a shortest way, so a goal it reaches has an ending chain that is an optimal path |
| JpsFirstJump.FirstJumpReturns | tower/world/path_finder.hpp:165-172 | the search then returns that optimal path after one iteration, on any grid |
| JpsFirstJump.AdjacentGoalIsFound | tower/world/path_finder.hpp:157-172 | a free goal next to the start is always found |
| JpsFirstJump.OpenGridIsSolved | tower/world/path_finder.hpp:84-175 | without blocked cells the search always returns, with an optimal path exactly when the ends are different cells of the grid |
| JpsFirstJump.StartAsGoal | tower/world/path_finder.hpp:165-172 | a search for its own start never returns a path, although the one-cell walk is optimal |
| JpsChains.VisitKeepsChains | tower/world/path_finder.hpp:108 | writing `parents[p]` leaves every chain ending exactly when `p` is not an ancestor of the cell written |
| JpsChains.ChainsOfSearch | tower/world/path_finder.hpp:104-172 | in every state of every run: all chains have ended at all times exactly when no visit went to an ancestor; visiting only cells without a parent and never the start ensures it |
| JpsChains.AcyclicSearchReturns | tower/world/path_finder.hpp:171-187 | a search that reached its goal without such a visit returns a legal walk |
| JpsDivergence.SmallGridIsSmall | tower/system/container/grid.hpp:75-89 | the 2 x 4 grid with one blocked cell is the one the rows below are about |
| JpsDivergence.GoalIsReachedInACircle | tower/world/path_finder.hpp:165-172 | on the small grid the goal gets a parent in the second iteration, and its chain never ends although the start has no parent |
| JpsDivergence.SearchDoesNotReturn | tower/world/path_finder.hpp:84-187 | there the search has not returned after any number of steps |
| JpsDivergence.YetThereIsAWalk | tower/world/path_finder.hpp:41-81 | although a legal walk exists |
| JpsDivergence.SmallGridDefeatsSearch | tower/world/path_finder.hpp:84-187 | the search from (0, 3) to (0, 0) of that grid itself has not returned after any number of steps |
| JpsDivergence.SweptGridIsWide | tower/system/container/grid.hpp:75-89 | the 3 x 5 grid with four blocked cells is the one the rows below are about |
| JpsDivergence.StartIsSwept | tower/world/path_finder.hpp:104-155 | a reachable state in which the start has a parent; the goal has one too, and no chain that ends |
| JpsDivergence.SweptSearchDoesNotReturn | tower/world/path_finder.hpp:84-187 | there the search does not return either |
| JpsDivergence.YetThereIsAWideWalk | tower/world/path_finder.hpp:41-81 | although a legal walk exists |
| JpsDivergence.SweptGridSweepsStart | tower/world/path_finder.hpp:104-155 | on that grid itself the search from (1, 0) to (1, 4) comes to a state in which the start has a parent and the chain of the goal never ends |
| JpsDivergence.SweptGridDefeatsSearch | tower/world/path_finder.hpp:84-187 | and has not returned after any number of steps |
| Zones.Zone.Broadcast | tower/network/zone.cpp:198-203 | every member but `except` gets the message once, nobody else gets anything |
| Zones.Zone.AddClientNow | tower/network/zone.cpp:84-143 | the complete new zone state and every log after the add handler |
| Zones.Zone.RemoveClientNow | tower/network/zone.cpp:145-163 | the complete new zone state after the remove handler, also for a client that is not a member |
| Zones.Zone.TickNow | tower/network/zone.cpp:165-196 | a stopped zone drops its tick, an early one is posted again, otherwise one step is simulated |
| Zones.Zone.RunNextHandler | tower/network/zone.cpp:66-163 | the strand runs its oldest handler |
| ZoneInvariants.DrainAppend | tower/network/zone.cpp:84-145 | what posting one more handler means for the drained membership |
| ZoneInvariants.WellQueuedAt | tower/network/zone.cpp:145-147 | at every queue position the handler will find its client as it expects |
| ZoneInvariants.MemberByQueue | tower/network/zone.cpp:84-147 | whether a client is a member can be read off its first queued change, and without one off the drained membership |
| ZoneInvariants.ChangesAlternate | tower/network/zone.cpp:84-147 | between two queued adds of a client there is a remove, and conversely |
| ZoneInvariants.StrangersChangeNothing | tower/network/zone.cpp:145-206 | a remove or a packet of a client that is no member changes nothing |
| ZoneInvariants.HandleKeepsInv | tower/network/zone.cpp:205-206 | a packet whose turn comes passes the membership check and is handled, and nothing else changes |
| ZoneInvariants.AddReplicates | tower/network/zone.cpp:96-141 | after an add every member, old and new, knows exactly the other players |
| ZoneInvariants.RemoveReplicates | tower/network/zone.cpp:149-157 | after a remove every remaining member does |
| ZoneInvariants.TickReplicates | tower/network/zone.cpp:177-192 | movement broadcasts do not disturb that |
| ZoneInvariants.RunNextKeepsInv | tower/network/zone.cpp:66-203 | every handler keeps the zone invariant: views, population, running state, pending tick, step distance, queue |
| Protocol.StepKeeps | tower/network/server.cpp:143-311 | every server or zone step keeps the global invariant |
| Protocol.MembershipAfterDraining | tower/network/server.cpp:152-305 | in every reachable state, draining a zone's queue leaves exactly the registered clients recorded there |
| Protocol.DrainedMembershipIsUnique | tower/network/server.cpp:294-305 | so no client drains into two zones |
| Protocol.EveryHandlerFindsItsClient | tower/network/zone.cpp:145-147 | in every reachable state each queued remove and packet will find its client a member, each add a newcomer |
| Protocol.ReplicatedView | tower/network/zone.cpp:84-163 | in every reachable state the messages a member got from its zone add up to exactly the other players there, and the subworld holds exactly the members' players |
| Protocol.TickDiscipline | tower/network/zone.cpp:72-86 | a zone runs exactly while it has members, then a tick is pending, and any two simulation steps are at least 100 ms apart |
| Protocol.MembershipByQueue | tower/network/server.cpp:294-305 | in every reachable state a client is a member of a zone exactly when its first queued change there is a remove, or it has none and is recorded there |
| Protocol.ClientInTwoZones | tower/network/server.cpp:295-299 | a reachable state in which one client is a member of two zones |
| Protocol.TwoHomesByQueue | tower/network/server.cpp:295-299 | exactly when a client is a member of two given zones; its removal from one of them is then still queued |
| Protocol.EntersSecondZone | tower/network/server.cpp:295-299 | exactly which steps bring a client that has a zone into a second one |
| Protocol.QueuedChangesAlternate | tower/network/server.cpp:294-305 | in every reachable state the queued adds and removes of a client alternate |
| Protocol.TwoTicksPending | tower/network/zone.cpp:72-76 | a reachable state in which a zone has two tick handlers queued |
| Protocol.PendingTicks | tower/network/zone.cpp:72-196 | one more tick is pending exactly after an add to an empty zone, one less exactly after a tick of a stopped one; nothing else changes their number |
| Protocol.SecondTickChain | tower/network/zone.cpp:72-86 | exactly when a second tick chain begins |
| Servers.Server.AddClientNow | tower/network/server.cpp:143-149 | the connect step of a run |
| Servers.Server.HandlePlayerEnterZone | tower/network/server.cpp:282-311 | the enter step of a run, with its four outcomes; no zone but the two concerned changes |
| Servers.Server.RoutePacket | tower/network/server.cpp:191-202 | the route step of a run, with every way in which a packet is not routed |
| Servers.Server.RemoveClientNow | tower/network/server.cpp:152-164 | the disconnect step of a run |
| Servers.Server.RunZoneHandler | tower/network/zone.cpp:66-163 | one zone's handler changes nothing of the server or of another zone |
| Histories.RecordsOfRun | tower/network/server.cpp:143-305 | in every run the registered clients are those that connected and did not disconnect, numbered as they connected, each recorded in the last existing zone it asked to enter and with the player it joined with: told from the events alone |
| Histories.MembersOfRun | tower/network/server.cpp:152-305 | so after draining the members of a zone are exactly the clients of whom the events say so |
| Histories.OutcomeOfRun | tower/network/server.cpp:282-300 | what a request to enter a zone comes to, in terms of the events before it: it is rejected exactly when a registered client asks for a zone that does not exist and is not its own |
| Histories.PacketsArrive | tower/network/server.cpp:191-202 | in every run a zone has handled or still queued exactly the packets that registered clients which had joined sent while their last zone was that one, with their own id, player and tag, in the order of the events: none is dropped, none arrives elsewhere, none overtakes another |
| Histories.OtherZonesStay | tower/network/server.cpp:152-311 | no event changes a zone that it does not concern; a routed packet touches only the sender's zone |
| Deliveries.TickWhenDue | tower/network/zone.cpp:165-196 | in every run a tick simulates a step exactly when the zone has members and its last step ended at least 100 ms before; otherwise nothing is sent; it posts the next tick exactly when the zone has members, and changes nothing else |
| Deliveries.SentWhenDue | tower/network/zone.cpp:84-203 | in every run, what each client is sent by each handler: the newcomer the others' players and the other entities, every other member the newcomer or the leaver, every member one movement message of all entities when a step is due, anybody else nothing |
| Deliveries.SceneryIsShown | tower/network/zone.cpp:115-133 | in every run (ids of players and other entities being distinct) a zone keeps the non-player entities it was loaded with, and every member's log shows exactly those |
| Vectors.CauchySchwarz | tower/physics/sphere_collision_shape.cpp:32 | the inequality behind the sphere tests |
| Vectors.TriangleInequality | tower/physics/sphere_collision_shape.cpp:32 | the triangle inequality in squared form |
| Shapes.CollidingMeansSharingAPoint | tower/physics/cube_collision_shape.cpp:9-51 | for non-negative sizes and radii each of the four collision tests is true exactly when some point passes both point tests |
| Shapes.CollidingIsSymmetric | tower/physics/sphere_collision_shape.cpp:9-36 | so it does not matter which of the two shapes is asked |
| Shapes.CubeSphereShare | tower/physics/cube_collision_shape.cpp:28-37 | the clamped closest point decides whether cube and sphere share a point |
| Shapes.SpheresShare | tower/physics/sphere_collision_shape.cpp:29-33 | two spheres share a point exactly when their centres are at most the sum of the radii apart |
| Shapes.NegativeRadiusSharesNothing | tower/physics/sphere_collision_shape.cpp:32 | with a negative radius the test answers yes for spheres without a common point |
| Nodes.Node.AddChild | tower/world/node.hpp:47-56 | null is ignored; a child that is no ancestor gets a chain, itself followed by this node's; one that is leaves this node without a chain |
| Nodes.Node.LoopHasNoChain | tower/world/node.hpp:58-66 | from a node on a parent loop no walk up ends |
| Nodes.Node.GetRoot | tower/world/node.hpp:58-66 | stops, at the parentless end of the chain |
| Nodes.Node.GetGlobalPosition | tower/world/node.hpp:76-88 | the upward loop equals the recursive global position: the parent's, plus the local one turned by the parent's global rotation |
| Nodes.Node.GetGlobalRotation | tower/world/node.hpp:90-100 | the loop accumulates exactly that global rotation |
| Nodes.LiftIsGlobal | tower/world/node.hpp:80-85 | turning and shifting frame by frame composes to the recursive definition |
| Nodes.ApplyIsTurn | tower/world/node.hpp:80-85 | the rotation of a vector is the one vector of the same height whose dot and cross product with it are those of the angle |
| Nodes.NodeTurnsWithItsRoot | tests/transform.test.cpp:7-18 | where a node is whose parent is unturned, turned by a quarter, and turned by a half |
| Nodes.SiblingsKeepTheirDistance | tower/world/node.hpp:76-88 | a parent chain of any depth preserves the distance between siblings |
| Subworlds.Moved | tower/world/subworld.cpp:8-39 | a tick never moves an entity from a free cell into an obstacle or out of the grid |
| Subworlds.Subworld.MoveEntity | tower/world/subworld.cpp:10-38 | the two modes, the tolerance, the last step and the obstacle test amount to one move |
| Subworlds.Subworld.MoveEntities | tower/world/subworld.cpp:8-39 | every entity makes exactly its own move |
| Subworlds.Subworld.CheckBody | tower/world/subworld.cpp:44-54 | the three branches signal and record what the contact set and the collision test call for |
| Subworlds.Subworld.UpdateContacts | tower/world/subworld.cpp:41-56 | every area is checked against every indexed body once, in whatever order |
| Subworlds.Subworld.Tick | tower/world/subworld.cpp:7-57 | first all entities move, then every contact is judged where the moved entities place the shapes |
| Subworlds.Subworld.AddCollisionObjects | tower/world/subworld.cpp:69-76 | the recursive walk indexes exactly the collision objects below a node |
| Subworlds.Subworld.RemoveCollisionObjects | tower/world/subworld.cpp:78-85 | the recursive walk removes exactly those |
| Subworlds.Subworld.AddEntity | tower/world/subworld.cpp:59-62 | the entity and the objects below it are added, nothing else changes |
| Subworlds.Subworld.RemoveEntity | tower/world/subworld.cpp:64-67 | the entity and the objects below it are removed |
| Subworlds.Subworld.GetCollisions | tower/world/subworld.cpp:109-120 | exactly the indexed objects on a layer of the mask whose shape collides |
| Subworlds.SharesLayer | tower/world/subworld.cpp:113 | an object is on a layer of a mask exactly when some single bit is set in both |
| Movements.EntityDrivesAhead | tower/world/subworld.cpp:15-38 | over any ticks of a run an entity in forward mode is displaced by a whole step along its direction with each tick, up to the first place that is blocked or outside, and then stays; its direction stays |
| Movements.StandsStill | tower/world/subworld.cpp:11-38 | it stands still exactly when its direction is within the tolerance, it is attacking, or the next place is blocked or outside |
| Movements.FacesItsWay | tower/world/subworld.cpp:20-38 | an entity in target mode faces its target at unit length and makes a whole step, or the rest of the way, in that direction unless that is refused; next to its target it faces nowhere and stays |
| CollisionTrees.IdsFound | tower/world/subworld.cpp:69-85 | the walk over a node tree finds exactly the ids of the collision objects that some path of child indices leads to |
| CollisionTrees.ObjectsFound | tower/world/subworld.cpp:69-76 | ids being distinct, it finds exactly those objects, each with its own data and the frames along its path |
| CollisionTrees.PlacedOnPath | tower/world/node.hpp:76-88 | an object and its shape are where the frames from its entity down the path lead |
| SubworldRuns.StepKeepsIndex | tower/world/subworld.cpp:59-85 | adding or removing an entity keeps the index equal to the present entities' objects |
| SubworldRuns.WhoIsPresent | tower/world/subworld.cpp:59-95 | the operations of a run alone tell which entities and areas are present: those added last and not removed since |
| SubworldRuns.QueriesAgreeWithTrees | tower/world/subworld.cpp:109-120 | after any run a query finds exactly the objects to which a path leads from an entity added and not removed since, that are on a layer of the mask, and whose shape, in its place at the end of that path, has a point in common with the target |
| SubworldRuns.ContactProtocol | tower/world/subworld.cpp:41-95 | over any run the signals of each area-body pair since the area was added are a prefix of (entered staying* exited)* |
| SubworldRuns.EveryTouchIsSignalled | tower/world/subworld.cpp:41-56 | over any run an area signals a body, as entered or staying, once for each tick that leaves the two touching |
| SubworldRuns.TouchesSinceAdded | tower/world/subworld.cpp:41-95 | counted from when the area was last added, which starts without contacts |
| SubworldRuns.ContactsAfterTick | tower/world/subworld.cpp:7-56 | after any run that ends with a tick, a body is in contact exactly when it is indexed, the area asks for its layer and the two shapes, at the global positions given by the moved entities, have a point in common |
| SubworldRuns.TickCarriesColliders | tower/world/subworld.cpp:36-37 | a tick displaces the shapes below an entity exactly as it displaces the entity |
| SubworldRuns.RemovalKeepsContact | tower/world/subworld.cpp:64-85 | an object removed while in contact stays in contact, silently, until its entity is added again or the area is replaced or removed |
| SubworldRuns.RemovedInContact | tower/world/subworld.cpp:41-85 | a run that comes to such a contact: entered once, never exited, over any number of ticks |
| Monsters.DetectedWithinReach | tower/entity/simple_monster.cpp:25-26 | detected are exactly the objects on the players' layer with a point within 4 of the monster |
| Monsters.SimpleMonster.LookForTarget | tower/entity/simple_monster.cpp:23-50 | an idle monster queries the subworld with its detection sphere, picks a closest object, and sets out only along an optimal path from its own cell to that of the object's player, which it remembers |
| Monsters.SimpleMonster.Chase | tower/entity/simple_monster.cpp:51-91 | the remembered player's leaving the zone, repath, arrival and path following, each with the whole new state; a repath does not change the target position |
| Monsters.SimpleMonster.Tick | tower/entity/simple_monster.cpp:19-108 | the state machine |
| PathFollowing.CellOnLeg | tower/world/subworld.cpp:36-37 | the straight line between neighbouring centres stays in their two cells, except exactly at the corner of a mixed-sign diagonal |
| PathFollowing.CoveredBounds | tower/entity/simple_monster.cpp:138 | steps of 0.2 never land on that corner, and never come within the arrival tolerance before arriving |
| PathFollowing.LegTick | tower/entity/simple_monster.cpp:87-91 | a tick within a leg is not refused and leads one step further or to the next leg |
| PathFollowing.TickMakesProgress | tower/world/subworld.cpp:20-38 | every tick brings the monster to a later cell or one step closer to the current one |
| PathFollowing.WalksFrom | tower/entity/simple_monster.cpp:87-91 | from anywhere within a leg the path is completed in exactly the ticks its legs take |
| PathFollowing.PathIsWalkedToItsEnd | tower/entity/simple_monster.cpp:38-91 | from the centre of a free cell a monster reaches the end of its path after 1 + 5 per straight + 8 per diagonal step ticks, never refused, never off its path |
| PathFollowing.SettingOutStarts | tower/entity/simple_monster.cpp:38-47 | what setting out establishes is what that walk starts from |
| PathFollowing.ZoneTickIsMoveThenChase | tower/network/zone.cpp:172-175 | the tick of that walk is the subworld's movement followed by the monster's own tick |
| PathFollowing.ProposesWithinCell | tower/world/subworld.cpp:20-38 | on the way to its own cell's centre a monster is refused exactly when that cell is blocked |
| PathFollowing.ApproachesCentre | tower/world/subworld.cpp:20-38 | in a free cell it gets there exactly, or one whole step closer |
| Approaches.ApproachIsExact | tower/entity/simple_monster.cpp:38-91 | from anywhere in its own free cell a monster is at that cell's centre when it is sent on exactly when it was not mistaken to have arrived before the last step, which its position and target tell beforehand; it then completes its path in the ticks of the approach plus those of the legs, otherwise it is sent on one step early |
| Approaches.CentreIsMissed | tower/entity/simple_monster.cpp:88 | a monster that sets out from a given place on a 1 x 2 grid and is sent on after one tick, without having reached the centre |
| NearWalks.WayTick | tower/entity/simple_monster.cpp:87-91 | on a leg that began within the tolerance of its first centre a tick is not refused, and leads one step further or within the tolerance of the next centre |
| NearWalks.ChaseEndsNear | tower/entity/simple_monster.cpp:38-91 | from anywhere in its own free cell, whether or not it reaches the centres, a monster walks its path to the end, never refused, never off its path, to within the tolerance of the last centre, in at most one tick more per leg |
| StuckMonsters.SettingOutDecides | tower/entity/simple_monster.cpp:38-47 | a monster that has set out stands where it did; it approaches the centre exactly when its own cell is free, and while that is blocked it is stuck |
| StuckMonsters.NeverLeavesBlockedCell | tower/world/subworld.cpp:36-37 | a stuck monster in a blocked cell never moves, over any number of ticks with looks, chases, repaths, strikes and ends of strikes |
| StuckMonsters.StrikeHoldsPosition | tower/entity/simple_monster.cpp:92-107 | it strikes exactly when its player is in the zone and within reach, and then stands where it is over any number of ticks until its attack ends, whatever it sees; otherwise it gives up and its body is left alone |
| Chases.FollowsFreshPath | tower/entity/simple_monster.cpp:38-69 | in any run of ticks a chasing monster follows an optimal path from where it stood to where its player was, computed in a tick at most 3 s before the last one: when it set out for the player it saw first, or when the path before was more than 3 s old |
| Arrivals.ArrivalDecides | tower/entity/simple_monster.cpp:72-106 | at the end of its path, with its player in the zone, a monster less than 1 away has struck two ticks later and stands still; any other has given up after one tick where it stands |
| Arrivals.ChaseEndsInStrike | tower/entity/simple_monster.cpp:38-106 | so for the whole chase, from anywhere in its own free cell: it strikes exactly if the player is less than 1 from where it ends, next to the centre of the last cell |
| Hunts.SetsOutWhen | tower/entity/simple_monster.cpp:23-47 | an idle monster sets out if the closest object it detects belongs to a player it can walk to, and stays as it is if it detects nothing or the closest is no such object |
| Hunts.ChasesNearest | tower/entity/simple_monster.cpp:30-36 | the player it then remembers owns a detected object that is no farther away than any other |
| Hunts.GoesOnWhen | tower/entity/simple_monster.cpp:51-91 | exactly when a chasing monster goes on, and when it changes to attacking |
| Hunts.StartsOver | tower/entity/simple_monster.cpp:57-91 | a chase that starts over goes on heading where it was heading, unless it has just arrived there |
| Hunts.AttacksWhile | tower/entity/simple_monster.cpp:92-107 | an attacking monster goes on exactly while its player is in the zone and at most 1 away |
| Hunts.HuntSucceeds | tower/entity/simple_monster.cpp:19-108 | an idle monster in a free cell that sees first a player it can walk to, which stays where it is at height 0, has struck it after a bounded number of ticks in every run, provided its path is not 3 s old by then |
| HeartBeats.HeartBeater.OnTimeout | tower/network/client.cpp:52-68 | a timeout stops the client exactly when its last beat is more than 20 s ago, which is never more than 25 s; otherwise it probes exactly when the beat is overdue, and the invariant holds |
| HeartBeats.HeartBeater.OnReceived | tower/network/client.cpp:14-19 | only packets of an authenticated client count as beats; the invariant holds in either case |
| HeartBeats.RunKeepsInv | tower/network/client.cpp:50-85 | k missed beats pin the next timeout to one 5 s window after the last beat |
| HeartBeats.HeartbeatBounds | tower/network/client.cpp:50-85 | in every run a client is stopped more than 20 s and at most 25 s after its last authenticated packet, and no run outlives that instant |

## Left out

- Jps.Find: cut off by `fuel`, because the search need not return. In general it is neither complete nor optimal;
  which inputs beyond those of `JpsFirstJump` it solves is not characterised before the call.
- Pathfinder.ReconstructPath: requires the chain to end; A* and the fuel-limited jump point search establish that.
- PathFollowing.PathIsWalkedToItsEnd: like `Approaches.ApproachIsExact`, `NearWalks.ChaseEndsNear` and
  `Hunts.HuntSucceeds` it excludes runs with a repath, because a repath keeps the old target position
  (tower/entity/simple_monster.cpp:58-69).
- Monsters.SimpleMonster.Attack: the damage and the broadcasts of a melee attack are not modelled, and its delayed end
  is a step that may happen before any tick (`TicksOrRests` in `StuckMonsters`), without its time.
- Zones.Zone.AddClientNow: the spawn position, and the contents of the spawn messages other than entity ids.
- Zones.Zone.TickNow: the simulation inside a step is modelled in `Subworlds` and `Monsters`; broadcasts made by
  entities during a step.
- ZoneInvariants.HandleKeepsInv: what a handled packet does to its player.
- Servers.Server.RoutePacket: being authenticated is taken to be having joined with a player; a client that is not is
  stopped, which is its disconnect later.
- Nodes.Node.GetRoot: like the other walks up it requires a chain that ends; on a parent loop it would not stop
  (`Nodes.Node.LoopHasNoChain`).
- Subworlds.Subworld.AddEntity: the nodes below an entity do not change while it is in the subworld, and their frames
  are read when it is added.
- Grid: a value, not an object; only the zone file reader writes into a grid, before it is used.
- Players shared between two zones: each zone keeps its own record of its players, so concurrent writes to one player
  object are not modelled.
- Joining, authentication, loading of players, stats, inventory, settings and zone files.
- Sockets, coroutines and message encoding: a send appends to a per-client log.
- `Server::stop`, destructors, and stopping a zone from outside its strand.
- `Subworld::get_collisions(collider)` (tower/world/subworld.cpp:97-107): nothing calls it.
- `find_path`'s dispatch on the algorithm, and the four-way adjacency.
- Floating-point rounding, NaN, and integer widths other than the bounds on g and f.
