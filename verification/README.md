# Fleet traffic control: a verified model

This project models the fleet manager of the repository (`libi_fleet`) in Dafny and proves how it behaves over
whole runs: the node-reservation and deadlock plugin, the timer-driven task controller that uses it, the route
planner, the dispatcher, the patrol route builder, and the console's graph editor.

The program exists twice. `FleetNodes.FleetNode`, `Reservation.ReservationDeadlock`, `Dispatch.Auction`,
`Console.Bridge` and the planner and patrol methods follow the source statement by statement: fields updated in
place, loops, an erase-while-iterating timer. `Fleet` describes the same callbacks as events of a state machine.
Every callback is proved to be a legal sequence of such events (`OnTimer`, `OnSubmit`, `OnSetMode` and the
others), and between callbacks the node is in a reachable state (`FleetNode.Valid`), so what is proved of all event
sequences and of all reachable states holds for the node. Theorems about the middle of a tick assume the invariants
(`Inv`), which every reachable state has (`ReachableInv`).

| file | content |
|---|---|
| `Names.dfy` | robot names and the order in which the program visits them |
| `Reservation.dfy`, `Ring.dfy` | the plugin: its tables, exact cycle detection, victim choice; how a ring of waiting robots resolves |
| `Priorities.dfy`, `Ladders.dfy` | the packed priority integer; who outranks whom, and the events that move a task on the ladder |
| `Navgraph.dfy` | the graph, nearest vertex, path cost, Dijkstra with an avoided vertex; facts about the Euclidean norm |
| `Patrol.dfy`, `PatrolCycle.dfy` | laps of the patrol route; the boundary walk that builds the route |
| `Dispatch.dfy`, `Submissions.dfy` | the auction, and how it agrees with the checks of a submission |
| `Fleet.dfy`, `Patrollers.dfy` | the fleet node as a state machine; who patrols, and what reports of positions and batteries do |
| `Traffic.dfy`, `Invariants.dfy`, `Runs.dfy` | the invariants, and that every run keeps them |
| `Deadlocks.dfy`, `Knots.dfy` | deadlock verdicts are genuine, exactly when the top-priority task yields, stopped robots are avoided; every knot of robots resolves within two ticks |
| `Seats.dfy`, `Conservation.dfy`, `Holding.dfy` | who owns which node, exactly when the program loses track of one, motion safety |
| `Histories.dfy`, `Interference.dfy` | the life of one task: goal, detours, completion, patience, giving up |
| `Reports.dfy` | what is published about a delivery, from its submission to its end, and when a task is given up |
| `Console.dfy` | graph edits and bids, and their relation to the planner |
| `FleetNode.dfy` | the callbacks of the node, proved to be runs of the state machine |
| `Counterexamples.dfy` | concrete runs on which the program falls short of its comments |

## How the source is read

- Callbacks do not overlap: the node is run by a plain single-threaded spin. A tick is the events StartPatrol
  (any number), Begin, one Poll per task, End; no other event happens in between.
- Robot positions and batteries, submissions and mode changes are arbitrary inputs. In the state machine the
  dispatcher's winner and the planner's answer are inputs too, limited by what `Winner` and `Shortest` say of
  them; `Assign` and `Dijkstra` are proved to meet that.
- The state machine keeps the task list as a queue whose head is polled next; `Listed` turns it back into the
  program's list. Between ticks they are the same sequence.
- Robot names are not empty, since `""` means "no blocker" and "no winner" in the source.
- The patrol route is a closed walk along lanes (`ClosedWalk`); `RouteCloses` says when the boundary walk yields
  one. The graph and the plugins stay the same during a run.
- The answer to a new task's claim of its first node is ignored (fleet_node.cpp:210 and :503), so a task may
  begin on a node that its robot does not own. The model does not assume otherwise: the theorems that need
  ownership name it (`Holds`, `HeldDeparturesAreSafe`).
- Lengths are exact reals. `hypot` is any function that is nonnegative and zero at the origin, and the Euclidean
  norm where a proof needs it (`Euclidean`). The largest double as a distance is a separate value `Infinite`.
- `Ledger.asked`, the node each robot last queued for, is history: the program has no such table.

## Where the code and its comments disagree

- The plugin's header (reservation_deadlock.cpp:6-7) says that node reservations alone rule out head-on
  meetings. They do not, for a task begun on a node its robot does not own: `HeadOnIsPossible` is such a run. A
  departure is head-on if and only if the node ahead is free or the robot's own, and the node left behind is owned
  by another robot that is on its way to it from the node ahead (`DepartsHeadOnIff`): a check of one node's owner,
  before the request. So a robot that owns the node it leaves is safe (`HeldDeparturesAreSafe`), and a delivery that
  once owns its node, at the latest after its first departure, owns one to its end (`RunHolds`,
  `HeldTasksNeverMeetHeadOn`). Whether a new task owns its first node is decided by the claim whose answer is
  ignored (`StartsHolding`).
- CHARGE skips the release loop of a mode change (fleet_node.cpp:556-561). Charging a stopped robot strands its
  node: the reservation stays and no task or stopped robot accounts for it (`ChargingStrandsNodes`).
- At the end of a patrol lap the new lap starts at the route vertex nearest to the robot, which need not be the
  node just reached (fleet_node.cpp:261-263). If it is another one, and the new lap does not lead straight back,
  the node reached stays reserved (`LapsStrandNodes`).
- These two are the only ways to lose track of a node: `StepConserves` is an if and only if. Where route
  vertices are at least two arrival radii apart the second cannot happen (`LapRestartsHere`).

Two limits are foreseen by the comments, and stated exactly here:

- A robot that waits for the very goal of its detour, as before an occupied destination, is never rerouted
  (`BlockedGoalsAreAwaited`): the timed detour is offered to deliveries and patrols alike (fleet_node.cpp:316), and
  where none is possible the robot resets its counter and keeps waiting (fleet_node.cpp:334). `WaitsForItsGoal` is a
  run in which a delivery has waited its full time behind a robot that is not stopped, the planner is asked, and no
  answer can reroute it.
- The number of tasks in a session is assumed to stay within kSeqMax (fleet_task.hpp:17). Beyond it the task of
  highest priority can be told to yield: exactly when its request closes a cycle on which every other robot has a
  task of the same tier and the same age, and a priority on record, from an earlier request, that outranks it
  (`TopPriorityYieldsIff`). So it never happens to a task that shares tier and age with no other
  (`TopPriorityNeverYields`), that is, unless it and another of its tier are both past the first kSeqMax
  (`UnmatchedIff`). `TopPriorityCanYield` is a run with kSeqMax + 1 tasks in which it does happen, because the other
  robot last asked with a lower battery.

## Model

| member | source | states |
|---|---|---|
| `Names.InOrder` | libi_fleet/src/libi_fleet/src/fleet_node.cpp:222-222 | a range-for over a map keyed by name visits every key once, in increasing order |
| `Names.BeforeIsLexicographic` | libi_fleet/src/libi_fleet/plugins/reservation_deadlock.cpp:118-118 | names compare as in a dictionary: by the first character in which they differ, a prefix first |
| `Reservation.ReservationDeadlock.RequestMove` | libi_fleet/src/libi_fleet/plugins/reservation_deadlock.cpp:24-61 | grants exactly when the target is free or already the robot's own; answers DEADLOCK exactly when the request closes a wait cycle all of whose other members outrank the robot; all four tables afterwards |
| `Reservation.ReservationDeadlock.Release` | libi_fleet/src/libi_fleet/plugins/reservation_deadlock.cpp:63-68 | gives back the node only if the robot owns it, and always ends its wait |
| `Reservation.ReservationDeadlock.ReleaseNode` | libi_fleet/src/libi_fleet/plugins/reservation_deadlock.cpp:70-75 | the same effect on the tables |
| `Reservation.ReservationDeadlock.Occupancy` | libi_fleet/src/libi_fleet/plugins/reservation_deadlock.cpp:77-82 | lists each owned node once, with its owner |
| `Reservation.ReservationDeadlock.OwnerOfNode` | libi_fleet/src/libi_fleet/plugins/reservation_deadlock.cpp:85-89 | empty exactly when the node is free or the robot's own, otherwise the other owner |
| `Reservation.ReservationDeadlock.FindCycle` | libi_fleet/src/libi_fleet/plugins/reservation_deadlock.cpp:93-106 | terminates; true iff some positive number of wait-for steps leads back to the start; the list is the walk in wait order without repeats, and one more step closes it |
| `Reservation.ReservationDeadlock.LowestPriority` | libi_fleet/src/libi_fleet/plugins/reservation_deadlock.cpp:114-121 | the member that gives way to every other: lowest priority, ties by the larger name |
| `Reservation.VictimOfCycle` | libi_fleet/src/libi_fleet/plugins/reservation_deadlock.cpp:51-57 | the lowest member of the list found is the requester iff the requester gives way to everyone reachable from it in the wait-for graph |
| `Reservation.NoReturnPastEnd` | libi_fleet/src/libi_fleet/plugins/reservation_deadlock.cpp:101-101 | a dead end means that no number of steps returns to the start |
| `Reservation.NoReturnToStart` | libi_fleet/src/libi_fleet/plugins/reservation_deadlock.cpp:104-104 | running into a cycle without the start means that no number of steps returns to it |
| `Reservation.FollowRepeats` | libi_fleet/src/libi_fleet/plugins/reservation_deadlock.cpp:91-92 | a walk in the functional wait-for graph that meets itself stays among the robots it has met |
| `Reservation.CycleGoesOn` | libi_fleet/src/libi_fleet/plugins/reservation_deadlock.cpp:91-92 | from a robot on a cycle the walk never ends |
| `Reservation.YieldsTransitive` | libi_fleet/src/libi_fleet/plugins/reservation_deadlock.cpp:118-118 | giving way is transitive, so the scan's running choice gives way to all seen |
| `Ring.RingResolves` | libi_fleet/src/libi_fleet/plugins/reservation_deadlock.cpp:39-61 | in a ring where each robot holds a node and asks for the next one's, in any polling order: nobody is granted, robots from outside only wait, only the lowest member is ever told to yield, and it is once all others have asked |
| `Ring.TwoRoundsAreEnough` | libi_fleet/src/libi_fleet/plugins/reservation_deadlock.cpp:48-60 | in the second round of requests the lowest member is told to yield |
| `Ring.LowestExists` | libi_fleet/src/libi_fleet/plugins/reservation_deadlock.cpp:113-121 | every ring has a member that gives way to all others |
| `Ring.MemberAnswer` | libi_fleet/src/libi_fleet/plugins/reservation_deadlock.cpp:48-60 | one request of a member: never granted, and WAIT for all but the lowest |
| `Ring.LowestYields` | libi_fleet/src/libi_fleet/plugins/reservation_deadlock.cpp:48-57 | with all other members waiting the lowest gets DEADLOCK |
| `Ring.OutsiderWaits` | libi_fleet/src/libi_fleet/plugins/reservation_deadlock.cpp:93-106 | a robot queueing into the ring closes no cycle, so it only waits |
| `Ring.StepIntact` | libi_fleet/src/libi_fleet/plugins/reservation_deadlock.cpp:39-60 | every request keeps the ring in place, and keeps all members but the lowest waiting once they have asked |
| `Priorities.EncodingIsLexicographic` | libi_fleet/src/libi_fleet/src/fleet_node.cpp:423-436 | comparing packed priorities is comparing (tier, age, low battery) lexicographically |
| `Priorities.LadderHolds` | libi_fleet/src/libi_fleet/src/fleet_node.cpp:421-429 | in the encoding, stuck over charging over delivery over patrol, whatever the age and the battery |
| `Priorities.OlderThenEmptier` | libi_fleet/src/libi_fleet/src/fleet_node.cpp:430-435 | on one tier the older task wins, at equal age the emptier battery |
| `Priorities.EncodingFits` | libi_fleet/src/libi_fleet/include/libi_fleet/fleet_task.hpp:15-18 | no intermediate value leaves a 32-bit int, and every task stays below a stopped robot's priority |
| `Priorities.RoundIsNearest` | libi_fleet/src/libi_fleet/src/fleet_node.cpp:432-432 | the nearest integer, of two equally near ones the one farther from zero |
| `Priorities.LowBatteryIs` | libi_fleet/src/libi_fleet/src/fleet_node.cpp:432-434 | what is missing to a full battery, to the nearest percent, readings outside the scale counting as its ends |
| `Priorities.AgeSeparatesIff` | libi_fleet/src/libi_fleet/src/fleet_node.cpp:430-431 | age tells two tasks apart iff the older is among the first kSeqMax |
| `Ladders.LadderOfTasks` | libi_fleet/src/libi_fleet/src/fleet_node.cpp:423-435 | of the fleet's tasks a stuck one outranks all that are not, then one of a robot in mode CHARGE all ordinary ones, then a delivery every patrol |
| `Ladders.RungsOfTasks` | libi_fleet/src/libi_fleet/src/fleet_node.cpp:430-435 | among tasks of one rank the older comes first while ages differ, and then the robot with the emptier battery |
| `Ladders.ChargingLifts` | libi_fleet/src/libi_fleet/src/fleet_node.cpp:554-562 | sending a robot to charge lifts its task above every ordinary one at once, and changes no other priority, task or reservation |
| `Ladders.TurnsMoveRanks` | libi_fleet/src/libi_fleet/src/fleet_node.cpp:280-302 | told to yield without a way around, a task comes to outrank every task that is not stuck; a departure or a detour puts it back on the rung of its mode and kind; told to wait it stays where it was |
| `Navgraph.Dijkstra` | libi_fleet/src/libi_fleet/src/navgraph.cpp:46-82 | terminates, with zero-length lanes too, and returns a simple lane path that enters the avoided vertex nowhere and is cheapest among all such walks; empty iff an endpoint is out of range or there is no such walk |
| `Navgraph.FrontierBounds` | libi_fleet/src/libi_fleet/src/navgraph.cpp:58-61 | every route to an unsettled vertex costs at least some queue entry: why lazy deletion and early exit are sound |
| `Navgraph.SettledBounds` | libi_fleet/src/libi_fleet/src/navgraph.cpp:63-71 | the label of a settled vertex is a lower bound of all routes to it |
| `Navgraph.ExitEarly` | libi_fleet/src/libi_fleet/src/navgraph.cpp:62-62 | a current top entry for the goal carries the optimal distance |
| `Navgraph.ExitEmpty` | libi_fleet/src/libi_fleet/src/navgraph.cpp:73-75 | with an empty queue an unreached goal has no route |
| `Navgraph.Relax` | libi_fleet/src/libi_fleet/src/navgraph.cpp:66-70 | improving a label keeps all search invariants and never touches a settled vertex or the start |
| `Navgraph.Settle` | libi_fleet/src/libi_fleet/src/navgraph.cpp:58-63 | a current entry belongs to a vertex not expanded before, so each vertex is expanded at most once |
| `Navgraph.Rebuild` | libi_fleet/src/libi_fleet/src/navgraph.cpp:76-81 | the predecessor chain ends at the start and spells the recorded route |
| `Navgraph.Graph.Nearest` | libi_fleet/src/libi_fleet/src/navgraph.cpp:35-44 | the nearest vertex as `NearestBelow` characterises it |
| `Navgraph.Graph.NearestBelow` | libi_fleet/src/libi_fleet/src/navgraph.cpp:39-42 | no vertex is closer, every earlier one is strictly farther, and -1 only without vertices |
| `Navgraph.Graph.PathCost` | libi_fleet/src/libi_fleet/include/libi_fleet/navgraph.hpp:25-34 | the loop computes the path cost that all route theorems speak of |
| `Navgraph.LengthIs` | libi_fleet/src/libi_fleet/src/navgraph.cpp:65-65 | a lane's length is the straight-line distance between the coordinates of its ends |
| `Navgraph.DistanceIs` | libi_fleet/src/libi_fleet/src/navgraph.cpp:40-40 | and so is a point's distance from a vertex |
| `Navgraph.CostIs` | libi_fleet/src/libi_fleet/include/libi_fleet/navgraph.hpp:25-34 | a path costs nothing without a step, and each further vertex adds the length of the way to it |
| `Patrol.MakePatrolPath` | libi_fleet/src/libi_fleet/src/fleet_node.cpp:477-491 | the lap from the route vertex closest to the robot |
| `Patrol.EntryIsNearest` | libi_fleet/src/libi_fleet/src/fleet_node.cpp:480-485 | the entry is the first route position closest to the robot |
| `Patrol.AwayIs` | libi_fleet/src/libi_fleet/src/fleet_node.cpp:483-483 | the distance of a robot from a vertex is the straight-line one |
| `Patrol.LapEntry` | libi_fleet/src/libi_fleet/src/fleet_node.cpp:480-490 | a lap starts at the closest route position, or one further if its first hop would lead to the vertex to avoid; its first hop never does |
| `Patrol.LapIsClosed` | libi_fleet/src/libi_fleet/src/fleet_node.cpp:486-490 | a lap is the whole route rotated, in its own direction, closed, and follows lanes |
| `Patrol.PatrolSucc` | libi_fleet/src/libi_fleet/src/fleet_node.cpp:466-473 | the vertex after the first occurrence, -1 off the route |
| `Patrol.SuccFollowsLane` | libi_fleet/src/libi_fleet/src/fleet_node.cpp:465-473 | -1 exactly off the route, otherwise one lane further along it |
| `PatrolCycle.RightHandBoundaryCycle` | libi_fleet/src/libi_fleet/src/patrol_cycle.cpp:21-77 | on any graph: the walk from the top-left corner that always takes the rightmost neighbour, up to where it would return to the start or to the step limit; empty only for fewer than three vertices, a dead end, or a return after fewer than three |
| `PatrolCycle.OutcomeUnique` | libi_fleet/src/libi_fleet/src/patrol_cycle.cpp:21-77 | on any graph the contract of the walk has one answer only |
| `PatrolCycle.AnswerIsRoute` | libi_fleet/src/libi_fleet/src/patrol_cycle.cpp:21-77 | with two-way lanes and distinct directions, a nonempty answer is the boundary route up to the first return or the step limit, and it is empty only for fewer than three vertices, an isolated corner or a walk that turns back at once |
| `PatrolCycle.StartVertex` | libi_fleet/src/libi_fleet/src/patrol_cycle.cpp:26-34 | the topmost vertex, leftmost among those |
| `PatrolCycle.CornerIs` | libi_fleet/src/libi_fleet/src/patrol_cycle.cpp:26-34 | no vertex is above the corner, none level with it is further left, and none at its place is listed before it |
| `PatrolCycle.TurnRight` | libi_fleet/src/libi_fleet/src/patrol_cycle.cpp:51-63 | on any graph: the rightmost neighbour, of several in one direction the one listed first, back only where there is no other, none only where there is no lane |
| `PatrolCycle.ChosenUnique` | libi_fleet/src/libi_fleet/src/patrol_cycle.cpp:54-62 | on any graph the next vertex is determined |
| `PatrolCycle.Norm2Pi` | libi_fleet/src/libi_fleet/src/patrol_cycle.cpp:12-18 | for any angle the loops end, in [0, one turn), a whole number of turns away |
| `PatrolCycle.ReducedIs` | libi_fleet/src/libi_fleet/src/patrol_cycle.cpp:57-57 | for a difference of two directions that is the angle which the case split names |
| `PatrolCycle.RightTurnsDiffer` | libi_fleet/src/libi_fleet/src/patrol_cycle.cpp:54-60 | of two directions, at most one sees a third before the other |
| `PatrolCycle.RightmostIsClockwise` | libi_fleet/src/libi_fleet/src/patrol_cycle.cpp:54-60 | turning clockwise from looking back, no other candidate's direction is met before the chosen one's |
| `PatrolCycle.ChosenIsClockwise` | libi_fleet/src/libi_fleet/src/patrol_cycle.cpp:41-60 | so at each step after the first, from the direction of the vertex the walk came from |
| `PatrolCycle.TiesByListing` | libi_fleet/src/libi_fleet/src/patrol_cycle.cpp:54-60 | of several candidates in one direction it takes the one listed first |
| `PatrolCycle.FirstIsClockwise` | libi_fleet/src/libi_fleet/src/patrol_cycle.cpp:39-60 | and at the first step from due west: the neighbour with the largest angle other than west itself |
| `PatrolCycle.TurnInjective` | libi_fleet/src/libi_fleet/src/patrol_cycle.cpp:54-72 | the step on directed lanes is injective, so a permutation of the finitely many lanes |
| `PatrolCycle.NoTail` | libi_fleet/src/libi_fleet/src/patrol_cycle.cpp:45-73 | the walk has no tail: a repeated lane means that the first lane recurs |
| `PatrolCycle.WalkReturns` | libi_fleet/src/libi_fleet/src/patrol_cycle.cpp:45-73 | without the step limit the walk takes its first lane again, after at most as many steps as there are lanes |
| `PatrolCycle.ComesBackInTime` | libi_fleet/src/libi_fleet/src/patrol_cycle.cpp:65-65 | the walk returns to its start vertex before it has used every lane |
| `PatrolCycle.RouteCloses` | libi_fleet/src/libi_fleet/src/patrol_cycle.cpp:44-76 | consecutive output vertices are lanes; the output is a closed walk iff its last vertex has a lane to the start, which holds whenever the step limit did not cut it, in particular with at most 4n+4 lanes |
| `PatrolCycle.AnswerCloses` | libi_fleet/src/libi_fleet/src/patrol_cycle.cpp:21-77 | a nonempty answer is a closed lane walk, as the fleet node needs it, if it has at most 4n+4 vertices or the graph at most 4n+4 lanes |
| `Dispatch.Auction.Assign` | libi_fleet/src/libi_fleet/plugins/auction.cpp:24-44 | the first cheapest robot among the idle ones that can reach the goal and finish with their reserve; empty iff there is none |
| `Dispatch.FareIs` | libi_fleet/src/libi_fleet/plugins/auction.cpp:31-34 | the bid does not depend on which shortest path the planner returns |
| `Dispatch.Quote` | libi_fleet/src/libi_fleet/plugins/auction.cpp:30-39 | one planner call decides reachability, bid and energy gate of an idle robot |
| `Dispatch.GateIs` | libi_fleet/src/libi_fleet/plugins/auction.cpp:36-37 | the gate asks that what is left of the battery after the way and the arm's work is at least the reserve |
| `Submissions.CandidateIs` | libi_fleet/src/libi_fleet/src/fleet_node.cpp:173-180 | the dispatcher sees exactly the robots neither stopped nor charging, unchanged except that those are idle whose every task is a patrol, and only those |
| `Submissions.FitIsBiddable` | libi_fleet/src/libi_fleet/plugins/auction.cpp:29-39 | a robot can bid iff it is neither stopped nor charging, on no delivery, can reach the goal, and keeps its reserve; it bids the length of its shortest way |
| `Submissions.AutoDispatchIsExact` | libi_fleet/src/libi_fleet/src/fleet_node.cpp:172-198 | a delivery for no named robot is accepted iff some robot is fit for it, and goes to the fit one with the shortest way, ties by the smaller name, so never to one on a delivery; otherwise no_robot_available or bad_goal_vertex |
| `Submissions.NamedSubmitIsExact` | libi_fleet/src/libi_fleet/src/fleet_node.cpp:161-198 | the verdict on a delivery for a named robot, in terms of the map, the robot's mode, the shortest way and what its battery would have left |
| `Submissions.BiddersPassTheGate` | libi_fleet/src/libi_fleet/src/fleet_node.cpp:187-198 | for a robot that could bid, the node's own path and battery checks succeed |
| `Submissions.SubmitReplaces` | libi_fleet/src/libi_fleet/src/fleet_node.cpp:199-216 | an accepted submission atomically replaces the robot's task; the new task runs from the robot's nearest vertex to the goal; the nodes the old task used are given up, unless one is the new start; the tasks and reservations of others are untouched; unless a node had been stranded before, the robot owns nothing but the new start; a rejected submission changes nothing |
| `Traffic.RemoveKeeps` | libi_fleet/src/libi_fleet/src/fleet_node.cpp:446-463 | cancelling keeps the wait-for order invariant: outdated edges end at robots that do not wait |
| `Traffic.TurnKeeps` | libi_fleet/src/libi_fleet/src/fleet_node.cpp:276-338 | a turn keeps it too: whoever waits for the polled robot is polled before that robot's next turn |
| `Traffic.HeadEdgesGenuine` | libi_fleet/src/libi_fleet/src/fleet_node.cpp:231-279 | in a robot's turn every edge that ends at it is up to date |
| `Traffic.AskingTurns` | libi_fleet/src/libi_fleet/src/fleet_node.cpp:276-284 | a request changes only the asker's entries; a grant secures the target before the old node is given up; the asker waits afterwards iff it was told WAIT |
| `Invariants.CancelKeeps` | libi_fleet/src/libi_fleet/src/fleet_node.cpp:446-463 | cancelling keeps every invariant and leaves the robot without a task |
| `Invariants.LaunchKeeps` | libi_fleet/src/libi_fleet/src/fleet_node.cpp:206-211 | a new task keeps every invariant, whether or not its claim succeeds |
| `Invariants.ModeKeeps` | libi_fleet/src/libi_fleet/src/fleet_node.cpp:547-572 | so does every mode change |
| `Invariants.PlanRoadworthy` | libi_fleet/src/libi_fleet/src/fleet_node.cpp:289-295 | a detour is a sound path that starts at the current node and avoids the blocked one |
| `Invariants.ResolvedContinues` | libi_fleet/src/libi_fleet/src/fleet_node.cpp:280-335 | whatever the answer, path, index and counters stay within bounds, the current node is kept, and only a grant sets the robot moving |
| `Invariants.HeadPollable` | libi_fleet/src/libi_fleet/src/fleet_node.cpp:231-278 | no turn indexes out of bounds, and its robot is known |
| `Invariants.PollKeeps` | libi_fleet/src/libi_fleet/src/fleet_node.cpp:231-341 | one pass of the timer loop keeps every invariant |
| `Runs.StepKeeps` | libi_fleet/src/libi_fleet/src/fleet_node.cpp:122-585 | so does every event |
| `Runs.ReachableInv` | libi_fleet/src/libi_fleet/src/fleet_node.cpp:122-585 | in every reachable state: one task per robot, strictly increasing start_seq in list order, 1 <= idx < size of the path, paths along lanes, counters within their limits, moving robots own their targets, only standing tasks wait, recorded priorities of waiting robots never exceed their current tier and age |
| `Runs.BusyIffTask` | libi_fleet/src/libi_fleet/src/fleet_node.cpp:199-200 | busy exactly when the list holds a task of the robot |
| `Patrollers.StepPatrols` | libi_fleet/src/libi_fleet/src/fleet_node.cpp:221-227 | every event keeps: only robots put in mode PATROL, and perhaps sent to charge since, are on patrol |
| `Patrollers.ReachablePatrols` | libi_fleet/src/libi_fleet/src/fleet_node.cpp:221-227 | so in every reachable state |
| `Patrollers.StartsIff` | libi_fleet/src/libi_fleet/src/fleet_node.cpp:221-227 | a patrol can start exactly for the known robots in mode PATROL without a task |
| `Patrollers.ReportedPositions` | libi_fleet/src/libi_fleet/src/fleet_node.cpp:122-133 | a robot is where it was last reported, its tasks start from the vertex nearest there, and a first report makes it known as full, idle and in the default mode |
| `Patrollers.ReportedBatteries` | libi_fleet/src/libi_fleet/src/fleet_node.cpp:575-585 | a battery is what was last set, held to 0 to 100 |
| `Runs.SubmitKeeps` | libi_fleet/src/libi_fleet/src/fleet_node.cpp:156-216 | a submission, accepted or not, keeps every invariant |
| `Deadlocks.DeadlocksAreGenuine` | libi_fleet/src/libi_fleet/plugins/reservation_deadlock.cpp:48-57 | whenever the invariants hold, so in every reachable state, a DEADLOCK answer means that each member of the cycle has a task, is not stopped, and its successor owns at this moment the node the member last asked for |
| `Deadlocks.TopPriorityYieldsIff` | libi_fleet/src/libi_fleet/src/fleet_node.cpp:423-436 | an active task of maximal priority gets DEADLOCK iff its request closes a cycle on which every other robot has a task of its tier and age, and a recorded priority that outranks it |
| `Deadlocks.TopPriorityNeverYields` | libi_fleet/src/libi_fleet/src/fleet_node.cpp:423-436 | so a task of maximal priority with which no other active task shares both tier and age never gets DEADLOCK, though others are judged by older records |
| `Deadlocks.UnmatchedIff` | libi_fleet/src/libi_fleet/src/fleet_node.cpp:430-431 | no other active task shares both tier and age with it iff of it and any other of its tier one is among the first kSeqMax; so always while no more than kSeqMax tasks have been created |
| `Counterexamples.TopPriorityCanYield` | libi_fleet/src/libi_fleet/src/fleet_node.cpp:430-435 | a reachable state with kSeqMax + 1 tasks created in which the task of strictly highest priority gets DEADLOCK |
| `Deadlocks.WaitersAreTasks` | libi_fleet/src/libi_fleet/src/fleet_node.cpp:556-568 | every waiting robot has a task that is not moving and is not stopped, and never waits for itself |
| `Deadlocks.StoppedRobotsAreAvoided` | libi_fleet/src/libi_fleet/src/fleet_node.cpp:304-310 | before a stopped robot the answer is WAIT and never DEADLOCK, and if any route to the goal keeps clear of it the task takes one in the same turn |
| `Knots.LeavesAlone` | libi_fleet/src/libi_fleet/src/fleet_node.cpp:122-585 | an event that does not concern a robot leaves its reservations, its wait, its recorded priority, its task and its present priority as they are |
| `Knots.MemberTurn` | libi_fleet/src/libi_fleet/src/fleet_node.cpp:276-336 | a member of a knot that asks and is told to wait keeps its node and its aim, and waits for the next member with its present priority on record |
| `Knots.KnotStands` | libi_fleet/src/libi_fleet/src/fleet_node.cpp:231-341 | over every run in which no member is disturbed or told to yield, the knot stands, and every member that has had a turn waits for the next one |
| `Knots.LowestIsTold` | libi_fleet/src/libi_fleet/plugins/reservation_deadlock.cpp:48-57 | once all members wait, the lowest is told to yield in its turn |
| `Knots.KnotResolves` | libi_fleet/src/libi_fleet/src/fleet_node.cpp:231-341 | in every legal run, if robots each have a standing task that is after a node the next one owns, and nobody sets their mode, battery or task and none goes around, one of them is told to yield before each has had two turns |
| `Knots.KnotResolvesInTwoTicks` | libi_fleet/src/libi_fleet/src/fleet_node.cpp:218-341 | so a knot that stands when a tick begins has a member told to yield by the end of the next tick |
| `Counterexamples.OpposedAreKnotted` | libi_fleet/src/libi_fleet/plugins/reservation_deadlock.cpp:39-60 | two robots sent to each other's node are a knot |
| `Seats.PollConserves` | libi_fleet/src/libi_fleet/src/fleet_node.cpp:243-284 | a turn keeps every reservation accounted for iff it does not restart a lap away from the node reached |
| `Seats.ChargeConserves` | libi_fleet/src/libi_fleet/src/fleet_node.cpp:554-562 | switching to CHARGE does so iff the robot is not a stopped one that owns a node |
| `Seats.ModeConserves` | libi_fleet/src/libi_fleet/src/fleet_node.cpp:556-569 | every other mode change always does |
| `Seats.ModeClears` | libi_fleet/src/libi_fleet/src/fleet_node.cpp:556-569 | every mode but CHARGE ends the robot's task and frees all it owned; a stopped robot then holds the vertex nearest to it iff nobody else does, and nothing else |
| `Seats.StraysOnlyAtLapEnd` | libi_fleet/src/libi_fleet/src/fleet_node.cpp:260-264 | only a lap restart can separate a task from the node its robot holds |
| `Seats.CancelConserves` | libi_fleet/src/libi_fleet/src/fleet_node.cpp:446-463 | cancelling keeps reservations accounted for and leaves the robot owning nothing |
| `Seats.EndConserves` | libi_fleet/src/libi_fleet/src/fleet_node.cpp:243-272 | so does a task that fails or completes |
| `Conservation.StepConserves` | libi_fleet/src/libi_fleet/src/fleet_node.cpp:243-284 | an event keeps every owned node the seat of its owner's task, or the only node of a stopped robot, iff it is not one of the two leaks |
| `Conservation.RunConserves` | libi_fleet/src/libi_fleet/src/fleet_node.cpp:243-284 | so over whole runs without leaks |
| `Conservation.LapRestartsHere` | libi_fleet/src/libi_fleet/src/fleet_node.cpp:480-485 | with route vertices two arrival radii apart a lap restarts at the vertex just reached |
| `Conservation.ReservationsConserved` | libi_fleet/src/libi_fleet/src/fleet_node.cpp:445-463 | on such a map, as long as no stopped robot is charged, every reservation of every reachable state is accounted for |
| `Conservation.MovingTargetsOwned` | libi_fleet/src/libi_fleet/plugins/reservation_deadlock.cpp:26-46 | in every reachable state a moving robot owns its target, so no two moving robots share one |
| `Conservation.HeldDeparturesAreSafe` | libi_fleet/src/libi_fleet/plugins/reservation_deadlock.cpp:6-7 | a robot that departs from a node it owns never enters a lane on which another comes the other way |
| `Conservation.OnlyTheOwnerMeets` | libi_fleet/src/libi_fleet/plugins/reservation_deadlock.cpp:6-7 | whoever comes the other way owns the node the asking robot stands at |
| `Conservation.HeadOnIff` | libi_fleet/src/libi_fleet/plugins/reservation_deadlock.cpp:6-7 | some robot comes the other way on the lane asked for iff the node stood at is owned by another robot that is on its way to it from the node asked for |
| `Conservation.OwnersComeHere` | libi_fleet/src/libi_fleet/src/fleet_node.cpp:243-284 | with every reservation accounted for, a moving owner of a node is on its way to it |
| `Conservation.DepartsHeadOnIff` | libi_fleet/src/libi_fleet/src/fleet_node.cpp:276-284 | a departure is granted and head-on iff moreover the node asked for is free or the robot's own |
| `Holding.StepHolds` | libi_fleet/src/libi_fleet/src/fleet_node.cpp:276-284 | a task that owns its seat (its target while moving, its current node otherwise) still does after any event, or is gone: a node is given up only after the next is owned; the one exception is a lap restarting elsewhere |
| `Holding.RunHolds` | libi_fleet/src/libi_fleet/src/fleet_node.cpp:276-284 | so over every run in which the task's own laps do not stray, whatever the other robots do |
| `Holding.StartsHolding` | libi_fleet/src/libi_fleet/src/fleet_node.cpp:210-211 | a new task owns its first node iff the claim whose answer is ignored could be granted |
| `Holding.DeliveriesNeverStray` | libi_fleet/src/libi_fleet/src/fleet_node.cpp:260-272 | a delivery never restarts elsewhere, over any run |
| `Holding.SpacedNeverStray` | libi_fleet/src/libi_fleet/src/fleet_node.cpp:477-485 | nor does a patrol where route vertices are two arrival radii apart |
| `Holding.HeldTasksNeverMeetHeadOn` | libi_fleet/src/libi_fleet/plugins/reservation_deadlock.cpp:6-7 | once a delivery has owned its seat it never again sets out against a robot coming the other way, over any run; with route vertices two arrival radii apart no patrol does either |
| `Histories.OnlyItsTurnChanges` | libi_fleet/src/libi_fleet/src/fleet_node.cpp:231-233 | events other than its own turn leave a task as it is or remove it |
| `Histories.DetoursExactlyWhenPossible` | libi_fleet/src/libi_fleet/src/fleet_node.cpp:285-335 | a turn reroutes iff it searches and some route to the detour's goal avoids the blocked node; the new path is a shortest such route from the current node; otherwise the path stays |
| `Histories.ReroutedIff` | libi_fleet/src/libi_fleet/src/fleet_node.cpp:285-335 | the whole answer to a request: rerouted iff told to yield with detours left, or to wait for a stopped robot or for too long, and some route to where the detour leads (a patrol's next route vertex, or the goal) avoids the blocked node; and what becomes of the path, the detour count and the waiting count |
| `Histories.TurnsProgress` | libi_fleet/src/libi_fleet/src/fleet_node.cpp:235-274 | a turn remembers the robot's place; an arrival moves the task on by one node or to the next lap and restores patience and detours; without one nothing else changes; only a delivery at its last node completes |
| `Histories.BlockedGoalsAreAwaited` | libi_fleet/src/libi_fleet/src/fleet_node.cpp:322-333 | a robot waiting for the very goal of its detour is never rerouted |
| `Counterexamples.WaitsForItsGoal` | libi_fleet/src/libi_fleet/src/fleet_node.cpp:312-333 | a reachable state in which a delivery has waited kRerouteWaitTicks behind a robot that is not stopped, searches, and keeps its path whatever the planner answers |
| `Histories.GoalKept` | libi_fleet/src/libi_fleet/src/fleet_node.cpp:285-332 | any one event, a reroute included, leaves a delivery's goal as it is |
| `Reports.RunDelivers` | libi_fleet/src/libi_fleet/src/fleet_node.cpp:285-332 | over every run, however often it is rerouted, a delivery keeps its robot and its goal |
| `Reports.StepReports` | libi_fleet/src/libi_fleet/src/fleet_node.cpp:243-272 | every event keeps: a task whose end has been published is gone, and was published once |
| `Reports.ReachableReported` | libi_fleet/src/libi_fleet/src/fleet_node.cpp:243-272 | in every reachable state no task has been published twice, none both COMPLETED and FAILED, and none that still exists |
| `Reports.RunLives` | libi_fleet/src/libi_fleet/src/fleet_node.cpp:231-341 | over every run a task goes on until its end is published or its robot's task is cancelled by a mode change or another submission |
| `Reports.DeliveryLife` | libi_fleet/src/libi_fleet/src/fleet_node.cpp:199-272 | from an accepted submission over every run: the delivery keeps robot and goal, goes on until published or cancelled, is published once at most and then gone, and COMPLETED only after a turn with its robot within the arrival radius of the goal submitted |
| `Histories.CompletedOnlyAtGoal` | libi_fleet/src/libi_fleet/src/fleet_node.cpp:253-272 | over every run, a COMPLETED that was not published before it is published only after a turn with the delivery's robot within the arrival radius of its goal |
| `Interference.DetoursBounded` | libi_fleet/src/libi_fleet/src/fleet_node.cpp:285-303 | between two arrivals a task is sent around deadlocks at most kMaxReroutes times |
| `Interference.StalledTasksEnd` | libi_fleet/src/libi_fleet/src/fleet_node.cpp:238-251 | kStuckTicks + 1 turns told to move without displacement, and the task is gone |
| `Reports.RunMatches` | libi_fleet/src/libi_fleet/src/fleet_node.cpp:238-242 | over every run the program's record of place and stillness is what an observer of the robot's positions in the task's turns would count |
| `Reports.FreshTrack` | libi_fleet/src/libi_fleet/src/fleet_node.cpp:206-211 | a new task's count begins at nothing |
| `Reports.FailedExactlyWhenStill` | libi_fleet/src/libi_fleet/src/fleet_node.cpp:238-251 | FAILED is published exactly in a turn in which that count, since the last displacement or turn at rest, exceeds kStuckTicks |
| `Interference.FailedTasksRelease` | libi_fleet/src/libi_fleet/src/fleet_node.cpp:243-250 | a failed task's robot owns neither its target nor the node it came from, and is idle |
| `Interference.PatienceRunsOut` | libi_fleet/src/libi_fleet/src/fleet_node.cpp:314-335 | a task that is only told to wait looks for a way around before kRerouteWaitTicks turns are over |
| `Console.Bridge.AddLane` | service/aba_service/aba_service/console.py:228-234 | both directions are present afterwards, nothing else is added, a loop is refused, symmetry is kept |
| `Console.Bridge.DelLane` | service/aba_service/aba_service/console.py:236-238 | exactly the lanes between the two vertices are gone, symmetry is kept |
| `Console.Bridge.DelVertex` | service/aba_service/aba_service/console.py:240-251 | the vertex is gone and the lanes are the renumbered rest, symmetry is kept; out of range nothing changes |
| `Console.RenumberedLanes` | service/aba_service/aba_service/console.py:245-250 | the new lanes are exactly the old ones not touching the deleted vertex |
| `Console.RoutesKept` | service/aba_service/aba_service/console.py:240-251 | walks of the edited graph are, renumbered, exactly the routes of the old graph that keep clear of the deleted vertex |
| `Console.CostKept` | service/aba_service/aba_service/console.py:240-251 | and they cost the same |
| `Console.DeletionIsAvoidance` | service/aba_service/aba_service/console.py:240-251 | planning after deleting a vertex finds a route exactly when planning with that vertex avoided does, at equal cost |
| `Console.BidCost` | service/aba_service/aba_service/console.py:166-175 | the console's own search returns the shortest-route length on which the dispatcher bases its bid, infinite iff there is no route; a negative goal is looked up from the end of the list, any other outside it is an index error |
| `Console.NearestVertexOf` | service/aba_service/aba_service/console.py:164-165 | nearest by squared distance is the fleet node's nearest vertex |
| `Console.BidOf` | service/aba_service/aba_service/console.py:177-181 | before rounding, a robot's displayed bid for a reachable goal is the dispatcher's bid; an index error exactly when the goal is no list index |
| `FleetNodes.FleetNode.constructor` | libi_fleet/src/libi_fleet/src/fleet_node.cpp:44-119 | starts in the initial state with every invariant |
| `FleetNodes.FleetNode.OnRobotState` | libi_fleet/src/libi_fleet/src/fleet_node.cpp:122-133 | is the event Observe |
| `FleetNodes.FleetNode.OnSetBattery` | libi_fleet/src/libi_fleet/src/fleet_node.cpp:575-585 | is the event SetBattery |
| `FleetNodes.FleetNode.OnSetMode` | libi_fleet/src/libi_fleet/src/fleet_node.cpp:547-572 | is the event SetMode; an unknown mode is refused and changes nothing |
| `FleetNodes.FleetNode.OnSubmit` | libi_fleet/src/libi_fleet/src/fleet_node.cpp:156-216 | is the event Submit with the dispatcher's winner and the planner's path, and answers with the state machine's verdict |
| `FleetNodes.FleetNode.Judge` | libi_fleet/src/libi_fleet/src/fleet_node.cpp:159-198 | the checks in the source's order, with every rejection reason |
| `FleetNodes.FleetNode.Candidates` | libi_fleet/src/libi_fleet/src/fleet_node.cpp:173-180 | all robots neither stopped nor charging, in name order, patrols shown as idle |
| `FleetNodes.FleetNode.CancelTask` | libi_fleet/src/libi_fleet/src/fleet_node.cpp:446-463 | erasing while iterating frees the nodes of, and removes, exactly the robot's tasks |
| `FleetNodes.FleetNode.DropAll` | libi_fleet/src/libi_fleet/src/fleet_node.cpp:558-560 | the robot owns nothing afterwards, everyone else what they owned |
| `FleetNodes.FleetNode.Launch` | libi_fleet/src/libi_fleet/src/fleet_node.cpp:199-212 | the new task is last in the list and its first node is claimed |
| `FleetNodes.FleetNode.StartPatrol` | libi_fleet/src/libi_fleet/src/fleet_node.cpp:494-508 | the robot gets one lap from its position as its task |
| `FleetNodes.FleetNode.StartPatrols` | libi_fleet/src/libi_fleet/src/fleet_node.cpp:220-229 | starts patrols in name order until nobody idle in PATROL mode is without a task |
| `FleetNodes.FleetNode.TaskTurn` | libi_fleet/src/libi_fleet/src/fleet_node.cpp:231-341 | one pass of the loop is one Poll, the iterator moving on unless the task was erased |
| `FleetNodes.FleetNode.Advance` | libi_fleet/src/libi_fleet/src/fleet_node.cpp:235-274 | stuck detection and arrival |
| `FleetNodes.FleetNode.Negotiate` | libi_fleet/src/libi_fleet/src/fleet_node.cpp:276-337 | the request, the departure, and the task after the answer |
| `FleetNodes.FleetNode.Yield` | libi_fleet/src/libi_fleet/src/fleet_node.cpp:285-302 | around the node while detours remain, otherwise escalated |
| `FleetNodes.FleetNode.Hold` | libi_fleet/src/libi_fleet/src/fleet_node.cpp:303-336 | around a stopped robot at once, around others after the waiting time |
| `FleetNodes.FleetNode.OnTimer` | libi_fleet/src/libi_fleet/src/fleet_node.cpp:218-341 | a tick is a legal run: all patrols that can start, in name order, then exactly one turn for every task, the new ones included |
| `FleetNodes.FleetNode.BlockedByStopped` | libi_fleet/src/libi_fleet/src/fleet_node.cpp:407-413 | true iff a stopped robot owns the node |
| `FleetNodes.FleetNode.IsOnPatrol` | libi_fleet/src/libi_fleet/src/fleet_node.cpp:439-443 | whether the robot's first task in the list is a patrol |
| `Counterexamples.HeadOnIsPossible` | libi_fleet/src/libi_fleet/src/fleet_node.cpp:210-211 | a reachable state in which a task on a node it does not own is granted the lane on which that node's owner comes |
| `Counterexamples.ChargingStrandsNodes` | libi_fleet/src/libi_fleet/src/fleet_node.cpp:556-562 | a reachable state from which charging a stopped robot strands a node |
| `Counterexamples.LapsStrandNodes` | libi_fleet/src/libi_fleet/src/fleet_node.cpp:261-263 | a reachable state in which the restart of a lap strands the node just reached |

## Left out

- Messages: path requests, route, goal and occupancy topics, logging, and the states ASSIGNED, EXECUTING and
  PATROL. COMPLETED and FAILED are kept, since a theorem is about them.
- Task names, the requester text, the displayed priority and `wait_logged`: they steer nothing but messages.
- Parsing of the dropoff text: a submission carries an integer goal, -1 standing for unreadable text.
- Replacing plugins and reloading the graph during a run: both drop or contradict live reservations, and the
  source reserves them for an idle fleet.
- Loading the map: `Console.GraphOf` says which lanes the loader keeps; reading YAML is not modelled.
- Floating point: rounding, the 1e-9 tolerances of the boundary walk, and atan2, which is an arbitrary direction
  function with different directions for different neighbours.
- The sentinels 1e18 and the largest double: a distance beyond them would be treated as unreachable.
- Overflow of the counters themselves: they are unbounded here, the packed priority is not.
- Fallback and manually entered patrol routes (fleet_node.cpp:77-85): nothing checks that they follow lanes, so
  a closed lane walk is taken for granted.
- PatrolCycle.RightHandBoundaryCycle: does not promise a closed route when the 4n+4 step limit cuts the walk
  short, because the program then returns an unclosed list; RouteCloses says when it is closed.
- Ring.RingResolves: takes each member's request and priority as fixed, because it is about the plugin alone;
  KnotResolves is the statement about runs of the whole fleet. What follows the verdict, detours and escalation, is
  described by DetoursExactlyWhenPossible and DetoursBounded.
- Console.BidCost: takes lanes with both ends in the graph, as the loader keeps them; the console's own lane list may
  name others after a manual edit, which its search meets with an index error.
- The rest of bid_scores: rounding to cents, sorting and the displayed winner.
- Bodies: an idle robot gives up its last node on completion, so nothing is claimed about robots without a task.
- Liveness beyond the bounds proved: whether a robot ever arrives depends on its motion, which is an input.
- The launch files, the web pages, the drive node, the database service and the demonstrations.
