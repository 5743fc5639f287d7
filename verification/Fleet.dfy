/**
 The fleet node as a state machine. Each callback is one or more events; a timer tick is
 StartPatrol events, then Begin, one Poll per task, and End. Robot positions, dispatch
 winners and planner answers are inputs of the events.

 The task list is kept as a queue whose head is polled next: a poll takes the head and, if the
 task goes on, puts it back at the end. Between ticks the queue is the list in creation order.
 */
module Fleet {
  import opened Names
  import opened Reservation
  import opened Priorities
  import opened Navgraph
  import opened Patrol
  import opened Dispatch

  const ARRIVE := 0.35
  const STILL := 0.02
  const MAX_REROUTES := 3
  const STUCK_TICKS := 100
  const REROUTE_WAIT_TICKS := 33

  datatype Mode = Patrolling | Idling | Stopped | Charging

  datatype Task = Task(robot: Name, path: seq<int>, idx: nat, moving: bool, patrol: bool, stuck: bool,
                       startSeq: int, reroutes: nat, lastX: real, lastY: real, noMove: nat, waitTicks: nat) {

    function Here(): int
      requires 0 < idx <= |path|
    {
      path[idx - 1]
    }

    function Target(): int
      requires idx < |path|
    {
      path[idx]
    }

    function Goal(): int
      requires |path| > 0
    {
      path[|path| - 1]
    }
  }

  function NewTask(robot: Name, path: seq<int>, patrol: bool, startSeq: int): Task {
    Task(robot, path, 1, false, patrol, false, startSeq, 0, 0.0, 0.0, 0, 0)
  }

  datatype Outcome = Completed | Failed

  /** A terminal task state that was published. */
  datatype Note = Note(robot: Name, startSeq: int, outcome: Outcome)

  datatype Config = Config(graph: Graph, route: seq<int>, energy: Energy, patrolByDefault: bool) {
    ghost predicate Valid() {
      graph.Valid() && graph.Size() > 0 && ClosedWalk(graph, route)
    }
  }

  datatype System = System(robots: map<Name, RobotInfo>, modes: map<Name, Mode>, queue: seq<Task>,
                           sweeping: bool, left: nat, created: nat, ledger: Ledger, notes: seq<Note>)

  const INITIAL := System(map[], map[], [], false, 0, 0, EMPTY, [])

  function ModeOf(modes: map<Name, Mode>, r: Name): Mode {
    if r in modes then modes[r] else Idling
  }

  function BatteryOf(robots: map<Name, RobotInfo>, r: Name): real {
    if r in robots then robots[r].battery else 100.0
  }

  function TierOf(modes: map<Name, Mode>, t: Task): int {
    Tier(t.stuck, ModeOf(modes, t.robot) == Charging, t.patrol)
  }

  function PriorityOf(s: System, t: Task): int {
    Priority(TierOf(s.modes, t), t.startSeq, BatteryOf(s.robots, t.robot))
  }

  function SetBusy(robots: map<Name, RobotInfo>, r: Name, busy: bool): map<Name, RobotInfo> {
    if r in robots then robots[r := robots[r].(busy := busy)] else robots
  }

  // ---------------------------------------------------------------- one task turn

  /** What can be polled: the indices the turn uses are in bounds. */
  predicate Pollable(cfg: Config, s: System, t: Task) {
    && t.robot in s.robots
    && 0 < t.idx < |t.path| && cfg.graph.InRange(t.path)
    && (t.patrol ==> |cfg.route| >= 2)
  }

  /** A turn either ends the task, giving back `nodes`, or carries it on. */
  datatype Fate = Ends(outcome: Outcome, nodes: seq<int>) | Goes(task: Task)

  function Unmoved(cfg: Config, r: RobotInfo, t: Task): bool {
    t.moving && cfg.graph.hypot(r.x - t.lastX, r.y - t.lastY) < STILL
  }

  function AtTarget(cfg: Config, r: RobotInfo, t: Task): bool
    requires t.idx < |t.path| && cfg.graph.InRange(t.path)
  {
    t.moving && Away(cfg.graph, t.Target(), r.x, r.y) < ARRIVE
  }

  function Watched(cfg: Config, r: RobotInfo, t: Task): Task {
    t.(noMove := if Unmoved(cfg, r, t) then t.noMove + 1 else 0, lastX := r.x, lastY := r.y)
  }

  /** Stuck detection and arrival. */
  function Progress(cfg: Config, r: RobotInfo, t: Task): Fate
    requires 0 < t.idx < |t.path| && cfg.graph.InRange(t.path)
    requires t.patrol ==> |cfg.route| >= 2 && cfg.graph.InRange(cfg.route)
  {
    var w := Watched(cfg, r, t);
    if w.noMove > STUCK_TICKS then Ends(Failed, [t.Target(), t.Here()])
    else if !AtTarget(cfg, r, t) then Goes(w)
    else
      var a := w.(idx := t.idx + 1, moving := false, reroutes := 0, waitTicks := 0);
      if a.idx < |a.path| then Goes(a)
      else if a.patrol then Goes(a.(path := Lap(cfg.graph, cfg.route, r.x, r.y, -1), idx := 1))
      else Ends(Completed, [t.Goal()])
  }

  ghost function ReleasedAll(l: Ledger, r: Name, nodes: seq<int>): Ledger
    decreases |nodes|
  {
    if nodes == [] then l else ReleasedAll(Released(l, r, nodes[0]), r, nodes[1..])
  }

  /** The traffic plugin's answer to the next hop of a waiting task. */
  ghost function Answered(s: System, t: Task): Decision
    requires 0 < t.idx < |t.path|
  {
    Verdict(s.ledger, t.robot, t.Here(), t.Target(), PriorityOf(s, t))
  }

  /** The reservations after that request; a departing robot gives up the node it leaves. */
  ghost function AskedLedger(s: System, t: Task): Ledger
    requires 0 < t.idx < |t.path|
  {
    var l := Requested(s.ledger, t.robot, t.Here(), t.Target(), PriorityOf(s, t));
    if Answered(s, t) == Grant && t.Here() != t.Target() then Released(l, t.robot, t.Here()) else l
  }

  predicate BlockedByStopped(modes: map<Name, Mode>, l: Ledger, node: int) {
    node in l.owner && ModeOf(modes, l.owner[node]) == Stopped
  }

  /** Where a detour leads: a patrol keeps its direction, everyone else keeps the goal. */
  function DetourGoal(cfg: Config, t: Task, stopped: bool): int
    requires t.idx < |t.path|
  {
    if t.patrol && !stopped then Succ(cfg.route, t.Target()) else t.Goal()
  }

  /** Whether the turn asks the planner for a detour. */
  predicate Searches(cfg: Config, t: Task, d: Decision, stopped: bool)
    requires t.idx < |t.path|
  {
    match d
    case Grant => false
    case Deadlock => t.reroutes < MAX_REROUTES && DetourGoal(cfg, t, false) >= 0
    case Wait => stopped || (t.waitTicks + 1 >= REROUTE_WAIT_TICKS && DetourGoal(cfg, t, false) >= 0)
  }

  predicate Detours(cfg: Config, t: Task, d: Decision, stopped: bool, plan: seq<int>)
    requires t.idx < |t.path|
  {
    Searches(cfg, t, d, stopped) && |plan| >= 2
  }

  /** The task after the answer: departed, rerouted around the blocked node, or still waiting. */
  function Resolved(cfg: Config, t: Task, d: Decision, stopped: bool, plan: seq<int>): Task
    requires t.idx < |t.path|
  {
    match d
    case Grant => t.(moving := true, stuck := false, waitTicks := 0)
    case Deadlock =>
      if Detours(cfg, t, d, stopped, plan) then
        t.(path := plan, idx := 1, moving := false, stuck := false, reroutes := t.reroutes + 1)
      else t.(stuck := true)
    case Wait =>
      var waited := if stopped then t.waitTicks
                    else if t.waitTicks + 1 >= REROUTE_WAIT_TICKS then 0
                    else t.waitTicks + 1;
      if Detours(cfg, t, d, stopped, plan) then t.(path := plan, idx := 1, moving := false, waitTicks := waited)
      else t.(waitTicks := waited)
  }

  predicate StoppedAhead(s: System, t: Task)
    requires t.idx < |t.path|
  {
    BlockedByStopped(s.modes, s.ledger, t.Target())
  }

  ghost function Asking(cfg: Config, s: System, t: Task, plan: seq<int>): System
    requires 0 < t.idx < |t.path| && |s.queue| > 0 && s.left > 0
  {
    s.(queue := s.queue[1..] + [Resolved(cfg, t, Answered(s, t), StoppedAhead(s, t), plan)],
       left := s.left - 1, ledger := AskedLedger(s, t))
  }

  ghost function Ending(s: System, outcome: Outcome, nodes: seq<int>): System
    requires |s.queue| > 0 && s.left > 0
  {
    var t := s.queue[0];
    s.(queue := s.queue[1..], left := s.left - 1,
       ledger := ReleasedAll(s.ledger, t.robot, nodes),
       robots := SetBusy(s.robots, t.robot, false),
       notes := s.notes + [Note(t.robot, t.startSeq, outcome)])
  }

  /** The task as it stands when the turn reaches the traffic request, if it gets there. */
  function HeadFate(cfg: Config, s: System): Fate
    requires |s.queue| > 0 && Pollable(cfg, s, s.queue[0]) && cfg.graph.InRange(cfg.route)
  {
    Progress(cfg, s.robots[s.queue[0].robot], s.queue[0])
  }

  /** The turn of the head task makes a traffic request, for this task state. */
  predicate Requests(cfg: Config, s: System)
    requires |s.queue| > 0 && Pollable(cfg, s, s.queue[0]) && cfg.graph.InRange(cfg.route)
  {
    var f := HeadFate(cfg, s);
    f.Goes? && !f.task.moving && 0 < f.task.idx < |f.task.path|
  }

  ghost function Polled(cfg: Config, s: System, plan: seq<int>): System
    requires s.left > 0 && |s.queue| > 0 && Pollable(cfg, s, s.queue[0]) && cfg.graph.InRange(cfg.route)
  {
    match HeadFate(cfg, s)
    case Ends(outcome, nodes) => Ending(s, outcome, nodes)
    case Goes(t) =>
      if Requests(cfg, s) then Asking(cfg, s, t, plan)
      else s.(queue := s.queue[1..] + [t], left := s.left - 1)
  }

  /** If this request makes the task search for a detour, `plan` is what the planner answers. */
  ghost predicate PlanAnswers(cfg: Config, s: System, t: Task, plan: seq<int>)
    requires cfg.Valid() && 0 < t.idx < |t.path|
  {
    var d, stopped := Answered(s, t), StoppedAhead(s, t);
    Searches(cfg, t, d, stopped) ==>
      cfg.graph.Shortest(t.Here(), DetourGoal(cfg, t, d == Wait && stopped), t.Target(), plan)
  }

  /** The planner answers the search of this turn, if there is one. */
  ghost predicate PlanFits(cfg: Config, s: System, plan: seq<int>)
    requires cfg.Valid() && |s.queue| > 0 && Pollable(cfg, s, s.queue[0])
  {
    Requests(cfg, s) ==> PlanAnswers(cfg, s, HeadFate(cfg, s).task, plan)
  }

  // ---------------------------------------------------------------- cancelling and creating tasks

  function Without(queue: seq<Task>, r: Name): seq<Task> {
    if queue == [] then []
    else (if queue[0].robot == r then [] else [queue[0]]) + Without(queue[1..], r)
  }

  ghost function ReleasedTasks(l: Ledger, queue: seq<Task>, r: Name): Ledger
    decreases |queue|
  {
    if queue == [] then l
    else
      var t := queue[0];
      var l1 := if t.robot == r && 0 < t.idx <= |t.path| then Released(l, r, t.Here()) else l;
      var l2 := if t.robot == r && t.idx < |t.path| then Released(l1, r, t.Target()) else l1;
      ReleasedTasks(l2, queue[1..], r)
  }

  ghost function Cancelled(s: System, r: Name): System {
    s.(queue := Without(s.queue, r), ledger := ReleasedTasks(s.ledger, s.queue, r),
       robots := SetBusy(s.robots, r, false))
  }

  /** A new task joins at the end and claims its first node; the plugin's answer is ignored. */
  ghost function Launched(s: System, t: Task): System
    requires |t.path| > 0
  {
    s.(queue := s.queue + [t], created := s.created + 1, robots := SetBusy(s.robots, t.robot, true),
       ledger := Requested(s.ledger, t.robot, t.path[0], t.path[0], PriorityOf(s, t)))
  }

  function HasTask(queue: seq<Task>, r: Name): bool {
    exists i :: 0 <= i < |queue| && queue[i].robot == r
  }

  // ---------------------------------------------------------------- submissions

  datatype Response = Accepted | BadGoal | UnknownRobot | RobotStopped | NoRobotAvailable | NoPath | InsufficientBattery

  /** Whether the robot's task is a patrol. */
  predicate OnPatrol(queue: seq<Task>, r: Name) {
    queue != [] && if queue[0].robot == r then queue[0].patrol else OnPatrol(queue[1..], r)
  }

  /** The robots the dispatcher sees, in name order; a patrol counts as idle. */
  ghost predicate Snapshot(s: System, snap: seq<RobotInfo>) {
    && (forall i, j | 0 <= i < j < |snap| :: Before(snap[i].name, snap[j].name))
    && (forall i | 0 <= i < |snap| :: snap[i].name in s.robots && Candidate(s, snap[i].name) == Some(snap[i]))
    && (forall r | r in s.robots && Candidate(s, r).Some? :: exists i :: 0 <= i < |snap| && snap[i].name == r)
  }

  function Candidate(s: System, r: Name): Option<RobotInfo>
    requires r in s.robots
  {
    if ModeOf(s.modes, r) in {Stopped, Charging} then None
    else Some(if OnPatrol(s.queue, r) then s.robots[r].(busy := false) else s.robots[r])
  }

  function StartOf(cfg: Config, s: System, r: Name): int
    requires r in s.robots
  {
    cfg.graph.NearestVertex(s.robots[r].x, s.robots[r].y)
  }

  /** The task path: a robot already nearest to the goal is sent to that very vertex. */
  function TaskPath(start: int, goal: int, plan: seq<int>): seq<int> {
    if start == goal then [goal, goal] else plan
  }

  function Chosen(forced: string, winner: string): string {
    if forced != "" then forced else winner
  }

  function Judged(cfg: Config, s: System, goal: int, armActions: int, forced: string, winner: string, plan: seq<int>)
    : Response
    requires cfg.graph.InRange(plan)
  {
    var r := Chosen(forced, winner);
    if !cfg.graph.Has(goal) then BadGoal
    else if forced != "" && r !in s.robots then UnknownRobot
    else if forced != "" && ModeOf(s.modes, r) == Stopped then RobotStopped
    else if r == "" || r !in s.robots then NoRobotAvailable
    else
      var path := TaskPath(StartOf(cfg, s, r), goal, plan);
      if |path| < 2 then NoPath
      else if s.robots[r].battery < Need(cfg.energy, cfg.graph.Cost(path), armActions) then InsufficientBattery
      else Accepted
  }

  ghost function Submitted(cfg: Config, s: System, goal: int, armActions: int, forced: string, winner: string,
                           plan: seq<int>): System
    requires cfg.graph.InRange(plan)
  {
    if Judged(cfg, s, goal, armActions, forced, winner, plan) != Accepted then s
    else
      var r: Name := Chosen(forced, winner);
      var c := if s.robots[r].busy then Cancelled(s, r) else s;
      Launched(c, NewTask(r, TaskPath(StartOf(cfg, s, r), goal, plan), false, s.created + 1))
  }

  /** The submission gets as far as asking the planner. */
  predicate Plans(cfg: Config, s: System, goal: int, forced: string, winner: string) {
    var r := Chosen(forced, winner);
    cfg.graph.Has(goal) && r in s.robots && !(forced != "" && ModeOf(s.modes, r) == Stopped)
  }

  /** The dispatcher picked the winner and the planner answered for the chosen robot. */
  ghost predicate SubmitFits(cfg: Config, s: System, goal: int, armActions: int, forced: string, winner: string,
                             plan: seq<int>)
    requires cfg.Valid()
  {
    && cfg.graph.InRange(plan)
    && (forced == "" && cfg.graph.Has(goal) ==>
          exists snap :: Snapshot(s, snap) && Winner(cfg.graph, cfg.energy, goal, armActions, snap, winner))
    && (Plans(cfg, s, goal, forced, winner) ==>
          cfg.graph.Shortest(StartOf(cfg, s, Chosen(forced, winner)), goal, -1, plan))
  }

  // ---------------------------------------------------------------- mode changes

  ghost function Dropped(l: Ledger, r: Name): Ledger {
    l.(owner := map n | n in l.owner && l.owner[n] != r :: l.owner[n],
       waitFor := if exists n :: n in l.owner && l.owner[n] == r then l.waitFor - {r} else l.waitFor)
  }

  ghost function ModeSet(cfg: Config, s: System, r: Name, m: Mode): System
    requires cfg.Valid()
  {
    var c := if m == Charging then s else Cancelled(s, r).(ledger := Dropped(Cancelled(s, r).ledger, r));
    var d := c.(modes := c.modes[r := m]);
    if m == Stopped && r in d.robots then
      var node := StartOf(cfg, d, r);
      d.(ledger := Requested(d.ledger, r, node, node, STOP_PRIO))
    else d
  }

  // ---------------------------------------------------------------- events and runs

  datatype Event =
    | Observe(name: Name, x: real, y: real)
    | SetBattery(name: Name, value: real)
    | SetMode(name: Name, mode: Mode)
    | Submit(goal: int, armActions: int, forced: string, winner: string, plan: seq<int>)
    | StartPatrol(name: Name)
    | Begin
    | Poll(plan: seq<int>)
    | End

  function Observed(cfg: Config, s: System, r: Name, x: real, y: real): System {
    var known := if r in s.robots then s.robots[r] else RobotInfo(r, 0.0, 0.0, 100.0, false);
    s.(robots := s.robots[r := known.(x := x, y := y)],
       modes := if r in s.modes then s.modes
                else s.modes[r := if cfg.patrolByDefault then Patrolling else Idling])
  }

  function Charged(s: System, r: Name, value: real): System {
    var known := if r in s.robots then s.robots[r] else RobotInfo(r, 0.0, 0.0, 100.0, false);
    var v := if value < 0.0 then 0.0 else if value > 100.0 then 100.0 else value;
    s.(robots := s.robots[r := known.(battery := v)])
  }

  ghost predicate Enabled(cfg: Config, s: System, e: Event)
    requires cfg.Valid()
  {
    match e
    case Poll(plan) =>
      s.sweeping && 0 < s.left <= |s.queue| && Pollable(cfg, s, s.queue[0]) && PlanFits(cfg, s, plan)
    case End => s.sweeping && s.left == 0
    case Submit(goal, armActions, forced, winner, plan) =>
      !s.sweeping && SubmitFits(cfg, s, goal, armActions, forced, winner, plan)
    case StartPatrol(r) =>
      && !s.sweeping && |cfg.route| >= 2 && r in s.robots && !s.robots[r].busy
      && ModeOf(s.modes, r) == Patrolling && !HasTask(s.queue, r)
    case _ => !s.sweeping
  }

  ghost function Apply(cfg: Config, s: System, e: Event): System
    requires cfg.Valid() && Enabled(cfg, s, e)
  {
    match e
    case Observe(r, x, y) => Observed(cfg, s, r, x, y)
    case SetBattery(r, v) => Charged(s, r, v)
    case SetMode(r, m) => ModeSet(cfg, s, r, m)
    case Submit(goal, armActions, forced, winner, plan) => Submitted(cfg, s, goal, armActions, forced, winner, plan)
    case StartPatrol(r) =>
      Launched(s, NewTask(r, Lap(cfg.graph, cfg.route, s.robots[r].x, s.robots[r].y, -1), true, s.created + 1))
    case Begin => s.(sweeping := true, left := |s.queue|)
    case Poll(plan) => Polled(cfg, s, plan)
    case End => s.(sweeping := false)
  }

  ghost predicate Legal(cfg: Config, s: System, es: seq<Event>)
    requires cfg.Valid()
    decreases |es|
  {
    es == [] || (Enabled(cfg, s, es[0]) && Legal(cfg, Apply(cfg, s, es[0]), es[1..]))
  }

  ghost function Run(cfg: Config, s: System, es: seq<Event>): System
    requires cfg.Valid() && Legal(cfg, s, es)
    decreases |es|
  {
    if es == [] then s else Run(cfg, Apply(cfg, s, es[0]), es[1..])
  }
}
