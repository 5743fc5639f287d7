/** The fleet node itself: every callback, in the program's own statements, is a legal run of the state machine. */
module FleetNodes {
  import opened Names
  import opened Reservation
  import opened Priorities
  import opened Navgraph
  import opened Patrol
  import opened Dispatch
  import opened Fleet
  import opened Invariants
  import opened Runs

  function ParseMode(text: string): Option<Mode> {
    match text
    case "PATROL" => Some(Patrolling)
    case "IDLE" => Some(Idling)
    case "STOP" => Some(Stopped)
    case "CHARGE" => Some(Charging)
    case _ => None
  }

  /** All but the nodes in `rest` have been looked at. */
  ghost function PartlyDropped(l: Ledger, r: Name, rest: set<int>): Ledger {
    l.(owner := map n | n in l.owner && (l.owner[n] != r || n in rest) :: l.owner[n],
       waitFor := if exists n :: n in l.owner && n !in rest && l.owner[n] == r then l.waitFor - {r} else l.waitFor)
  }

  lemma DropStarts(l: Ledger, r: Name)
    ensures PartlyDropped(l, r, l.owner.Keys) == l
  {
    assert PartlyDropped(l, r, l.owner.Keys).owner == l.owner;
  }

  lemma DropEnds(l: Ledger, r: Name)
    ensures PartlyDropped(l, r, {}) == Dropped(l, r)
  {
    assert PartlyDropped(l, r, {}).owner == Dropped(l, r).owner;
  }

  lemma DropStep(l: Ledger, r: Name, rest: set<int>, n: int)
    requires n in rest && rest <= l.owner.Keys
    ensures PartlyDropped(l, r, rest - {n}) ==
            if l.owner[n] == r then Released(PartlyDropped(l, r, rest), r, n) else PartlyDropped(l, r, rest)
  {
    var a, b := PartlyDropped(l, r, rest), PartlyDropped(l, r, rest - {n});
    if l.owner[n] == r {
      assert n in a.owner && a.owner[n] == r;
      assert b.owner == a.owner - {n};
      assert n !in rest - {n};
      assert b.waitFor == l.waitFor - {r};
      assert a.waitFor - {r} == l.waitFor - {r};
    } else {
      assert a.owner == b.owner;
    }
  }

  /** A robot is in the snapshot if it should be. */
  ghost predicate Seen(s: System, snap: seq<RobotInfo>, r: Name)
    requires r in s.robots
  {
    Candidate(s, r).Some? ==> exists i :: 0 <= i < |snap| && snap[i].name == r
  }

  predicate Shown(s: System, info: RobotInfo) {
    info.name in s.robots && Candidate(s, info.name) == Some(info)
  }

  lemma NotShown(s: System, snap: seq<RobotInfo>, r: Name)
    requires r in s.robots
    ensures Candidate(s, r).None? ==> Seen(s, snap, r)
    ensures Candidate(s, r).Some? && s.robots[r].name == r ==> Shown(s, Candidate(s, r).value)
  {}

  lemma SnapshotDone(s: System, snap: seq<RobotInfo>, names: seq<Name>)
    requires forall r | r in s.robots :: r in names
    requires forall n | 0 <= n < |names| :: names[n] in s.robots && Seen(s, snap, names[n])
    requires forall i | 0 <= i < |snap| :: Shown(s, snap[i])
    requires forall i, j | 0 <= i < j < |snap| :: Before(snap[i].name, snap[j].name)
    ensures Snapshot(s, snap)
  {
    hide Before, Candidate;
    forall i | 0 <= i < |snap| ensures snap[i].name in s.robots && Candidate(s, snap[i].name) == Some(snap[i]) {
      assert Shown(s, snap[i]);
    }
    forall r | r in s.robots && Candidate(s, r).Some? ensures exists i :: 0 <= i < |snap| && snap[i].name == r {
      var n :| 0 <= n < |names| && names[n] == r;
      assert Seen(s, snap, names[n]);
    }
  }

  lemma SeenLater(s: System, snap: seq<RobotInfo>, info: RobotInfo, names: seq<Name>)
    requires forall r | r in names :: r in s.robots && Seen(s, snap, r)
    requires info.name in s.robots
    ensures forall r | r in names :: Seen(s, snap + [info], r)
    ensures Seen(s, snap + [info], info.name)
  {
    var more := snap + [info];
    assert more[|snap|] == info;
    forall r | r in names ensures Seen(s, more, r) {
      assert Seen(s, snap, r);
      assert forall i | 0 <= i < |snap| :: more[i] == snap[i];
    }
  }

  // ---------------------------------------------------------------- the shape of a tick

  ghost predicate NotStarting(cfg: Config, s: System, r: Name)
    requires cfg.Valid()
  {
    !Enabled(cfg, s, Event.StartPatrol(r))
  }

  /** `es` starts patrols of some of these robots, in name order. */
  ghost predicate StartsInOrder(es: seq<Event>, names: seq<Name>) {
    && (forall e | e in es :: e.StartPatrol? && e.name in names)
    && (forall i, j | 0 <= i < j < |es| :: Before(es[i].name, es[j].name))
  }

  lemma NothingStarted()
    ensures forall names: seq<Name> {:trigger StartsInOrder([], names)} :: StartsInOrder([], names)
  {}

  lemma StartLater(es: seq<Event>, names: seq<Name>, k: nat)
    requires k < |names| && StartsInOrder(es, names[..k])
    requires forall i, j | 0 <= i < j < |names| :: Before(names[i], names[j])
    ensures StartsInOrder(es, names[..k + 1])
    ensures StartsInOrder(es + [Event.StartPatrol(names[k])], names[..k + 1])
  {
    hide Before;
    var more := es + [Event.StartPatrol(names[k])];
    assert names[..k + 1] == names[..k] + [names[k]];
    forall i, j | 0 <= i < j < |more| ensures Before(more[i].name, more[j].name) {
      assert more[i] in es;
    }
  }

  lemma AllAreStarted(cfg: Config, s: System, es: seq<Event>, names: seq<Name>)
    requires cfg.Valid() && !s.sweeping && StartsInOrder(es, if |cfg.route| < 2 then [] else names)
    requires |cfg.route| >= 2 ==> forall n | 0 <= n < |names| :: NotStarting(cfg, s, names[n])
    requires forall r | r in s.robots :: r in names
    ensures AllStarted(cfg, s, es)
  {
    hide Before;
    forall r ensures NotStarting(cfg, s, r) {
      WhoStarts(cfg, s, r);
    }
  }

  /** `es` started patrols in name order, and afterwards nobody is left to start. */
  ghost predicate AllStarted(cfg: Config, s: System, es: seq<Event>)
    requires cfg.Valid()
  {
    && (forall e | e in es :: e.StartPatrol?)
    && (forall i, j | 0 <= i < j < |es| :: Before(es[i].name, es[j].name))
    && (forall r {:trigger NotStarting(cfg, s, r)} :: NotStarting(cfg, s, r))
  }

  /** A tick: first every patrol that can start, then one turn for each task, the new ones included. */
  ghost predicate Tick(cfg: Config, s: System, starts: seq<Event>, polls: seq<Event>)
    requires cfg.Valid()
  {
    && Legal(cfg, s, starts) && AllStarted(cfg, Run(cfg, s, starts), starts)
    && (forall e | e in polls :: e.Poll?) && |polls| == |Run(cfg, s, starts).queue|
    && Legal(cfg, s, starts + [Begin] + polls + [End])
  }

  lemma WhoStarts(cfg: Config, s: System, r: Name)
    requires cfg.Valid() && !s.sweeping
    ensures NotStarting(cfg, s, r) <==>
            |cfg.route| < 2 || r !in s.robots || s.robots[r].busy || ModeOf(s.modes, r) != Patrolling
            || HasTask(s.queue, r)
  {}

  /** Launching a task starts its robot, and nobody who was not starting starts because of it. */
  lemma LaunchedAre(cfg: Config, s: System, t: Task)
    requires cfg.Valid() && !s.sweeping && |t.path| > 0 && t.robot in s.robots
    ensures forall r | NotStarting(cfg, s, r) :: NotStarting(cfg, Launched(s, t), r)
    ensures NotStarting(cfg, Launched(s, t), t.robot)
  {
    var l := Launched(s, t);
    hide Requested;
    forall r | NotStarting(cfg, s, r) || r == t.robot ensures NotStarting(cfg, l, r) {
      WhoStarts(cfg, s, r);
      WhoStarts(cfg, l, r);
      hide Enabled;
      if HasTask(s.queue, r) {
        var i :| 0 <= i < |s.queue| && s.queue[i].robot == r;
        assert l.queue[i].robot == r;
      }
    }
  }

  // ---------------------------------------------------------------- the cancelling loop

  /** What the loop has done before position `i` of the shrinking list, and what it has yet to do. */
  ghost predicate Cancelling(q: seq<Task>, l: Ledger, tasks: seq<Task>, now: Ledger, i: nat, r: Name)
    requires i <= |tasks|
  {
    && Without(q, r) == tasks[..i] + Without(tasks[i..], r)
    && ReleasedTasks(l, q, r) == ReleasedTasks(now, tasks[i..], r)
  }

  /** The tables after the nodes of one task are given back. */
  ghost function GivenBack(l: Ledger, r: Name, t: Task): Ledger {
    var l1 := if 0 < t.idx <= |t.path| then Released(l, r, t.Here()) else l;
    if t.idx < |t.path| then Released(l1, r, t.Target()) else l1
  }

  lemma CancelStarts(q: seq<Task>, l: Ledger, r: Name)
    ensures Cancelling(q, l, q, l, 0, r)
  {
    assert q[0..] == q && q[..0] == [];
  }

  lemma CancelErases(q: seq<Task>, l: Ledger, tasks: seq<Task>, now: Ledger, i: nat, r: Name)
    requires i < |tasks| && Cancelling(q, l, tasks, now, i, r) && tasks[i].robot == r
    ensures Cancelling(q, l, tasks[..i] + tasks[i + 1..], GivenBack(now, r, tasks[i]), i, r)
  {
    var fewer := tasks[..i] + tasks[i + 1..];
    assert tasks[i..][1..] == tasks[i + 1..] && fewer[..i] == tasks[..i] && fewer[i..] == tasks[i + 1..];
    hide Released;
  }

  lemma CancelSkips(q: seq<Task>, l: Ledger, tasks: seq<Task>, now: Ledger, i: nat, r: Name)
    requires i < |tasks| && Cancelling(q, l, tasks, now, i, r) && tasks[i].robot != r
    ensures Cancelling(q, l, tasks, now, i + 1, r)
  {
    var done, rest := tasks[..i], tasks[i + 1..];
    assert tasks[i..][1..] == rest && tasks[..i + 1] == done + [tasks[i]];
    assert done + ([tasks[i]] + Without(rest, r)) == (done + [tasks[i]]) + Without(rest, r);
    hide Released;
  }

  lemma CancelEnds(q: seq<Task>, l: Ledger, tasks: seq<Task>, now: Ledger, r: Name)
    requires Cancelling(q, l, tasks, now, |tasks|, r)
    ensures tasks == Without(q, r) && now == ReleasedTasks(l, q, r)
  {
    assert tasks[|tasks|..] == [] && tasks[..|tasks|] == tasks;
  }

  class FleetNode {
    const graph: Graph
    const patrolRoute: seq<int>
    const energy: Energy
    const patrolByDefault: bool
    const traffic: ReservationDeadlock
    const dispatcher: Auction
    var robots: map<Name, RobotInfo>
    var robotMode: map<Name, Mode>
    var tasks: seq<Task>
    var taskSeq: nat
    var published: seq<Note>

    ghost function Cfg(): Config {
      Config(graph, patrolRoute, energy, patrolByDefault)
    }

    /** The state between callbacks. */
    ghost function State(): System
      reads this, traffic
    {
      System(robots, robotMode, tasks, false, 0, taskSeq, traffic.State(), published)
    }

    /** The state in the middle of a tick, before the task at `it` has its turn. */
    ghost function Sweep(it: nat): System
      requires it <= |tasks|
      reads this, traffic
    {
      System(robots, robotMode, tasks[it..] + tasks[..it], true, |tasks| - it, taskSeq, traffic.State(), published)
    }

    ghost predicate Sound()
      reads this, traffic
    {
      Cfg().Valid() && Inv(Cfg(), State())
    }

    /** Between callbacks the node is in a reachable state. */
    ghost predicate Valid()
      reads this, traffic
    {
      Sound() && Reachable(Cfg(), State())
    }

    constructor (graph: Graph, patrolRoute: seq<int>, energy: Energy, patrolByDefault: bool)
      requires graph.Valid() && graph.Size() > 0 && ClosedWalk(graph, patrolRoute)
      ensures Valid() && State() == INITIAL && fresh(traffic)
      ensures Cfg() == Config(graph, patrolRoute, energy, patrolByDefault)
    {
      this.graph, this.patrolRoute, this.energy, this.patrolByDefault := graph, patrolRoute, energy, patrolByDefault;
      traffic := new ReservationDeadlock();
      dispatcher := new Auction();
      robots, robotMode, tasks, taskSeq, published := map[], map[], [], 0, [];
      new;
      hide Inv, Reachable, Config.Valid, Graph.Valid, ClosedWalk;
      Founded(Cfg());
    }

    method OnRobotState(name: Name, x: real, y: real)
      requires Valid()
      modifies this
      ensures Valid() && State() == Apply(Cfg(), old(State()), Observe(name, x, y))
    {
      hide Inv, Reachable, Enabled, Apply, Config.Valid;
      ReportApplied(Cfg(), State(), Observe(name, x, y));
      var r := if name in robots then robots[name] else RobotInfo(name, 0.0, 0.0, 100.0, false);
      robots := robots[name := r.(x := x, y := y)];
      if name !in robotMode {
        robotMode := robotMode[name := if patrolByDefault then Patrolling else Idling];
      }
    }

    method OnSetBattery(name: Name, value: real)
      requires Valid()
      modifies this
      ensures Valid() && State() == Apply(Cfg(), old(State()), SetBattery(name, value))
    {
      hide Inv, Reachable, Enabled, Apply, Config.Valid;
      ReportApplied(Cfg(), State(), SetBattery(name, value));
      var v := value;
      if v < 0.0 { v := 0.0; } else if v > 100.0 { v := 100.0; }
      var r := if name in robots then robots[name] else RobotInfo(name, 0.0, 0.0, 100.0, false);
      robots := robots[name := r.(battery := v)];
    }

    function ComputePriority(robot: Name, t: Task): int
      reads this
    {
      Priority(Tier(t.stuck, ModeOf(robotMode, robot) == Charging, t.patrol), t.startSeq, BatteryOf(robots, robot))
    }

    method BlockedByStopped(node: int) returns (blocked: bool)
      ensures blocked == Fleet.BlockedByStopped(robotMode, traffic.State(), node)
    {
      var occupancy := traffic.Occupancy();
      for k := 0 to |occupancy|
        invariant forall i | 0 <= i < k :: !(occupancy[i].0 == node && ModeOf(robotMode, occupancy[i].1) == Stopped)
      {
        if occupancy[k].0 == node && ModeOf(robotMode, occupancy[k].1) == Stopped {
          return true;
        }
      }
      return false;
    }

    method IsOnPatrol(robot: Name) returns (on: bool)
      ensures on == OnPatrol(tasks, robot)
    {
      for i := 0 to |tasks|
        invariant OnPatrol(tasks, robot) == OnPatrol(tasks[i..], robot)
      {
        if tasks[i].robot == robot {
          return tasks[i].patrol;
        }
      }
      return false;
    }

    /** Frees the nodes of the robot's tasks and removes them while iterating. */
    method CancelTask(robot: Name)
      modifies this, traffic
      ensures State() == Cancelled(old(State()), robot)
    {
      hide Released, Cancelling, Without, ReleasedTasks;
      ghost var l, q := traffic.State(), tasks;
      var i := 0;
      CancelStarts(q, l, robot);
      while i < |tasks|
        invariant i <= |tasks| && Cancelling(q, l, tasks, traffic.State(), i, robot)
        invariant robots == old(robots) && robotMode == old(robotMode)
        invariant taskSeq == old(taskSeq) && published == old(published)
        decreases |tasks| - i
      {
        var t := tasks[i];
        if t.robot == robot {
          CancelErases(q, l, tasks, traffic.State(), i, robot);
          if t.idx >= 1 && t.idx - 1 < |t.path| {
            traffic.Release(robot, t.path[t.idx - 1]);
          }
          if t.idx < |t.path| {
            traffic.Release(robot, t.path[t.idx]);
          }
          tasks := tasks[..i] + tasks[i + 1..];
        } else {
          CancelSkips(q, l, tasks, traffic.State(), i, robot);
          i := i + 1;
        }
      }
      CancelEnds(q, l, tasks, traffic.State(), robot);
      if robot in robots {
        robots := robots[robot := robots[robot].(busy := false)];
      }
    }

    /** Releases everything that the robot still owns. */
    method DropAll(robot: Name)
      modifies traffic
      ensures traffic.State() == Dropped(old(traffic.State()), robot)
    {
      var occupancy := traffic.Occupancy();
      ghost var l, rest := traffic.State(), traffic.nodeOwner.Keys;
      DropStarts(l, robot);
      for k := 0 to |occupancy|
        invariant rest <= l.owner.Keys && traffic.State() == PartlyDropped(l, robot, rest)
        invariant forall i | 0 <= i < |occupancy| ::
                    occupancy[i].0 in l.owner && occupancy[i].1 == l.owner[occupancy[i].0]
        invariant forall i | 0 <= i < |occupancy| :: occupancy[i].0 in rest <==> k <= i
        invariant forall n | n in rest :: exists i :: k <= i < |occupancy| && occupancy[i].0 == n
      {
        var (node, owner) := occupancy[k];
        DropStep(l, robot, rest, node);
        if owner == robot {
          traffic.Release(robot, node);
        }
        rest := rest - {node};
      }
      assert rest == {};
      DropEnds(l, robot);
    }

    method OnSetMode(robot: Name, mode: string) returns (ok: bool)
      requires Valid()
      modifies this, traffic
      ensures Valid() && (ok <==> ParseMode(mode).Some?) && (ok <==> mode in {"PATROL", "IDLE", "STOP", "CHARGE"})
      ensures ok ==> robot in robotMode && (robotMode[robot] == Patrolling <==> mode == "PATROL")
      ensures ok ==> (robotMode[robot] == Stopped <==> mode == "STOP")
      ensures ok ==> (robotMode[robot] == Charging <==> mode == "CHARGE")
      ensures State() == if ok then Apply(Cfg(), old(State()), SetMode(robot, ParseMode(mode).value)) else old(State())
    {
      hide Inv, Reachable, Apply, Enabled, Cancelled, Dropped, Requested, Graph.Valid, ClosedWalk;
      if mode != "PATROL" && mode != "IDLE" && mode != "STOP" && mode != "CHARGE" {
        return false;
      }
      var m := ParseMode(mode).value;
      ModeApplied(Cfg(), State(), robot, m);
      ReachableStep(Cfg(), State(), SetMode(robot, m));
      if m != Charging {
        CancelTask(robot);
        DropAll(robot);
      }
      robotMode := robotMode[robot := m];
      if m == Stopped && robot in robots {
        var node := graph.Nearest(robots[robot].x, robots[robot].y);
        var _ := traffic.RequestMove(robot, node, node, STOP_PRIO);
      }
      return true;
    }

    /** A new task at the end of the list; the answer to its claim is ignored. */
    method Launch(t: Task)
      requires |t.path| > 0 && t.robot in robots && t.startSeq == taskSeq + 1
      modifies this, traffic
      ensures State() == Launched(old(State()), t) && robots.Keys == old(robots.Keys)
    {
      robots := robots[t.robot := robots[t.robot].(busy := true)];
      taskSeq := taskSeq + 1;
      var _ := traffic.RequestMove(t.robot, t.path[0], t.path[0], ComputePriority(t.robot, t));
      tasks := tasks + [t];
    }

    /** The robots the dispatcher may choose from, in name order. */
    method Candidates() returns (snapshot: seq<RobotInfo>)
      requires forall r | r in robots :: robots[r].name == r
      ensures Snapshot(State(), snapshot)
    {
      hide Seen, Shown, Before, OnPatrol, Snapshot;
      var names := InOrder(robots.Keys);
      snapshot := [];
      ghost var s := State();
      for k := 0 to |names|
        invariant forall n | 0 <= n < k :: Seen(s, snapshot, names[n])
        invariant forall i | 0 <= i < |snapshot| :: Shown(s, snapshot[i]) && snapshot[i].name in names[..k]
        invariant forall i, j | 0 <= i < j < |snapshot| :: Before(snapshot[i].name, snapshot[j].name)
      {
        var m := ModeOf(robotMode, names[k]);
        assert names[..k + 1] == names[..k] + [names[k]];
        var patrolling := IsOnPatrol(names[k]);
        NotShown(s, snapshot, names[k]);
        if m == Stopped || m == Charging {
          continue;
        }
        var info := robots[names[k]];
        if patrolling {
          info := info.(busy := false);
        }
        SeenLater(s, snapshot, info, names[..k]);
        snapshot := snapshot + [info];
      }
      SnapshotDone(s, snapshot, names);
    }

    method OnSubmit(goal: int, armActions: int, forced: string) returns (response: Response, ghost e: Event)
      requires Valid()
      modifies this, traffic
      ensures Valid() && e.Submit? && e.goal == goal && e.forced == forced
      ensures e.armActions == if armActions > 0 then armActions else 0
      ensures Enabled(Cfg(), old(State()), e) && State() == Apply(Cfg(), old(State()), e)
      ensures response == Judged(Cfg(), old(State()), e.goal, e.armActions, e.forced, e.winner, e.plan)
    {
      hide Inv, Reachable, Apply, Enabled, SubmitFits, Launched, Without, ReleasedTasks, Graph.Valid, ClosedWalk;
      var arms := if armActions > 0 then armActions else 0;
      var robot, path;
      response, robot, path, e := Judge(goal, arms, forced);
      SubmitApplied(Cfg(), State(), e);
      ReachableStep(Cfg(), State(), e);
      if response == Accepted {
        if robots[robot].busy {
          CancelTask(robot);
        }
        Launch(NewTask(robot, path, false, taskSeq + 1));
      }
    }

    /** The checks of a submission, up to the battery gate. */
    method Judge(goal: int, armActions: int, forced: string)
      returns (response: Response, robot: string, path: seq<int>, ghost e: Event)
      requires Sound()
      ensures e.Submit? && e.goal == goal && e.forced == forced && e.armActions == armActions
      ensures SubmitFits(Cfg(), State(), goal, armActions, forced, e.winner, e.plan)
      ensures response == Judged(Cfg(), State(), goal, armActions, forced, e.winner, e.plan)
      ensures response == Accepted ==>
                robot in robots && robot == Chosen(forced, e.winner)
                && path == TaskPath(StartOf(Cfg(), State(), robot), goal, e.plan) && |path| >= 2
    {
      hide Inv, Snapshot, Winner, Graph.Valid, Graph.NearestBelow, Graph.Cost, ClosedWalk;
      robot, path, e := forced, [], Submit(goal, armActions, forced, "", []);
      if !graph.Has(goal) {
        return BadGoal, robot, path, e;
      }
      NamesMatch(Cfg(), State());
      if forced != "" {
        if forced !in robots {
          return UnknownRobot, robot, path, e;
        }
        if ModeOf(robotMode, forced) == Stopped {
          return RobotStopped, robot, path, e;
        }
      } else {
        var snapshot := Candidates();
        robot := dispatcher.Assign(goal, armActions, snapshot, graph, energy);
        e := e.(winner := robot);
        WinnerKnown(Cfg(), State(), snapshot, goal, armActions, robot);
      }
      if robot == "" {
        return NoRobotAvailable, robot, path, e;
      }
      var r := robots[robot];
      var start := graph.Nearest(r.x, r.y);
      path := Dijkstra(graph, start, goal);
      InRangeOfPlan(graph, start, goal, path);
      hide Graph.Shortest;
      e := e.(plan := path);
      if start == goal {
        path := [goal, goal];
      }
      if |path| < 2 {
        return NoPath, robot, path, e;
      }
      var cost := graph.PathCost(path);
      var need := Need(energy, cost, armActions);
      response := if r.battery < need then InsufficientBattery else Accepted;
    }

    /** The traffic request of a waiting task, and what follows from the answer. */
    method Negotiate(t: Task, ghost s: System) returns (u: Task, ghost plan: seq<int>)
      requires Cfg().Valid() && 0 < t.idx < |t.path|
      requires s.robots == robots && s.modes == robotMode && s.ledger == traffic.State()
      modifies traffic
      ensures traffic.State() == AskedLedger(s, t)
      ensures u == Resolved(Cfg(), t, Answered(s, t), StoppedAhead(s, t), plan)
      ensures PlanAnswers(Cfg(), s, t, plan)
    {
      var cur, next := t.path[t.idx - 1], t.path[t.idx];
      plan := [];
      assert PriorityOf(s, t) == ComputePriority(t.robot, t);
      var decision := traffic.RequestMove(t.robot, cur, next, ComputePriority(t.robot, t));
      OwnersKeptWithoutGrant(s, t);
      hide PriorityOf, Verdict, Requested, Graph.Shortest, Graph.Valid, DetourGoal;
      match decision {
        case Grant =>
          if cur != next {
            traffic.ReleaseNode(t.robot, cur);
          }
          u := t.(moving := true, stuck := false, waitTicks := 0);
        case Deadlock =>
          u, plan := Yield(t, StoppedAhead(s, t));
        case Wait =>
          u, plan := Hold(t);
      }
    }

    /** Told to yield: go around, or, out of detours, stay and claim the highest tier. */
    method Yield(t: Task, ghost stopped: bool) returns (u: Task, ghost plan: seq<int>)
      requires graph.Valid() && 0 < t.idx < |t.path|
      ensures u == Resolved(Cfg(), t, Deadlock, stopped, plan)
      ensures Searches(Cfg(), t, Deadlock, stopped) ==>
                graph.Shortest(t.Here(), DetourGoal(Cfg(), t, false), t.Target(), plan)
    {
      var goal := DetourTarget(t, t.path[t.idx]);
      hide DetourGoal, Graph.Shortest, Graph.Valid;
      var reroute: seq<int> := [];
      if t.reroutes < MAX_REROUTES && goal >= 0 {
        reroute := Dijkstra(graph, t.path[t.idx - 1], goal, t.path[t.idx]);
      }
      plan := reroute;
      if |reroute| >= 2 {
        u := t.(reroutes := t.reroutes + 1, path := reroute, idx := 1, moving := false, stuck := false);
      } else {
        u := t.(stuck := true);
      }
    }

    /** Told to wait: go around a stopped robot at once, around a moving one after some time. */
    method Hold(t: Task) returns (u: Task, ghost plan: seq<int>)
      requires graph.Valid() && 0 < t.idx < |t.path|
      ensures var stopped := Fleet.BlockedByStopped(robotMode, traffic.State(), t.Target());
              && u == Resolved(Cfg(), t, Wait, stopped, plan)
              && (Searches(Cfg(), t, Wait, stopped) ==>
                    graph.Shortest(t.Here(), DetourGoal(Cfg(), t, stopped), t.Target(), plan))
    {
      var cur, next := t.path[t.idx - 1], t.path[t.idx];
      var goal := DetourTarget(t, next);
      var stopped := BlockedByStopped(next);
      assert stopped ==> DetourGoal(Cfg(), t, stopped) == t.Goal();
      hide DetourGoal, Graph.Shortest, Graph.Valid;
      var reroute: seq<int> := [];
      u := t;
      if stopped {
        reroute := Dijkstra(graph, cur, t.path[|t.path| - 1], next);
        if |reroute| >= 2 {
          u := u.(path := reroute, idx := 1, moving := false);
        }
      } else {
        u := u.(waitTicks := u.waitTicks + 1);
        if u.waitTicks >= REROUTE_WAIT_TICKS {
          if goal >= 0 {
            reroute := Dijkstra(graph, cur, goal, next);
          }
          if |reroute| >= 2 {
            u := u.(path := reroute, idx := 1, moving := false);
          }
          u := u.(waitTicks := 0);
        }
      }
      plan := reroute;
    }

    method DetourTarget(t: Task, next: int) returns (goal: int)
      requires 0 < t.idx < |t.path| && next == t.Target()
      ensures goal == DetourGoal(Cfg(), t, false)
    {
      if t.patrol {
        goal := PatrolSucc(patrolRoute, next);
      } else {
        goal := t.path[|t.path| - 1];
      }
    }

    /** Ends the task at `it` in the middle of the iteration. */
    method Finish(it: nat, outcome: Outcome)
      requires it < |tasks|
      modifies this
      ensures tasks == old(tasks)[..it] + old(tasks)[it + 1..]
      ensures robots == SetBusy(old(robots), old(tasks)[it].robot, false)
      ensures published == old(published) + [Note(old(tasks)[it].robot, old(tasks)[it].startSeq, outcome)]
      ensures robotMode == old(robotMode) && taskSeq == old(taskSeq)
    {
      var t := tasks[it];
      if t.robot in robots {
        robots := robots[t.robot := robots[t.robot].(busy := false)];
      }
      published := published + [Note(t.robot, t.startSeq, outcome)];
      tasks := tasks[..it] + tasks[it + 1..];
    }

    /** Stuck detection and arrival of one task. */
    method Advance(t0: Task, r: RobotInfo) returns (fate: Fate)
      requires 0 < t0.idx < |t0.path| && graph.InRange(t0.path)
      requires t0.patrol ==> |patrolRoute| >= 2 && graph.InRange(patrolRoute)
      ensures fate == Progress(Cfg(), r, t0)
    {
      var t := t0;
      var d := Away(graph, t.path[t.idx], r.x, r.y);
      if t.moving && graph.hypot(r.x - t.lastX, r.y - t.lastY) < STILL {
        t := t.(noMove := t.noMove + 1);
      } else {
        t := t.(noMove := 0);
      }
      t := t.(lastX := r.x, lastY := r.y);
      if t.noMove > STUCK_TICKS {
        return Ends(Failed, [t.path[t.idx], t.path[t.idx - 1]]);
      }
      if t.moving && d < ARRIVE {
        t := t.(idx := t.idx + 1, moving := false, reroutes := 0, waitTicks := 0);
        if t.idx >= |t.path| {
          if !t.patrol {
            return Ends(Completed, [t.path[|t.path| - 1]]);
          }
          var lap := MakePatrolPath(graph, patrolRoute, r.x, r.y, -1);
          t := t.(path := lap, idx := 1, moving := false);
        }
      }
      return Goes(t);
    }

    method ReleaseNodes(robot: Name, nodes: seq<int>)
      modifies traffic
      ensures traffic.State() == ReleasedAll(old(traffic.State()), robot, nodes)
    {
      for k := 0 to |nodes|
        invariant ReleasedAll(old(traffic.State()), robot, nodes) == ReleasedAll(traffic.State(), robot, nodes[k..])
      {
        assert nodes[k..][1..] == nodes[k + 1..];
        traffic.ReleaseNode(robot, nodes[k]);
      }
    }

    /** One pass of the loop over the tasks; the iterator stays when the task is erased. */
    method TaskTurn(it: nat) returns (next: nat, ghost plan: seq<int>)
      requires it < |tasks| && Cfg().Valid() && Inv(Cfg(), Sweep(it))
      modifies this, traffic
      ensures next <= |tasks| && Enabled(Cfg(), old(Sweep(it)), Poll(plan))
      ensures Sweep(next) == Apply(Cfg(), old(Sweep(it)), Poll(plan)) && Inv(Cfg(), Sweep(next))
      ensures |tasks| - next == |old(tasks)| - it - 1
    {
      hide Inv, Enabled, Apply, Progress, ReleasedAll, AskedLedger, Resolved, Searches, Graph.Shortest, Graph.Valid;
      ghost var s := Sweep(it);
      HeadPollable(Cfg(), s);
      plan := [];
      var fate := Advance(tasks[it], robots[tasks[it].robot]);
      match fate {
        case Ends(outcome, nodes) =>
          EndingTurn(Cfg(), s);
          ReleaseNodes(tasks[it].robot, nodes);
          Finish(it, outcome);
          next := it;
          assert tasks[it..] + tasks[..it] == s.queue[1..];
        case Goes(t) =>
          var u := t;
          if t.moving {
            DrivingTurn(Cfg(), s);
          } else {
            u, plan := Negotiate(t, s);
            AskingTurn(Cfg(), s, plan);
          }
          Replaced(tasks, it, u);
          tasks := tasks[it := u];
          next := it + 1;
      }
      StepKeeps(Cfg(), s, Poll(plan));
    }

    /** A tick: idle robots in patrol mode get a lap, then every task has its turn. */
    method OnTimer() returns (ghost starts: seq<Event>, ghost polls: seq<Event>)
      requires Valid()
      modifies this, traffic
      ensures Valid() && Tick(Cfg(), old(State()), starts, polls)
      ensures State() == Run(Cfg(), old(State()), starts + [Begin] + polls + [End])
    {
      ghost var s0 := State();
      hide Inv, Reachable, Enabled, Apply, Legal, Run;
      starts := StartPatrols();
      polls := [];
      BeginTick(Cfg(), s0, starts);
      ghost var es := starts + [Begin];
      var it: nat := 0;
      ghost var n := |tasks|;
      assert tasks[0..] + tasks[..0] == tasks;
      while it < |tasks|
        invariant it <= |tasks| && Inv(Cfg(), Sweep(it))
        invariant Legal(Cfg(), s0, es) && Run(Cfg(), s0, es) == Sweep(it)
        invariant es == starts + [Begin] + polls && |polls| + |tasks| - it == n
        invariant forall e | e in polls :: e.Poll?
        decreases |tasks| - it
      {
        ghost var plan;
        it, plan := TaskTurn(it);
        LegalAppend(Cfg(), s0, es, Poll(plan));
        es := es + [Poll(plan)];
        polls := polls + [Poll(plan)];
      }
      EndTick(Cfg(), s0, es);
      ReachableRun(Cfg(), s0, es + [End]);
      assert tasks[it..] + tasks[..it] == tasks;
    }

    method StartPatrols() returns (ghost es: seq<Event>)
      requires Sound()
      modifies this, traffic
      ensures Sound() && Legal(Cfg(), old(State()), es) && State() == Run(Cfg(), old(State()), es)
      ensures AllStarted(Cfg(), State(), es)
    {
      hide Inv, Enabled, Legal, Run, Graph.Valid, ClosedWalk, Before, StartsInOrder, AllStarted, NotStarting;
      es := [];
      ghost var s0 := State();
      EmptyRun(Cfg(), s0);
      NothingStarted();
      var names := InOrder(robots.Keys);
      if |patrolRoute| >= 2 {
        for k := 0 to |names|
          invariant Sound() && robots.Keys == old(robots.Keys)
          invariant Legal(Cfg(), s0, es) && State() == Run(Cfg(), s0, es)
          invariant StartsInOrder(es, names[..k])
          invariant forall n | 0 <= n < k :: NotStarting(Cfg(), State(), names[n])
        {
          StartLater(es, names, k);
          es := StartIfIdle(names[k], s0, es);
        }
        assert names[..|names|] == names;
      }
      AllAreStarted(Cfg(), State(), es, names);
    }

    /** What the first loop of a tick does for one robot. */
    method StartIfIdle(robot: Name, ghost s0: System, ghost es: seq<Event>) returns (ghost more: seq<Event>)
      requires Sound() && robot in robots && |patrolRoute| >= 2
      requires Inv(Cfg(), s0) && Legal(Cfg(), s0, es) && State() == Run(Cfg(), s0, es)
      modifies this, traffic
      ensures Sound() && robots.Keys == old(robots.Keys)
      ensures more == es || more == es + [Event.StartPatrol(robot)]
      ensures Legal(Cfg(), s0, more) && State() == Run(Cfg(), s0, more)
      ensures NotStarting(Cfg(), State(), robot)
      ensures forall r | NotStarting(Cfg(), old(State()), r) :: NotStarting(Cfg(), State(), r)
    {
      hide Inv, Enabled, Apply, Run, Lap, Launched, Graph.Valid, ClosedWalk, NotStarting;
      more := es;
      ghost var s := State();
      WhoStarts(Cfg(), s, robot);
      if robots[robot].busy || ModeOf(robotMode, robot) != Patrolling {
        return;
      }
      var has := OwnsTask(robot);
      if !has {
        PatrolStarts(Cfg(), s0, es, robot);
        more := es + [Event.StartPatrol(robot)];
        ghost var t := StartPatrol(robot);
        LaunchedAre(Cfg(), s, t);
      }
    }

    method StartPatrol(robot: Name) returns (ghost t: Task)
      requires robot in robots && |patrolRoute| >= 2 && Cfg().Valid()
      modifies this, traffic
      ensures t == NewTask(robot, Lap(graph, patrolRoute, old(robots[robot].x), old(robots[robot].y), -1), true,
                           old(taskSeq) + 1)
      ensures |t.path| > 0 && State() == Launched(old(State()), t) && robots.Keys == old(robots.Keys)
    {
      hide Launched, Lap;
      LapLength(Cfg(), robots[robot].x, robots[robot].y);
      var path := MakePatrolPath(graph, patrolRoute, robots[robot].x, robots[robot].y, -1);
      t := NewTask(robot, path, true, taskSeq + 1);
      Launch(NewTask(robot, path, true, taskSeq + 1));
    }

    method OwnsTask(robot: Name) returns (has: bool)
      ensures has == HasTask(tasks, robot)
    {
      for i := 0 to |tasks|
        invariant forall j | 0 <= j < i :: tasks[j].robot != robot
      {
        if tasks[i].robot == robot {
          return true;
        }
      }
      return false;
    }
  }

  lemma Founded(cfg: Config)
    requires cfg.graph.Valid() && cfg.graph.Size() > 0 && ClosedWalk(cfg.graph, cfg.route)
    ensures cfg.Valid() && Inv(cfg, INITIAL) && Reachable(cfg, INITIAL)
  {
    InitialInv(cfg);
    ReachableInitial(cfg);
  }

  lemma Replaced(tasks: seq<Task>, it: nat, u: Task)
    requires it < |tasks|
    ensures var now := tasks[it := u];
            now[it + 1..] + now[..it + 1] == (tasks[it..] + tasks[..it])[1..] + [u]
  {
    var now := tasks[it := u];
    assert now[it + 1..] == tasks[it + 1..] && now[..it + 1] == tasks[..it] + [u];
    assert (tasks[it..] + tasks[..it])[1..] == tasks[it + 1..] + tasks[..it];
    assert tasks[it + 1..] + (tasks[..it] + [u]) == (tasks[it + 1..] + tasks[..it]) + [u];
  }

  lemma ReportApplied(cfg: Config, s: System, e: Event)
    requires cfg.Valid() && Inv(cfg, s) && Reachable(cfg, s) && !s.sweeping && (e.Observe? || e.SetBattery?)
    ensures Enabled(cfg, s, e) && Inv(cfg, Apply(cfg, s, e)) && Reachable(cfg, Apply(cfg, s, e))
    ensures Apply(cfg, s, e) == if e.Observe? then Observed(cfg, s, e.name, e.x, e.y) else Charged(s, e.name, e.value)
  {
    hide Inv, Reachable, Config.Valid;
    StepKeeps(cfg, s, e);
    ReachableStep(cfg, s, e);
  }

  lemma ModeApplied(cfg: Config, s: System, r: Name, m: Mode)
    requires cfg.Valid() && Inv(cfg, s) && !s.sweeping
    ensures Enabled(cfg, s, SetMode(r, m)) && Apply(cfg, s, SetMode(r, m)) == ModeSet(cfg, s, r, m)
    ensures Inv(cfg, ModeSet(cfg, s, r, m))
  {
    ModeKeeps(cfg, s, r, m);
  }

  lemma SubmitApplied(cfg: Config, s: System, e: Event)
    requires cfg.Valid() && Inv(cfg, s) && !s.sweeping && e.Submit?
    requires SubmitFits(cfg, s, e.goal, e.armActions, e.forced, e.winner, e.plan)
    ensures Enabled(cfg, s, e) && Inv(cfg, Apply(cfg, s, e))
    ensures Apply(cfg, s, e) == Submitted(cfg, s, e.goal, e.armActions, e.forced, e.winner, e.plan)
  {
    StepKeeps(cfg, s, e);
  }

  lemma EndingTurn(cfg: Config, s: System)
    requires cfg.Valid() && Inv(cfg, s) && s.sweeping && 0 < s.left && Pollable(cfg, s, s.queue[0])
    requires HeadFate(cfg, s).Ends?
    ensures Enabled(cfg, s, Poll([]))
    ensures Apply(cfg, s, Poll([])) == Ending(s, HeadFate(cfg, s).outcome, HeadFate(cfg, s).nodes)
  {
    hide Progress;
  }

  lemma DrivingTurn(cfg: Config, s: System)
    requires cfg.Valid() && Inv(cfg, s) && s.sweeping && 0 < s.left && Pollable(cfg, s, s.queue[0])
    requires HeadFate(cfg, s).Goes? && HeadFate(cfg, s).task.moving
    ensures Enabled(cfg, s, Poll([]))
    ensures Apply(cfg, s, Poll([])) == s.(queue := s.queue[1..] + [HeadFate(cfg, s).task], left := s.left - 1)
  {
    hide Progress;
  }

  lemma AskingTurn(cfg: Config, s: System, plan: seq<int>)
    requires cfg.Valid() && Inv(cfg, s) && s.sweeping && 0 < s.left && Pollable(cfg, s, s.queue[0])
    requires HeadFate(cfg, s).Goes? && !HeadFate(cfg, s).task.moving
    requires var t := HeadFate(cfg, s).task;
             0 < t.idx < |t.path| && PlanAnswers(cfg, s, t, plan)
    ensures Enabled(cfg, s, Poll(plan)) && Apply(cfg, s, Poll(plan)) == Asking(cfg, s, HeadFate(cfg, s).task, plan)
  {
    hide Progress, Answered, StoppedAhead, Searches, Graph.Shortest;
  }

  lemma EmptyRun(cfg: Config, s: System)
    requires cfg.Valid()
    ensures Legal(cfg, s, []) && Run(cfg, s, []) == s
  {}

  lemma LapLength(cfg: Config, x: real, y: real)
    requires cfg.Valid() && |cfg.route| >= 2
    ensures cfg.graph.InRange(cfg.route) && |Lap(cfg.graph, cfg.route, x, y, -1)| == |cfg.route| + 1
  {}

  lemma PatrolStarts(cfg: Config, s0: System, es: seq<Event>, r: Name)
    requires cfg.Valid() && Inv(cfg, s0) && Legal(cfg, s0, es) && Inv(cfg, Run(cfg, s0, es)) && |cfg.route| >= 2
    requires var s := Run(cfg, s0, es);
             && !s.sweeping && r in s.robots && !s.robots[r].busy
             && ModeOf(s.modes, r) == Patrolling && !HasTask(s.queue, r)
    ensures var s, n := Run(cfg, s0, es), es + [Event.StartPatrol(r)];
            var lap := Lap(cfg.graph, cfg.route, s.robots[r].x, s.robots[r].y, -1);
            && Legal(cfg, s0, n) && Inv(cfg, Run(cfg, s0, n))
            && Run(cfg, s0, n) == Launched(s, NewTask(r, lap, true, s.created + 1))
  {
    hide Inv, Run, Legal;
    LegalAppend(cfg, s0, es, Event.StartPatrol(r));
    StepKeeps(cfg, Run(cfg, s0, es), Event.StartPatrol(r));
  }

  lemma BeginTick(cfg: Config, s: System, es: seq<Event>)
    requires cfg.Valid() && Inv(cfg, s) && Legal(cfg, s, es) && !Run(cfg, s, es).sweeping
    ensures Legal(cfg, s, es + [Begin])
    ensures var t := Run(cfg, s, es); Run(cfg, s, es + [Begin]) == t.(sweeping := true, left := |t.queue|)
    ensures Inv(cfg, Run(cfg, s, es + [Begin]))
  {
    LegalAppend(cfg, s, es, Begin);
    RunKeeps(cfg, s, es + [Begin]);
  }

  lemma EndTick(cfg: Config, s: System, es: seq<Event>)
    requires cfg.Valid() && Inv(cfg, s) && Legal(cfg, s, es) && Run(cfg, s, es).sweeping && Run(cfg, s, es).left == 0
    ensures Legal(cfg, s, es + [End])
    ensures Run(cfg, s, es + [End]) == Run(cfg, s, es).(sweeping := false)
    ensures Inv(cfg, Run(cfg, s, es + [End]))
  {
    LegalAppend(cfg, s, es, End);
    RunKeeps(cfg, s, es + [End]);
  }

  lemma OwnersKeptWithoutGrant(s: System, t: Task)
    requires 0 < t.idx < |t.path|
    ensures Answered(s, t) != Grant ==>
              Requested(s.ledger, t.robot, t.Here(), t.Target(), PriorityOf(s, t)).owner == s.ledger.owner
  {
    hide Victim, PriorityOf;
  }

  lemma InRangeOfPlan(g: Graph, from: int, to: int, path: seq<int>)
    requires g.Valid() && g.Shortest(from, to, -1, path)
    ensures g.InRange(path)
  {}

  lemma NamesMatch(cfg: Config, s: System)
    requires cfg.Valid() && Inv(cfg, s)
    ensures forall r | r in s.robots :: s.robots[r].name == r
  {
    forall r | r in s.robots ensures s.robots[r].name == r {
      assert Booked(s, r);
    }
  }

  lemma WinnerKnown(cfg: Config, s: System, snap: seq<RobotInfo>, goal: int, armActions: int, winner: string)
    requires cfg.Valid() && Snapshot(s, snap) && Winner(cfg.graph, cfg.energy, goal, armActions, snap, winner)
    ensures winner != "" ==> winner in s.robots
  {}
}
